/** `stale.json` read as a fact about the past. */
module DriftRecord {
  import opened Reuse
  import opened VerifyRun

  /** What one run that reached the save contributes: the claims it found stale, with their
      reasons, and the claims it decided Valid. */
  datatype Run = Run(stale: Drift, valid: set<string>)

  function DriftOf(runs: seq<Run>): Drift {
    if runs == [] then map[]
    else DriftAfter(DriftOf(runs[..|runs| - 1]), runs[|runs| - 1].stale, runs[|runs| - 1].valid)
  }

  /** Run `i` found the claim stale, and no run from that one on decided it Valid. */
  ghost predicate OpenSince(runs: seq<Run>, claim: string, i: nat) {
    && i < |runs| && claim in runs[i].stale
    && forall j :: i <= j < |runs| ==> claim !in runs[j].valid
  }

  /** Run `i` is the latest that found the claim stale. */
  ghost predicate LatestStale(runs: seq<Run>, claim: string, i: nat) {
    && i < |runs| && claim in runs[i].stale
    && forall j :: i < j < |runs| ==> claim !in runs[j].stale
  }

  /** A claim is on record exactly when some run found it stale and none since, that run
      included, proved it; and the reasons kept are those of its latest stale run. */
  lemma {:induction false} DriftIsTemporal(runs: seq<Run>, claim: string)
    ensures claim in DriftOf(runs) <==> exists i: nat :: OpenSince(runs, claim, i)
    ensures claim in DriftOf(runs) ==>
              exists i: nat :: LatestStale(runs, claim, i) && DriftOf(runs)[claim] == runs[i].stale[claim]
    decreases |runs|
  {
    if runs != [] {
      var init, last := runs[..|runs| - 1], runs[|runs| - 1];
      DriftIsTemporal(init, claim);
      if claim in last.stale {
        assert claim !in last.valid ==> OpenSince(runs, claim, |init|);
        assert LatestStale(runs, claim, |init|);
      } else {
        if i: nat :| OpenSince(init, claim, i) {
          assert claim !in last.valid ==> OpenSince(runs, claim, i);
        }
        if i: nat :| OpenSince(runs, claim, i) {
          assert OpenSince(init, claim, i);
        }
        if claim in DriftOf(init) {
          var i: nat :| LatestStale(init, claim, i) && DriftOf(init)[claim] == init[i].stale[claim];
          assert LatestStale(runs, claim, i);
        }
      }
    }
  }

  /** What one run contributes, if it reaches the save. */
  function Saves(tool: Tool, w: World, d: Disk): seq<Run> {
    match Verify(tool, w, d).0
    case Aborted(_) => []
    case Decided(r) =>
      var reg := tool.registryOf(w.registryText);
      [Run(ProbeAll(reg, w, d.evidence, tool.contractOf(w.contractText).value.verification).value.staleReasons,
           ValidClaims(r.claims))]
  }

  /** The runs of a history that reached the save. */
  function SavedRuns(tool: Tool, history: seq<World>): seq<Run> {
    if history == [] then [] else
      var before := history[..|history| - 1];
      SavedRuns(tool, before) + Saves(tool, history[|history| - 1], After(tool, before))
  }

  lemma DriftStep(tool: Tool, w: World, d: Disk)
    ensures Verify(tool, w, d).1.drift ==
            if Saves(tool, w, d) == [] then d.drift
            else DriftAfter(d.drift, Saves(tool, w, d)[0].stale, Saves(tool, w, d)[0].valid)
    ensures |Saves(tool, w, d)| <= 1
  {
    hide ProbeAll, RunAll, Saved, Report, ValidClaims, DriftAfter;
  }

  lemma DriftGrows(runs: seq<Run>, more: seq<Run>)
    requires |more| <= 1
    ensures DriftOf(runs + more) ==
            if more == [] then DriftOf(runs) else DriftAfter(DriftOf(runs), more[0].stale, more[0].valid)
  {
    if more == [] {
      assert runs + more == runs;
    } else {
      assert (runs + more)[..|runs|] == runs && (runs + more)[|runs|] == more[0];
    }
  }

  /** The file on disk after any history is that record of its saved runs. */
  lemma {:induction false} DiskDrift(tool: Tool, history: seq<World>)
    ensures After(tool, history).drift == DriftOf(SavedRuns(tool, history))
    decreases |history|
  {
    if history != [] {
      hide Verify, Saves, DriftOf, DriftAfter;
      var before, w := history[..|history| - 1], history[|history| - 1];
      DiskDrift(tool, before);
      DriftStep(tool, w, After(tool, before));
      DriftGrows(SavedRuns(tool, before), Saves(tool, w, After(tool, before)));
    } else {
      assert DriftOf([]) == map[];
    }
  }

  /** Whole histories: what `stale.json` says of a claim. */
  lemma HistoryDrift(tool: Tool, history: seq<World>, claim: string)
    ensures claim in After(tool, history).drift <==>
              exists i: nat :: OpenSince(SavedRuns(tool, history), claim, i)
    ensures claim in After(tool, history).drift ==>
              exists i: nat :: LatestStale(SavedRuns(tool, history), claim, i)
                && After(tool, history).drift[claim] == SavedRuns(tool, history)[i].stale[claim]
  {
    DiskDrift(tool, history);
    DriftIsTemporal(SavedRuns(tool, history), claim);
  }
}
