/** What a run did, as its traces tell it: the probe, the re-runs, the journal, the files it left. */
module RunFacts {
  import opened Decisions
  import opened Digests
  import opened EvidenceStore
  import opened Ir
  import opened Prelude
  import opened Reuse
  import opened Verifier
  import opened VerifyRun
  import opened Watch

  // ---------------------------------------------------------------- the probe

  lemma LastIn<T>(s: seq<T>, x: T)
    requires s != []
    ensures x in s <==> x in s[..|s| - 1] || x == s[|s| - 1]
  {
    assert s == s[..|s| - 1] + [s[|s| - 1]];
  }

  ghost predicate HitFor(reg: Registry, w: World, store: Store, v: VerificationIr, ev: Evidence) {
    Gate(reg, w.bindings, v).Ok?
    && Lookup(store, v.claimId, ContextOf(w, Gate(reg, w.bindings, v).value), w.now) == Hit(ev)
  }

  ghost predicate StaleFor(reg: Registry, w: World, store: Store, v: VerificationIr, reasons: seq<StaleReason>) {
    Gate(reg, w.bindings, v).Ok?
    && Lookup(store, v.claimId, ContextOf(w, Gate(reg, w.bindings, v).value), w.now) == StaleProof(reasons)
  }

  ghost predicate NeededFor(reg: Registry, w: World, store: Store, v: VerificationIr, n: Need) {
    Gate(reg, w.bindings, v) == Ok(n) && !Lookup(store, v.claimId, ContextOf(w, n), w.now).Hit?
  }

  /** The proofs that hit, shown under the current executor. */
  ghost predicate KeepsHits(reg: Registry, w: World, store: Store, vs: seq<VerificationIr>, stored: seq<Evidence>) {
    forall e :: e in stored <==>
      exists v, ev :: v in vs && HitFor(reg, w, store, v, ev) && e == ev.(executor := w.executor)
  }

  /** The verifications that did not. */
  ghost predicate KeepsNeeds(reg: Registry, w: World, store: Store, vs: seq<VerificationIr>, needs: seq<Need>) {
    forall n :: n in needs <==> exists v :: v in vs && NeededFor(reg, w, store, v, n)
  }

  ghost predicate Drifted(reg: Registry, w: World, store: Store, v: VerificationIr) {
    exists reasons :: StaleFor(reg, w, store, v, reasons)
  }

  /** The claims whose proof drifted, and why. */
  ghost predicate KeepsStale(reg: Registry, w: World, store: Store, vs: seq<VerificationIr>, ids: seq<string>) {
    forall id :: id in ids <==> exists v :: v in vs && v.claimId == id && Drifted(reg, w, store, v)
  }

  ghost predicate KeepsReasons(reg: Registry, w: World, store: Store, vs: seq<VerificationIr>,
                               ids: seq<string>, reasons: Drift) {
    && (forall id :: id in reasons <==> id in ids)
    && (forall id :: id in reasons ==>
          exists v :: v in vs && v.claimId == id && StaleFor(reg, w, store, v, reasons[id]))
  }

  lemma GateNames(reg: Registry, w: World, v: VerificationIr)
    ensures Gate(reg, w.bindings, v).Ok? ==> Gate(reg, w.bindings, v).value.v == v
  {
  }

  lemma HitsGrow(reg: Registry, w: World, store: Store, vs: seq<VerificationIr>, p: Probe)
    requires vs != [] && KeepsHits(reg, w, store, vs[..|vs| - 1], p.stored)
    requires Gate(reg, w.bindings, vs[|vs| - 1]).Ok?
    ensures KeepsHits(reg, w, store, vs,
                      ProbeOne(w, store, p, Gate(reg, w.bindings, vs[|vs| - 1]).value).stored)
  {
    var init, v := vs[..|vs| - 1], vs[|vs| - 1];
    var n := Gate(reg, w.bindings, v).value;
    var stored := ProbeOne(w, store, p, n).stored;
    GateNames(reg, w, v);
    hide Lookup, ContextOf, Gate;
    forall x ensures x in vs <==> x in init || x == v { LastIn(vs, x); }
    var found := Lookup(store, v.claimId, ContextOf(w, n), w.now);
    forall ev ensures HitFor(reg, w, store, v, ev) <==> found == Hit(ev) {}
    if found.Hit? { assert HitFor(reg, w, store, v, found.evidence); }
    hide HitFor;
  }

  lemma NeedsGrow(reg: Registry, w: World, store: Store, vs: seq<VerificationIr>, p: Probe)
    requires vs != [] && KeepsNeeds(reg, w, store, vs[..|vs| - 1], p.needs)
    requires Gate(reg, w.bindings, vs[|vs| - 1]).Ok?
    ensures KeepsNeeds(reg, w, store, vs,
                       ProbeOne(w, store, p, Gate(reg, w.bindings, vs[|vs| - 1]).value).needs)
  {
    var init, v := vs[..|vs| - 1], vs[|vs| - 1];
    var n := Gate(reg, w.bindings, v).value;
    var needs := ProbeOne(w, store, p, n).needs;
    GateNames(reg, w, v);
    hide Lookup, ContextOf, Gate;
    forall x ensures x in vs <==> x in init || x == v { LastIn(vs, x); }
    forall m ensures m in needs <==> m in p.needs || NeededFor(reg, w, store, v, m) {}
  }

  lemma StaleGrow(reg: Registry, w: World, store: Store, vs: seq<VerificationIr>, p: Probe)
    requires vs != [] && Gate(reg, w.bindings, vs[|vs| - 1]).Ok?
    requires KeepsStale(reg, w, store, vs[..|vs| - 1], p.staleIds)
    requires KeepsReasons(reg, w, store, vs[..|vs| - 1], p.staleIds, p.staleReasons)
    ensures var q := ProbeOne(w, store, p, Gate(reg, w.bindings, vs[|vs| - 1]).value);
            KeepsStale(reg, w, store, vs, q.staleIds) && KeepsReasons(reg, w, store, vs, q.staleIds, q.staleReasons)
  {
    var init, v := vs[..|vs| - 1], vs[|vs| - 1];
    var n := Gate(reg, w.bindings, v).value;
    var found := Lookup(store, v.claimId, ContextOf(w, n), w.now);
    GateNames(reg, w, v);
    hide Lookup, ContextOf, Gate;
    forall x ensures x in vs <==> x in init || x == v { LastIn(vs, x); }
    if found.StaleProof? { assert StaleFor(reg, w, store, v, found.reasons); }
    hide StaleFor, Drifted;
    StaleOne(reg, w, store, vs, p, found);
  }

  lemma StaleOne(reg: Registry, w: World, store: Store, vs: seq<VerificationIr>, p: Probe, found: CacheOutcome)
    requires vs != [] && forall x :: x in vs <==> x in vs[..|vs| - 1] || x == vs[|vs| - 1]
    requires KeepsStale(reg, w, store, vs[..|vs| - 1], p.staleIds)
    requires KeepsReasons(reg, w, store, vs[..|vs| - 1], p.staleIds, p.staleReasons)
    requires Drifted(reg, w, store, vs[|vs| - 1]) <==> found.StaleProof?
    requires found.StaleProof? ==> StaleFor(reg, w, store, vs[|vs| - 1], found.reasons)
    ensures var id := vs[|vs| - 1].claimId;
            var ids := if found.StaleProof? then p.staleIds + [id] else p.staleIds;
            var reasons := if found.StaleProof? then p.staleReasons[id := found.reasons] else p.staleReasons;
            KeepsStale(reg, w, store, vs, ids) && KeepsReasons(reg, w, store, vs, ids, reasons)
  {
    hide StaleFor, Drifted;
  }

  /** Every verification either hits or is needed; what is kept of each is exactly that. */
  lemma {:induction false} ProbeExact(reg: Registry, w: World, store: Store, vs: seq<VerificationIr>)
    requires ProbeAll(reg, w, store, vs).Ok?
    ensures var p := ProbeAll(reg, w, store, vs).value;
      && |p.stored| + |p.needs| == |vs|
      && KeepsHits(reg, w, store, vs, p.stored) && KeepsNeeds(reg, w, store, vs, p.needs)
      && KeepsStale(reg, w, store, vs, p.staleIds) && KeepsReasons(reg, w, store, vs, p.staleIds, p.staleReasons)
  {
    if vs != [] {
      hide KeepsHits, KeepsNeeds, KeepsStale, KeepsReasons;
      var p := ProbeAll(reg, w, store, vs[..|vs| - 1]).value;
      ProbeExact(reg, w, store, vs[..|vs| - 1]);
      HitsGrow(reg, w, store, vs, p);
      NeedsGrow(reg, w, store, vs, p);
      StaleGrow(reg, w, store, vs, p);
    }
  }

  /** What a run reports of a drifted subject are the paths whose files differ between the workspace
      in which the proof was made and the one now, by the same spec. */
  lemma DriftNamedInRun(tool: Tool, w0: World, ws: Workspace, n0: Need, ev: Evidence, w: World, n: Need, r: StaleReason)
    requires Made(tool, w0, ws, n0, ev) && n.spec.Some? && ev.fingerprint == ContextOf(w, n).fingerprint
    requires r in Reasons(ev, ContextOf(w, n), w.now) && r.SubjectChanged?
    ensures var spec := SpecOf(tool.registryOf(w0.registryText), n0).value;
            var was := FileHashes(spec.files, Observe(tool.shell, spec, ws, w0.platform, w0.now).value.after.root);
            var cur := FileHashes(n.spec.value.files, w.ws.root);
      && spec.files == n.spec.value.files
      && (forall p :: p in r.changed <==> p in was && p in cur && was[p] != cur[p])
      && (forall p :: p in r.added <==> p !in was && p in cur)
      && (forall p :: p in r.removed <==> p in was && p !in cur)
  {
    ReasonsExact(ev, ContextOf(w, n), w.now);
    NamedDriftExact(ev.artifactFiles, ContextOf(w, n).artifactFiles);
    hide Reasons, FileHashes, SubjectHash, Observe, Gate;
  }

  /** A probe that stops gives the error of the first verification the gate refuses. */
  lemma {:induction false} ProbeFails(reg: Registry, w: World, store: Store, vs: seq<VerificationIr>) returns (i: nat)
    requires ProbeAll(reg, w, store, vs).Err?
    ensures i < |vs| && Gate(reg, w.bindings, vs[i]) == Err(ProbeAll(reg, w, store, vs).error)
    ensures forall j :: 0 <= j < i ==> Gate(reg, w.bindings, vs[j]).Ok?
  {
    hide Gate, ProbeOne;
    var init := vs[..|vs| - 1];
    if ProbeAll(reg, w, store, init).Err? {
      i := ProbeFails(reg, w, store, init);
    } else {
      i := |vs| - 1;
      GatesOpen(reg, w, store, init);
    }
  }

  lemma {:induction false} GatesOpen(reg: Registry, w: World, store: Store, vs: seq<VerificationIr>)
    requires ProbeAll(reg, w, store, vs).Ok?
    ensures forall j :: 0 <= j < |vs| ==> Gate(reg, w.bindings, vs[j]).Ok?
  {
    hide Gate, ProbeOne;
    if vs != [] { GatesOpen(reg, w, store, vs[..|vs| - 1]); }
  }

  // ---------------------------------------------------------------- the re-runs

  /** The verifiers one after another: each sees the workspace the one before it left. */
  ghost predicate Chained(shell: Shell, reg: Registry, w: World, needs: seq<Need>,
                          made: seq<Evidence>, seen: seq<Workspace>) {
    && |made| == |needs| && |seen| == |needs| + 1 && seen[0] == w.ws
    && forall i :: 0 <= i < |needs| ==> RunOne(shell, reg, w, seen[i], needs[i]) == Ok((made[i], seen[i + 1]))
  }

  lemma {:induction false} ChainOf(shell: Shell, reg: Registry, w: World, needs: seq<Need>)
    returns (seen: seq<Workspace>)
    requires RunAll(shell, reg, w, needs).Ok?
    ensures Chained(shell, reg, w, needs, RunAll(shell, reg, w, needs).value.0, seen)
    ensures seen[|needs|] == RunAll(shell, reg, w, needs).value.1
  {
    hide RunOne;
    if needs == [] {
      seen := [w.ws];
    } else {
      var before := ChainOf(shell, reg, w, needs[..|needs| - 1]);
      seen := before + [RunAll(shell, reg, w, needs).value.1];
    }
  }

  lemma {:induction false} ChainRuns(shell: Shell, reg: Registry, w: World, needs: seq<Need>,
                                     made: seq<Evidence>, seen: seq<Workspace>)
    requires Chained(shell, reg, w, needs, made, seen)
    ensures RunAll(shell, reg, w, needs) == Ok((made, seen[|needs|]))
  {
    hide RunOne;
    if needs != [] {
      var n := |needs| - 1;
      ChainRuns(shell, reg, w, needs[..n], made[..n], seen[..n + 1]);
      assert made == made[..n] + [made[n]];
    }
  }

  /** The re-runs end with these proofs and this workspace exactly when such a chain leads there. */
  lemma RunAllExact(shell: Shell, reg: Registry, w: World, needs: seq<Need>, made: seq<Evidence>, end: Workspace)
    ensures RunAll(shell, reg, w, needs) == Ok((made, end)) <==>
              exists seen :: Chained(shell, reg, w, needs, made, seen) && seen[|needs|] == end
  {
    if RunAll(shell, reg, w, needs) == Ok((made, end)) {
      var seen := ChainOf(shell, reg, w, needs);
    }
    if seen :| Chained(shell, reg, w, needs, made, seen) && seen[|needs|] == end {
      ChainRuns(shell, reg, w, needs, made, seen);
    }
  }

  /** Re-runs that stop give the error of the first verifier that fails, in the workspace it met. */
  lemma {:induction false} RunAllFails(shell: Shell, reg: Registry, w: World, needs: seq<Need>) returns (i: nat)
    requires RunAll(shell, reg, w, needs).Err?
    ensures i < |needs| && RunAll(shell, reg, w, needs[..i]).Ok?
    ensures RunOne(shell, reg, w, RunAll(shell, reg, w, needs[..i]).value.1, needs[i])
              == Err(RunAll(shell, reg, w, needs).error)
  {
    hide RunOne;
    var init := needs[..|needs| - 1];
    if RunAll(shell, reg, w, init).Err? {
      i := RunAllFails(shell, reg, w, init);
      assert needs[..i] == init[..i];
    } else {
      i := |needs| - 1;
    }
  }

  // ---------------------------------------------------------------- the journal

  ghost predicate KeepsEvents(reg: Registry, w: World, store: Store, vs: seq<VerificationIr>, journal: seq<Event>) {
    forall e :: e in journal <==> exists v :: v in vs && Tells(reg, w, store, v, e)
  }

  /** What the probe says of a verification. */
  ghost predicate Tells(reg: Registry, w: World, store: Store, v: VerificationIr, e: Event) {
    || (e == EvidenceReused(v.claimId) && exists ev :: HitFor(reg, w, store, v, ev))
    || (e.EvidenceStale? && e.claim == v.claimId && StaleFor(reg, w, store, v, e.reasons))
  }

  lemma EventsGrow(reg: Registry, w: World, store: Store, vs: seq<VerificationIr>, p: Probe)
    requires vs != [] && Gate(reg, w.bindings, vs[|vs| - 1]).Ok?
    requires KeepsEvents(reg, w, store, vs[..|vs| - 1], p.journal)
    ensures KeepsEvents(reg, w, store, vs,
                        ProbeOne(w, store, p, Gate(reg, w.bindings, vs[|vs| - 1]).value).journal)
  {
    var init, v := vs[..|vs| - 1], vs[|vs| - 1];
    var n := Gate(reg, w.bindings, v).value;
    var journal := ProbeOne(w, store, p, n).journal;
    GateNames(reg, w, v);
    forall x ensures x in vs <==> x in init || x == v { LastIn(vs, x); }
    forall e ensures e in journal <==> e in p.journal || Tells(reg, w, store, v, e) {
      TellsOne(reg, w, store, v, p, e);
    }
    hide Tells, ProbeOne;
  }

  lemma TellsOne(reg: Registry, w: World, store: Store, v: VerificationIr, p: Probe, e: Event)
    requires Gate(reg, w.bindings, v).Ok?
    ensures e in ProbeOne(w, store, p, Gate(reg, w.bindings, v).value).journal <==>
              e in p.journal || Tells(reg, w, store, v, e)
  {
    var n := Gate(reg, w.bindings, v).value;
    GateNames(reg, w, v);
    hide Lookup, ContextOf, Gate;
    var found := Lookup(store, v.claimId, ContextOf(w, n), w.now);
    if found.Hit? { assert HitFor(reg, w, store, v, found.evidence); }
  }

  lemma {:induction false} ProbeTells(reg: Registry, w: World, store: Store, vs: seq<VerificationIr>)
    requires ProbeAll(reg, w, store, vs).Ok?
    ensures KeepsEvents(reg, w, store, vs, ProbeAll(reg, w, store, vs).value.journal)
  {
    if vs != [] {
      hide KeepsEvents;
      ProbeTells(reg, w, store, vs[..|vs| - 1]);
      EventsGrow(reg, w, store, vs, ProbeAll(reg, w, store, vs[..|vs| - 1]).value);
    } else {
      hide Tells;
    }
  }

  lemma {:induction false} RanExact(needs: seq<Need>, e: Event)
    ensures e in Ran(needs) <==> e.EvidenceRun? && exists n :: n in needs && n.v.claimId == e.claim
  {
    if needs != [] {
      RanExact(needs[..|needs| - 1], e);
      forall n ensures n in needs <==> n in needs[..|needs| - 1] || n == needs[|needs| - 1] { LastIn(needs, n); }
    }
  }

  /** The journal lines of a run that reached its decision, by what they tell. */
  ghost predicate TellsRun(reg: Registry, w: World, c: Contract, d: Disk, r: DecisionResult, report: seq<Event>) {
    && |report| >= 2 && report[0] == IntentVerified(c.intent) && report[|report| - 1] == DecisionIssued(r.decision)
    && (RegistryChanged in report <==> d.registryHash != Empty && d.registryHash != OfText(w.registryText))
    && (forall e :: e in report && (e.EvidenceReused? || e.EvidenceStale?) <==>
          exists v :: v in c.verification && Tells(reg, w, d.evidence, v, e))
    && (forall claim :: EvidenceRun(claim) in report <==>
          exists v, n :: v in c.verification && v.claimId == claim && NeededFor(reg, w, d.evidence, v, n))
    && (forall e :: e in report[1..|report| - 1] ==> !e.IntentVerified? && !e.DecisionIssued?)
  }

  /** What a run appends: it opens with the intent and closes with the decision, says that the
      registry changed exactly when it did, that a proof was reused or stale exactly for those, and
      that a verifier ran exactly for the claims that needed it. */
  lemma JournalTells(tool: Tool, w: World, d: Disk) returns (report: seq<Event>)
    requires Verify(tool, w, d).0.Decided?
    ensures Verify(tool, w, d).1.journal == d.journal + report
    ensures TellsRun(tool.registryOf(w.registryText), w, tool.contractOf(w.contractText).value, d,
                     Verify(tool, w, d).0.result, report)
  {
    hide RunAll, Final, Merged, Saved, DriftAfter;
    var reg, c := tool.registryOf(w.registryText), tool.contractOf(w.contractText).value;
    var p, r := ProbeAll(reg, w, d.evidence, c.verification).value, Verify(tool, w, d).0.result;
    report := Report(w, c, d, p, r);
    ProbeTells(reg, w, d.evidence, c.verification);
    ProbeExact(reg, w, d.evidence, c.verification);
    ReportTells(reg, w, c, d, p, r);
  }

  lemma ReportTells(reg: Registry, w: World, c: Contract, d: Disk, p: Probe, r: DecisionResult)
    requires KeepsEvents(reg, w, d.evidence, c.verification, p.journal)
    requires KeepsNeeds(reg, w, d.evidence, c.verification, p.needs)
    ensures TellsRun(reg, w, c, d, r, Report(w, c, d, p, r))
  {
    hide Tells, NeededFor, KeepsNeeds, Report;
    var report := Report(w, c, d, p, r);
    ReportParts(w, c, d, p, r);
    assert forall e :: e in p.journal ==> e.EvidenceReused? || e.EvidenceStale? by {
      OnlyReuse(reg, w, d.evidence, c.verification, p.journal);
    }
    forall claim ensures EvidenceRun(claim) in report <==>
        exists v, n :: v in c.verification && v.claimId == claim && NeededFor(reg, w, d.evidence, v, n)
    {
      RanExact(p.needs, EvidenceRun(claim));
      NeededClaims(reg, w, d.evidence, c.verification, p.needs, claim);
    }
    forall e | e in Ran(p.needs) ensures e.EvidenceRun? { RanExact(p.needs, e); }
    hide KeepsEvents;
    assert forall e :: e in report && (e.EvidenceReused? || e.EvidenceStale?) <==> e in p.journal;
    OfJournal(reg, w, d.evidence, c.verification, p.journal);
    forall e | e in report[1..|report| - 1] ensures !e.IntentVerified? && !e.DecisionIssued? {
      if e in p.journal { assert e.EvidenceReused? || e.EvidenceStale?; }
    }
  }

  lemma OfJournal(reg: Registry, w: World, store: Store, vs: seq<VerificationIr>, journal: seq<Event>)
    requires KeepsEvents(reg, w, store, vs, journal)
    ensures forall e :: e in journal <==> exists v :: v in vs && Tells(reg, w, store, v, e)
  {
  }

  lemma OnlyReuse(reg: Registry, w: World, store: Store, vs: seq<VerificationIr>, journal: seq<Event>)
    requires KeepsEvents(reg, w, store, vs, journal)
    ensures forall e :: e in journal ==> e.EvidenceReused? || e.EvidenceStale?
  {
    hide HitFor, StaleFor;
  }

  /** The report, line by line: its first, its last, and what stands between. */
  lemma ReportParts(w: World, c: Contract, d: Disk, p: Probe, r: DecisionResult)
    ensures var report := Report(w, c, d, p, r);
      && |report| >= 2 && report[0] == IntentVerified(c.intent) && report[|report| - 1] == DecisionIssued(r.decision)
      && (forall e :: e in report <==>
            e == report[0] || e == report[|report| - 1] || e in report[1..|report| - 1])
      && (forall e :: e in report[1..|report| - 1] <==>
            || (e == RegistryChanged && d.registryHash != Empty && d.registryHash != OfText(w.registryText))
            || e in p.journal || e in Ran(p.needs))
  {
    hide Ran;
    var report, opening := Report(w, c, d, p, r), Opening(w, c, d);
    var inner := opening[1..] + p.journal + Ran(p.needs);
    assert report == [opening[0]] + inner + [DecisionIssued(r.decision)];
    assert report[1..|report| - 1] == inner;
    Between(report[0], inner, report[|report| - 1]);
  }

  lemma Between(first: Event, inner: seq<Event>, last: Event)
    ensures forall e :: e in [first] + inner + [last] <==> e == first || e == last || e in inner
  {
  }

  lemma NeededClaims(reg: Registry, w: World, store: Store, vs: seq<VerificationIr>, needs: seq<Need>, claim: string)
    requires KeepsNeeds(reg, w, store, vs, needs)
    ensures (exists n :: n in needs && n.v.claimId == claim) <==>
            exists v, n :: v in vs && v.claimId == claim && NeededFor(reg, w, store, v, n)
  {
    hide Gate, Lookup, ContextOf;
    forall v, n | NeededFor(reg, w, store, v, n) ensures n.v == v { GateNames(reg, w, v); }
  }

  // ---------------------------------------------------------------- what the last run left

  ghost predicate DecidedAt(tool: Tool, history: seq<World>, i: nat) {
    i < |history| && Verify(tool, history[i], After(tool, history[..i])).0.Decided?
  }

  /** Run `i` was the last to reach its decision, and what `.uni` holds of registry and decision is
      what it left. */
  ghost predicate LeftBy(tool: Tool, history: seq<World>, i: nat) {
    var d := After(tool, history);
    && DecidedAt(tool, history, i) && (forall j :: i < j < |history| ==> !DecidedAt(tool, history, j))
    && d.registryHash == OfText(history[i].registryText) && d.registrySnapshot == history[i].registryText
    && d.last == Some(Verify(tool, history[i], After(tool, history[..i])).0.result)
  }

  ghost predicate NeverDecided(tool: Tool, history: seq<World>) {
    var d := After(tool, history);
    (forall j :: 0 <= j < |history| ==> !DecidedAt(tool, history, j))
    && d.registryHash == Empty && d.registrySnapshot == "" && d.last == None
  }

  lemma VerifyLeaves(tool: Tool, w: World, d: Disk)
    ensures var (outcome, left) := Verify(tool, w, d);
      && (outcome.Aborted? ==> left == d)
      && (outcome.Decided? ==>
            && left.registryHash == OfText(w.registryText) && left.registrySnapshot == w.registryText
            && left.last == Some(outcome.result))
  {
    hide ProbeAll, RunAll, Final, Saved, DriftAfter, Report;
  }

  /** Over any history: the baseline and the last decision are those of the last run that decided. */
  lemma {:induction false} LastRunLeaves(tool: Tool, history: seq<World>) returns (i: Option<nat>)
    ensures match i
            case None => NeverDecided(tool, history)
            case Some(k) => LeftBy(tool, history, k)
    decreases |history|
  {
    hide Verify;
    if history == [] {
      i := None;
    } else {
      var init, last := history[..|history| - 1], |history| - 1;
      i := LastRunLeaves(tool, init);
      VerifyLeaves(tool, history[last], After(tool, init));
      forall j | 0 <= j < last ensures DecidedAt(tool, history, j) <==> DecidedAt(tool, init, j) {
        assert history[..j] == init[..j];
      }
      if DecidedAt(tool, history, last) {
        i := Some(last);
      } else if i.Some? {
        assert history[..i.value] == init[..i.value];
      }
    }
  }

  /** The last run that decided saw another registry. */
  ghost predicate LastSawOther(tool: Tool, history: seq<World>, text: string) {
    exists i: nat :: i < |history| && LeftBy(tool, history, i) && history[i].registryText != text
  }

  lemma BaselineTells(tool: Tool, history: seq<World>, text: string)
    ensures var was := After(tool, history).registryHash;
            was != Empty && was != OfText(text) <==> LastSawOther(tool, history, text)
  {
    hide Verify, After;
    var k := LastRunLeaves(tool, history);
    if i: nat :| i < |history| && LeftBy(tool, history, i) && history[i].registryText != text {
      assert DecidedAt(tool, history, i);
    }
  }

  /** A run reports a registry change exactly when the last run that decided saw another registry. */
  lemma RegistryChangeTold(tool: Tool, history: seq<World>, w: World) returns (report: seq<Event>)
    requires Verify(tool, w, After(tool, history)).0.Decided?
    ensures Verify(tool, w, After(tool, history)).1.journal == After(tool, history).journal + report
    ensures RegistryChanged in report <==> LastSawOther(tool, history, w.registryText)
  {
    hide Verify, After, LastSawOther, Tells, NeededFor;
    report := JournalTells(tool, w, After(tool, history));
    BaselineTells(tool, history, w.registryText);
  }

  lemma {:induction false} ValidClaimsExact(shown: seq<ClaimResult>, id: string)
    ensures id in ValidClaims(shown) <==> exists c :: c in shown && c.claimId == id && c.state == Valid
  {
    if shown != [] {
      ValidClaimsExact(shown[..|shown| - 1], id);
      forall c ensures c in shown <==> c in shown[..|shown| - 1] || c == shown[|shown| - 1] { LastIn(shown, c); }
    }
  }
}
