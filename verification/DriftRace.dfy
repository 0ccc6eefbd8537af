/** `stale.json` under concurrency: each process reads it, edits what it read and writes it back,
    before it takes the lock. */
module DriftRace {
  import opened DriftRecord
  import opened Prelude
  import opened VerifyRun

  /** Where a process is with the file; an edit remembers how many writes it had seen. */
  datatype Pc = Ready | Editing(seen: Drift, version: nat) | Written

  /** A write: by whom, over which version. */
  datatype Write = Write(p: nat, version: nat)

  /** `writes` records them in order. */
  datatype Race = Race(file: Drift, pcs: seq<Pc>, writes: seq<Write>)

  datatype Move = Load(p: nat) | Save(p: nat)

  function Begin(n: nat): Race {
    Race(map[], seq(n, _ => Ready), [])
  }

  function Step(runs: seq<Run>, r: Race, m: Move): (next: Option<Race>)
    requires |r.pcs| == |runs|
    ensures next.Some? ==> |next.value.pcs| == |runs|
  {
    if m.p >= |runs| then None else
    match (m, r.pcs[m.p])
    case (Load(p), Ready) => Some(r.(pcs := r.pcs[p := Editing(r.file, |r.writes|)]))
    case (Save(p), Editing(seen, version)) =>
      Some(Race(DriftAfter(seen, runs[p].stale, runs[p].valid), r.pcs[p := Written], r.writes + [Write(p, version)]))
    case _ => None
  }

  /** Any interleaving of the reads and writes of the processes. */
  function Play(runs: seq<Run>, moves: seq<Move>): (r: Option<Race>)
    ensures r.Some? ==> |r.value.pcs| == |runs|
  {
    if moves == [] then Some(Begin(|runs|)) else
    match Play(runs, moves[..|moves| - 1])
    case None => None
    case Some(r) => Step(runs, r, moves[|moves| - 1])
  }

  // ---------------------------------------------------------------- what a version is made of

  predicate Backward(runs: seq<Run>, writes: seq<Write>) {
    forall i :: 0 <= i < |writes| ==> writes[i].version <= i && writes[i].p < |runs|
  }

  /** The writes that version `n` builds on: the last of them, the one whose result it had read,
      and so on back. */
  function Chain(runs: seq<Run>, writes: seq<Write>, n: nat): seq<Run>
    requires Backward(runs, writes) && n <= |writes|
  {
    if n == 0 then [] else Chain(runs, writes, writes[n - 1].version) + [runs[writes[n - 1].p]]
  }

  lemma {:induction false} ChainGrows(runs: seq<Run>, writes: seq<Write>, more: Write, n: nat)
    requires Backward(runs, writes) && Backward(runs, writes + [more]) && n <= |writes|
    ensures Chain(runs, writes + [more], n) == Chain(runs, writes, n)
  {
    if n > 0 { ChainGrows(runs, writes, more, writes[n - 1].version); }
  }

  ghost predicate Inv(runs: seq<Run>, r: Race) {
    && |r.pcs| == |runs| && Backward(runs, r.writes)
    && r.file == DriftOf(Chain(runs, r.writes, |r.writes|))
    && forall p :: 0 <= p < |runs| && r.pcs[p].Editing? ==>
         r.pcs[p].version <= |r.writes| && r.pcs[p].seen == DriftOf(Chain(runs, r.writes, r.pcs[p].version))
  }

  /** A write puts one more link on the chain its process had read. */
  lemma ChainAfter(runs: seq<Run>, writes: seq<Write>, more: Write)
    requires Backward(runs, writes) && more.version <= |writes| && more.p < |runs|
    ensures Backward(runs, writes + [more])
    ensures forall n: nat :: n <= |writes| ==> Chain(runs, writes + [more], n) == Chain(runs, writes, n)
    ensures Chain(runs, writes + [more], |writes| + 1) == Chain(runs, writes, more.version) + [runs[more.p]]
  {
    forall n: nat | n <= |writes| ensures Chain(runs, writes + [more], n) == Chain(runs, writes, n) {
      ChainGrows(runs, writes, more, n);
    }
  }

  lemma DriftPush(chain: seq<Run>, run: Run)
    ensures DriftOf(chain + [run]) == DriftAfter(DriftOf(chain), run.stale, run.valid)
  {
    assert (chain + [run])[..|chain|] == chain;
  }

  lemma StepKeeps(runs: seq<Run>, r: Race, m: Move)
    requires Inv(runs, r) && Step(runs, r, m).Some?
    ensures Inv(runs, Step(runs, r, m).value)
  {
    hide Chain, DriftOf, DriftAfter, Backward;
    match (m, r.pcs[m.p])
    case (Load(_), Ready) =>
    case (Save(p), Editing(seen, version)) =>
      ChainAfter(runs, r.writes, Write(p, version));
      DriftPush(Chain(runs, r.writes, version), runs[p]);
  }

  lemma {:induction false} PlayKeeps(runs: seq<Run>, moves: seq<Move>)
    requires Play(runs, moves).Some?
    ensures Inv(runs, Play(runs, moves).value)
  {
    if moves != [] {
      PlayKeeps(runs, moves[..|moves| - 1]);
      StepKeeps(runs, Play(runs, moves[..|moves| - 1]).value, moves[|moves| - 1]);
    }
  }

  // ---------------------------------------------------------------- what survives

  /** In every interleaving the file is the record of one chain of writes, each over the result
      of the one before; a claim is on record exactly when some write of the chain found it stale
      and none of the chain since proved it. The writes outside the chain leave no trace. */
  lemma ChainSurvives(runs: seq<Run>, moves: seq<Move>, claim: string)
    requires Play(runs, moves).Some?
    ensures var r := Play(runs, moves).value;
      && Backward(runs, r.writes)
      && r.file == DriftOf(Chain(runs, r.writes, |r.writes|))
      && (claim in r.file <==> exists i: nat :: OpenSince(Chain(runs, r.writes, |r.writes|), claim, i))
  {
    PlayKeeps(runs, moves);
    var r := Play(runs, moves).value;
    DriftIsTemporal(Chain(runs, r.writes, |r.writes|), claim);
  }

  /** The writers, in the order they wrote. */
  function Writers(runs: seq<Run>, writes: seq<Write>): seq<Run>
    requires Backward(runs, writes)
  {
    seq(|writes|, i requires 0 <= i < |writes| => runs[writes[i].p])
  }

  ghost predicate Sequential(writes: seq<Write>, n: nat)
    requires n <= |writes|
  {
    forall i :: 0 <= i < n ==> writes[i].version == i
  }

  lemma {:induction false} ChainIsAll(runs: seq<Run>, writes: seq<Write>, n: nat)
    requires Backward(runs, writes) && n <= |writes|
    ensures |Chain(runs, writes, n)| <= n
    ensures |Chain(runs, writes, n)| == n <==> Sequential(writes, n)
    ensures Sequential(writes, n) ==> Chain(runs, writes, n) == Writers(runs, writes)[..n]
  {
    if n > 0 {
      var v := writes[n - 1].version;
      ChainIsAll(runs, writes, v);
      if Sequential(writes, n) {
        assert Writers(runs, writes)[..n] == Writers(runs, writes)[..n - 1] + [runs[writes[n - 1].p]];
      }
      if |Chain(runs, writes, n)| == n {
        assert v == n - 1;
      }
    }
  }

  /** Nothing is lost, every writer being in the chain, if and only if each read the file after
      the write before its own. */
  lemma NothingLostIffSequential(runs: seq<Run>, moves: seq<Move>)
    requires Play(runs, moves).Some?
    ensures var r := Play(runs, moves).value;
      && Backward(runs, r.writes)
      && (Chain(runs, r.writes, |r.writes|) == Writers(runs, r.writes) <==> Sequential(r.writes, |r.writes|))
      && (Sequential(r.writes, |r.writes|) ==> r.file == DriftOf(Writers(runs, r.writes)))
  {
    PlayKeeps(runs, moves);
    var r := Play(runs, moves).value;
    ChainIsAll(runs, r.writes, |r.writes|);
    assert Writers(runs, r.writes)[..|r.writes|] == Writers(runs, r.writes);
  }

  /** Two processes that read before either writes: the edits of the first are gone. */
  lemma LostUpdate(a: Run, b: Run)
    ensures var r := Play([a, b], [Load(0), Load(1), Save(0), Save(1)]);
            r.Some? && r.value.file == DriftOf([b]) && r.value.writes == [Write(0, 0), Write(1, 0)]
  {
    var runs := [a, b];
    var first, second := DriftAfter(map[], a.stale, a.valid), DriftAfter(map[], b.stale, b.valid);
    var e := Editing(map[], 0);
    var s0, s1, s2 := Race(map[], [Ready, Ready], []), Race(map[], [e, Ready], []), Race(map[], [e, e], []);
    var s3 := Race(first, [Written, e], [Write(0, 0)]);
    var s4 := Race(second, [Written, Written], [Write(0, 0), Write(1, 0)]);
    assert Begin(2).pcs == [Ready, Ready];
    assert Play(runs, []) == Some(s0);
    assert [Ready, Ready][0 := e] == [e, Ready] && [e, Ready][1 := e] == [e, e];
    assert [e, e][0 := Written] == [Written, e] && [Written, e][1 := Written] == [Written, Written];
    assert [] + [Write(0, 0)] == [Write(0, 0)] && [Write(0, 0)] + [Write(1, 0)] == [Write(0, 0), Write(1, 0)];
    assert Step(runs, s0, Load(0)) == Some(s1) && Step(runs, s1, Load(1)) == Some(s2);
    assert Step(runs, s2, Save(0)) == Some(s3) && Step(runs, s3, Save(1)) == Some(s4);
    Next(runs, [], Load(0));
    Next(runs, [Load(0)], Load(1));
    Next(runs, [Load(0), Load(1)], Save(0));
    Next(runs, [Load(0), Load(1), Save(0)], Save(1));
    assert [] + [Load(0)] == [Load(0)] && [Load(0)] + [Load(1)] == [Load(0), Load(1)];
    assert [Load(0), Load(1)] + [Save(0)] == [Load(0), Load(1), Save(0)];
    assert [Load(0), Load(1), Save(0)] + [Save(1)] == [Load(0), Load(1), Save(0), Save(1)];
    DriftPush([], b);
    assert [] + [b] == [b];
  }

  lemma Next(runs: seq<Run>, moves: seq<Move>, m: Move)
    ensures Play(runs, moves + [m]) ==
            match Play(runs, moves)
            case None => None
            case Some(r) => Step(runs, r, m)
  {
    assert (moves + [m])[..|moves|] == moves;
  }
}
