/** The persist phases of concurrent `uni verify` processes under the lock file: any
    interleaving of their writes equals running the phases one after another in lock order. */
module Persist {
  import opened Decisions
  import opened Digests
  import opened EvidenceStore
  import opened Prelude
  import opened VerifyRun

  /** What one process is about to write. */
  datatype Plan = Plan(made: seq<Evidence>, events: seq<Event>, result: DecisionResult, registryText: string)

  /** The files the phase writes; journal lines carry the process that wrote them. */
  datatype Shared = Shared(
    evidence: Store,
    journal: seq<(nat, Event)>,
    last: Option<DecisionResult>,
    registryHash: Digest,
    snapshot: string)

  /** One file operation. */
  datatype Op =
    | SaveEvidence(ev: Evidence)
    | AppendLine(event: Event)
    | SaveLast(result: DecisionResult)
    | WriteHash(text: string)
    | WriteSnapshot(text: string)

  function Length(plan: Plan): nat {
    |plan.made| + |plan.events| + 3
  }

  /** The operations of the phase, in program order. */
  function OpAt(plan: Plan, k: nat): Op
    requires k < Length(plan)
  {
    var m, e := |plan.made|, |plan.events|;
    if k < m then SaveEvidence(plan.made[k])
    else if k < m + e then AppendLine(plan.events[k - m])
    else if k == m + e then SaveLast(plan.result)
    else if k == m + e + 1 then WriteHash(plan.registryText)
    else WriteSnapshot(plan.registryText)
  }

  function Do(p: nat, op: Op, d: Shared): Shared {
    match op
    case SaveEvidence(ev) => d.(evidence := d.evidence[(ev.claimId, ev.fingerprint) := ev])
    case AppendLine(event) => d.(journal := d.journal + [(p, event)])
    case SaveLast(result) => d.(last := Some(result))
    case WriteHash(text) => d.(registryHash := OfText(text))
    case WriteSnapshot(text) => d.(snapshot := text)
  }

  // ---------------------------------------------------------------- the protocol

  const ACQUIRE_RETRIES := 100

  /** Where a process is: trying the lock, inside with `k` operations done, out again, turned
      away, or out early because an operation failed (the guard still releases the lock). */
  datatype Pc = Trying(left: nat) | Inside(k: nat) | Finished | Refused | Failed(k: nat)

  /** `order` records who took the lock, in order. */
  datatype System = System(lock: bool, disk: Shared, pcs: seq<Pc>, order: seq<nat>)

  datatype Action = TryLock(p: nat) | GiveUp(p: nat) | Write(p: nat) | Fail(p: nat) | Unlock(p: nat)

  function Begin(n: nat, d: Shared): System {
    System(false, d, seq(n, _ => Trying(ACQUIRE_RETRIES)), [])
  }

  /** One step of one process; None when that step is not possible. */
  function Step(plans: seq<Plan>, s: System, a: Action): (next: Option<System>)
    requires |plans| == |s.pcs|
    ensures next.Some? ==> |next.value.pcs| == |plans|
  {
    if a.p >= |plans| then None else
    match (a, s.pcs[a.p])
    case (TryLock(p), Trying(left)) =>
      if left == 0 then None
      else if s.lock then Some(s.(pcs := s.pcs[p := Trying(left - 1)]))
      else Some(s.(lock := true, pcs := s.pcs[p := Inside(0)], order := s.order + [p]))
    case (GiveUp(p), Trying(left)) =>
      if left == 0 then Some(s.(pcs := s.pcs[p := Refused])) else None
    case (Write(p), Inside(k)) =>
      if k < Length(plans[p])
      then Some(s.(disk := Do(p, OpAt(plans[p], k), s.disk), pcs := s.pcs[p := Inside(k + 1)]))
      else None
    case (Fail(p), Inside(k)) =>
      if k < Length(plans[p]) then Some(s.(lock := false, pcs := s.pcs[p := Failed(k)])) else None
    case (Unlock(p), Inside(k)) =>
      if k == Length(plans[p]) then Some(s.(lock := false, pcs := s.pcs[p := Finished])) else None
    case _ => None
  }

  /** A run of the whole system: any interleaving of enabled steps. */
  function Run(plans: seq<Plan>, d: Shared, actions: seq<Action>): (s: Option<System>)
    ensures s.Some? ==> |s.value.pcs| == |plans|
  {
    if actions == [] then Some(Begin(|plans|, d)) else
    match Run(plans, d, actions[..|actions| - 1])
    case None => None
    case Some(s) => Step(plans, s, actions[|actions| - 1])
  }

  // ---------------------------------------------------------------- the sequential reference

  /** The disk after the first `k` operations of one process. */
  function After(p: nat, plan: Plan, k: nat, d: Shared): Shared
    requires k <= Length(plan)
  {
    if k == 0 then d else Do(p, OpAt(plan, k - 1), After(p, plan, k - 1, d))
  }

  /** How many operations a process has done. */
  function Done(pc: Pc, plan: Plan): nat {
    match pc
    case Inside(k) => if k <= Length(plan) then k else Length(plan)
    case Failed(k) => if k <= Length(plan) then k else Length(plan)
    case Finished => Length(plan)
    case Trying(_) => 0
    case Refused => 0
  }

  /** The phases one after another. */
  function Serial(plans: seq<Plan>, pcs: seq<Pc>, order: seq<nat>, d: Shared): Shared
    requires |pcs| == |plans| && forall i :: 0 <= i < |order| ==> order[i] < |plans|
  {
    if order == [] then d else
      var p := order[|order| - 1];
      After(p, plans[p], Done(pcs[p], plans[p]), Serial(plans, pcs, order[..|order| - 1], d))
  }

  predicate Started(pc: Pc) {
    pc.Inside? || pc.Finished? || pc.Failed?
  }

  predicate InRange(pc: Pc, plan: Plan) {
    (pc.Inside? ==> pc.k <= Length(plan)) && (pc.Failed? ==> pc.k < Length(plan))
  }

  ghost predicate Once(order: seq<nat>) {
    forall i, j :: 0 <= i < j < |order| ==> order[i] != order[j]
  }

  ghost predicate Indexed(plans: seq<Plan>, s: System) {
    && |s.pcs| == |plans|
    && (forall i :: 0 <= i < |s.order| ==> s.order[i] < |plans| && Started(s.pcs[s.order[i]]))
    && (forall p :: 0 <= p < |plans| && Started(s.pcs[p]) ==> p in s.order)
    && Once(s.order)
  }

  /** Only the process that took the lock last can still be inside. */
  ghost predicate Locked(plans: seq<Plan>, s: System)
    requires Indexed(plans, s)
  {
    && (s.lock <==> s.order != [] && s.pcs[s.order[|s.order| - 1]].Inside?)
    && (forall i :: 0 <= i < |s.order| - 1 ==> !s.pcs[s.order[i]].Inside?)
    && (forall p :: 0 <= p < |plans| ==> InRange(s.pcs[p], plans[p]))
  }

  ghost predicate Inv(plans: seq<Plan>, d: Shared, s: System) {
    Indexed(plans, s) && Locked(plans, s) && s.disk == Serial(plans, s.pcs, s.order, d)
  }

  /** Processes outside the order do not matter to it. */
  lemma {:induction false} SerialFrame(plans: seq<Plan>, pcs: seq<Pc>, q: nat, pc: Pc, order: seq<nat>, d: Shared)
    requires |pcs| == |plans| && (forall i :: 0 <= i < |order| ==> order[i] < |plans| && order[i] != q)
    requires q < |plans|
    ensures Serial(plans, pcs[q := pc], order, d) == Serial(plans, pcs, order, d)
  {
    if order != [] { SerialFrame(plans, pcs, q, pc, order[..|order| - 1], d); }
  }

  /** One more operation by the last process of the order. */
  lemma SerialLast(plans: seq<Plan>, pcs: seq<Pc>, pc: Pc, order: seq<nat>, d: Shared)
    requires |pcs| == |plans| && order != [] && Once(order)
    requires forall i :: 0 <= i < |order| ==> order[i] < |plans|
    ensures var p := order[|order| - 1];
            Serial(plans, pcs[p := pc], order, d)
              == After(p, plans[p], Done(pc, plans[p]), Serial(plans, pcs, order[..|order| - 1], d))
  {
    var p := order[|order| - 1];
    SerialFrame(plans, pcs, p, pc, order[..|order| - 1], d);
  }

  // ---------------------------------------------------------------- every step keeps it

  /** The process inside is the last of the order. */
  lemma InsideIsLast(plans: seq<Plan>, s: System, p: nat)
    requires Indexed(plans, s) && Locked(plans, s) && p < |plans| && s.pcs[p].Inside?
    ensures s.lock && s.order != [] && p == s.order[|s.order| - 1]
  {
    assert p in s.order;
    var i :| 0 <= i < |s.order| && s.order[i] == p;
  }

  lemma EnterIndexed(plans: seq<Plan>, s: System, p: nat)
    requires Indexed(plans, s) && p < |plans| && s.pcs[p].Trying?
    ensures Indexed(plans, s.(lock := true, pcs := s.pcs[p := Inside(0)], order := s.order + [p]))
  {
    assert p !in s.order;
    var order, pcs := s.order + [p], s.pcs[p := Inside(0)];
    forall q | 0 <= q < |plans| && Started(pcs[q]) ensures q in order {
      if q == p { assert order[|order| - 1] == p; } else { assert q in s.order; }
    }
  }

  lemma EnterSerial(plans: seq<Plan>, d: Shared, s: System, p: nat)
    requires Indexed(plans, s) && p < |plans| && s.pcs[p].Trying?
    ensures var order, pcs := s.order + [p], s.pcs[p := Inside(0)];
            order[..|order| - 1] == s.order && order[|order| - 1] == p
            && (forall i :: 0 <= i < |order| ==> order[i] < |plans|)
            && Serial(plans, pcs, order, d) == Serial(plans, s.pcs, s.order, d)
  {
    var order := s.order + [p];
    assert p !in s.order;
    assert order[..|order| - 1] == s.order;
    SerialFrame(plans, s.pcs, p, Inside(0), s.order, d);
  }

  lemma EnterKeeps(plans: seq<Plan>, d: Shared, s: System, p: nat)
    requires Inv(plans, d, s) && p < |plans| && s.pcs[p].Trying? && !s.lock
    ensures Inv(plans, d, s.(lock := true, pcs := s.pcs[p := Inside(0)], order := s.order + [p]))
  {
    hide Serial, Once;
    EnterIndexed(plans, s, p);
    EnterSerial(plans, d, s, p);
    EnterLocked(plans, s, p);
  }

  lemma EnterLocked(plans: seq<Plan>, s: System, p: nat)
    requires Indexed(plans, s) && Locked(plans, s) && p < |plans| && s.pcs[p].Trying? && !s.lock
    requires Indexed(plans, s.(lock := true, pcs := s.pcs[p := Inside(0)], order := s.order + [p]))
    ensures Locked(plans, s.(lock := true, pcs := s.pcs[p := Inside(0)], order := s.order + [p]))
  {
    hide Once;
    var pcs, order := s.pcs[p := Inside(0)], s.order + [p];
    forall i | 0 <= i < |order| - 1 ensures !pcs[order[i]].Inside? {
      assert order[i] == s.order[i];
    }
  }

  /** A process that is not inside moves without touching anything shared. */
  lemma OutsideKeeps(plans: seq<Plan>, d: Shared, s: System, p: nat, pc: Pc)
    requires Inv(plans, d, s) && p < |plans| && s.pcs[p].Trying? && (pc.Trying? || pc.Refused?)
    ensures Inv(plans, d, s.(pcs := s.pcs[p := pc]))
  {
    assert p !in s.order;
    SerialFrame(plans, s.pcs, p, pc, s.order, d);
    var t := s.(pcs := s.pcs[p := pc]);
    assert Indexed(plans, t);
  }

  /** The process inside moves: one more operation, or out. */
  lemma InsideKeeps(plans: seq<Plan>, d: Shared, s: System, p: nat, pc: Pc, disk: Shared)
    requires Inv(plans, d, s) && p < |plans| && s.pcs[p].Inside?
    requires Started(pc) && InRange(pc, plans[p])
    requires forall was :: s.disk == After(p, plans[p], s.pcs[p].k, was) ==>
               disk == After(p, plans[p], Done(pc, plans[p]), was)
    ensures Inv(plans, d, s.(lock := pc.Inside?, disk := disk, pcs := s.pcs[p := pc]))
  {
    hide Serial, After, Once;
    var last := |s.order| - 1;
    InsideIsLast(plans, s, p);
    SerialUnfolds(plans, s.pcs, s.order, d);
    SerialLast(plans, s.pcs, pc, s.order, d);
    assert s.disk == After(p, plans[p], s.pcs[p].k, Serial(plans, s.pcs, s.order[..last], d));
    InsideLocked(plans, s, p, pc, disk);
  }

  lemma SerialUnfolds(plans: seq<Plan>, pcs: seq<Pc>, order: seq<nat>, d: Shared)
    requires |pcs| == |plans| && order != [] && forall i :: 0 <= i < |order| ==> order[i] < |plans|
    ensures var p := order[|order| - 1];
            Serial(plans, pcs, order, d)
              == After(p, plans[p], Done(pcs[p], plans[p]), Serial(plans, pcs, order[..|order| - 1], d))
  {
  }

  lemma InsideLocked(plans: seq<Plan>, s: System, p: nat, pc: Pc, disk: Shared)
    requires Indexed(plans, s) && Locked(plans, s) && p < |plans| && s.pcs[p].Inside?
    requires Started(pc) && InRange(pc, plans[p])
    ensures var t := s.(lock := pc.Inside?, disk := disk, pcs := s.pcs[p := pc]); Indexed(plans, t) && Locked(plans, t)
  {
    InsideIsLast(plans, s, p);
    var t := s.(lock := pc.Inside?, disk := disk, pcs := s.pcs[p := pc]);
    forall i | 0 <= i < |s.order| - 1 ensures s.order[i] != p && !t.pcs[s.order[i]].Inside? {
      assert s.order[i] != s.order[|s.order| - 1];
    }
  }

  lemma StepKeeps(plans: seq<Plan>, d: Shared, s: System, a: Action)
    requires Inv(plans, d, s) && Step(plans, s, a).Some?
    ensures Inv(plans, d, Step(plans, s, a).value)
  {
    hide Inv, Serial;
    var p := a.p;
    Ranges(plans, d, s);
    match (a, s.pcs[p])
    case (TryLock(_), Trying(left)) =>
      if s.lock { OutsideKeeps(plans, d, s, p, Trying(left - 1)); } else { EnterKeeps(plans, d, s, p); }
    case (GiveUp(_), Trying(left)) =>
      OutsideKeeps(plans, d, s, p, Refused);
    case (Write(_), Inside(k)) =>
      LockHeld(plans, d, s, p);
      InsideKeeps(plans, d, s, p, Inside(k + 1), Do(p, OpAt(plans[p], k), s.disk));
    case (Fail(_), Inside(k)) =>
      InsideKeeps(plans, d, s, p, Failed(k), s.disk);
    case (Unlock(_), Inside(k)) =>
      InsideKeeps(plans, d, s, p, Finished, s.disk);
  }

  lemma Ranges(plans: seq<Plan>, d: Shared, s: System)
    requires Inv(plans, d, s)
    ensures |s.pcs| == |plans| && forall q :: 0 <= q < |plans| ==> InRange(s.pcs[q], plans[q])
  {
  }

  lemma LockHeld(plans: seq<Plan>, d: Shared, s: System, p: nat)
    requires Inv(plans, d, s) && p < |plans| && s.pcs[p].Inside?
    ensures s.lock
  {
    InsideIsLast(plans, s, p);
  }

  lemma {:induction false} RunKeeps(plans: seq<Plan>, d: Shared, actions: seq<Action>)
    requires Run(plans, d, actions).Some?
    ensures Inv(plans, d, Run(plans, d, actions).value)
  {
    if actions != [] {
      var init := actions[..|actions| - 1];
      RunKeeps(plans, d, init);
      StepKeeps(plans, d, Run(plans, d, init).value, actions[|actions| - 1]);
    }
  }

  // ---------------------------------------------------------------- what the lock buys

  /** At most one process is in the persist phase, and the lock file is there exactly while
      one is. */
  lemma MutualExclusion(plans: seq<Plan>, d: Shared, actions: seq<Action>)
    requires Run(plans, d, actions).Some?
    ensures var s := Run(plans, d, actions).value;
      && (forall p, q :: 0 <= p < |plans| && 0 <= q < |plans| && s.pcs[p].Inside? && s.pcs[q].Inside? ==> p == q)
      && (s.lock <==> exists p :: 0 <= p < |plans| && s.pcs[p].Inside?)
  {
    RunKeeps(plans, d, actions);
    var s := Run(plans, d, actions).value;
    forall p | 0 <= p < |plans| && s.pcs[p].Inside? ensures s.lock && p == s.order[|s.order| - 1] {
      InsideIsLast(plans, s, p);
    }
  }

  /** Whatever the interleaving, the files are those of the phases run one after another, in
      the order the lock was taken. */
  lemma Serializable(plans: seq<Plan>, d: Shared, actions: seq<Action>)
    requires Run(plans, d, actions).Some?
    ensures var s := Run(plans, d, actions).value;
            Indexed(plans, s) && s.disk == Serial(plans, s.pcs, s.order, d)
  {
    RunKeeps(plans, d, actions);
  }

  /** A phase that finishes, as one atomic update. */
  function Settled(p: nat, plan: Plan, d: Shared): Shared {
    Shared(Saved(d.evidence, plan.made), d.journal + Tagged(p, plan.events), Some(plan.result),
           OfText(plan.registryText), plan.registryText)
  }

  function Tagged(p: nat, events: seq<Event>): seq<(nat, Event)> {
    seq(|events|, i requires 0 <= i < |events| => (p, events[i]))
  }

  /** The lines of the journal a process has written after `k` operations. */
  function Lines(plan: Plan, k: nat): seq<Event> {
    var m := |plan.made|;
    if k <= m then [] else if k - m <= |plan.events| then plan.events[..k - m] else plan.events
  }

  function Made(plan: Plan, k: nat): seq<Evidence> {
    if k <= |plan.made| then plan.made[..k] else plan.made
  }

  /** What each prefix of a phase has done. */
  lemma {:induction false} AfterIs(p: nat, plan: Plan, k: nat, d: Shared)
    requires k <= Length(plan)
    ensures var d' := After(p, plan, k, d);
      && d'.journal == d.journal + Tagged(p, Lines(plan, k))
      && d'.evidence == Saved(d.evidence, Made(plan, k))
      && d'.last == (if k > Length(plan) - 3 then Some(plan.result) else d.last)
      && d'.registryHash == (if k > Length(plan) - 2 then OfText(plan.registryText) else d.registryHash)
      && d'.snapshot == (if k == Length(plan) then plan.registryText else d.snapshot)
  {
    if k == 0 {
      assert Tagged(p, Lines(plan, 0)) == [] && Made(plan, 0) == [];
    } else {
      AfterIs(p, plan, k - 1, d);
      var m := |plan.made|;
      if k <= m {
        assert Made(plan, k)[..k - 1] == Made(plan, k - 1);
      } else if k - m <= |plan.events| {
        assert Tagged(p, Lines(plan, k)) == Tagged(p, Lines(plan, k - 1)) + [(p, plan.events[k - 1 - m])];
        assert Made(plan, k) == Made(plan, k - 1);
      } else {
        assert Lines(plan, k) == Lines(plan, k - 1);
        assert Made(plan, k) == Made(plan, k - 1);
      }
    }
  }

  lemma FinishedIsSettled(p: nat, plan: Plan, d: Shared)
    ensures After(p, plan, Length(plan), d) == Settled(p, plan, d)
  {
    AfterIs(p, plan, Length(plan), d);
  }

  // ---------------------------------------------------------------- the journal

  ghost predicate Contiguous(journal: seq<(nat, Event)>, from: nat, p: nat, events: seq<Event>, at: nat) {
    && from <= at && at + |events| <= |journal|
    && journal[at..at + |events|] == Tagged(p, events)
    && forall i :: from <= i < |journal| && !(at <= i < at + |events|) ==> journal[i].0 != p
  }

  /** The lines of the processes in the order, one block each. */
  lemma {:induction false} Blocks(plans: seq<Plan>, pcs: seq<Pc>, order: seq<nat>, d: Shared, p: nat) returns (at: nat)
    requires |pcs| == |plans| && Once(order) && forall i :: 0 <= i < |order| ==> order[i] < |plans|
    requires p < |plans|
    ensures var journal := Serial(plans, pcs, order, d).journal;
            Contiguous(journal, |d.journal|, p,
                       if p in order then Lines(plans[p], Done(pcs[p], plans[p])) else [], at)
  {
    if order == [] {
      at := |d.journal|;
      assert d.journal[at..at] == Tagged(p, []);
    } else {
      var init, q := order[..|order| - 1], order[|order| - 1];
      var before := Serial(plans, pcs, init, d);
      var k := Done(pcs[q], plans[q]);
      AfterIs(q, plans[q], k, before);
      at := Blocks(plans, pcs, init, d, p);
      assert order == init + [q];
      var was, block := before.journal, Tagged(q, Lines(plans[q], k));
      if q == p {
        assert p !in init;
        NewBlock(was, |d.journal|, p, Lines(plans[q], k), at);
        at := |was|;
      } else {
        OldBlock(was, |d.journal|, p, if p in init then Lines(plans[p], Done(pcs[p], plans[p])) else [], at, block, q);
      }
    }
  }

  lemma NewBlock(was: seq<(nat, Event)>, from: nat, p: nat, events: seq<Event>, at: nat)
    requires Contiguous(was, from, p, [], at)
    ensures Contiguous(was + Tagged(p, events), from, p, events, |was|)
  {
    assert (was + Tagged(p, events))[|was|..|was| + |events|] == Tagged(p, events);
  }

  lemma OldBlock(was: seq<(nat, Event)>, from: nat, p: nat, events: seq<Event>, at: nat,
                 block: seq<(nat, Event)>, q: nat)
    requires Contiguous(was, from, p, events, at) && p != q
    requires forall i :: 0 <= i < |block| ==> block[i].0 == q
    ensures Contiguous(was + block, from, p, events, at)
  {
    assert (was + block)[at..at + |events|] == was[at..at + |events|];
  }

  /** In every reachable state the journal lines of each process stand together, in order, and
      nowhere else; a process that never got the lock has none. */
  lemma JournalContiguous(plans: seq<Plan>, d: Shared, actions: seq<Action>, p: nat) returns (at: nat)
    requires Run(plans, d, actions).Some? && p < |plans|
    ensures var s := Run(plans, d, actions).value;
            Contiguous(s.disk.journal, |d.journal|, p, Lines(plans[p], Done(s.pcs[p], plans[p])), at)
  {
    RunKeeps(plans, d, actions);
    var s := Run(plans, d, actions).value;
    at := Blocks(plans, s.pcs, s.order, d, p);
    if p !in s.order {
      assert !Started(s.pcs[p]);
      assert Lines(plans[p], 0) == [];
    }
  }

  // ---------------------------------------------------------------- the trust-boundary baseline

  ghost predicate Agree(d: Shared) {
    d.registryHash == OfText(d.snapshot)
  }

  /** Stopped between writing the hash and writing the snapshot. */
  ghost predicate Torn(pc: Pc, plan: Plan) {
    pc == Failed(Length(plan) - 1)
  }

  /** The last process of the order that got as far as writing the hash. */
  ghost function HashWriter(plans: seq<Plan>, pcs: seq<Pc>, order: seq<nat>): (writer: Option<nat>)
    requires |pcs| == |plans| && forall i :: 0 <= i < |order| ==> order[i] < |plans|
    ensures writer.Some? ==> writer.value < |plans|
  {
    if order == [] then None else
      var p := order[|order| - 1];
      if Done(pcs[p], plans[p]) >= Length(plans[p]) - 1 then Some(p)
      else HashWriter(plans, pcs, order[..|order| - 1])
  }

  /** The registry text of the last process that wrote its snapshot. */
  ghost function SnapshotText(plans: seq<Plan>, pcs: seq<Pc>, order: seq<nat>, before: string): string
    requires |pcs| == |plans| && forall i :: 0 <= i < |order| ==> order[i] < |plans|
  {
    if order == [] then before else
      var p := order[|order| - 1];
      if Done(pcs[p], plans[p]) == Length(plans[p]) then plans[p].registryText
      else SnapshotText(plans, pcs, order[..|order| - 1], before)
  }

  lemma {:induction false} SerialBaseline(plans: seq<Plan>, pcs: seq<Pc>, order: seq<nat>, d: Shared)
    requires |pcs| == |plans| && forall i :: 0 <= i < |order| ==> order[i] < |plans|
    ensures var end, writer := Serial(plans, pcs, order, d), HashWriter(plans, pcs, order);
      && end.registryHash == (if writer.Some? then OfText(plans[writer.value].registryText) else d.registryHash)
      && end.snapshot == SnapshotText(plans, pcs, order, d.snapshot)
  {
    if order != [] {
      var init, p := order[..|order| - 1], order[|order| - 1];
      SerialBaseline(plans, pcs, init, d);
      AfterIs(p, plans[p], Done(pcs[p], plans[p]), Serial(plans, pcs, init, d));
    }
  }

  /** Who wrote the hash last, in order; if it got no further, the snapshot is an older one. */
  lemma {:induction false} WriterIs(plans: seq<Plan>, pcs: seq<Pc>, order: seq<nat>, before: string)
    requires |pcs| == |plans| && forall i :: 0 <= i < |order| ==> order[i] < |plans|
    ensures var writer := HashWriter(plans, pcs, order);
      && (writer.None? ==> SnapshotText(plans, pcs, order, before) == before)
      && (writer.Some? ==> writer.value in order && Done(pcs[writer.value], plans[writer.value])
                             >= Length(plans[writer.value]) - 1)
      && (writer.Some? && Done(pcs[writer.value], plans[writer.value]) == Length(plans[writer.value]) ==>
            SnapshotText(plans, pcs, order, before) == plans[writer.value].registryText)
  {
    if order != [] {
      WriterIs(plans, pcs, order[..|order| - 1], before);
    }
  }

  /** In every reachable state with the lock free the stored registry hash is the hash of the
      stored snapshot exactly when: nobody has written the hash yet and the two agreed at the
      start; or the last process that wrote the hash went on to write its snapshot; or it
      failed in between, writing the very registry that was stored already. */
  lemma BaselineExact(plans: seq<Plan>, d: Shared, actions: seq<Action>)
    requires Run(plans, d, actions).Some?
    ensures var s := Run(plans, d, actions).value;
      && Indexed(plans, s)
      && s.disk.snapshot == SnapshotText(plans, s.pcs, s.order, d.snapshot)
      && (!s.lock ==>
            (Agree(s.disk) <==>
             match HashWriter(plans, s.pcs, s.order)
             case None => Agree(d)
             case Some(p) => Torn(s.pcs[p], plans[p]) ==> s.disk.snapshot == plans[p].registryText))
  {
    RunKeeps(plans, d, actions);
    hide Run, Serial;
    var s := Run(plans, d, actions).value;
    SerialBaseline(plans, s.pcs, s.order, d);
    WriterIs(plans, s.pcs, s.order, d.snapshot);
    var writer := HashWriter(plans, s.pcs, s.order);
    if !s.lock && writer.Some? {
      NotInside(plans, s, writer.value);
    }
  }

  lemma NotInside(plans: seq<Plan>, s: System, p: nat)
    requires Indexed(plans, s) && Locked(plans, s) && !s.lock && p in s.order
    ensures p < |plans| && !s.pcs[p].Inside?
    ensures Done(s.pcs[p], plans[p]) == Length(plans[p]) - 1 <==> Torn(s.pcs[p], plans[p])
  {
    var i :| 0 <= i < |s.order| && s.order[i] == p;
    if s.pcs[p].Inside? { InsideIsLast(plans, s, p); }
  }

  /** With the lock free and no process torn, they agree once any process has finished, and
      before that exactly when they agreed at the start; a fresh `.uni` need not. */
  lemma BaselineAgrees(plans: seq<Plan>, d: Shared, actions: seq<Action>)
    requires Run(plans, d, actions).Some?
    ensures var s := Run(plans, d, actions).value;
            !s.lock && (forall p :: 0 <= p < |plans| ==> !Torn(s.pcs[p], plans[p])) ==>
              (Agree(s.disk) <==> Agree(d) || exists p :: 0 <= p < |plans| && s.pcs[p].Finished?)
  {
    RunKeeps(plans, d, actions);
    BaselineExact(plans, d, actions);
    var s := Run(plans, d, actions).value;
    WriterIs(plans, s.pcs, s.order, d.snapshot);
    var writer := HashWriter(plans, s.pcs, s.order);
    if !s.lock && forall p :: 0 <= p < |plans| ==> !Torn(s.pcs[p], plans[p]) {
      if writer.Some? {
        NotInside(plans, s, writer.value);
        assert s.pcs[writer.value].Finished?;
      } else if p :| 0 <= p < |plans| && s.pcs[p].Finished? {
        NoWriter(plans, s.pcs, s.order, p);
      }
    }
  }

  lemma {:induction false} NoWriter(plans: seq<Plan>, pcs: seq<Pc>, order: seq<nat>, p: nat)
    requires |pcs| == |plans| && forall i :: 0 <= i < |order| ==> order[i] < |plans|
    requires p in order && HashWriter(plans, pcs, order).None?
    ensures !pcs[p].Finished?
  {
    var init := order[..|order| - 1];
    assert order == init + [order[|order| - 1]];
    if p in init { NoWriter(plans, pcs, init, p); }
  }
}
