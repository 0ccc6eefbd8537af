/** How far reuse can be trusted: exactly as far as what a run leaves is left again by any run
    that looks the same to the cache. */
module ReuseLimits {
  import opened Decisions
  import opened Digests
  import opened EvidenceStore
  import opened Ir
  import opened Prelude
  import opened Reuse
  import opened Verifier
  import opened VerifyRun
  import opened Watch

  const CLAIM := ClaimIr("c", "claim", true, false, "")
  const VERIFICATION := VerificationIr("c", "v", None, None)
  const CONTRACT := Contract("0.1", "i", "d", "g", [CLAIM], [VERIFICATION])

  /** A repository with one required claim, verified by one registered spec. */
  function OneClaim(shell: Shell, spec: VerifierSpec): Tool {
    Tool(_ => map["v" := spec], _ => Some(CONTRACT), shell)
  }

  function At(ws: Workspace, platform: Platform, now: int): World {
    World(ws, "", "", map[], [], platform, now, "a", "a")
  }

  function TheNeed(spec: VerifierSpec): Need {
    Need(VERIFICATION, None, Some(spec))
  }

  ghost predicate Plain(spec: VerifierSpec) {
    !IsSelectorTemplate(spec)
  }

  lemma OneProbe(shell: Shell, spec: VerifierSpec, w: World, store: Store)
    requires Plain(spec)
    ensures Gate(map["v" := spec], w.bindings, VERIFICATION) == Ok(TheNeed(spec))
    ensures ProbeAll(map["v" := spec], w, store, [VERIFICATION]) == Ok(ProbeOne(w, store, NOTHING, TheNeed(spec)))
  {
    assert [VERIFICATION][..0] == [];
  }

  lemma OneRun(shell: Shell, spec: VerifierSpec, w: World)
    ensures RunAll(shell, map["v" := spec], w, []) == Ok(([], w.ws))
    ensures RunAll(shell, map["v" := spec], w, [TheNeed(spec)]) ==
            match RunOne(shell, map["v" := spec], w, w.ws, TheNeed(spec))
            case Err(e) => Err(e)
            case Ok(one) => Ok(([one.0], one.1))
  {
    assert [TheNeed(spec)][..0] == [];
    var one := RunOne(shell, map["v" := spec], w, w.ws, TheNeed(spec));
    assert one.Ok? ==> [] + [one.value.0] == [one.value.0];
  }

  /** No history and no world set the run apart from the same run with an empty cache. */
  ghost predicate ReuseExact(tool: Tool, platform: Platform) {
    forall history, w: World :: w.platform == platform
      ==> SameVerdict(Cached(tool, history, w), Rerun(tool, history, w), Merged(w.policies).escalateOnStale)
  }

  // ---------------------------------------------------------------- what a stored proof repeats

  /** What a run leaves: the state its proof is saved in, and the workspace afterwards. */
  datatype Left = Left(state: EvidenceState, after: Workspace)

  predicate Moved(a: Workspace, b: Workspace) {
    a.commit != b.commit || a.dirty != b.dirty
  }

  function Leaves(shell: Shell, spec: VerifierSpec, ws: Workspace, platform: Platform, now: int)
    : Result<Left, RunError>
  {
    match Observe(shell, spec, ws, platform, now)
    case Err(e) => Err(e)
    case Ok(o) =>
      Ok(Left(if Moved(o.after, ws) then Stale else if Passes(spec, o) then Valid else Invalid, o.after))
  }

  /** What the loader compares of two workspaces; a subject that was empty is not compared. */
  ghost predicate HeldAlike(spec: VerifierSpec, a: Workspace, b: Workspace) {
    && !Moved(a, b)
    && (SubjectHash(spec.files, a.root).None? || SubjectHash(spec.files, a.root) == SubjectHash(spec.files, b.root))
  }

  /** Whatever a run leaves that is not Invalid, a later run in any workspace that looks like the
      one left behind leaves again, inside the window. */
  ghost predicate Repeats(shell: Shell, spec: VerifierSpec, platform: Platform) {
    forall a, b, then_, now :: Believed(shell, spec, a, b, platform, then_, now) ==>
      SameState(Leaves(shell, spec, a, platform, then_), Leaves(shell, spec, b, platform, now))
  }

  ghost predicate Believed(shell: Shell, spec: VerifierSpec, a: Workspace, b: Workspace,
                           platform: Platform, then_: int, now: int) {
    var l := Leaves(shell, spec, a, platform, then_);
    l.Ok? && l.value.state != Invalid && HeldAlike(spec, l.value.after, b) && InWindow(spec, then_, now)
  }

  predicate SameState(l: Result<Left, RunError>, m: Result<Left, RunError>) {
    l.Ok? && m.Ok? && l.value.state == m.value.state
  }

  /** The proof of one run, field by field. */
  lemma RunLeaves(shell: Shell, spec: VerifierSpec, w: World)
    requires Plain(spec)
    ensures var one, l := RunOne(shell, map["v" := spec], w, w.ws, TheNeed(spec)),
                          Leaves(shell, spec, w.ws, w.platform, w.now);
      && (l.Err? ==> one == Err(l.error))
      && (l.Ok? ==> one.Ok? && FitsRun(spec, w, l.value, one.value.0))
  {
  }

  predicate FitsRun(spec: VerifierSpec, w: World, l: Left, ev: Evidence) {
    && ev.claimId == "c" && ev.fingerprint == ContextOf(w, TheNeed(spec)).fingerprint
    && ev.state == l.state && (ev.state == Valid ==> ev.exitCode == 0)
    && ev.commitSha == l.after.commit && ev.workspaceDirty == l.after.dirty
    && ev.artifactHash == SubjectHash(spec.files, l.after.root).GetOr(Empty)
    && ev.registryHash == OfText(w.registryText) && ev.contractHash == OfText(w.contractText)
    && ev.platform == w.platform && ev.bindingHash == Empty && ev.expiresAt == ExpiryOf(spec, w.now)
  }

  ghost predicate MadeBy(shell: Shell, spec: VerifierSpec, ev: Evidence, w0: World) {
    var l := Leaves(shell, spec, w0.ws, w0.platform, w0.now);
    l.Ok? && FitsRun(spec, w0, l.value, ev)
  }

  /** Every stored proof sits under its own key and was made by a run in some world. */
  ghost predicate OwnRuns(shell: Shell, spec: VerifierSpec, store: Store) {
    forall k :: k in store ==>
      k == (store[k].claimId, store[k].fingerprint) && exists w0 :: MadeBy(shell, spec, store[k], w0)
  }

  lemma OwnRunsGrow(shell: Shell, spec: VerifierSpec, store: Store, ev: Evidence, w0: World)
    requires OwnRuns(shell, spec, store) && MadeBy(shell, spec, ev, w0)
    ensures OwnRuns(shell, spec, store[(ev.claimId, ev.fingerprint) := ev])
  {
    hide MadeBy;
  }

  lemma {:induction false} HistoryOwnRuns(shell: Shell, spec: VerifierSpec, history: seq<World>)
    requires Plain(spec)
    ensures OwnRuns(shell, spec, After(OneClaim(shell, spec), history).evidence)
    decreases |history|
  {
    hide Verify, RunOne, OwnRuns;
    if history == [] {
      NoRunsYet(shell, spec);
    } else {
      var tool, w := OneClaim(shell, spec), history[|history| - 1];
      var d := After(tool, history[..|history| - 1]);
      HistoryOwnRuns(shell, spec, history[..|history| - 1]);
      StoreAfter(shell, spec, w, d);
      RunMadeBy(shell, spec, w);
      var one := RunOne(shell, map["v" := spec], w, w.ws, TheNeed(spec));
      if one.Ok? { OwnRunsGrow(shell, spec, d.evidence, one.value.0, w); }
    }
  }

  lemma NoRunsYet(shell: Shell, spec: VerifierSpec)
    ensures OwnRuns(shell, spec, map[])
  {
  }

  lemma RunMadeBy(shell: Shell, spec: VerifierSpec, w: World)
    requires Plain(spec)
    ensures var one := RunOne(shell, map["v" := spec], w, w.ws, TheNeed(spec));
            one.Ok? ==> MadeBy(shell, spec, one.value.0, w)
  {
    RunLeaves(shell, spec, w);
    hide RunOne, FitsRun;
  }

  /** The store after one run: as it was after a hit or a run that fails, else with the one
      fresh proof. */
  lemma StoreAfter(shell: Shell, spec: VerifierSpec, w: World, d: Disk)
    requires Plain(spec)
    ensures var one := RunOne(shell, map["v" := spec], w, w.ws, TheNeed(spec));
            Verify(OneClaim(shell, spec), w, d).1.evidence ==
              if Lookup(d.evidence, "c", ContextOf(w, TheNeed(spec)), w.now).Hit? || one.Err? then d.evidence
              else d.evidence[(one.value.0.claimId, one.value.0.fingerprint) := one.value.0]
  {
    hide Gate, ContextOf, Lookup, Final, RunOne, ProbeAll, RunAll, Report, DriftAfter, Saved;
    OneProbe(shell, spec, w, d.evidence);
    OneRun(shell, spec, w);
    assert NOTHING.needs + [TheNeed(spec)] == [TheNeed(spec)];
    SavedNone(d.evidence);
    var one := RunOne(shell, map["v" := spec], w, w.ws, TheNeed(spec));
    if one.Ok? { SavedOne(d.evidence, one.value.0); }
  }

  /** One run from nothing. */
  lemma FirstStore(shell: Shell, spec: VerifierSpec, w0: World)
    requires Plain(spec) && RunOne(shell, map["v" := spec], w0, w0.ws, TheNeed(spec)).Ok?
    ensures var ev := RunOne(shell, map["v" := spec], w0, w0.ws, TheNeed(spec)).value.0;
            After(OneClaim(shell, spec), [w0]).evidence == map[(ev.claimId, ev.fingerprint) := ev]
  {
    hide Verify, RunOne, Lookup;
    assert [w0][..0] == [];
    MissOnEmpty(spec, w0);
    StoreAfter(shell, spec, w0, FRESH);
  }

  lemma SavedNone(store: Store)
    ensures Saved(store, []) == store
  {
  }

  lemma SavedOne(store: Store, ev: Evidence)
    ensures Saved(store, [ev]) == store[(ev.claimId, ev.fingerprint) := ev]
  {
    assert [ev][..0] == [];
  }

  /** A hit is the proof of an earlier run, of the same registry, contract and platform, in a
      workspace that left what is seen now, inside the window. */
  lemma HitIsBelieved(shell: Shell, spec: VerifierSpec, store: Store, w: World) returns (w0: World)
    requires Plain(spec) && OwnRuns(shell, spec, store)
    requires Lookup(store, "c", ContextOf(w, TheNeed(spec)), w.now).Hit?
    ensures MadeBy(shell, spec, Lookup(store, "c", ContextOf(w, TheNeed(spec)), w.now).evidence, w0)
    ensures w0.platform == w.platform && Believed(shell, spec, w0.ws, w.ws, w.platform, w0.now, w.now)
  {
    var ctx := ContextOf(w, TheNeed(spec));
    var ev := store[("c", ctx.fingerprint)];
    w0 :| MadeBy(shell, spec, ev, w0);
    NoReasonsIffCurrent(ev, ctx, w.now);
    SubjectHashNotEmpty(spec.files, w0.ws.root);
    var l := Leaves(shell, spec, w0.ws, w0.platform, w0.now).value;
    SubjectHashNotEmpty(spec.files, l.after.root);
    SubjectHashNotEmpty(spec.files, w.ws.root);
  }

  /** What is believed is looked up and found: one run, then the world that looks alike. */
  lemma BelievedIsHit(shell: Shell, spec: VerifierSpec, a: Workspace, b: Workspace,
                      platform: Platform, then_: int, now: int)
    requires Plain(spec) && Believed(shell, spec, a, b, platform, then_, now)
    ensures var r := Lookup(After(OneClaim(shell, spec), [At(a, platform, then_)]).evidence, "c",
                            ContextOf(At(b, platform, now), TheNeed(spec)), now);
            r.Hit? && FitsRun(spec, At(a, platform, then_), Leaves(shell, spec, a, platform, then_).value, r.evidence)
  {
    hide Verify, RunOne, Lookup, FitsRun;
    var tool, w0, w := OneClaim(shell, spec), At(a, platform, then_), At(b, platform, now);
    RunLeaves(shell, spec, w0);
    FirstStore(shell, spec, w0);
    var ev := RunOne(shell, map["v" := spec], w0, a, TheNeed(spec)).value.0;
    FoundCurrent(spec, w0, w, Leaves(shell, spec, a, platform, then_).value, ev);
  }

  lemma FoundCurrent(spec: VerifierSpec, w0: World, w: World, l: Left, ev: Evidence)
    requires FitsRun(spec, w0, l, ev) && l.state != Invalid
    requires HeldAlike(spec, l.after, w.ws) && InWindow(spec, w0.now, w.now)
    requires w.registryText == w0.registryText && w.contractText == w0.contractText
    requires w.platform == w0.platform && w.actor == w0.actor
    ensures Lookup(map[(ev.claimId, ev.fingerprint) := ev], "c", ContextOf(w, TheNeed(spec)), w.now) == Hit(ev)
  {
    SubjectHashNotEmpty(spec.files, w.ws.root);
    NoReasonsIffCurrent(ev, ContextOf(w, TheNeed(spec)), w.now);
  }

  // ---------------------------------------------------------------- verdicts of the one claim

  /** The one claim is shown in the state of its one proof. */
  lemma OneState(ev: Evidence)
    requires ev.claimId == "c" && (ev.state == Valid ==> ev.exitCode == 0)
    ensures Evaluate([CLAIM], [ev]).claims == [ClaimResult("c", true, false, ev.state)]
    ensures Evaluate([CLAIM], [ev]).decision == if ev.state == Valid then Accepted else EvidenceRequired
  {
    assert [ev][1..] == [] && [ev] + [] == [ev];
    assert For([ev], "c") == [ev];
    assert FirstValid([ev]) == if ev.state == Valid then Some(ev) else None;
    assert CLAIM in [CLAIM] && forall c :: c in [CLAIM] ==> c == CLAIM;
    assert Lacking([CLAIM], [ev]) <==> MissingProof(CLAIM, [ev]);
  }

  /** The verdict on a hit, and on a run, under any policies. */
  lemma VerdictOnHit(shell: Shell, spec: VerifierSpec, w: World, d: Disk)
    requires Plain(spec) && Lookup(d.evidence, "c", ContextOf(w, TheNeed(spec)), w.now).Hit?
    ensures var ev := Lookup(d.evidence, "c", ContextOf(w, TheNeed(spec)), w.now).evidence;
            Verify(OneClaim(shell, spec), w, d).0
              == Decided(Final([CLAIM], [ev.(executor := w.executor)], Merged(w.policies), []))
  {
    hide Gate, ContextOf, Lookup, Final, RunOne, ProbeAll, RunAll, Report, DriftAfter, Saved;
    OneProbe(shell, spec, w, d.evidence);
    OneRun(shell, spec, w);
    var hit := Lookup(d.evidence, "c", ContextOf(w, TheNeed(spec)), w.now).evidence.(executor := w.executor);
    assert NOTHING.stored + [hit] == [hit] && [hit] + [] == [hit];
  }

  lemma VerdictOnRun(shell: Shell, spec: VerifierSpec, w: World, d: Disk) returns (staleIds: seq<string>)
    requires Plain(spec) && !Lookup(d.evidence, "c", ContextOf(w, TheNeed(spec)), w.now).Hit?
    ensures var one := RunOne(shell, map["v" := spec], w, w.ws, TheNeed(spec));
            Verify(OneClaim(shell, spec), w, d).0 ==
              match one
              case Err(e) => Aborted(e)
              case Ok(r) => Decided(Final([CLAIM], [r.0], Merged(w.policies), staleIds))
    ensures staleIds == if Lookup(d.evidence, "c", ContextOf(w, TheNeed(spec)), w.now).StaleProof? then ["c"] else []
  {
    OneProbe(shell, spec, w, d.evidence);
    OneRun(shell, spec, w);
    var p := ProbeOne(w, d.evidence, NOTHING, TheNeed(spec));
    assert NOTHING.needs + [TheNeed(spec)] == [TheNeed(spec)];
    staleIds := p.staleIds;
    assert NOTHING.staleIds + ["c"] == ["c"];
    var one := RunOne(shell, map["v" := spec], w, w.ws, TheNeed(spec));
    if one.Ok? { assert [] + [one.value.0] == [one.value.0]; }
  }

  /** Proofs in one state give one verdict. */
  lemma SameStateSameVerdict(x: Evidence, y: Evidence, policy: Policy, ids: seq<string>, jds: seq<string>)
    requires x.claimId == y.claimId == "c" && x.state == y.state
    requires (x.state == Valid ==> x.exitCode == 0) && (y.state == Valid ==> y.exitCode == 0)
    ensures SameVerdict(Decided(Final([CLAIM], [x], policy, ids)), Decided(Final([CLAIM], [y], policy, jds)),
                        policy.escalateOnStale)
  {
    OneState(x);
    OneState(y);
    FinalAccepts([CLAIM], [x], policy, ids);
    FinalAccepts([CLAIM], [y], policy, jds);
  }

  /** Without a policy, proofs in different states are told apart. */
  lemma OtherStateOtherVerdict(x: Evidence, y: Evidence, ids: seq<string>, jds: seq<string>)
    requires x.claimId == y.claimId == "c" && x.state != y.state
    requires (x.state == Valid ==> x.exitCode == 0) && (y.state == Valid ==> y.exitCode == 0)
    ensures Final([CLAIM], [x], Merged([]), ids) != Final([CLAIM], [y], Merged([]), jds)
  {
    OneState(x);
    OneState(y);
    NoPolicyIsTheTable([CLAIM], [x], ids);
    NoPolicyIsTheTable([CLAIM], [y], jds);
  }

  // ---------------------------------------------------------------- exactly when reuse is exact

  /** For any verifier at all, quiet or not: reuse is exact if and only if whatever a run leaves
      that is not Invalid is left again by a run in any workspace that looks like the one left
      behind, inside the window. */
  lemma ReuseExactIffRepeats(shell: Shell, spec: VerifierSpec, platform: Platform)
    requires Plain(spec)
    ensures ReuseExact(OneClaim(shell, spec), platform) <==> Repeats(shell, spec, platform)
  {
    hide Verify, After, Believed, SameState, Leaves, SameVerdict, Merged, OwnRuns;
    var tool := OneClaim(shell, spec);
    if Repeats(shell, spec, platform) {
      forall history, w: World | w.platform == platform
        ensures SameVerdict(Cached(tool, history, w), Rerun(tool, history, w), Merged(w.policies).escalateOnStale)
      {
        HistoryOwnRuns(shell, spec, history);
        RepeatedSameVerdict(shell, spec, w, After(tool, history));
      }
    } else {
      var a, b, then_, now :| Believed(shell, spec, a, b, platform, then_, now)
        && !SameState(Leaves(shell, spec, a, platform, then_), Leaves(shell, spec, b, platform, now));
      UnrepeatedOtherVerdict(shell, spec, a, b, platform, then_, now);
      assert !SameVerdict(Cached(tool, [At(a, platform, then_)], At(b, platform, now)),
                          Rerun(tool, [At(a, platform, then_)], At(b, platform, now)),
                          Merged(At(b, platform, now).policies).escalateOnStale);
    }
  }

  lemma RepeatedSameVerdict(shell: Shell, spec: VerifierSpec, w: World, d: Disk)
    requires Plain(spec) && Repeats(shell, spec, w.platform) && OwnRuns(shell, spec, d.evidence)
    ensures SameVerdict(Verify(OneClaim(shell, spec), w, d).0,
                        Verify(OneClaim(shell, spec), w, d.(evidence := map[])).0,
                        Merged(w.policies).escalateOnStale)
  {
    hide Verify, Lookup, Final, Leaves, RunOne, Merged;
    var r := Lookup(d.evidence, "c", ContextOf(w, TheNeed(spec)), w.now);
    MissOnEmpty(spec, w);
    var jds := VerdictOnRun(shell, spec, w, d.(evidence := map[]));
    RunLeaves(shell, spec, w);
    if r.Hit? {
      var w0 := HitIsBelieved(shell, spec, d.evidence, w);
      VerdictOnHit(shell, spec, w, d);
      var again := RunOne(shell, map["v" := spec], w, w.ws, TheNeed(spec)).value.0;
      SameStateSameVerdict(r.evidence.(executor := w.executor), again, Merged(w.policies), [], jds);
    } else {
      var ids := VerdictOnRun(shell, spec, w, d);
      var one := RunOne(shell, map["v" := spec], w, w.ws, TheNeed(spec));
      if one.Ok? { SameStateSameVerdict(one.value.0, one.value.0, Merged(w.policies), ids, jds); }
    }
  }

  lemma MissOnEmpty(spec: VerifierSpec, w: World)
    ensures !Lookup(map[], "c", ContextOf(w, TheNeed(spec)), w.now).Hit?
  {
  }

  lemma UnrepeatedOtherVerdict(shell: Shell, spec: VerifierSpec, a: Workspace, b: Workspace,
                               platform: Platform, then_: int, now: int)
    requires Plain(spec) && Believed(shell, spec, a, b, platform, then_, now)
    requires !SameState(Leaves(shell, spec, a, platform, then_), Leaves(shell, spec, b, platform, now))
    ensures var tool, w := OneClaim(shell, spec), At(b, platform, now);
            !SameVerdict(Cached(tool, [At(a, platform, then_)], w), Rerun(tool, [At(a, platform, then_)], w), false)
    ensures !Merged(At(b, platform, now).policies).escalateOnStale
  {
    hide Verify, Lookup, Final, Leaves, RunOne;
    var tool, w := OneClaim(shell, spec), At(b, platform, now);
    var d := After(tool, [At(a, platform, then_)]);
    BelievedIsHit(shell, spec, a, b, platform, then_, now);
    VerdictOnHit(shell, spec, w, d);
    MissOnEmpty(spec, w);
    var jds := VerdictOnRun(shell, spec, w, d.(evidence := map[]));
    RunLeaves(shell, spec, w);
    var ev := Lookup(d.evidence, "c", ContextOf(w, TheNeed(spec)), w.now).evidence;
    var one := RunOne(shell, map["v" := spec], w, b, TheNeed(spec));
    if one.Ok? {
      OtherStateOtherVerdict(ev.(executor := w.executor), one.value.0, [], jds);
    }
  }

  /** The verifier leaves the workspace alone: no command does, or it is no command. */
  ghost predicate Still(shell: Shell, spec: VerifierSpec) {
    Quiet(shell) || spec.kind != "shell"
  }

  lemma StillObserve(shell: Shell, spec: VerifierSpec, ws: Workspace, platform: Platform, now: int)
    requires Still(shell, spec) && Observe(shell, spec, ws, platform, now).Ok?
    ensures Observe(shell, spec, ws, platform, now).value.after == ws
  {
  }

  /** For a verifier that leaves the workspace alone this says that it is covered. */
  lemma StillRepeats(shell: Shell, spec: VerifierSpec, platform: Platform)
    requires Still(shell, spec)
    ensures Repeats(shell, spec, platform) <==> Covered(shell, spec, platform)
  {
    hide Believed, SameState, Leaves, Proves, LooksAlike, InWindow;
    forall a, b, then_, now
      ensures Believed(shell, spec, a, b, platform, then_, now) <==>
              LooksAlike(spec, a, b) && InWindow(spec, then_, now) && Proves(shell, spec, a, platform, then_)
      ensures Believed(shell, spec, a, b, platform, then_, now) ==>
              (SameState(Leaves(shell, spec, a, platform, then_), Leaves(shell, spec, b, platform, now))
               <==> Proves(shell, spec, b, platform, now))
    {
      StillBelieved(shell, spec, a, b, platform, then_, now);
    }
  }

  lemma StillBelieved(shell: Shell, spec: VerifierSpec, a: Workspace, b: Workspace,
                      platform: Platform, then_: int, now: int)
    requires Still(shell, spec)
    ensures Believed(shell, spec, a, b, platform, then_, now) <==>
            LooksAlike(spec, a, b) && InWindow(spec, then_, now) && Proves(shell, spec, a, platform, then_)
    ensures Believed(shell, spec, a, b, platform, then_, now) ==>
            (SameState(Leaves(shell, spec, a, platform, then_), Leaves(shell, spec, b, platform, now))
             <==> Proves(shell, spec, b, platform, now))
  {
    if Observe(shell, spec, a, platform, then_).Ok? { StillObserve(shell, spec, a, platform, then_); }
    if Observe(shell, spec, b, platform, now).Ok? { StillObserve(shell, spec, b, platform, now); }
  }

  /** Reuse is exact for such a verifier if and only if it is covered. */
  lemma ReuseExactIffCovered(shell: Shell, spec: VerifierSpec, platform: Platform)
    requires Still(shell, spec) && Plain(spec)
    ensures Covered(shell, spec, platform) <==> ReuseExact(OneClaim(shell, spec), platform)
  {
    ReuseExactIffRepeats(shell, spec, platform);
    StillRepeats(shell, spec, platform);
  }

  // ---------------------------------------------------------------- Stale proofs handed back

  /** Some history leaves a Stale proof that some later run takes for a hit. */
  ghost predicate StaleHandedBack(shell: Shell, spec: VerifierSpec, platform: Platform) {
    exists history, w: World ::
      w.platform == platform && StaleHit(After(OneClaim(shell, spec), history).evidence, spec, w)
  }

  predicate StaleHit(store: Store, spec: VerifierSpec, w: World) {
    var r := Lookup(store, "c", ContextOf(w, TheNeed(spec)), w.now);
    r.Hit? && r.evidence.state == Stale
  }

  /** The command leaves another commit or dirty flag somewhere, whatever its exit code. */
  ghost predicate MovesWorkspace(shell: Shell, spec: VerifierSpec, platform: Platform) {
    spec.kind == "shell" && exists ws, now :: MovesIt(shell, spec, ws, platform, now)
  }

  predicate MovesIt(shell: Shell, spec: VerifierSpec, ws: Workspace, platform: Platform, now: int) {
    var x := shell(spec.run, spec.timeout, ws, platform, now);
    x.Some? && Moved(x.value.after, ws)
  }

  lemma StaleNeedsMove(shell: Shell, spec: VerifierSpec, store: Store, w: World)
    requires Plain(spec) && OwnRuns(shell, spec, store) && StaleHit(store, spec, w)
    ensures MovesWorkspace(shell, spec, w.platform)
  {
    hide Lookup, ContextOf, OwnRuns, Passes;
    var w0 := HitIsBelieved(shell, spec, store, w);
    assert MovesIt(shell, spec, w0.ws, w.platform, w0.now);
  }

  lemma MoveGivesStale(shell: Shell, spec: VerifierSpec, ws: Workspace, platform: Platform, now: int)
    requires Plain(spec) && spec.kind == "shell" && MovesIt(shell, spec, ws, platform, now)
    ensures StaleHandedBack(shell, spec, platform)
  {
    hide Lookup, ContextOf, After, SubjectHash;
    var after := shell(spec.run, spec.timeout, ws, platform, now).value.after;
    assert Leaves(shell, spec, ws, platform, now) == Ok(Left(Stale, after));
    assert Believed(shell, spec, ws, after, platform, now, now);
    BelievedIsHit(shell, spec, ws, after, platform, now, now);
    assert StaleHit(After(OneClaim(shell, spec), [At(ws, platform, now)]).evidence, spec, At(after, platform, now));
  }

  /** A Stale proof is handed back as a hit if and only if the verifier is a command that, in some
      workspace at some time, leaves another commit or dirty flag. */
  lemma StaleHandedBackExact(shell: Shell, spec: VerifierSpec, platform: Platform)
    requires Plain(spec)
    ensures StaleHandedBack(shell, spec, platform) <==> MovesWorkspace(shell, spec, platform)
  {
    hide StaleHit, MovesIt, After;
    if StaleHandedBack(shell, spec, platform) {
      var history, w: World :|
        w.platform == platform && StaleHit(After(OneClaim(shell, spec), history).evidence, spec, w);
      HistoryOwnRuns(shell, spec, history);
      StaleNeedsMove(shell, spec, After(OneClaim(shell, spec), history).evidence, w);
    }
    if MovesWorkspace(shell, spec, platform) {
      var ws, now :| MovesIt(shell, spec, ws, platform, now);
      MoveGivesStale(shell, spec, ws, platform, now);
    }
  }

  // ---------------------------------------------------------------- what it costs

  /** With no policy a run is accepted on its one proof exactly when that is Valid. */
  lemma AcceptedOn(ev: Evidence, ids: seq<string>)
    requires ev.claimId == "c" && (ev.state == Valid ==> ev.exitCode == 0)
    ensures Final([CLAIM], [ev], Merged([]), ids).decision == Accepted <==> ev.state == Valid
  {
    OneState(ev);
    NoPolicyIsTheTable([CLAIM], [ev], ids);
  }

  /** On what is believed the cached run and the re-run each decide by their own state. */
  lemma TwoVerdicts(shell: Shell, spec: VerifierSpec, a: Workspace, b: Workspace,
                    platform: Platform, then_: int, now: int)
    requires Plain(spec) && Believed(shell, spec, a, b, platform, then_, now)
    ensures var tool, w := OneClaim(shell, spec), At(b, platform, now);
            var c, r := Cached(tool, [At(a, platform, then_)], w), Rerun(tool, [At(a, platform, then_)], w);
            var l, m := Leaves(shell, spec, a, platform, then_), Leaves(shell, spec, b, platform, now);
      && c.Decided? && (c.result.decision == Accepted <==> l.value.state == Valid)
      && (r.Decided? <==> m.Ok?)
      && (r.Decided? ==> (r.result.decision == Accepted <==> m.value.state == Valid))
  {
    hide Verify, Lookup, Final, Leaves, RunOne;
    var tool, w := OneClaim(shell, spec), At(b, platform, now);
    var d := After(tool, [At(a, platform, then_)]);
    BelievedIsHit(shell, spec, a, b, platform, then_, now);
    VerdictOnHit(shell, spec, w, d);
    MissOnEmpty(spec, w);
    var ids := VerdictOnRun(shell, spec, w, d.(evidence := map[]));
    RunLeaves(shell, spec, w);
    AcceptedOn(Lookup(d.evidence, "c", ContextOf(w, TheNeed(spec)), w.now).evidence.(executor := w.executor), []);
    var one := RunOne(shell, map["v" := spec], w, b, TheNeed(spec));
    if one.Ok? { AcceptedOn(one.value.0, ids); }
  }

  /** Accepted on a stored proof where running again would not accept. */
  ghost predicate Misled(tool: Tool, history: seq<World>, w: World) {
    && Cached(tool, history, w).Decided? && Cached(tool, history, w).result.decision == Accepted
    && !(Rerun(tool, history, w).Decided? && Rerun(tool, history, w).result.decision == Accepted)
  }

  /** A verifier that leaves the workspace alone and is not covered is believed when it should not be. */
  lemma UncoveredIsReused(shell: Shell, spec: VerifierSpec, a: Workspace, b: Workspace,
                          platform: Platform, then_: int, now: int)
    requires Still(shell, spec) && Plain(spec) && LooksAlike(spec, a, b) && InWindow(spec, then_, now)
    requires Proves(shell, spec, a, platform, then_) && !Proves(shell, spec, b, platform, now)
    ensures Misled(OneClaim(shell, spec), [At(a, platform, then_)], At(b, platform, now))
  {
    StillBelieved(shell, spec, a, b, platform, then_, now);
    StillState(shell, spec, a, platform, then_);
    StillState(shell, spec, b, platform, now);
    TwoVerdicts(shell, spec, a, b, platform, then_, now);
    hide Cached, Rerun, Leaves, Proves, Believed;
  }

  lemma StillState(shell: Shell, spec: VerifierSpec, ws: Workspace, platform: Platform, now: int)
    requires Still(shell, spec)
    ensures var l := Leaves(shell, spec, ws, platform, now);
            l.Ok? && l.value.state == Valid <==> Proves(shell, spec, ws, platform, now)
  {
    if Observe(shell, spec, ws, platform, now).Ok? { StillObserve(shell, spec, ws, platform, now); }
  }

  /** A verifier that moved the commit leaves a proof saved as Stale; that proof is handed back
      as a hit ever after, and the run stays short of evidence where a re-run would accept. */
  lemma StaleSavedIsReused(shell: Shell, run: string, a: Workspace, b: Workspace, platform: Platform, now: int)
    requires Plain(ShellSpec(run)) && a.commit != b.commit
    requires shell(run, DEFAULT_TIMEOUT_SECS, a, platform, now) == Some(Execution(0, "", b))
    requires shell(run, DEFAULT_TIMEOUT_SECS, b, platform, now) == Some(Execution(0, "", b))
    ensures var tool, w0, w := OneClaim(shell, ShellSpec(run)), At(a, platform, now), At(b, platform, now);
      && Cached(tool, [w0], w).Decided? && Cached(tool, [w0], w).result.decision != Accepted
      && Rerun(tool, [w0], w).Decided? && Rerun(tool, [w0], w).result.decision == Accepted
  {
    var spec := ShellSpec(run);
    assert Leaves(shell, spec, a, platform, now) == Ok(Left(Stale, b));
    assert Leaves(shell, spec, b, platform, now) == Ok(Left(Valid, b));
    assert Believed(shell, spec, a, b, platform, now, now);
    TwoVerdicts(shell, spec, a, b, platform, now, now);
  }

  const STRICT := PolicyTable(None, Some(true), None, Some(1.0))

  lemma StrictMerged()
    ensures Merged([Some(STRICT)]) == Policy(true, true, false, 1.0)
  {
    assert [Some(STRICT)][..0] == [];
    assert Merged([]) == DEFAULT_POLICY;
  }

  /** A run that ends with the verified ratio below its minimum and still does not reject: the
      commit moved on, the proof went stale, and running again fails. */
  lemma BelowMinimumEscalates(shell: Shell, run: string, a: Workspace, b: Workspace, platform: Platform, now: int)
    requires Plain(ShellSpec(run)) && a.commit != b.commit
    requires shell(run, DEFAULT_TIMEOUT_SECS, a, platform, now) == Some(Execution(0, "", a))
    requires shell(run, DEFAULT_TIMEOUT_SECS, b, platform, now) == Some(Execution(1, "", b))
    ensures var tool := OneClaim(shell, ShellSpec(run));
            var w := At(b, platform, now).(policies := [Some(STRICT)]);
            var r := Cached(tool, [At(a, platform, now)], w);
            r.Decided? && Below(r.result.claims, Merged(w.policies)) && r.result.decision == Escalated
  {
    var spec := ShellSpec(run);
    var tool, w0, w := OneClaim(shell, spec), At(a, platform, now), At(b, platform, now).(policies := [Some(STRICT)]);
    var d := After(tool, [w0]);
    WentStale(shell, spec, w0, w);
    RunLeaves(shell, spec, w);
    var ids := VerdictOnRun(shell, spec, w, d);
    var ev := RunOne(shell, map["v" := spec], w, b, TheNeed(spec)).value.0;
    assert ev.state == Invalid;
    StrictMerged();
    BelowEscalates(ev, ids);
  }

  /** After one Valid run, another commit finds its proof stale. */
  lemma WentStale(shell: Shell, spec: VerifierSpec, w0: World, w: World)
    requires Plain(spec) && w.actor == w0.actor && w.ws.commit != w0.ws.commit
    requires Leaves(shell, spec, w0.ws, w0.platform, w0.now) == Ok(Left(Valid, w0.ws))
    ensures Lookup(After(OneClaim(shell, spec), [w0]).evidence, "c", ContextOf(w, TheNeed(spec)), w.now).StaleProof?
  {
    hide Verify, RunOne;
    RunLeaves(shell, spec, w0);
    FirstStore(shell, spec, w0);
    var ev := RunOne(shell, map["v" := spec], w0, w0.ws, TheNeed(spec)).value.0;
    NoReasonsIffCurrent(ev, ContextOf(w, TheNeed(spec)), w.now);
  }

  lemma BelowEscalates(ev: Evidence, ids: seq<string>)
    requires ev.claimId == "c" && ev.state == Invalid && ids == ["c"]
    ensures var policy := Policy(true, true, false, 1.0);
            var r := Final([CLAIM], [ev], policy, ids);
            Below(r.claims, policy) && r.decision == Escalated
  {
    OneState(ev);
    var policy, shown := Policy(true, true, false, 1.0), Evaluate([CLAIM], [ev]).claims;
    assert shown[..0] == [];
    assert CountValid(shown) == 0;
    assert Below(shown, policy);
    assert forall c :: c in [CLAIM] ==> c == CLAIM;
    RatioYieldsToStale([CLAIM], [ev], policy, ids);
    assert "c" in ids && !Renewed([CLAIM], [ev], "c");
  }
}
