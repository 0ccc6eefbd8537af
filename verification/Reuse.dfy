/** Reusing stored proofs refines running every verifier again. */
module Reuse {
  import opened Bindings
  import opened Decisions
  import opened Digests
  import opened EvidenceStore
  import opened Ir
  import opened Prelude
  import opened Verifier
  import opened VerifyRun
  import opened Watch

  const FRESH := Disk(map[], map[], [], None, Empty, "")

  /** A history: one verify run in each world, anything at all happening in between. */
  function After(tool: Tool, history: seq<World>): Disk {
    if history == [] then FRESH
    else Verify(tool, history[|history| - 1], After(tool, history[..|history| - 1])).1
  }

  /** No verifier changes the workspace it runs in. */
  ghost predicate Quiet(shell: Shell) {
    forall run, timeout, ws, platform, now :: shell(run, timeout, ws, platform, now).Some? ==>
      shell(run, timeout, ws, platform, now).value.after == ws
  }

  // ---------------------------------------------------------------- where stored proofs come from

  /** The proof a completed run made of verification `n.v`, in world `w`. */
  ghost predicate Made(tool: Tool, w: World, ws: Workspace, n: Need, ev: Evidence) {
    var reg := tool.registryOf(w.registryText);
    && tool.contractOf(w.contractText).Some?
    && n.v in tool.contractOf(w.contractText).value.verification
    && Gate(reg, w.bindings, n.v) == Ok(n)
    && RunOne(tool.shell, reg, w, ws, n).Ok?
    && RunOne(tool.shell, reg, w, ws, n).value.0 == ev
    && (Quiet(tool.shell) ==> ws == w.ws)
  }

  /** What is known of the bindings of a history: nothing, that each has a hash, or that each
      was stamped by the act of binding. */
  datatype Trust = Anyhow | WithHashes | WithStamps

  ghost predicate Meets(w: World, trust: Trust) {
    match trust
    case Anyhow => true
    case WithHashes => Hashed(w.bindings)
    case WithStamps => Sane(w)
  }

  /** Some run made it. */
  ghost predicate HasOrigin(tool: Tool, ev: Evidence, trust: Trust) {
    exists w, ws, n :: Made(tool, w, ws, n, ev) && Meets(w, trust)
  }

  /** Every stored proof sits under its own claim and fingerprint and was made by some run. */
  ghost predicate Reachable(tool: Tool, store: Store, trust: Trust) {
    forall k :: k in store ==> k == (store[k].claimId, store[k].fingerprint) && HasOrigin(tool, store[k], trust)
  }

  lemma {:induction false} NeedsGated(reg: Registry, w: World, store: Store, vs: seq<VerificationIr>)
    requires ProbeAll(reg, w, store, vs).Ok?
    ensures forall n :: n in ProbeAll(reg, w, store, vs).value.needs ==>
              n.v in vs && Gate(reg, w.bindings, n.v) == Ok(n)
    decreases |vs|
  {
    if vs != [] {
      NeedsGated(reg, w, store, vs[..|vs| - 1]);
      assert vs == vs[..|vs| - 1] + [vs[|vs| - 1]];
    }
  }

  lemma QuietRun(shell: Shell, reg: Registry, w: World, ws: Workspace, n: Need)
    requires Quiet(shell) && RunOne(shell, reg, w, ws, n).Ok?
    ensures RunOne(shell, reg, w, ws, n).value.1 == ws
  {
  }

  lemma {:induction false} RunAllMade(tool: Tool, w: World, needs: seq<Need>, trust: Trust)
    requires Meets(w, trust) && tool.contractOf(w.contractText).Some?
    requires RunAll(tool.shell, tool.registryOf(w.registryText), w, needs).Ok?
    requires forall n :: n in needs ==>
               && n.v in tool.contractOf(w.contractText).value.verification
               && Gate(tool.registryOf(w.registryText), w.bindings, n.v) == Ok(n)
    ensures forall ev :: ev in RunAll(tool.shell, tool.registryOf(w.registryText), w, needs).value.0 ==>
              HasOrigin(tool, ev, trust)
    ensures Quiet(tool.shell) ==> RunAll(tool.shell, tool.registryOf(w.registryText), w, needs).value.1 == w.ws
    decreases |needs|
  {
    if needs != [] {
      var reg := tool.registryOf(w.registryText);
      var init, n := needs[..|needs| - 1], needs[|needs| - 1];
      RunAllMade(tool, w, init, trust);
      var sofar := RunAll(tool.shell, reg, w, init).value;
      var one := RunOne(tool.shell, reg, w, sofar.1, n).value;
      if Quiet(tool.shell) { QuietRun(tool.shell, reg, w, sofar.1, n); }
      assert n in needs;
      assert Made(tool, w, sofar.1, n, one.0);
    }
  }

  lemma {:induction false} SavedFrom(store: Store, made: seq<Evidence>)
    ensures forall k :: k in Saved(store, made) ==>
              (k in store && Saved(store, made)[k] == store[k])
              || (Saved(store, made)[k] in made
                  && k == (Saved(store, made)[k].claimId, Saved(store, made)[k].fingerprint))
    decreases |made|
  {
    if made != [] { SavedFrom(store, made[..|made| - 1]); }
  }

  /** Every store a history can leave behind is reachable. */
  lemma {:induction false} HistoryReachable(tool: Tool, history: seq<World>, trust: Trust)
    requires forall i :: 0 <= i < |history| ==> Meets(history[i], trust)
    ensures Reachable(tool, After(tool, history).evidence, trust)
    decreases |history|
  {
    if history != [] {
      var before, w := After(tool, history[..|history| - 1]), history[|history| - 1];
      HistoryReachable(tool, history[..|history| - 1], trust);
      if Verify(tool, w, before).0.Decided? {
        var c := tool.contractOf(w.contractText).value;
        var reg := tool.registryOf(w.registryText);
        NeedsGated(reg, w, before.evidence, c.verification);
        var p := ProbeAll(reg, w, before.evidence, c.verification).value;
        RunAllMade(tool, w, p.needs, trust);
        SavedFrom(before.evidence, RunAll(tool.shell, reg, w, p.needs).value.0);
      }
    }
  }

  // ---------------------------------------------------------------- hits

  lemma GateSpec(reg: Registry, bindings: Bound, n: Need)
    requires Gate(reg, bindings, n.v) == Ok(n)
    ensures n.spec.Some? <==> n.v.verifierRef in reg
    ensures n.spec.Some? ==> n.spec.value == reg[n.v.verifierRef].(run := n.spec.value.run)
  {
  }

  /** Same fingerprint under the same registry: the proof was made by the very spec that is
      resolved now. */
  lemma SameSpec(tool: Tool, w0: World, ws: Workspace, n0: Need, ev: Evidence, w: World, n: Need)
    requires Made(tool, w0, ws, n0, ev)
    requires Gate(tool.registryOf(w.registryText), w.bindings, n.v) == Ok(n)
    requires ev.fingerprint == ContextOf(w, n).fingerprint
    requires w0.registryText == w.registryText
    ensures n.spec.Some? && n0.spec == n.spec && n0.v.verifierRef == n.v.verifierRef
    ensures SpecOf(tool.registryOf(w0.registryText), n0) == Ok(n.spec.value)
  {
    var reg := tool.registryOf(w.registryText);
    GateSpec(reg, w.bindings, n);
    GateSpec(reg, w0.bindings, n0);
  }

  /** Every dimension of the context, none skipped. */
  ghost predicate Agrees(ev: Evidence, ctx: Context, now: int) {
    && ev.commitSha == ctx.commitSha
    && ev.workspaceDirty == ctx.workspaceDirty
    && ev.artifactHash == ctx.artifactHash.GetOr(Empty)
    && ev.registryHash == ctx.registryHash
    && ev.contractHash == ctx.contractHash
    && ev.platform == ctx.platform
    && ev.bindingHash == ctx.bindingHash.GetOr(Empty)
    && !HasExpired(ev, now)
  }

  ghost predicate OneVerifyPerClaim(vs: seq<VerificationIr>) {
    forall i, j :: 0 <= i < j < |vs| ==> vs[i].claimId != vs[j].claimId
  }

  lemma GateBinding(reg: Registry, bindings: Bound, n: Need)
    requires Gate(reg, bindings, n.v) == Ok(n)
    ensures n.bindingHash.Some? <==> TemplateRef(reg, n.v.verifierRef) || n.v.requirement.Some?
    ensures n.bindingHash.Some? ==> n.v.claimId in bindings && n.bindingHash.value == bindings[n.v.claimId].hash
  {
  }

  lemma MadeFields(tool: Tool, w: World, ws: Workspace, n: Need, ev: Evidence)
    requires Made(tool, w, ws, n, ev)
    ensures ev.registryHash == OfText(w.registryText) && ev.contractHash == OfText(w.contractText)
    ensures ev.platform == w.platform && ev.bindingHash == n.bindingHash.GetOr(Empty)
    ensures ev.claimId == n.v.claimId
    ensures ev.state == Valid ==>
              var spec := SpecOf(tool.registryOf(w.registryText), n).value;
              ev.exitCode == 0 && (ev.artifactHash == Empty ==> spec.files == [])
  {
    var reg := tool.registryOf(w.registryText);
    var spec := SpecOf(reg, n).value;
    var o := Observe(tool.shell, spec, ws, w.platform, w.now).value;
    ValidMeans(n.v.claimId, n.v.verifierRef, spec, o, w.now, w.actor, w.executor);
  }

  /** Every dimension but the binding. */
  ghost predicate AgreesElsewhere(ev: Evidence, ctx: Context, now: int) {
    Agrees(ev.(bindingHash := ctx.bindingHash.GetOr(Empty)), ctx, now)
  }

  /** What the loader asks of the binding: nothing of a proof that carries no hash. */
  predicate BindingHeld(ev: Evidence, ctx: Context) {
    ev.bindingHash == Empty || ctx.bindingHash == Some(ev.bindingHash)
  }

  /** Whatever the bindings: over reachable stores a Valid hit is exactly a stored Valid proof that
      agrees with the current context in every dimension but the binding, and whose binding hash,
      if it carries one, is the current one. */
  lemma HitExactAnyhow(tool: Tool, store: Store, w: World, n: Need)
    requires Reachable(tool, store, Anyhow)
    requires Gate(tool.registryOf(w.registryText), w.bindings, n.v) == Ok(n)
    ensures ValidHit(Lookup(store, n.v.claimId, ContextOf(w, n), w.now)) <==>
              (n.v.claimId, ContextOf(w, n).fingerprint) in store
              && var ev := store[(n.v.claimId, ContextOf(w, n).fingerprint)];
                 ev.state == Valid && AgreesElsewhere(ev, ContextOf(w, n), w.now) && BindingHeld(ev, ContextOf(w, n))
  {
    var ctx := ContextOf(w, n);
    ValidHitCurrent(store, n.v.claimId, ctx, w.now);
    var key := (n.v.claimId, ctx.fingerprint);
    if key in store && store[key].state == Valid {
      assert HasOrigin(tool, store[key], Anyhow);
      var w0, ws, n0 :| Made(tool, w0, ws, n0, store[key]);
      assert key == (store[key].claimId, store[key].fingerprint);
      CurrentExact(tool, w0, ws, n0, store[key], w, n);
    }
  }

  /** Hit exactness: over stores reached under bindings that all have a hash, and one VERIFY per
      claim, a Valid hit is exactly a stored Valid proof that agrees with the current context in
      every dimension, also in those the loader skips when the stored field is empty. */
  lemma HitExact(tool: Tool, store: Store, w: World, n: Need)
    requires Reachable(tool, store, WithHashes)
    requires tool.contractOf(w.contractText).Some?
    requires n.v in tool.contractOf(w.contractText).value.verification
    requires OneVerifyPerClaim(tool.contractOf(w.contractText).value.verification)
    requires Gate(tool.registryOf(w.registryText), w.bindings, n.v) == Ok(n)
    ensures ValidHit(Lookup(store, n.v.claimId, ContextOf(w, n), w.now)) <==>
              (n.v.claimId, ContextOf(w, n).fingerprint) in store
              && store[(n.v.claimId, ContextOf(w, n).fingerprint)].state == Valid
              && Agrees(store[(n.v.claimId, ContextOf(w, n).fingerprint)], ContextOf(w, n), w.now)
  {
    var ctx := ContextOf(w, n);
    ValidHitCurrent(store, n.v.claimId, ctx, w.now);
    var key := (n.v.claimId, ctx.fingerprint);
    if key in store && store[key].state == Valid {
      assert HasOrigin(tool, store[key], WithHashes);
      var w0, ws, n0 :| Made(tool, w0, ws, n0, store[key]) && Hashed(w0.bindings);
      assert key == (store[key].claimId, store[key].fingerprint);
      CurrentAgrees(tool, w0, ws, n0, store[key], w, n);
    }
  }

  /** A rebinding goes unseen exactly when the proof was made under a binding without a hash: the
      current binding has another hash, all else agrees, and the proof is still current. */
  lemma RebindUnseenExact(tool: Tool, w0: World, ws: Workspace, n0: Need, ev: Evidence, w: World, n: Need)
    requires Made(tool, w0, ws, n0, ev) && ev.state == Valid && n0.v == n.v
    requires Gate(tool.registryOf(w.registryText), w.bindings, n.v) == Ok(n)
    requires ev.fingerprint == ContextOf(w, n).fingerprint
    requires AgreesElsewhere(ev, ContextOf(w, n), w.now)
    requires n.bindingHash.Some? && w0.registryText == w.registryText
    ensures n.v.claimId in w0.bindings && n.v.claimId in w.bindings
    ensures w0.bindings[n.v.claimId].hash != w.bindings[n.v.claimId].hash ==>
              (Current(ev, ContextOf(w, n), w.now) <==> w0.bindings[n.v.claimId].hash == Empty)
  {
    MadeFields(tool, w0, ws, n0, ev);
    CurrentExact(tool, w0, ws, n0, ev, w, n);
    GateBinding(tool.registryOf(w.registryText), w.bindings, n);
    GateBinding(tool.registryOf(w0.registryText), w0.bindings, n0);
  }

  predicate ValidHit(r: CacheOutcome) {
    r.Hit? && r.evidence.state == Valid
  }

  lemma ValidHitCurrent(store: Store, claim: string, ctx: Context, now: int)
    requires (claim, ctx.fingerprint) in store ==> store[(claim, ctx.fingerprint)].fingerprint == ctx.fingerprint
    ensures ValidHit(Lookup(store, claim, ctx, now)) <==>
              (claim, ctx.fingerprint) in store && store[(claim, ctx.fingerprint)].state == Valid
              && Current(store[(claim, ctx.fingerprint)], ctx, now)
  {
    if (claim, ctx.fingerprint) in store {
      NoReasonsIffCurrent(store[(claim, ctx.fingerprint)], ctx, now);
    }
  }

  /** For a Valid proof the loader's skipped comparisons lose nothing but the binding. */
  lemma CurrentExact(tool: Tool, w0: World, ws: Workspace, n0: Need, ev: Evidence, w: World, n: Need)
    requires Made(tool, w0, ws, n0, ev) && ev.state == Valid
    requires Gate(tool.registryOf(w.registryText), w.bindings, n.v) == Ok(n)
    requires ev.fingerprint == ContextOf(w, n).fingerprint && ev.claimId == n.v.claimId
    ensures Current(ev, ContextOf(w, n), w.now) <==>
              AgreesElsewhere(ev, ContextOf(w, n), w.now) && BindingHeld(ev, ContextOf(w, n))
  {
    AgreesIsCurrent(ev, ContextOf(w, n), w.now);
    if Current(ev, ContextOf(w, n), w.now) {
      MadeFields(tool, w0, ws, n0, ev);
      CurrentSubject(tool, w0, ws, n0, ev, w, n);
    }
  }

  /** Nor the binding, when it had a hash. */
  lemma CurrentAgrees(tool: Tool, w0: World, ws: Workspace, n0: Need, ev: Evidence, w: World, n: Need)
    requires Made(tool, w0, ws, n0, ev) && ev.state == Valid && Hashed(w0.bindings)
    requires tool.contractOf(w.contractText).Some?
    requires n.v in tool.contractOf(w.contractText).value.verification
    requires OneVerifyPerClaim(tool.contractOf(w.contractText).value.verification)
    requires Gate(tool.registryOf(w.registryText), w.bindings, n.v) == Ok(n)
    requires ev.fingerprint == ContextOf(w, n).fingerprint && ev.claimId == n.v.claimId
    ensures Current(ev, ContextOf(w, n), w.now) <==> Agrees(ev, ContextOf(w, n), w.now)
  {
    CurrentExact(tool, w0, ws, n0, ev, w, n);
    MadeFields(tool, w0, ws, n0, ev);
    if AgreesElsewhere(ev, ContextOf(w, n), w.now) && BindingHeld(ev, ContextOf(w, n)) {
      CurrentBinding(tool, w0, ws, n0, ev, w, n);
    }
    AgreesIsCurrent(ev, ContextOf(w, n), w.now);
  }

  lemma AgreesIsCurrent(ev: Evidence, ctx: Context, now: int)
    ensures AgreesElsewhere(ev, ctx, now) && BindingHeld(ev, ctx) ==> Current(ev, ctx, now)
    ensures Agrees(ev, ctx, now) ==> Current(ev, ctx, now)
  {
  }

  lemma CurrentSubject(tool: Tool, w0: World, ws: Workspace, n0: Need, ev: Evidence, w: World, n: Need)
    requires Made(tool, w0, ws, n0, ev) && ev.state == Valid
    requires Gate(tool.registryOf(w.registryText), w.bindings, n.v) == Ok(n)
    requires ev.fingerprint == ContextOf(w, n).fingerprint && w0.registryText == w.registryText
    requires !SubjectMoved(ev, ContextOf(w, n))
    ensures ev.artifactHash == ContextOf(w, n).artifactHash.GetOr(Empty)
  {
    SameSpec(tool, w0, ws, n0, ev, w, n);
    MadeFields(tool, w0, ws, n0, ev);
    SubjectHashNotEmpty(n.spec.value.files, w.ws.root);
  }

  lemma CurrentBinding(tool: Tool, w0: World, ws: Workspace, n0: Need, ev: Evidence, w: World, n: Need)
    requires Made(tool, w0, ws, n0, ev) && Hashed(w0.bindings)
    requires tool.contractOf(w.contractText).Some?
    requires n.v in tool.contractOf(w.contractText).value.verification
    requires OneVerifyPerClaim(tool.contractOf(w.contractText).value.verification)
    requires Gate(tool.registryOf(w.registryText), w.bindings, n.v) == Ok(n)
    requires w0.registryText == w.registryText && w0.contractText == w.contractText && ev.claimId == n.v.claimId
    requires ev.bindingHash != Empty ==> n.bindingHash == Some(ev.bindingHash)
    ensures ev.bindingHash == n.bindingHash.GetOr(Empty)
  {
    MadeFields(tool, w0, ws, n0, ev);
    SameVerification(tool.contractOf(w.contractText).value.verification, n0.v, n.v);
    GateBinding(tool.registryOf(w.registryText), w.bindings, n);
    GateBinding(tool.registryOf(w0.registryText), w0.bindings, n0);
  }

  lemma SameVerification(vs: seq<VerificationIr>, a: VerificationIr, b: VerificationIr)
    requires OneVerifyPerClaim(vs) && a in vs && b in vs && a.claimId == b.claimId
    ensures a == b
  {
  }

  // ---------------------------------------------------------------- covered verifiers

  /** The spec passes in this workspace. */
  ghost predicate Proves(shell: Shell, spec: VerifierSpec, ws: Workspace, platform: string, now: int) {
    var o := Observe(shell, spec, ws, platform, now);
    o.Ok? && Passes(spec, o.value)
  }

  /** What a stored proof is held against: commit, dirty flag and watched content. */
  ghost predicate LooksAlike(spec: VerifierSpec, a: Workspace, b: Workspace) {
    a.commit == b.commit && a.dirty == b.dirty && SubjectHash(spec.files, a.root) == SubjectHash(spec.files, b.root)
  }

  ghost predicate InWindow(spec: VerifierSpec, then_: int, now: int) {
    spec.maxAgeHours > 0 ==> now < then_ + spec.maxAgeHours * 3600
  }

  /** Passing depends only on what a stored proof is held against, inside its window. */
  ghost predicate Covered(shell: Shell, spec: VerifierSpec, platform: string) {
    forall a, b, then_, now ::
      LooksAlike(spec, a, b) && InWindow(spec, then_, now) && Proves(shell, spec, a, platform, then_)
      ==> Proves(shell, spec, b, platform, now)
  }

  /** The verifier that a verification resolves to here is covered. */
  ghost predicate CoveredAt(tool: Tool, w: World, v: VerificationIr) {
    var n := Gate(tool.registryOf(w.registryText), w.bindings, v);
    n.Ok? && n.value.spec.Some? ==> Covered(tool.shell, n.value.spec.value, w.platform)
  }

  ghost predicate AllCovered(tool: Tool, w: World) {
    tool.contractOf(w.contractText).Some? ==>
      forall v :: v in tool.contractOf(w.contractText).value.verification ==> CoveredAt(tool, w, v)
  }

  lemma QuietObserve(shell: Shell, spec: VerifierSpec, ws: Workspace, platform: string, now: int)
    requires Quiet(shell) && Observe(shell, spec, ws, platform, now).Ok?
    ensures Observe(shell, spec, ws, platform, now).value.after == ws
  {
  }

  /** Under quiet verifiers a fresh proof is Valid exactly when its spec passes, and never Stale. */
  lemma QuietMade(tool: Tool, w: World, n: Need)
    requires Quiet(tool.shell)
    requires RunOne(tool.shell, tool.registryOf(w.registryText), w, w.ws, n).Ok?
    ensures var spec := SpecOf(tool.registryOf(w.registryText), n).value;
            var ev := RunOne(tool.shell, tool.registryOf(w.registryText), w, w.ws, n).value.0;
            && ev.claimId == n.v.claimId
            && ev.state == (if Proves(tool.shell, spec, w.ws, w.platform, w.now) then Valid else Invalid)
            && (ev.state == Valid ==> ev.exitCode == 0)
            && ev.commitSha == w.ws.commit && ev.workspaceDirty == w.ws.dirty
            && ev.artifactHash == SubjectHash(spec.files, w.ws.root).GetOr(Empty)
            && ev.expiresAt == ExpiryOf(spec, w.now)
  {
    var spec := SpecOf(tool.registryOf(w.registryText), n).value;
    QuietObserve(tool.shell, spec, w.ws, w.platform, w.now);
  }

  /** What a hit stands for: running the verifier now would give a Valid proof of the claim. */
  lemma HitWouldPass(tool: Tool, store: Store, w: World, n: Need)
    requires Quiet(tool.shell) && Reachable(tool, store, Anyhow)
    requires Gate(tool.registryOf(w.registryText), w.bindings, n.v) == Ok(n)
    requires n.spec.Some? ==> Covered(tool.shell, n.spec.value, w.platform)
    requires Lookup(store, n.v.claimId, ContextOf(w, n), w.now).Hit?
    ensures var ev := Lookup(store, n.v.claimId, ContextOf(w, n), w.now).evidence;
            && ev.claimId == n.v.claimId && ev.state == Valid && ev.exitCode == 0
            && RunOne(tool.shell, tool.registryOf(w.registryText), w, w.ws, n).Ok?
            && RunOne(tool.shell, tool.registryOf(w.registryText), w, w.ws, n).value.0.state == Valid
  {
    var ctx := ContextOf(w, n);
    var ev := store[(n.v.claimId, ctx.fingerprint)];
    assert HasOrigin(tool, ev, Anyhow);
    var w0, ws, n0 :| Made(tool, w0, ws, n0, ev);
    MadeFields(tool, w0, ws, n0, ev);
    NoReasonsIffCurrent(ev, ctx, w.now);
    SameSpec(tool, w0, ws, n0, ev, w, n);
    QuietMade(tool, w0, n0);
    var spec := n.spec.value;
    SubjectHashNotEmpty(spec.files, w0.ws.root);
    SubjectHashNotEmpty(spec.files, w.ws.root);
    assert LooksAlike(spec, w0.ws, w.ws);
    assert InWindow(spec, w0.now, w.now);
    assert Proves(tool.shell, spec, w0.ws, w.platform, w0.now);
    assert Proves(tool.shell, spec, w.ws, w.platform, w.now);
    assert RunOne(tool.shell, tool.registryOf(w.registryText), w, w.ws, n).Ok?;
    QuietMade(tool, w, n);
  }

  /** The binding a verification runs under, where it needs one. */
  lemma BindingBehind(reg: Registry, bindings: Bound, n: Need)
    requires Stamped(bindings) && Gate(reg, bindings, n.v) == Ok(n) && n.bindingHash.Some?
    ensures n.v.claimId in bindings
    ensures var b := bindings[n.v.claimId];
            n.bindingHash.value == OfBinding(n.v.claimId, b.verifierRef, b.requirement, b.selector.GetOr(""))
  {
  }

  /** The same hash stands for the same verifier, requirement and selector. */
  lemma SameBinding(reg: Registry, bindings: Bound, n: Need, bindings0: Bound, n0: Need)
    requires Stamped(bindings) && Gate(reg, bindings, n.v) == Ok(n)
    requires Stamped(bindings0) && Gate(reg, bindings0, n0.v) == Ok(n0)
    requires n0.v == n.v && n0.bindingHash.GetOr(Empty) == n.bindingHash.GetOr(Empty)
    ensures n.bindingHash.Some? ==>
      && n.v.claimId in bindings0 && n.v.claimId in bindings
      && bindings0[n.v.claimId].verifierRef == bindings[n.v.claimId].verifierRef
      && bindings0[n.v.claimId].requirement == bindings[n.v.claimId].requirement
      && bindings0[n.v.claimId].selector.GetOr("") == bindings[n.v.claimId].selector.GetOr("")
  {
    hide Gate;
    GateBinding(reg, bindings, n);
    GateBinding(reg, bindings0, n0);
    if n.bindingHash.Some? {
      BindingBehind(reg, bindings, n);
      BindingBehind(reg, bindings0, n0);
    }
  }

  /** Nothing that matters has changed between two worlds for this verification. */
  ghost predicate SameStanding(w0: World, w: World, n: Need)
    requires n.spec.Some?
  {
    && w0.registryText == w.registryText && w0.contractText == w.contractText
    && w0.platform == w.platform && w0.actor == w.actor
    && LooksAlike(n.spec.value, w0.ws, w.ws) && InWindow(n.spec.value, w0.now, w.now)
    && (n.bindingHash.Some? ==>
          && n.v.claimId in w0.bindings && n.v.claimId in w.bindings
          && w0.bindings[n.v.claimId].verifierRef == w.bindings[n.v.claimId].verifierRef
          && w0.bindings[n.v.claimId].requirement == w.bindings[n.v.claimId].requirement
          && w0.bindings[n.v.claimId].selector.GetOr("") == w.bindings[n.v.claimId].selector.GetOr(""))
  }

  /** The subject a proof was bound to is the one seen now. */
  lemma LooksAsBefore(spec: VerifierSpec, a: Workspace, b: Workspace, ev: Evidence)
    requires ev.artifactHash == SubjectHash(spec.files, a.root).GetOr(Empty)
    requires ev.artifactHash == SubjectHash(spec.files, b.root).GetOr(Empty)
    ensures SubjectHash(spec.files, a.root) == SubjectHash(spec.files, b.root)
  {
    SubjectHashNotEmpty(spec.files, a.root);
    SubjectHashNotEmpty(spec.files, b.root);
  }

  /** Behind every hit stands a run that passed, in a world of the same standing: same registry,
      contract, platform, actor, commit, dirty flag, watched content and binding, not too long ago. */
  lemma HitHasPassingRun(tool: Tool, store: Store, w: World, n: Need) returns (w0: World)
    requires Quiet(tool.shell) && Reachable(tool, store, WithStamps) && Sane(w)
    requires tool.contractOf(w.contractText).Some?
    requires n.v in tool.contractOf(w.contractText).value.verification
    requires OneVerifyPerClaim(tool.contractOf(w.contractText).value.verification)
    requires Gate(tool.registryOf(w.registryText), w.bindings, n.v) == Ok(n)
    requires Lookup(store, n.v.claimId, ContextOf(w, n), w.now).Hit?
    ensures n.spec.Some? && Sane(w0) && SameStanding(w0, w, n)
    ensures Proves(tool.shell, n.spec.value, w0.ws, w0.platform, w0.now)
  {
    hide Gate, Lookup, Observe, SubjectHash, FileHashes;
    var ctx := ContextOf(w, n);
    var ev := HitOrigin(tool, store, w, n);
    var ws, n0;
    w0, ws, n0 :| Made(tool, w0, ws, n0, ev) && Stamped(w0.bindings);
    StampedIsHashed(w0.bindings);
    MadeFields(tool, w0, ws, n0, ev);
    SameSpec(tool, w0, ws, n0, ev, w, n);
    CurrentAgrees(tool, w0, ws, n0, ev, w, n);
    QuietMade(tool, w0, n0);
    LooksAsBefore(n.spec.value, w0.ws, w.ws, ev);
    SameVerification(tool.contractOf(w.contractText).value.verification, n0.v, n.v);
    SameBinding(tool.registryOf(w.registryText), w.bindings, n, w0.bindings, n0);
  }

  /** A hit is a stored proof that is current and, under quiet verifiers, Valid. */
  lemma HitOrigin(tool: Tool, store: Store, w: World, n: Need) returns (ev: Evidence)
    requires Quiet(tool.shell) && Reachable(tool, store, WithStamps)
    requires Lookup(store, n.v.claimId, ContextOf(w, n), w.now).Hit?
    ensures HasOrigin(tool, ev, WithStamps) && ev.state == Valid && Current(ev, ContextOf(w, n), w.now)
    ensures ev.claimId == n.v.claimId && ev.fingerprint == ContextOf(w, n).fingerprint
  {
    var ctx := ContextOf(w, n);
    ev := store[(n.v.claimId, ctx.fingerprint)];
    NoReasonsIffCurrent(ev, ctx, w.now);
    assert HasOrigin(tool, ev, WithStamps);
    var w0, ws, n0 :| Made(tool, w0, ws, n0, ev) && Sane(w0);
    QuietMade(tool, w0, n0);
  }

  // ---------------------------------------------------------------- reuse refines re-running

  ghost predicate SameProofs(a: seq<Evidence>, b: seq<Evidence>) {
    forall id, s :: Has(a, id, s) <==> Has(b, id, s)
  }

  /** Valid with exit code 0, or Invalid: what quiet verifiers leave. */
  ghost predicate Settled(evs: seq<Evidence>) {
    forall e :: e in evs ==> e.state != Stale && (e.state == Valid ==> e.exitCode == 0)
  }

  lemma BothGrow(a: seq<Evidence>, b: seq<Evidence>, c: seq<Evidence>, x: Evidence, y: Evidence)
    requires SameProofs(a + b, c) && Settled(a + b) && Settled(c)
    requires x.claimId == y.claimId && x.state == y.state && Settled([x]) && Settled([y])
    ensures SameProofs(a + [x] + b, c + [y]) && SameProofs(a + (b + [x]), c + [y])
    ensures Settled(a + [x] + b) && Settled(a + (b + [x])) && Settled(c + [y])
  {
    assert x in [x] && y in [y];
    forall e ensures e in a + [x] + b <==> e in a + b || e == x {}
    forall e ensures e in a + (b + [x]) <==> e in a + b || e == x {}
    forall e ensures e in c + [y] <==> e in c || e == y {}
    forall id, s
      ensures Has(a + [x] + b, id, s) <==> Has(c + [y], id, s)
      ensures Has(a + (b + [x]), id, s) <==> Has(c + [y], id, s)
    {
      assert Has(a + [x] + b, id, s) <==> Has(a + b, id, s) || (x.claimId == id && x.state == s);
      assert Has(a + (b + [x]), id, s) <==> Has(a + b, id, s) || (x.claimId == id && x.state == s);
      assert Has(c + [y], id, s) <==> Has(c, id, s) || (y.claimId == id && y.state == s);
    }
  }

  lemma RunAllPush(shell: Shell, reg: Registry, w: World, needs: seq<Need>, n: Need)
    requires Quiet(shell)
    requires RunAll(shell, reg, w, needs).Ok? ==> RunAll(shell, reg, w, needs).value.1 == w.ws
    ensures RunAll(shell, reg, w, needs + [n]) ==
            match RunAll(shell, reg, w, needs)
            case Err(e) => Err(e)
            case Ok(sofar) =>
              match RunOne(shell, reg, w, w.ws, n)
              case Err(e) => Err(e)
              case Ok(one) => Ok((sofar.0 + [one.0], one.1))
  {
    assert (needs + [n])[..|needs|] == needs;
  }

  /** Over the same verifications, the probed run and the run of everything end in the same
      error, or with the same proofs of the same claims. */
  lemma {:induction false} ProbeAgrees(tool: Tool, store: Store, w: World, vs: seq<VerificationIr>)
    requires Quiet(tool.shell) && Reachable(tool, store, Anyhow)
    requires forall v :: v in vs ==> CoveredAt(tool, w, v)
    ensures Agreement(tool.shell, tool.registryOf(w.registryText), w,
                      ProbeAll(tool.registryOf(w.registryText), w, store, vs),
                      ProbeAll(tool.registryOf(w.registryText), w, map[], vs))
    decreases |vs|
  {
    if vs != [] {
      var init, v := vs[..|vs| - 1], vs[|vs| - 1];
      assert vs == init + [v];
      ProbeAgrees(tool, store, w, init);
      ProbeStep(tool, store, w, ProbeAll(tool.registryOf(w.registryText), w, store, init),
                ProbeAll(tool.registryOf(w.registryText), w, map[], init), v);
    }
  }

  function Extend(reg: Registry, w: World, store: Store, p: Result<Probe, RunError>, v: VerificationIr)
    : Result<Probe, RunError>
  {
    match p
    case Err(e) => Err(e)
    case Ok(q) =>
      match Gate(reg, w.bindings, v)
      case Err(e) => Err(e)
      case Ok(n) => Ok(ProbeOne(w, store, q, n))
  }

  lemma ProbeStep(tool: Tool, store: Store, w: World, pc: Result<Probe, RunError>, pf: Result<Probe, RunError>,
                  v: VerificationIr)
    requires Quiet(tool.shell) && Reachable(tool, store, Anyhow) && CoveredAt(tool, w, v)
    requires Agreement(tool.shell, tool.registryOf(w.registryText), w, pc, pf)
    ensures Agreement(tool.shell, tool.registryOf(w.registryText), w,
                      Extend(tool.registryOf(w.registryText), w, store, pc, v),
                      Extend(tool.registryOf(w.registryText), w, map[], pf, v))
  {
    var g := Gate(tool.registryOf(w.registryText), w.bindings, v);
    if pc.Ok? && g.Ok? {
      ProbeOneAgrees(tool, store, w, pc.value, pf.value, g.value);
    }
  }

  ghost predicate Agreement(shell: Shell, reg: Registry, w: World,
                            pc: Result<Probe, RunError>, pf: Result<Probe, RunError>) {
    match (pc, pf)
    case (Err(e), Err(f)) => e == f
    case (Ok(c), Ok(f)) => f.stored == [] && Alike(shell, reg, w, c.stored, c.needs, f.needs)
    case _ => false
  }

  /** The hits and the runs on one side against the runs of everything on the other. */
  ghost predicate Alike(shell: Shell, reg: Registry, w: World, hits: seq<Evidence>, needs: seq<Need>, all: seq<Need>) {
    match (RunAll(shell, reg, w, needs), RunAll(shell, reg, w, all))
    case (Err(x), Err(y)) => x == y
    case (Ok(x), Ok(y)) => x.1 == y.1 == w.ws && SameProofs(hits + x.0, y.0) && Settled(hits + x.0) && Settled(y.0)
    case _ => false
  }

  /** A hit on one side, its re-run on the other. */
  lemma HitStep(tool: Tool, w: World, hits: seq<Evidence>, needs: seq<Need>, all: seq<Need>, n: Need, hit: Evidence)
    requires Quiet(tool.shell)
    requires RunOne(tool.shell, tool.registryOf(w.registryText), w, w.ws, n).Ok?
    requires var ev := RunOne(tool.shell, tool.registryOf(w.registryText), w, w.ws, n).value.0;
             hit.claimId == n.v.claimId && hit.state == ev.state == Valid && hit.exitCode == 0
    requires Alike(tool.shell, tool.registryOf(w.registryText), w, hits, needs, all)
    ensures Alike(tool.shell, tool.registryOf(w.registryText), w, hits + [hit], needs, all + [n])
  {
    var reg := tool.registryOf(w.registryText);
    RunAllPush(tool.shell, reg, w, all, n);
    QuietMade(tool, w, n);
    QuietRun(tool.shell, reg, w, w.ws, n);
    if RunAll(tool.shell, reg, w, needs).Ok? {
      BothGrow(hits, RunAll(tool.shell, reg, w, needs).value.0, RunAll(tool.shell, reg, w, all).value.0,
               hit, RunOne(tool.shell, reg, w, w.ws, n).value.0);
    }
  }

  /** A run on both sides. */
  lemma RunStep(tool: Tool, w: World, hits: seq<Evidence>, needs: seq<Need>, all: seq<Need>, n: Need)
    requires Quiet(tool.shell)
    requires Alike(tool.shell, tool.registryOf(w.registryText), w, hits, needs, all)
    ensures Alike(tool.shell, tool.registryOf(w.registryText), w, hits, needs + [n], all + [n])
  {
    var reg := tool.registryOf(w.registryText);
    RunAllPush(tool.shell, reg, w, all, n);
    RunAllPush(tool.shell, reg, w, needs, n);
    if RunOne(tool.shell, reg, w, w.ws, n).Ok? {
      QuietMade(tool, w, n);
      QuietRun(tool.shell, reg, w, w.ws, n);
      if RunAll(tool.shell, reg, w, needs).Ok? {
        var ev := RunOne(tool.shell, reg, w, w.ws, n).value.0;
        BothGrow(hits, RunAll(tool.shell, reg, w, needs).value.0, RunAll(tool.shell, reg, w, all).value.0, ev, ev);
      }
    }
  }

  lemma ProbeOneAgrees(tool: Tool, store: Store, w: World, c: Probe, f: Probe, n: Need)
    requires Quiet(tool.shell) && Reachable(tool, store, Anyhow)
    requires Gate(tool.registryOf(w.registryText), w.bindings, n.v) == Ok(n)
    requires n.spec.Some? ==> Covered(tool.shell, n.spec.value, w.platform)
    requires Alike(tool.shell, tool.registryOf(w.registryText), w, c.stored, c.needs, f.needs)
    ensures Alike(tool.shell, tool.registryOf(w.registryText), w,
                  ProbeOne(w, store, c, n).stored, ProbeOne(w, store, c, n).needs, ProbeOne(w, map[], f, n).needs)
  {
    hide Gate, Covered, Alike, RunOne, Reachable;
    var r := Lookup(store, n.v.claimId, ContextOf(w, n), w.now);
    if r.Hit? {
      HitWouldPass(tool, store, w, n);
      HitStep(tool, w, c.stored, c.needs, f.needs, n, r.evidence.(executor := w.executor));
    } else {
      RunStep(tool, w, c.stored, c.needs, f.needs, n);
    }
  }

  /** The two ends of one comparison: the run as it is, and the same run with no stored proof. */
  function Cached(tool: Tool, history: seq<World>, w: World): Outcome {
    Verify(tool, w, After(tool, history)).0
  }

  function Rerun(tool: Tool, history: seq<World>, w: World): Outcome {
    Verify(tool, w, After(tool, history).(evidence := map[])).0
  }

  ghost predicate SameVerdict(a: Outcome, b: Outcome, escalates: bool) {
    match (a, b)
    case (Aborted(e), Aborted(f)) => e == f
    case (Decided(r), Decided(s)) => (r.decision == Accepted <==> s.decision == Accepted) && (!escalates ==> r == s)
    case _ => false
  }

  /** Reuse refines re-running: after any history, with quiet verifiers whose verdict is
      covered by what the cache compares, a run ends like the same run with an empty cache:
      in the same error, accepted exactly when it is, and with the same decision and claims
      unless `escalate_on_stale` is on. */
  lemma ReuseRefinesRerun(tool: Tool, history: seq<World>, w: World)
    requires Quiet(tool.shell) && AllCovered(tool, w)
    ensures SameVerdict(Cached(tool, history, w), Rerun(tool, history, w), Merged(w.policies).escalateOnStale)
  {
    hide After, Verify, AllCovered, Reachable;
    HistoryReachable(tool, history, Anyhow);
    StoreRefines(tool, After(tool, history), w);
  }

  /** The same for a run over any reachable store. */
  lemma StoreRefines(tool: Tool, d: Disk, w: World)
    requires Quiet(tool.shell) && AllCovered(tool, w) && Reachable(tool, d.evidence, Anyhow)
    ensures SameVerdict(Verify(tool, w, d).0, Verify(tool, w, d.(evidence := map[])).0,
                        Merged(w.policies).escalateOnStale)
  {
    hide CoveredAt, Reachable, Final, ProbeAll, RunAll, Merged, Report;
    if tool.contractOf(w.contractText).Some? {
      var c := tool.contractOf(w.contractText).value;
      var reg := tool.registryOf(w.registryText);
      ProbeAgrees(tool, d.evidence, w, c.verification);
      var pc, pf := ProbeAll(reg, w, d.evidence, c.verification), ProbeAll(reg, w, map[], c.verification);
      if pc.Ok? && RunAll(tool.shell, reg, w, pc.value.needs).Ok? {
        var x := RunAll(tool.shell, reg, w, pc.value.needs).value.0;
        var y := RunAll(tool.shell, reg, w, pf.value.needs).value.0;
        assert [] + y == y;
        SameFinal(c.claims, pc.value.stored + x, y, Merged(w.policies), pc.value.staleIds, pf.value.staleIds);
      }
    }
  }

  lemma SameFinal(claims: seq<ClaimIr>, a: seq<Evidence>, b: seq<Evidence>, policy: Policy,
                  staleA: seq<string>, staleB: seq<string>)
    requires SameProofs(a, b) && Settled(a) && Settled(b)
    ensures Final(claims, a, policy, staleA).decision == Accepted
       <==> Final(claims, b, policy, staleB).decision == Accepted
    ensures !policy.escalateOnStale ==> Final(claims, a, policy, staleA) == Final(claims, b, policy, staleB)
  {
    OrderIrrelevant(claims, a, b);
    forall c | c in claims ensures !Has(a, c.id, Stale) {}
    FinalAccepts(claims, a, policy, staleA);
    FinalAccepts(claims, b, policy, staleB);
  }
}
