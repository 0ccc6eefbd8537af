/** Stored evidence and the loader that decides whether it still applies. */
module EvidenceStore {
  import opened Digests
  import opened Ordered
  import opened Prelude

  datatype EvidenceState = Valid | Invalid | Stale

  /** The cache identity of a verifier and actor: the fields the seed joins, kept apart. */
  datatype Fingerprint =
    | Inline(verifierRef: string, actor: string)
    | OfSpec(verifierRef: string, run: string, expects: string, expectsNot: string, files: seq<string>, actor: string)

  datatype Evidence = Evidence(
    claimId: string,
    exitCode: int,
    commitSha: string,
    workspaceDirty: bool,
    state: EvidenceState,
    artifactHash: Digest,
    artifactFiles: map<string, Digest>,
    fingerprint: Fingerprint,
    registryHash: Digest,
    contractHash: Digest,
    platform: string,
    actor: string,
    executor: string,
    bindingHash: Digest,
    expiresAt: Option<int>)

  /** The verification context a stored proof is held against. */
  datatype Context = Context(
    fingerprint: Fingerprint,
    commitSha: string,
    workspaceDirty: bool,
    artifactHash: Option<Digest>,
    artifactFiles: map<string, Digest>,
    registryHash: Digest,
    contractHash: Digest,
    platform: string,
    bindingHash: Option<Digest>)

  datatype StaleReason =
    | CommitChanged(from: string, to: string)
    | UncommittedChanges(workspaceDirty: bool)
    | SubjectChanged(changed: seq<string>, added: seq<string>, removed: seq<string>)
    | ContractChanged(fromHash: Digest, toHash: Digest)
    | VerifierConfigChanged(fromHash: Digest, toHash: Digest)
    | PlatformChanged(from: string, to: string)
    | AuthorizationChanged(fromHash: Digest, toHash: Digest)
    | Expired(at: int)

  datatype CacheOutcome = Hit(evidence: Evidence) | StaleProof(reasons: seq<StaleReason>) | Miss

  /** Evidence files, by claim id and fingerprint. */
  type Store = map<(string, Fingerprint), Evidence>

  predicate IsStale(ev: Evidence, commit: string, dirty: bool) {
    ev.commitSha != commit || ev.workspaceDirty != dirty
  }

  // ---------------------------------------------------------------- naming the drift

  function ChangedPaths(was: map<string, Digest>, cur: map<string, Digest>): set<string> {
    set p | p in was && p in cur && was[p] != cur[p]
  }

  function NamedDrift(was: map<string, Digest>, cur: map<string, Digest>): StaleReason {
    SubjectChanged(Listing(ChangedPaths(was, cur)), Listing(cur.Keys - was.Keys), Listing(was.Keys - cur.Keys))
  }

  ghost function Differing(ks: seq<string>, was: map<string, Digest>, cur: map<string, Digest>): set<string> {
    set p | p in ks && p in was && p in cur && was[p] != cur[p]
  }

  ghost function Absent(ks: seq<string>, other: map<string, Digest>): set<string> {
    set p | p in ks && p !in other
  }

  /** Keys arrive in order, so what the loops keep is the listing of what they kept. */
  lemma DifferingStep(ks: seq<string>, i: nat, was: map<string, Digest>, cur: map<string, Digest>)
    requires i < |ks| && Increasing(ks)
    ensures Listing(Differing(ks[..i + 1], was, cur)) ==
            if ks[i] in was && ks[i] in cur && was[ks[i]] != cur[ks[i]]
            then Listing(Differing(ks[..i], was, cur)) + [ks[i]] else Listing(Differing(ks[..i], was, cur))
  {
    var p := ks[i];
    assert ks[..i + 1] == ks[..i] + [p];
    if p in was && p in cur && was[p] != cur[p] {
      assert Differing(ks[..i + 1], was, cur) == Differing(ks[..i], was, cur) + {p};
      ListingPush(Differing(ks[..i], was, cur), p);
    } else {
      assert Differing(ks[..i + 1], was, cur) == Differing(ks[..i], was, cur);
    }
  }

  lemma AbsentStep(ks: seq<string>, i: nat, other: map<string, Digest>)
    requires i < |ks| && Increasing(ks)
    ensures Listing(Absent(ks[..i + 1], other)) ==
            if ks[i] !in other then Listing(Absent(ks[..i], other)) + [ks[i]] else Listing(Absent(ks[..i], other))
  {
    var p := ks[i];
    assert ks[..i + 1] == ks[..i] + [p];
    if p !in other {
      assert Absent(ks[..i + 1], other) == Absent(ks[..i], other) + {p};
      ListingPush(Absent(ks[..i], other), p);
    } else {
      assert Absent(ks[..i + 1], other) == Absent(ks[..i], other);
    }
  }

  lemma AbsentAll(m: map<string, Digest>, other: map<string, Digest>)
    ensures Absent(Listing(m.Keys), other) == m.Keys - other.Keys
  {
    ListingExact(m.Keys);
  }

  /** The loops over the two per-file maps. */
  method NameDrift(was: map<string, Digest>, cur: map<string, Digest>)
    returns (changed: seq<string>, added: seq<string>, removed: seq<string>)
    ensures SubjectChanged(changed, added, removed) == NamedDrift(was, cur)
  {
    changed, removed := NameMoved(was, cur);
    added := NameAdded(was, cur);
  }

  method NameAdded(was: map<string, Digest>, cur: map<string, Digest>) returns (added: seq<string>)
    ensures added == Listing(cur.Keys - was.Keys)
  {
    added := [];
    var curKeys := Listing(cur.Keys);
    ListingIncreases(cur.Keys);
    for i := 0 to |curKeys|
      invariant added == Listing(Absent(curKeys[..i], was))
    {
      AbsentStep(curKeys, i, was);
      if curKeys[i] !in was { added := added + [curKeys[i]]; }
    }
    assert curKeys[..|curKeys|] == curKeys;
    AbsentAll(cur, was);
  }

  method NameMoved(was: map<string, Digest>, cur: map<string, Digest>)
    returns (changed: seq<string>, removed: seq<string>)
    ensures changed == Listing(ChangedPaths(was, cur))
    ensures removed == Listing(was.Keys - cur.Keys)
  {
    changed, removed := [], [];
    var wasKeys := Listing(was.Keys);
    ListingExact(was.Keys);
    for i := 0 to |wasKeys|
      invariant changed == Listing(Differing(wasKeys[..i], was, cur))
      invariant removed == Listing(Absent(wasKeys[..i], cur))
    {
      var p := wasKeys[i];
      assert p in wasKeys;
      DifferingStep(wasKeys, i, was, cur);
      AbsentStep(wasKeys, i, cur);
      if p in cur {
        if was[p] != cur[p] { changed := changed + [p]; }
      } else {
        removed := removed + [p];
      }
    }
    assert wasKeys[..|wasKeys|] == wasKeys;
    assert Differing(wasKeys, was, cur) == ChangedPaths(was, cur);
    AbsentAll(was, cur);
  }

  // ---------------------------------------------------------------- the loader

  function When(c: bool, reason: StaleReason): seq<StaleReason> {
    if c then [reason] else []
  }

  predicate SubjectMoved(ev: Evidence, ctx: Context) {
    ev.artifactHash != Empty && ctx.artifactHash != Some(ev.artifactHash)
  }

  predicate HasExpired(ev: Evidence, now: int) {
    ev.expiresAt.Some? && ev.expiresAt.value <= now
  }

  function SubjectDrift(ev: Evidence, ctx: Context): seq<StaleReason> {
    When(ev.commitSha != ctx.commitSha, CommitChanged(ev.commitSha, ctx.commitSha))
    + When(ev.workspaceDirty != ctx.workspaceDirty, UncommittedChanges(ctx.workspaceDirty))
    + When(SubjectMoved(ev, ctx), NamedDrift(ev.artifactFiles, ctx.artifactFiles))
  }

  function ConfigDrift(ev: Evidence, ctx: Context, before: seq<StaleReason>): seq<StaleReason> {
    before
    + When(ev.contractHash != Empty && ev.contractHash != ctx.contractHash,
           ContractChanged(ev.contractHash, ctx.contractHash))
    + When(ev.registryHash != Empty && ev.registryHash != ctx.registryHash,
           VerifierConfigChanged(ev.registryHash, ctx.registryHash))
    + When(ev.platform != "" && ev.platform != ctx.platform, PlatformChanged(ev.platform, ctx.platform))
  }

  function AuthorizationDrift(ev: Evidence, ctx: Context, before: seq<StaleReason>): seq<StaleReason> {
    before + When(ev.bindingHash != Empty && ctx.bindingHash != Some(ev.bindingHash),
                  AuthorizationChanged(ev.bindingHash, ctx.bindingHash.GetOr(Empty)))
  }

  /** Every drifted dimension, in the loader's order. */
  function Reasons(ev: Evidence, ctx: Context, now: int): seq<StaleReason> {
    AuthorizationDrift(ev, ctx, ConfigDrift(ev, ctx, SubjectDrift(ev, ctx)))
    + When(HasExpired(ev, now), Expired(ev.expiresAt.GetOr(0)))
  }

  function Lookup(store: Store, claimId: string, ctx: Context, now: int): CacheOutcome {
    if (claimId, ctx.fingerprint) !in store then Miss
    else
      var ev := store[(claimId, ctx.fingerprint)];
      if ev.fingerprint != ctx.fingerprint then Miss
      else if Reasons(ev, ctx, now) != [] then StaleProof(Reasons(ev, ctx, now))
      else if ev.state == Invalid then Miss
      else Hit(ev)
  }

  method SubjectReasons(ev: Evidence, ctx: Context) returns (reasons: seq<StaleReason>)
    ensures reasons == SubjectDrift(ev, ctx)
  {
    reasons := [];
    if ev.commitSha != ctx.commitSha {
      reasons := reasons + [CommitChanged(ev.commitSha, ctx.commitSha)];
    }
    if ev.workspaceDirty != ctx.workspaceDirty {
      reasons := reasons + [UncommittedChanges(ctx.workspaceDirty)];
    }
    if ev.artifactHash != Empty && ctx.artifactHash != Some(ev.artifactHash) {
      var changed, added, removed := NameDrift(ev.artifactFiles, ctx.artifactFiles);
      reasons := reasons + [SubjectChanged(changed, added, removed)];
    }
  }

  method ConfigReasons(ev: Evidence, ctx: Context, before: seq<StaleReason>) returns (reasons: seq<StaleReason>)
    ensures reasons == ConfigDrift(ev, ctx, before)
  {
    reasons := before;
    if ev.contractHash != Empty && ev.contractHash != ctx.contractHash {
      reasons := reasons + [ContractChanged(ev.contractHash, ctx.contractHash)];
    }
    if ev.registryHash != Empty && ev.registryHash != ctx.registryHash {
      reasons := reasons + [VerifierConfigChanged(ev.registryHash, ctx.registryHash)];
    }
    if ev.platform != "" && ev.platform != ctx.platform {
      reasons := reasons + [PlatformChanged(ev.platform, ctx.platform)];
    }
  }

  method LoadValidForClaim(store: Store, claimId: string, ctx: Context, now: int) returns (r: CacheOutcome)
    ensures r == Lookup(store, claimId, ctx, now)
  {
    if (claimId, ctx.fingerprint) !in store { return Miss; }
    var ev := store[(claimId, ctx.fingerprint)];
    if ev.fingerprint != ctx.fingerprint { return Miss; }
    var reasons := SubjectReasons(ev, ctx);
    reasons := ConfigReasons(ev, ctx, reasons);
    if ev.bindingHash != Empty && ctx.bindingHash != Some(ev.bindingHash) {
      reasons := reasons + [AuthorizationChanged(ev.bindingHash, ctx.bindingHash.GetOr(Empty))];
    }
    assert reasons == AuthorizationDrift(ev, ctx, ConfigDrift(ev, ctx, SubjectDrift(ev, ctx)));
    if ev.expiresAt.Some? && ev.expiresAt.value <= now {
      reasons := reasons + [Expired(ev.expiresAt.value)];
    }
    if reasons != [] { return StaleProof(reasons); }
    if ev.state == Invalid { return Miss; }
    return Hit(ev);
  }

  /** A stored proof is current: no dimension it carries has drifted. */
  predicate Current(ev: Evidence, ctx: Context, now: int) {
    && ev.commitSha == ctx.commitSha
    && ev.workspaceDirty == ctx.workspaceDirty
    && !SubjectMoved(ev, ctx)
    && (ev.contractHash != Empty ==> ev.contractHash == ctx.contractHash)
    && (ev.registryHash != Empty ==> ev.registryHash == ctx.registryHash)
    && (ev.platform != "" ==> ev.platform == ctx.platform)
    && (ev.bindingHash != Empty ==> ctx.bindingHash == Some(ev.bindingHash))
    && !HasExpired(ev, now)
  }

  lemma NoReasonsIffCurrent(ev: Evidence, ctx: Context, now: int)
    ensures Reasons(ev, ctx, now) == [] <==> Current(ev, ctx, now)
  {
  }

  /** Where the loader comes to a dimension. */
  function Place(r: StaleReason): nat {
    match r
    case CommitChanged(_, _) => 0
    case UncommittedChanges(_) => 1
    case SubjectChanged(_, _, _) => 2
    case ContractChanged(_, _) => 3
    case VerifierConfigChanged(_, _) => 4
    case PlatformChanged(_, _) => 5
    case AuthorizationChanged(_, _) => 6
    case Expired(_) => 7
  }

  /** What a reason says of a stored proof is so: it tells what was from what is. */
  ghost predicate Holds(r: StaleReason, ev: Evidence, ctx: Context, now: int) {
    match r
    case CommitChanged(from, to) => from == ev.commitSha != ctx.commitSha == to
    case UncommittedChanges(dirty) => dirty == ctx.workspaceDirty != ev.workspaceDirty
    case SubjectChanged(_, _, _) =>
      ev.artifactHash != Empty && ctx.artifactHash != Some(ev.artifactHash)
      && r == NamedDrift(ev.artifactFiles, ctx.artifactFiles)
    case ContractChanged(from, to) => from == ev.contractHash != ctx.contractHash == to && from != Empty
    case VerifierConfigChanged(from, to) => from == ev.registryHash != ctx.registryHash == to && from != Empty
    case PlatformChanged(from, to) => from == ev.platform != ctx.platform == to && from != ""
    case AuthorizationChanged(from, to) =>
      from == ev.bindingHash != Empty && ctx.bindingHash != Some(from) && to == ctx.bindingHash.GetOr(Empty)
    case Expired(at) => ev.expiresAt == Some(at) && at <= now
  }

  /** The reason at a place of the loader, if it gives one. */
  ghost function Given(ev: Evidence, ctx: Context, now: int, k: nat): (r: Option<StaleReason>)
    ensures r.Some? ==> Place(r.value) == k
  {
    var all := [CommitChanged(ev.commitSha, ctx.commitSha), UncommittedChanges(ctx.workspaceDirty),
                NamedDrift(ev.artifactFiles, ctx.artifactFiles), ContractChanged(ev.contractHash, ctx.contractHash),
                VerifierConfigChanged(ev.registryHash, ctx.registryHash), PlatformChanged(ev.platform, ctx.platform),
                AuthorizationChanged(ev.bindingHash, ctx.bindingHash.GetOr(Empty)), Expired(ev.expiresAt.GetOr(0))];
    if k < 8 && Holds(all[k], ev, ctx, now) then Some(all[k]) else None
  }

  ghost function Collected(ev: Evidence, ctx: Context, now: int, n: nat): seq<StaleReason> {
    if n == 0 then [] else
      Collected(ev, ctx, now, n - 1)
      + match Given(ev, ctx, now, n - 1) case Some(r) => [r] case None => []
  }

  /** Each place at most once, in order. */
  ghost predicate UpTo(rs: seq<StaleReason>, n: nat) {
    (forall i :: 0 <= i < |rs| ==> Place(rs[i]) < n) && forall i, j :: 0 <= i < j < |rs| ==> Place(rs[i]) < Place(rs[j])
  }

  lemma PushUpTo(rs: seq<StaleReason>, r: StaleReason)
    requires UpTo(rs, Place(r))
    ensures UpTo(rs + [r], Place(r) + 1)
  {
    hide Place;
  }

  lemma Looser(rs: seq<StaleReason>, n: nat)
    requires UpTo(rs, n)
    ensures UpTo(rs, n + 1) && rs + [] == rs
  {
    hide Place;
  }

  lemma {:induction false} CollectedExact(ev: Evidence, ctx: Context, now: int, n: nat)
    ensures forall r :: r in Collected(ev, ctx, now, n) <==> Place(r) < n && Given(ev, ctx, now, Place(r)) == Some(r)
    ensures UpTo(Collected(ev, ctx, now, n), n)
  {
    hide Given, Place, UpTo;
    if n > 0 {
      CollectedExact(ev, ctx, now, n - 1);
      var before, more := Collected(ev, ctx, now, n - 1), Given(ev, ctx, now, n - 1);
      if more.Some? { PushUpTo(before, more.value); } else { Looser(before, n - 1); }
      forall r ensures r in Collected(ev, ctx, now, n) <==> r in before || more == Some(r) {}
    } else {
      NoneUpTo();
    }
  }

  lemma NoneUpTo()
    ensures UpTo([], 0)
  {
  }

  lemma CollectsSubject(ev: Evidence, ctx: Context, now: int)
    ensures Collected(ev, ctx, now, 3) == SubjectDrift(ev, ctx)
  {
    hide NamedDrift;
    assert Collected(ev, ctx, now, 0) == [];
    assert Collected(ev, ctx, now, 1) == [] + When(ev.commitSha != ctx.commitSha,
                                                   CommitChanged(ev.commitSha, ctx.commitSha));
    assert Collected(ev, ctx, now, 2) == Collected(ev, ctx, now, 1)
      + When(ev.workspaceDirty != ctx.workspaceDirty, UncommittedChanges(ctx.workspaceDirty));
    NamedIsSubject(ev.artifactFiles, ctx.artifactFiles);
    assert Collected(ev, ctx, now, 3) == Collected(ev, ctx, now, 2)
      + When(SubjectMoved(ev, ctx), NamedDrift(ev.artifactFiles, ctx.artifactFiles));
  }

  lemma CollectsAll(ev: Evidence, ctx: Context, now: int)
    ensures Collected(ev, ctx, now, 8) == Reasons(ev, ctx, now)
  {
    CollectsSubject(ev, ctx, now);
    hide NamedDrift, SubjectDrift;
    var before := SubjectDrift(ev, ctx);
    assert Collected(ev, ctx, now, 6) == ConfigDrift(ev, ctx, before) by {
      assert Collected(ev, ctx, now, 4) == before
        + When(ev.contractHash != Empty && ev.contractHash != ctx.contractHash,
               ContractChanged(ev.contractHash, ctx.contractHash));
      assert Collected(ev, ctx, now, 5) == Collected(ev, ctx, now, 4)
        + When(ev.registryHash != Empty && ev.registryHash != ctx.registryHash,
               VerifierConfigChanged(ev.registryHash, ctx.registryHash));
    }
    assert Collected(ev, ctx, now, 7) == AuthorizationDrift(ev, ctx, ConfigDrift(ev, ctx, before));
  }

  /** The reasons of a stale proof are exactly those that hold, each once, in the loader's order. */
  lemma ReasonsExact(ev: Evidence, ctx: Context, now: int)
    ensures forall r :: r in Reasons(ev, ctx, now) <==> Holds(r, ev, ctx, now)
    ensures UpTo(Reasons(ev, ctx, now), 8)
  {
    CollectsAll(ev, ctx, now);
    CollectedExact(ev, ctx, now, 8);
    hide Reasons, NamedDrift, Given, Holds, Collected, Place, UpTo;
    forall r ensures Place(r) < 8 && (Given(ev, ctx, now, Place(r)) == Some(r) <==> Holds(r, ev, ctx, now)) {
      GivenHolds(ev, ctx, now, r);
    }
  }

  lemma GivenHolds(ev: Evidence, ctx: Context, now: int, r: StaleReason)
    ensures Place(r) < 8 && (Given(ev, ctx, now, Place(r)) == Some(r) <==> Holds(r, ev, ctx, now))
  {
    hide NamedDrift;
    NamedIsSubject(ev.artifactFiles, ctx.artifactFiles);
  }

  lemma NamedIsSubject(was: map<string, Digest>, cur: map<string, Digest>)
    ensures NamedDrift(was, cur).SubjectChanged?
  {
  }

  /** What the loader answers, case by case: a hit hands back the stored proof itself, current and
      not Invalid; a stale answer belongs to a stored proof that has drifted; all else is a miss. */
  lemma LookupExact(store: Store, claimId: string, ctx: Context, now: int, ev: Evidence)
    ensures Lookup(store, claimId, ctx, now) == Hit(ev) <==>
              && (claimId, ctx.fingerprint) in store && store[(claimId, ctx.fingerprint)] == ev
              && ev.fingerprint == ctx.fingerprint && Current(ev, ctx, now) && ev.state != Invalid
    ensures (claimId, ctx.fingerprint) in store && store[(claimId, ctx.fingerprint)] == ev ==>
              (Lookup(store, claimId, ctx, now).StaleProof? <==>
                 ev.fingerprint == ctx.fingerprint && !Current(ev, ctx, now))
    ensures (claimId, ctx.fingerprint) !in store ==> Lookup(store, claimId, ctx, now) == Miss
  {
    NoReasonsIffCurrent(ev, ctx, now);
  }

  // ---------------------------------------------------------------- the drift is named

  lemma NamedDriftExact(was: map<string, Digest>, cur: map<string, Digest>)
    ensures var d := NamedDrift(was, cur);
      && Increasing(d.changed) && Increasing(d.added) && Increasing(d.removed)
      && (forall p :: p in d.changed <==> p in was && p in cur && was[p] != cur[p])
      && (forall p :: p in d.added <==> p !in was && p in cur)
      && (forall p :: p in d.removed <==> p in was && p !in cur)
      && (d.changed == [] && d.added == [] && d.removed == [] <==> was == cur)
  {
    ListingExact(ChangedPaths(was, cur));
    ListingExact(cur.Keys - was.Keys);
    ListingExact(was.Keys - cur.Keys);
    var d := NamedDrift(was, cur);
    if d.changed == [] && d.added == [] && d.removed == [] {
      forall p ensures p in was <==> p in cur {
        assert p !in d.added && p !in d.removed;
      }
      forall p | p in was ensures was[p] == cur[p] {
        assert p !in d.changed;
      }
    }
  }
}
