/** The decision truth table and the policy layer above it. */
module Decisions {
  import opened EvidenceStore
  import opened Ir
  import opened Prelude

  datatype Decision = Accepted | Rejected | EvidenceRequired | Escalated

  datatype ClaimResult = ClaimResult(claimId: string, required: bool, critical: bool, state: EvidenceState)

  datatype DecisionResult = DecisionResult(decision: Decision, claims: seq<ClaimResult>)

  // ---------------------------------------------------------------- the truth table

  function For(evs: seq<Evidence>, id: string): seq<Evidence> {
    if evs == [] then []
    else if evs[0].claimId == id then [evs[0]] + For(evs[1..], id)
    else For(evs[1..], id)
  }

  function FirstValid(evs: seq<Evidence>): Option<Evidence> {
    if evs == [] then None
    else if evs[0].state == Valid then Some(evs[0])
    else FirstValid(evs[1..])
  }

  predicate AnyInvalid(evs: seq<Evidence>) {
    exists e :: e in evs && e.state == Invalid
  }

  /** What is shown of a claim with these proofs. */
  function StateOf(evs: seq<Evidence>): EvidenceState {
    match FirstValid(evs)
    case Some(ev) => if ev.exitCode != 0 then Invalid else Valid
    case None => if evs != [] && evs[0].state == Stale then Stale else Invalid
  }

  predicate CriticalFailure(c: ClaimIr, evs: seq<Evidence>) {
    c.critical &&
    match FirstValid(evs)
    case Some(ev) => ev.exitCode != 0
    case None => AnyInvalid(evs)
  }

  predicate MissingProof(c: ClaimIr, evs: seq<Evidence>) {
    match FirstValid(evs)
    case Some(ev) => ev.exitCode != 0 && !c.critical && c.required
    case None => (c.critical && !AnyInvalid(evs)) || (!c.critical && c.required)
  }

  function ResultOf(c: ClaimIr, evidences: seq<Evidence>): ClaimResult {
    ClaimResult(c.id, c.required, c.critical, StateOf(For(evidences, c.id)))
  }

  predicate Critically(claims: seq<ClaimIr>, evidences: seq<Evidence>) {
    exists c :: c in claims && CriticalFailure(c, For(evidences, c.id))
  }

  predicate Lacking(claims: seq<ClaimIr>, evidences: seq<Evidence>) {
    exists c :: c in claims && MissingProof(c, For(evidences, c.id))
  }

  function Evaluate(claims: seq<ClaimIr>, evidences: seq<Evidence>): DecisionResult {
    DecisionResult(
      if Critically(claims, evidences) then Rejected
      else if Lacking(claims, evidences) then EvidenceRequired
      else Accepted,
      seq(|claims|, i requires 0 <= i < |claims| => ResultOf(claims[i], evidences)))
  }

  /** The counting loop. */
  method EvaluateIntent(claims: seq<ClaimIr>, evidences: seq<Evidence>) returns (r: DecisionResult)
    ensures r == Evaluate(claims, evidences)
  {
    var results: seq<ClaimResult> := [];
    var criticalFail, missing := 0, 0;
    for i := 0 to |claims|
      invariant |results| == i && forall k :: 0 <= k < i ==> results[k] == ResultOf(claims[k], evidences)
      invariant 0 <= criticalFail && (criticalFail > 0 <==> Critically(claims[..i], evidences))
      invariant 0 <= missing && (missing > 0 <==> Lacking(claims[..i], evidences))
    {
      var c := claims[i];
      var evs := For(evidences, c.id);
      var best := FirstValid(evs);
      Grows(claims, i, evidences);
      if best.Some? {
        if best.value.exitCode != 0 {
          results := results + [ClaimResult(c.id, c.required, c.critical, Invalid)];
          if c.critical {
            criticalFail := criticalFail + 1;
          } else if c.required {
            missing := missing + 1;
          }
        } else {
          results := results + [ClaimResult(c.id, c.required, c.critical, Valid)];
        }
      } else {
        var state := if evs != [] then evs[0].state else Invalid;
        results := results + [ClaimResult(c.id, c.required, c.critical, if state == Stale then Stale else Invalid)];
        if c.critical {
          if AnyInvalid(evs) {
            criticalFail := criticalFail + 1;
          } else {
            missing := missing + 1;
          }
        } else if c.required {
          missing := missing + 1;
        }
      }
    }
    assert claims[..|claims|] == claims;
    var decision := if criticalFail > 0 then Rejected else if missing > 0 then EvidenceRequired else Accepted;
    return DecisionResult(decision, results);
  }

  lemma Grows(claims: seq<ClaimIr>, i: nat, evidences: seq<Evidence>)
    requires i < |claims|
    ensures Critically(claims[..i + 1], evidences)
       <==> Critically(claims[..i], evidences) || CriticalFailure(claims[i], For(evidences, claims[i].id))
    ensures Lacking(claims[..i + 1], evidences)
       <==> Lacking(claims[..i], evidences) || MissingProof(claims[i], For(evidences, claims[i].id))
  {
    assert claims[..i + 1] == claims[..i] + [claims[i]];
  }

  // ---------------------------------------------------------------- what decides

  /** A Valid proof reports exit code 0. */
  ghost predicate ExitSound(evs: seq<Evidence>) {
    forall e :: e in evs && e.state == Valid ==> e.exitCode == 0
  }

  predicate Has(evs: seq<Evidence>, id: string, state: EvidenceState) {
    exists e :: e in evs && e.claimId == id && e.state == state
  }

  lemma {:induction false} ForExact(evs: seq<Evidence>, id: string)
    ensures forall e :: e in For(evs, id) <==> e in evs && e.claimId == id
  {
    if evs != [] {
      ForExact(evs[1..], id);
      assert evs == [evs[0]] + evs[1..];
    }
  }

  lemma {:induction false} FirstValidExact(evs: seq<Evidence>)
    ensures FirstValid(evs).Some? <==> exists e :: e in evs && e.state == Valid
    ensures FirstValid(evs).Some? ==> FirstValid(evs).value in evs && FirstValid(evs).value.state == Valid
  {
    if evs != [] && evs[0].state != Valid {
      FirstValidExact(evs[1..]);
      assert evs == [evs[0]] + evs[1..];
    }
  }

  lemma ClaimDecided(c: ClaimIr, evs: seq<Evidence>)
    requires ExitSound(evs)
    ensures CriticalFailure(c, For(evs, c.id)) <==> c.critical && Has(evs, c.id, Invalid) && !Has(evs, c.id, Valid)
    ensures MissingProof(c, For(evs, c.id)) <==>
              !Has(evs, c.id, Valid) && (if c.critical then !Has(evs, c.id, Invalid) else c.required)
    ensures StateOf(For(evs, c.id)) == Valid <==> Has(evs, c.id, Valid)
    ensures !Has(evs, c.id, Stale) ==> StateOf(For(evs, c.id)) != Stale
  {
    ForExact(evs, c.id);
    FirstValidExact(For(evs, c.id));
    if For(evs, c.id) != [] { assert For(evs, c.id)[0] in For(evs, c.id); }
  }

  /** The counting loop decides on presence alone: Rejected when some critical claim has an
      Invalid and no Valid proof, otherwise EvidenceRequired when some required or critical
      claim has no Valid proof, otherwise Accepted. */
  lemma DecisionTable(claims: seq<ClaimIr>, evs: seq<Evidence>)
    requires ExitSound(evs)
    ensures Evaluate(claims, evs).decision == Rejected <==>
              exists c :: c in claims && c.critical && Has(evs, c.id, Invalid) && !Has(evs, c.id, Valid)
    ensures Evaluate(claims, evs).decision == Accepted <==>
              forall c :: c in claims && (c.required || c.critical) ==> Has(evs, c.id, Valid)
    ensures Evaluate(claims, evs).decision != Escalated
  {
    forall c | c in claims
      ensures CriticalFailure(c, For(evs, c.id)) <==> c.critical && Has(evs, c.id, Invalid) && !Has(evs, c.id, Valid)
      ensures MissingProof(c, For(evs, c.id)) <==>
                !Has(evs, c.id, Valid) && (if c.critical then !Has(evs, c.id, Invalid) else c.required)
    {
      ClaimDecided(c, evs);
    }
  }

  /** Two evidence lists with the same proofs in them, however ordered or repeated, decide
      the same. */
  lemma OrderIrrelevant(claims: seq<ClaimIr>, evs: seq<Evidence>, other: seq<Evidence>)
    requires ExitSound(evs) && ExitSound(other)
    requires forall c, s :: c in claims ==> (Has(evs, c.id, s) <==> Has(other, c.id, s))
    ensures Evaluate(claims, evs).decision == Evaluate(claims, other).decision
    ensures forall i :: 0 <= i < |claims| ==>
              (Evaluate(claims, evs).claims[i].state == Valid <==> Evaluate(claims, other).claims[i].state == Valid)
    ensures (forall c :: c in claims ==> !Has(evs, c.id, Stale)) ==> Evaluate(claims, evs) == Evaluate(claims, other)
  {
    DecisionTable(claims, evs);
    DecisionTable(claims, other);
    forall i | 0 <= i < |claims|
      ensures StateOf(For(evs, claims[i].id)) == Valid <==> StateOf(For(other, claims[i].id)) == Valid
      ensures !Has(evs, claims[i].id, Stale) ==> StateOf(For(evs, claims[i].id)) == StateOf(For(other, claims[i].id))
    {
      assert claims[i] in claims;
      ClaimDecided(claims[i], evs);
      ClaimDecided(claims[i], other);
    }
  }

  lemma PermutationIrrelevant(claims: seq<ClaimIr>, evs: seq<Evidence>, other: seq<Evidence>)
    requires ExitSound(evs) && multiset(evs) == multiset(other)
    ensures Evaluate(claims, evs).decision == Evaluate(claims, other).decision
  {
    forall e ensures e in evs <==> e in other {
      assert e in evs <==> e in multiset(evs);
      assert e in other <==> e in multiset(other);
    }
    OrderIrrelevant(claims, evs, other);
  }

  function Rank(d: Decision): int {
    match d
    case Rejected => 0
    case EvidenceRequired => 1
    case Escalated => 1
    case Accepted => 2
  }

  /** One more Valid proof, wherever it lands, never lowers the decision. */
  lemma ValidNeverLowers(claims: seq<ClaimIr>, evs: seq<Evidence>, i: nat, ev: Evidence)
    requires i <= |evs| && ev.state == Valid
    requires ExitSound(evs) && ev.exitCode == 0
    ensures Rank(Evaluate(claims, evs[..i] + [ev] + evs[i..]).decision) >= Rank(Evaluate(claims, evs).decision)
  {
    var more := evs[..i] + [ev] + evs[i..];
    assert evs == evs[..i] + evs[i..];
    forall e ensures e in more <==> e in evs || e == ev {}
    forall id, s
      ensures Has(evs, id, s) ==> Has(more, id, s)
      ensures s != Valid ==> (Has(more, id, s) ==> Has(evs, id, s))
    {
    }
    DecisionTable(claims, evs);
    DecisionTable(claims, more);
  }

  /** Without the exit-code guarantee the order decides: the first Valid proof wins. */
  lemma OrderDecidesWithoutExitCodes(c: ClaimIr, good: Evidence, bad: Evidence)
    requires c.required && good.claimId == bad.claimId == c.id
    requires good.state == bad.state == Valid && good.exitCode == 0 && bad.exitCode != 0
    ensures Evaluate([c], [good, bad]).decision == Accepted
    ensures Evaluate([c], [bad, good]).decision != Accepted
  {
    assert For([good, bad], c.id)[0] == good && For([bad, good], c.id)[0] == bad;
    assert c in [c];
  }

  // ---------------------------------------------------------------- policy

  datatype Policy = Policy(
    rejectOnInvalid: bool,
    escalateOnStale: bool,
    escalateOnMissing: bool,
    minVerifiedRatio: real)

  /** The [policy] table of one file: the keys it sets. */
  datatype PolicyTable = PolicyTable(
    rejectOnInvalid: Option<bool>,
    escalateOnStale: Option<bool>,
    escalateOnMissing: Option<bool>,
    minVerifiedRatio: Option<real>)

  function CountValid(claims: seq<ClaimResult>): nat {
    if claims == [] then 0
    else CountValid(claims[..|claims| - 1]) + if claims[|claims| - 1].state == Valid then 1 else 0
  }

  function Ratio(claims: seq<ClaimResult>): real {
    CountValid(claims) as real / (if |claims| == 0 then 1 else |claims|) as real
  }

  predicate Below(claims: seq<ClaimResult>, policy: Policy) {
    claims != [] && policy.minVerifiedRatio > 0.0 && Ratio(claims) < policy.minVerifiedRatio
  }

  predicate AnyState(claims: seq<ClaimResult>, s: EvidenceState) {
    exists c :: c in claims && c.state == s
  }

  function UnderPolicy(r: DecisionResult, policy: Policy): DecisionResult {
    r.(decision :=
      if Below(r.claims, policy) then Rejected
      else if AnyState(r.claims, Stale) && policy.escalateOnStale && r.decision != Accepted then Escalated
      else if AnyState(r.claims, Invalid) && !policy.rejectOnInvalid && r.decision == Rejected then Escalated
      else if AnyState(r.claims, Invalid) && policy.escalateOnMissing && r.decision == EvidenceRequired then Escalated
      else r.decision)
  }

  method ApplyPolicy(r: DecisionResult, policy: Policy) returns (result: DecisionResult)
    ensures result == UnderPolicy(r, policy)
  {
    result := r;
    var total, verified := |r.claims|, 0;
    var hasStale, hasInvalid := false, false;
    for i := 0 to total
      invariant verified == CountValid(r.claims[..i])
      invariant hasStale <==> AnyState(r.claims[..i], Stale)
      invariant hasInvalid <==> AnyState(r.claims[..i], Invalid)
    {
      assert r.claims[..i + 1] == r.claims[..i] + [r.claims[i]];
      if r.claims[i].state == Valid { verified := verified + 1; }
      hasStale := hasStale || r.claims[i].state == Stale;
      hasInvalid := hasInvalid || r.claims[i].state == Invalid;
    }
    assert r.claims[..total] == r.claims;
    var ratio := verified as real / (if total == 0 then 1 else total) as real;
    if total > 0 && policy.minVerifiedRatio > 0.0 && ratio < policy.minVerifiedRatio {
      result := result.(decision := Rejected);
      return;
    }
    if hasStale && policy.escalateOnStale && result.decision != Accepted {
      result := result.(decision := Escalated);
      return;
    }
    if hasInvalid && !policy.rejectOnInvalid && result.decision == Rejected {
      result := result.(decision := Escalated);
      return;
    }
    if hasInvalid && policy.escalateOnMissing && result.decision == EvidenceRequired {
      result := result.(decision := Escalated);
    }
  }

  const DEFAULT_POLICY := Policy(true, false, false, 0.0)

  function Override(p: Policy, t: PolicyTable): Policy {
    Policy(
      t.rejectOnInvalid.GetOr(p.rejectOnInvalid),
      p.escalateOnStale || t.escalateOnStale == Some(true),
      p.escalateOnMissing || t.escalateOnMissing == Some(true),
      if t.minVerifiedRatio.Some? && t.minVerifiedRatio.value > p.minVerifiedRatio
      then t.minVerifiedRatio.value else p.minVerifiedRatio)
  }

  /** The stack in name order; None is a file that cannot be read or has no [policy] table. */
  function Merged(files: seq<Option<PolicyTable>>): Policy {
    if files == [] then DEFAULT_POLICY else
      var p := Merged(files[..|files| - 1]);
      match files[|files| - 1]
      case None => p
      case Some(t) => Override(p, t)
  }

  method LoadPolicies(files: seq<Option<PolicyTable>>) returns (policy: Policy)
    ensures policy == Merged(files)
  {
    policy := DEFAULT_POLICY;
    for i := 0 to |files|
      invariant policy == Merged(files[..i])
    {
      assert files[..i + 1][..i] == files[..i];
      if files[i].None? { continue; }
      var t := files[i].value;
      if t.rejectOnInvalid.Some? { policy := policy.(rejectOnInvalid := t.rejectOnInvalid.value); }
      if t.escalateOnStale.Some? {
        policy := policy.(escalateOnStale := policy.escalateOnStale || t.escalateOnStale.value);
      }
      if t.escalateOnMissing.Some? {
        policy := policy.(escalateOnMissing := policy.escalateOnMissing || t.escalateOnMissing.value);
      }
      if t.minVerifiedRatio.Some? && t.minVerifiedRatio.value > policy.minVerifiedRatio {
        policy := policy.(minVerifiedRatio := t.minVerifiedRatio.value);
      }
    }
    assert files[..|files|] == files;
  }

  predicate Sets(files: seq<Option<PolicyTable>>, i: nat)
    requires i < |files|
  {
    files[i].Some? && files[i].value.minVerifiedRatio.Some?
  }

  lemma LastFile(files: seq<Option<PolicyTable>>, i: nat)
    requires files != [] && i < |files|
    ensures i < |files| - 1 ==> files[..|files| - 1][i] == files[i]
    ensures Merged(files) == match files[|files| - 1]
                             case None => Merged(files[..|files| - 1])
                             case Some(t) => Override(Merged(files[..|files| - 1]), t)
  {
  }

  ghost predicate SetsRatio(files: seq<Option<PolicyTable>>, i: nat, r: real) {
    i < |files| && Sets(files, i) && files[i].value.minVerifiedRatio.value == r
  }

  lemma {:induction false} MergedRatio(files: seq<Option<PolicyTable>>)
    ensures Merged(files).minVerifiedRatio >= 0.0
    ensures forall i: nat, r :: SetsRatio(files, i, r) ==> r <= Merged(files).minVerifiedRatio
    ensures Merged(files).minVerifiedRatio == 0.0
         || exists i: nat :: SetsRatio(files, i, Merged(files).minVerifiedRatio)
  {
    if files != [] {
      hide Merged;
      var init, last := files[..|files| - 1], |files| - 1;
      MergedRatio(init);
      LastFile(files, last);
      var r := Merged(files).minVerifiedRatio;
      forall i: nat, q | SetsRatio(files, i, q) ensures q <= r {
        if i < last { assert SetsRatio(init, i, q); }
      }
      if r != 0.0 {
        if r == Merged(init).minVerifiedRatio {
          var i: nat :| SetsRatio(init, i, r);
          assert SetsRatio(files, i, r);
        } else {
          assert SetsRatio(files, last, r);
        }
      }
    } else {
      assert Merged(files) == DEFAULT_POLICY;
    }
  }

  ghost predicate TurnsOnStale(files: seq<Option<PolicyTable>>, i: nat) {
    i < |files| && files[i].Some? && files[i].value.escalateOnStale == Some(true)
  }

  ghost predicate TurnsOnMissing(files: seq<Option<PolicyTable>>, i: nat) {
    i < |files| && files[i].Some? && files[i].value.escalateOnMissing == Some(true)
  }

  lemma {:induction false} MergedEscalations(files: seq<Option<PolicyTable>>)
    ensures Merged(files).escalateOnStale <==> exists i: nat :: TurnsOnStale(files, i)
    ensures Merged(files).escalateOnMissing <==> exists i: nat :: TurnsOnMissing(files, i)
  {
    if files != [] {
      hide Merged;
      var init, last := files[..|files| - 1], |files| - 1;
      MergedEscalations(init);
      LastFile(files, last);
      forall i: nat
        ensures TurnsOnStale(files, i) <==> TurnsOnStale(init, i) || (i == last && TurnsOnStale(files, last))
        ensures TurnsOnMissing(files, i) <==> TurnsOnMissing(init, i) || (i == last && TurnsOnMissing(files, last))
      {
      }
      assert Merged(files).escalateOnStale <==> Merged(init).escalateOnStale || TurnsOnStale(files, last);
      assert Merged(files).escalateOnMissing <==> Merged(init).escalateOnMissing || TurnsOnMissing(files, last);
    } else {
      assert Merged(files) == DEFAULT_POLICY;
    }
  }

  ghost predicate SetsReject(files: seq<Option<PolicyTable>>, i: nat) {
    i < |files| && files[i].Some? && files[i].value.rejectOnInvalid.Some?
  }

  lemma {:induction false} MergedReject(files: seq<Option<PolicyTable>>, i: nat)
    requires SetsReject(files, i) && forall j :: i < j < |files| ==> !SetsReject(files, j)
    ensures Merged(files).rejectOnInvalid == files[i].value.rejectOnInvalid.value
  {
    var init, last := files[..|files| - 1], |files| - 1;
    LastFile(files, i);
    if i < last {
      assert !SetsReject(files, last);
      forall j | i < j < |init| ensures !SetsReject(init, j) { assert !SetsReject(files, j); }
      MergedReject(init, i);
    }
  }

  lemma {:induction false} RejectsByDefault(files: seq<Option<PolicyTable>>)
    requires forall i :: 0 <= i < |files| && files[i].Some? ==> files[i].value.rejectOnInvalid.None?
    ensures Merged(files).rejectOnInvalid
  {
    if files != [] {
      var init, last := files[..|files| - 1], |files| - 1;
      LastFile(files, last);
      forall i | 0 <= i < |init| && init[i].Some? ensures init[i].value.rejectOnInvalid.None? {
        assert init[i] == files[i];
      }
      RejectsByDefault(init);
    }
  }

  /** The merged minimum is the largest one any file sets, and never negative; an
      escalation is on when any file turns it on; the last file to set
      `reject_on_invalid` wins, and with none it is on. */
  lemma MergedExact(files: seq<Option<PolicyTable>>)
    ensures Merged(files).minVerifiedRatio >= 0.0
    ensures forall i :: 0 <= i < |files| && Sets(files, i) ==>
              files[i].value.minVerifiedRatio.value <= Merged(files).minVerifiedRatio
    ensures Merged(files).minVerifiedRatio == 0.0 || exists i ::
              0 <= i < |files| && Sets(files, i)
              && files[i].value.minVerifiedRatio.value == Merged(files).minVerifiedRatio
    ensures Merged(files).escalateOnStale <==>
              exists i :: 0 <= i < |files| && files[i].Some? && files[i].value.escalateOnStale == Some(true)
    ensures Merged(files).escalateOnMissing <==>
              exists i :: 0 <= i < |files| && files[i].Some? && files[i].value.escalateOnMissing == Some(true)
    ensures forall i :: 0 <= i < |files| && files[i].Some? && files[i].value.rejectOnInvalid.Some?
              && (forall j :: i < j < |files| && files[j].Some? ==> files[j].value.rejectOnInvalid.None?)
              ==> Merged(files).rejectOnInvalid == files[i].value.rejectOnInvalid.value
    ensures (forall i :: 0 <= i < |files| && files[i].Some? ==> files[i].value.rejectOnInvalid.None?)
              ==> Merged(files).rejectOnInvalid
  {
    hide Merged;
    MergedRatio(files);
    MergedEscalations(files);
    if forall i :: 0 <= i < |files| && files[i].Some? ==> files[i].value.rejectOnInvalid.None? {
      RejectsByDefault(files);
    }
    forall i | 0 <= i < |files| && Sets(files, i)
      ensures files[i].value.minVerifiedRatio.value <= Merged(files).minVerifiedRatio
    {
      assert SetsRatio(files, i, files[i].value.minVerifiedRatio.value);
    }
    if i :| 0 <= i < |files| && files[i].Some? && files[i].value.escalateOnStale == Some(true) {
      assert TurnsOnStale(files, i);
    }
    if i :| 0 <= i < |files| && files[i].Some? && files[i].value.escalateOnMissing == Some(true) {
      assert TurnsOnMissing(files, i);
    }
    forall i | 0 <= i < |files| && files[i].Some? && files[i].value.rejectOnInvalid.Some?
      && (forall j :: i < j < |files| && files[j].Some? ==> files[j].value.rejectOnInvalid.None?)
      ensures Merged(files).rejectOnInvalid == files[i].value.rejectOnInvalid.value
    {
      MergedReject(files, i);
    }
  }

  // ---------------------------------------------------------------- the run's last word

  /** A stale claim that could not be proved again needs a human. */
  function Escalate(r: DecisionResult, policy: Policy, staleIds: seq<string>): DecisionResult {
    if policy.escalateOnStale && r.decision != Accepted
       && (exists id :: id in staleIds && !(exists c :: c in r.claims && c.claimId == id && c.state == Valid))
    then r.(decision := Escalated) else r
  }

  function Final(claims: seq<ClaimIr>, evs: seq<Evidence>, policy: Policy, staleIds: seq<string>): DecisionResult {
    Escalate(UnderPolicy(Evaluate(claims, evs), policy), policy, staleIds)
  }

  /** Accepted exactly when the truth table accepts and the verified ratio is met: neither
      the policy nor the escalation can add an acceptance. */
  lemma FinalAccepts(claims: seq<ClaimIr>, evs: seq<Evidence>, policy: Policy, staleIds: seq<string>)
    ensures Final(claims, evs, policy, staleIds).decision == Accepted <==>
              Evaluate(claims, evs).decision == Accepted && !Below(Evaluate(claims, evs).claims, policy)
  {
  }

  lemma {:induction false} InsertRaises(files: seq<Option<PolicyTable>>, i: nat, t: Option<PolicyTable>)
    requires i <= |files|
    ensures Merged(files[..i] + [t] + files[i..]).minVerifiedRatio >= Merged(files).minVerifiedRatio
  {
    var more := files[..i] + [t] + files[i..];
    MergedExact(files);
    MergedExact(more);
    if Merged(files).minVerifiedRatio != 0.0 {
      var k :| 0 <= k < |files| && Sets(files, k)
             && files[k].value.minVerifiedRatio.value == Merged(files).minVerifiedRatio;
      var k' := if k < i then k else k + 1;
      assert more[k'] == files[k];
      assert Sets(more, k');
    }
  }

  /** One more policy file, anywhere in the stack, never turns an outcome into Accepted. */
  lemma AcceptanceOnlyNarrows(claims: seq<ClaimIr>, evs: seq<Evidence>, staleIds: seq<string>,
                              files: seq<Option<PolicyTable>>, i: nat, t: Option<PolicyTable>)
    requires i <= |files|
    ensures Final(claims, evs, Merged(files[..i] + [t] + files[i..]), staleIds).decision == Accepted
        ==> Final(claims, evs, Merged(files), staleIds).decision == Accepted
  {
    InsertRaises(files, i, t);
    MergedExact(files);
    FinalAccepts(claims, evs, Merged(files), staleIds);
    FinalAccepts(claims, evs, Merged(files[..i] + [t] + files[i..]), staleIds);
  }

  /** Some claim of the contract with this id holds a Valid proof. */
  ghost predicate Renewed(claims: seq<ClaimIr>, evs: seq<Evidence>, id: string) {
    exists c :: c in claims && c.id == id && Has(evs, id, Valid)
  }

  lemma RenewedShows(claims: seq<ClaimIr>, evs: seq<Evidence>, id: string)
    requires ExitSound(evs)
    ensures Renewed(claims, evs, id) <==>
              exists c :: c in Evaluate(claims, evs).claims && c.claimId == id && c.state == Valid
  {
    var shown := Evaluate(claims, evs).claims;
    forall i | 0 <= i < |claims|
      ensures shown[i].claimId == claims[i].id && (shown[i].state == Valid <==> Has(evs, claims[i].id, Valid))
    {
      ClaimDecided(claims[i], evs);
    }
    if Renewed(claims, evs, id) {
      var c :| c in claims && c.id == id && Has(evs, id, Valid);
      var i :| 0 <= i < |claims| && claims[i] == c;
      assert shown[i] in shown;
    }
    if c :| c in shown && c.claimId == id && c.state == Valid {
      var i :| 0 <= i < |shown| && shown[i] == c;
      assert claims[i] in claims;
    }
  }

  /** A verified ratio below the minimum rejects, whatever the truth table says, except that an
      unrenewed stale claim still escalates the rejection when `escalate_on_stale` is on. */
  lemma RatioYieldsToStale(claims: seq<ClaimIr>, evs: seq<Evidence>, policy: Policy, staleIds: seq<string>)
    requires ExitSound(evs) && Below(Evaluate(claims, evs).claims, policy)
    ensures var d := Final(claims, evs, policy, staleIds).decision;
            d == (if policy.escalateOnStale && exists id :: id in staleIds && !Renewed(claims, evs, id)
                  then Escalated else Rejected)
  {
    forall id ensures Renewed(claims, evs, id) <==>
        exists c :: c in Evaluate(claims, evs).claims && c.claimId == id && c.state == Valid
    {
      RenewedShows(claims, evs, id);
    }
  }

  /** With no policy file the truth table has the last word. */
  lemma NoPolicyIsTheTable(claims: seq<ClaimIr>, evs: seq<Evidence>, staleIds: seq<string>)
    ensures Final(claims, evs, Merged([]), staleIds) == Evaluate(claims, evs)
  {
  }

  // ---------------------------------------------------------------- what each switch does

  /** A critical claim has an Invalid proof and no Valid one. */
  ghost predicate CriticallyFailed(claims: seq<ClaimIr>, evs: seq<Evidence>) {
    exists c :: c in claims && c.critical && Has(evs, c.id, Invalid) && !Has(evs, c.id, Valid)
  }

  /** A required or critical claim has no Valid proof. */
  ghost predicate Unproved(claims: seq<ClaimIr>, evs: seq<Evidence>) {
    exists c :: c in claims && (c.required || c.critical) && !Has(evs, c.id, Valid)
  }

  /** The first proof of the claim is Stale, and none is Valid. */
  ghost predicate WentStale(c: ClaimIr, evs: seq<Evidence>) {
    && !Has(evs, c.id, Valid)
    && exists i :: 0 <= i < |evs| && evs[i].claimId == c.id && evs[i].state == Stale
         && forall j :: 0 <= j < i ==> evs[j].claimId != c.id
  }

  lemma {:induction false} FirstOf(evs: seq<Evidence>, id: string, s: EvidenceState)
    ensures For(evs, id) != [] && For(evs, id)[0].state == s <==>
              exists i :: 0 <= i < |evs| && evs[i].claimId == id && evs[i].state == s
                && forall j :: 0 <= j < i ==> evs[j].claimId != id
  {
    if evs != [] && evs[0].claimId != id {
      FirstOf(evs[1..], id, s);
      assert forall j :: 0 <= j < |evs| - 1 ==> evs[1..][j] == evs[j + 1];
      if i :| 0 <= i < |evs| && evs[i].claimId == id && evs[i].state == s
              && forall j :: 0 <= j < i ==> evs[j].claimId != id {
        assert evs[1..][i - 1] == evs[i];
      }
      if i :| 0 <= i < |evs[1..]| && evs[1..][i].claimId == id && evs[1..][i].state == s
              && forall j :: 0 <= j < i ==> evs[1..][j].claimId != id {
        assert evs[i + 1] == evs[1..][i];
        assert forall j :: 1 <= j < i + 1 ==> evs[j] == evs[1..][j - 1];
      }
    }
  }

  /** How a claim is shown: Valid with a Valid proof, Stale when it went stale, else Invalid. */
  lemma ShownExact(claims: seq<ClaimIr>, evs: seq<Evidence>, i: nat)
    requires ExitSound(evs) && i < |claims|
    ensures |Evaluate(claims, evs).claims| == |claims|
    ensures Evaluate(claims, evs).claims[i] ==
              ClaimResult(claims[i].id, claims[i].required, claims[i].critical,
                          if Has(evs, claims[i].id, Valid) then Valid
                          else if WentStale(claims[i], evs) then Stale else Invalid)
  {
    ClaimDecided(claims[i], evs);
    FirstOf(evs, claims[i].id, Stale);
    ForExact(evs, claims[i].id);
    FirstValidExact(For(evs, claims[i].id));
  }

  lemma AnyShown(claims: seq<ClaimIr>, evs: seq<Evidence>)
    requires ExitSound(evs)
    ensures AnyState(Evaluate(claims, evs).claims, Stale) <==> exists c :: c in claims && WentStale(c, evs)
    ensures AnyState(Evaluate(claims, evs).claims, Invalid) <==>
              exists c :: c in claims && !Has(evs, c.id, Valid) && !WentStale(c, evs)
  {
    hide WentStale, Has;
    var shown := Evaluate(claims, evs).claims;
    forall i | 0 <= i < |claims|
      ensures shown[i].state == Stale <==> !Has(evs, claims[i].id, Valid) && WentStale(claims[i], evs)
      ensures shown[i].state == Invalid <==> !Has(evs, claims[i].id, Valid) && !WentStale(claims[i], evs)
      ensures WentStale(claims[i], evs) ==> !Has(evs, claims[i].id, Valid)
    {
      ShownExact(claims, evs, i);
      StaleUnproved(claims[i], evs);
    }
    Among(claims, evs, shown, Stale);
    Among(claims, evs, shown, Invalid);
  }

  lemma StaleUnproved(c: ClaimIr, evs: seq<Evidence>)
    ensures WentStale(c, evs) ==> !Has(evs, c.id, Valid)
  {
  }

  lemma Among(claims: seq<ClaimIr>, evs: seq<Evidence>, shown: seq<ClaimResult>, s: EvidenceState)
    requires |shown| == |claims|
    ensures AnyState(shown, s) <==> exists i :: 0 <= i < |claims| && shown[i].state == s
  {
    if i :| 0 <= i < |claims| && shown[i].state == s { assert shown[i] in shown; }
  }

  /** Which of the claims hold a Valid proof. */
  ghost function Proved(claims: seq<ClaimIr>, evs: seq<Evidence>): set<nat> {
    set i: nat | i < |claims| && Has(evs, claims[i].id, Valid)
  }

  ghost function ShownValid(shown: seq<ClaimResult>): set<nat> {
    set i: nat | i < |shown| && shown[i].state == Valid
  }

  lemma OneMoreShown(init: seq<ClaimResult>, last: ClaimResult)
    ensures ShownValid(init + [last]) == ShownValid(init) + if last.state == Valid then {|init|} else {}
    ensures |init| !in ShownValid(init)
  {
  }

  lemma {:induction false} CountIs(shown: seq<ClaimResult>)
    ensures CountValid(shown) == |ShownValid(shown)|
  {
    if shown != [] {
      hide ShownValid;
      var init, last := shown[..|shown| - 1], shown[|shown| - 1];
      CountIs(init);
      OneMoreShown(init, last);
      assert shown == init + [last];
    } else {
      assert ShownValid(shown) == {};
    }
  }

  /** The ratio is missed exactly when fewer claims than that share of them are proved. */
  lemma BelowExact(claims: seq<ClaimIr>, evs: seq<Evidence>, policy: Policy)
    requires ExitSound(evs)
    ensures Below(Evaluate(claims, evs).claims, policy) <==>
              |Proved(claims, evs)| as real < policy.minVerifiedRatio * |claims| as real
  {
    hide Evaluate, Has, Ratio;
    CountProved(claims, evs);
    if claims == [] {
      assert Proved(claims, evs) == {};
    } else {
      ShareOf(|Proved(claims, evs)|, |claims|, policy.minVerifiedRatio);
      RatioIs(Evaluate(claims, evs).claims);
    }
  }

  lemma RatioIs(shown: seq<ClaimResult>)
    requires shown != []
    ensures Ratio(shown) == CountValid(shown) as real / |shown| as real
  {
  }

  lemma CountProved(claims: seq<ClaimIr>, evs: seq<Evidence>)
    requires ExitSound(evs)
    ensures |Evaluate(claims, evs).claims| == |claims|
    ensures CountValid(Evaluate(claims, evs).claims) == |Proved(claims, evs)|
  {
    var shown := Evaluate(claims, evs).claims;
    CountIs(shown);
    forall i | 0 <= i < |claims| ensures shown[i].state == Valid <==> Has(evs, claims[i].id, Valid) {
      ShownExact(claims, evs, i);
    }
    hide Evaluate, Has, CountValid;
    assert Proved(claims, evs) == ShownValid(shown);
  }

  lemma ShareOf(part: nat, whole: nat, share: real)
    requires whole > 0
    ensures part as real / whole as real < share <==> (part as real) < share * whole as real
    ensures (part as real) < share * whole as real ==> share > 0.0
  {
    var q := part as real / whole as real;
    assert q * whole as real == part as real;
    if q < share { assert q * whole as real < share * whole as real; }
    if q >= share { assert q * whole as real >= share * whole as real; }
    assert q >= 0.0;
  }

  ghost predicate Low(claims: seq<ClaimIr>, evs: seq<Evidence>, policy: Policy) {
    |Proved(claims, evs)| as real < policy.minVerifiedRatio * |claims| as real
  }

  ghost predicate Unrenewed(claims: seq<ClaimIr>, evs: seq<Evidence>, staleIds: seq<string>) {
    exists id :: id in staleIds && !Renewed(claims, evs, id)
  }

  ghost predicate SomeStale(claims: seq<ClaimIr>, evs: seq<Evidence>) {
    exists c :: c in claims && WentStale(c, evs)
  }

  ghost predicate SomeInvalid(claims: seq<ClaimIr>, evs: seq<Evidence>) {
    exists c :: c in claims && !Has(evs, c.id, Valid) && !WentStale(c, evs)
  }

  lemma TableExact(claims: seq<ClaimIr>, evs: seq<Evidence>)
    requires ExitSound(evs)
    ensures Evaluate(claims, evs).decision ==
              if CriticallyFailed(claims, evs) then Rejected
              else if Unproved(claims, evs) then EvidenceRequired else Accepted
    ensures CriticallyFailed(claims, evs) ==> Unproved(claims, evs)
  {
    hide Evaluate;
    DecisionTable(claims, evs);
  }

  lemma EscalateExact(claims: seq<ClaimIr>, evs: seq<Evidence>, d: Decision, policy: Policy, staleIds: seq<string>)
    requires ExitSound(evs)
    ensures Escalate(Evaluate(claims, evs).(decision := d), policy, staleIds).decision ==
              if policy.escalateOnStale && d != Accepted && Unrenewed(claims, evs, staleIds) then Escalated else d
  {
    hide Evaluate, Renewed;
    forall id ensures Renewed(claims, evs, id) <==>
        exists c :: c in Evaluate(claims, evs).claims && c.claimId == id && c.state == Valid
    {
      RenewedShows(claims, evs, id);
    }
  }

  /** The run's last word under any policy, from the presence of proofs alone: the ratio first, then
      staleness, then what the two other switches make of a rejection and of a lack of proof. */
  lemma PolicyExact(claims: seq<ClaimIr>, evs: seq<Evidence>, policy: Policy, staleIds: seq<string>)
    requires ExitSound(evs)
    ensures Final(claims, evs, policy, staleIds).decision ==
      if Low(claims, evs, policy)
        then if policy.escalateOnStale && Unrenewed(claims, evs, staleIds) then Escalated else Rejected
      else if !Unproved(claims, evs) then Accepted
      else if policy.escalateOnStale && (SomeStale(claims, evs) || Unrenewed(claims, evs, staleIds)) then Escalated
      else if CriticallyFailed(claims, evs)
        then if policy.rejectOnInvalid || !SomeInvalid(claims, evs) then Rejected else Escalated
      else if policy.escalateOnMissing && SomeInvalid(claims, evs) then Escalated
      else EvidenceRequired
  {
    hide Evaluate, WentStale, Has, Below, Escalate;
    TableExact(claims, evs);
    AnyShown(claims, evs);
    BelowExact(claims, evs, policy);
    hide CriticallyFailed, Unproved, AnyState, Unrenewed;
    var r := Evaluate(claims, evs);
    EscalateExact(claims, evs, UnderPolicy(r, policy).decision, policy, staleIds);
    assert UnderPolicy(r, policy) == r.(decision := UnderPolicy(r, policy).decision);
  }

  /** With no Stale proof and no minimum ratio: a critical failure rejects, or escalates when
      `reject_on_invalid` is off; a lack of proof asks for evidence, or escalates when
      `escalate_on_missing` is on. */
  lemma SwitchesExact(claims: seq<ClaimIr>, evs: seq<Evidence>, policy: Policy)
    requires ExitSound(evs) && (forall e :: e in evs ==> e.state != Stale) && policy.minVerifiedRatio <= 0.0
    ensures Final(claims, evs, policy, []).decision ==
      if CriticallyFailed(claims, evs) then if policy.rejectOnInvalid then Rejected else Escalated
      else if Unproved(claims, evs) then if policy.escalateOnMissing then Escalated else EvidenceRequired
      else Accepted
  {
    PolicyExact(claims, evs, policy, []);
    TableExact(claims, evs);
    NotBelow(claims, evs, policy);
    hide Final, Evaluate, Low, Has;
    forall i | 0 <= i < |evs| ensures evs[i].state != Stale { assert evs[i] in evs; }
    if Unproved(claims, evs) {
      var c :| c in claims && (c.required || c.critical) && !Has(evs, c.id, Valid);
      assert !WentStale(c, evs);
    }
  }

  lemma NotBelow(claims: seq<ClaimIr>, evs: seq<Evidence>, policy: Policy)
    requires policy.minVerifiedRatio <= 0.0
    ensures !Low(claims, evs, policy)
  {
    assert policy.minVerifiedRatio * |claims| as real <= 0.0;
  }
}
