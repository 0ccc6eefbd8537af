/** `uni lint`: findings about a contract before anything runs, against the gate of a run. */
module Lint {
  import opened Bindings
  import opened Ir
  import opened Text
  import opened Verifier
  import opened VerifyRun

  datatype FindingKind =
    | MissingVerify
    | UnknownVerifierRef
    | DuplicateVerify
    | SelectorTemplate
    | PinnedTestSelector
    | UnboundRequirement

  datatype Finding = Finding(severity: nat, kind: FindingKind, claim: string)

  /** Judges whether a registered command bakes a test name in. */
  type Pins = VerifierSpec -> bool

  // ---------------------------------------------------------------- the rules

  predicate Covered(vs: seq<VerificationIr>, id: string) {
    exists i :: 0 <= i < |vs| && vs[i].claimId == id
  }

  function MissingVerifies(vs: seq<VerificationIr>, claims: seq<ClaimIr>): seq<Finding> {
    if claims == [] then [] else
      var c := claims[|claims| - 1];
      MissingVerifies(vs, claims[..|claims| - 1])
      + if Covered(vs, c.id) then [] else [Finding(2, MissingVerify, c.id)]
  }

  predicate Unregistered(reg: Registry, v: VerificationIr) {
    v.verifierRef != "shell" && v.verifierRef !in reg
  }

  function UnknownVerifiers(reg: Registry, vs: seq<VerificationIr>): seq<Finding> {
    if vs == [] then [] else
      var v := vs[|vs| - 1];
      UnknownVerifiers(reg, vs[..|vs| - 1])
      + if Unregistered(reg, v) then [Finding(1, UnknownVerifierRef, v.claimId)] else []
  }

  predicate SameTarget(a: VerificationIr, b: VerificationIr) {
    b.claimId == a.claimId && b.verifierRef == a.verifierRef && b.inlineShell == a.inlineShell
  }

  /** The later verifications that repeat `a`. */
  function RepeatsOf(a: VerificationIr, later: seq<VerificationIr>): seq<Finding> {
    if later == [] then [] else
      RepeatsOf(a, later[..|later| - 1])
      + if SameTarget(a, later[|later| - 1]) then [Finding(1, DuplicateVerify, a.claimId)] else []
  }

  function Duplicates(vs: seq<VerificationIr>, n: nat): seq<Finding>
    requires n <= |vs|
  {
    if n == 0 then [] else Duplicates(vs, n - 1) + RepeatsOf(vs[n - 1], vs[n..])
  }

  predicate SelectorAuthorized(bindings: Bound, v: VerificationIr) {
    && v.claimId in bindings
    && bindings[v.claimId].verifierRef == v.verifierRef
    && bindings[v.claimId].requirement == v.requirement.GetOr("")
    && !Blank(bindings[v.claimId].selector.GetOr(""))
  }

  function SelectorTemplates(reg: Registry, bindings: Bound, vs: seq<VerificationIr>): seq<Finding> {
    if vs == [] then [] else
      var v := vs[|vs| - 1];
      SelectorTemplates(reg, bindings, vs[..|vs| - 1])
      + if TemplateRef(reg, v.verifierRef) && !SelectorAuthorized(bindings, v)
        then [Finding(1, SelectorTemplate, v.claimId)] else []
  }

  function PinnedTests(reg: Registry, pins: Pins, vs: seq<VerificationIr>): seq<Finding> {
    if vs == [] then [] else
      var v := vs[|vs| - 1];
      PinnedTests(reg, pins, vs[..|vs| - 1])
      + if v.verifierRef in reg && pins(reg[v.verifierRef]) then [Finding(1, PinnedTestSelector, v.claimId)] else []
  }

  predicate RequirementBound(bindings: Bound, v: VerificationIr) {
    && v.claimId in bindings
    && bindings[v.claimId].verifierRef == v.verifierRef
    && bindings[v.claimId].requirement == v.requirement.GetOr("")
  }

  /** Claims the selector rule already spoke about are passed over. */
  function UnboundRequirements(bindings: Bound, flagged: set<string>, vs: seq<VerificationIr>): seq<Finding> {
    if vs == [] then [] else
      var v := vs[|vs| - 1];
      UnboundRequirements(bindings, flagged, vs[..|vs| - 1])
      + if v.requirement.Some? && v.claimId !in flagged && !RequirementBound(bindings, v)
        then [Finding(1, UnboundRequirement, v.claimId)] else []
  }

  function ClaimsOf(findings: seq<Finding>): set<string> {
    set f | f in findings :: f.claim
  }

  function Findings(reg: Registry, bindings: Bound, pins: Pins, ir: Contract): seq<Finding> {
    var selectors := SelectorTemplates(reg, bindings, ir.verification);
    MissingVerifies(ir.verification, ir.claims)
    + (if reg == map[] then [] else UnknownVerifiers(reg, ir.verification))
    + Duplicates(ir.verification, |ir.verification|)
    + selectors
    + PinnedTests(reg, pins, ir.verification)
    + UnboundRequirements(bindings, ClaimsOf(selectors), ir.verification)
  }

  /** Only findings of severity 2 fail the lint. */
  function Errors(findings: seq<Finding>): seq<Finding> {
    if findings == [] then [] else
      Errors(findings[..|findings| - 1])
      + if findings[|findings| - 1].severity == 2 then [findings[|findings| - 1]] else []
  }

  // ---------------------------------------------------------------- the loops

  method CmdLint(reg: Registry, bindings: Bound, pins: Pins, ir: Contract) returns (findings: seq<Finding>, ok: bool)
    ensures findings == Findings(reg, bindings, pins, ir)
    ensures ok <==> Errors(findings) == []
  {
    var vs := ir.verification;
    hide MissingVerifies, UnknownVerifiers, Duplicates, SelectorTemplates, PinnedTests, UnboundRequirements;
    findings := PushMissing(vs, ir.claims);
    if reg != map[] { findings := PushUnknown(reg, vs, findings); }
    findings := PushDuplicates(vs, findings);
    var before := findings;
    findings := PushSelectors(reg, bindings, vs, findings);
    var flagged := ClaimsOf(findings[|before|..]);
    assert findings[|before|..] == SelectorTemplates(reg, bindings, vs);
    findings := PushPinned(reg, pins, vs, findings);
    findings := PushUnbound(bindings, flagged, vs, findings);
    ok := NoErrors(findings);
  }

  method NoErrors(findings: seq<Finding>) returns (ok: bool)
    ensures ok <==> Errors(findings) == []
  {
    var errors := 0;
    for i := 0 to |findings|
      invariant errors == |Errors(findings[..i])|
    {
      assert findings[..i + 1][..i] == findings[..i];
      if findings[i].severity == 2 { errors := errors + 1; }
    }
    assert findings[..|findings|] == findings;
    ok := errors == 0;
  }

  method PushMissing(vs: seq<VerificationIr>, claims: seq<ClaimIr>) returns (findings: seq<Finding>)
    ensures findings == MissingVerifies(vs, claims)
  {
    findings := [];
    for i := 0 to |claims|
      invariant findings == MissingVerifies(vs, claims[..i])
    {
      assert claims[..i + 1][..i] == claims[..i];
      if !Covered(vs, claims[i].id) { findings := findings + [Finding(2, MissingVerify, claims[i].id)]; }
    }
    assert claims[..|claims|] == claims;
  }

  method PushUnknown(reg: Registry, vs: seq<VerificationIr>, before: seq<Finding>) returns (findings: seq<Finding>)
    ensures findings == before + UnknownVerifiers(reg, vs)
  {
    findings := before;
    for i := 0 to |vs|
      invariant findings == before + UnknownVerifiers(reg, vs[..i])
    {
      assert vs[..i + 1][..i] == vs[..i];
      if Unregistered(reg, vs[i]) { findings := findings + [Finding(1, UnknownVerifierRef, vs[i].claimId)]; }
    }
    assert vs[..|vs|] == vs;
  }

  method PushDuplicates(vs: seq<VerificationIr>, before: seq<Finding>) returns (findings: seq<Finding>)
    ensures findings == before + Duplicates(vs, |vs|)
  {
    findings := before;
    for i := 0 to |vs|
      invariant findings == before + Duplicates(vs, i)
    {
      findings := PushRepeats(vs[i], vs[i + 1..], findings);
      assert before + Duplicates(vs, i) + RepeatsOf(vs[i], vs[i + 1..])
          == before + (Duplicates(vs, i) + RepeatsOf(vs[i], vs[i + 1..]));
    }
  }

  method PushRepeats(a: VerificationIr, later: seq<VerificationIr>, before: seq<Finding>)
    returns (findings: seq<Finding>)
    ensures findings == before + RepeatsOf(a, later)
  {
    findings := before;
    for j := 0 to |later|
      invariant findings == before + RepeatsOf(a, later[..j])
    {
      assert later[..j + 1][..j] == later[..j];
      if SameTarget(a, later[j]) { findings := findings + [Finding(1, DuplicateVerify, a.claimId)]; }
    }
    assert later[..|later|] == later;
  }

  method PushSelectors(reg: Registry, bindings: Bound, vs: seq<VerificationIr>, before: seq<Finding>)
    returns (findings: seq<Finding>)
    ensures findings == before + SelectorTemplates(reg, bindings, vs)
  {
    findings := before;
    for i := 0 to |vs|
      invariant findings == before + SelectorTemplates(reg, bindings, vs[..i])
    {
      assert vs[..i + 1][..i] == vs[..i];
      if vs[i].verifierRef !in reg { continue; }
      if !IsSelectorTemplate(reg[vs[i].verifierRef]) { continue; }
      if !SelectorAuthorized(bindings, vs[i]) {
        findings := findings + [Finding(1, SelectorTemplate, vs[i].claimId)];
      }
    }
    assert vs[..|vs|] == vs;
  }

  method PushPinned(reg: Registry, pins: Pins, vs: seq<VerificationIr>, before: seq<Finding>)
    returns (findings: seq<Finding>)
    ensures findings == before + PinnedTests(reg, pins, vs)
  {
    findings := before;
    for i := 0 to |vs|
      invariant findings == before + PinnedTests(reg, pins, vs[..i])
    {
      assert vs[..i + 1][..i] == vs[..i];
      if vs[i].verifierRef !in reg { continue; }
      if pins(reg[vs[i].verifierRef]) {
        findings := findings + [Finding(1, PinnedTestSelector, vs[i].claimId)];
      }
    }
    assert vs[..|vs|] == vs;
  }

  method PushUnbound(bindings: Bound, flagged: set<string>, vs: seq<VerificationIr>, before: seq<Finding>)
    returns (findings: seq<Finding>)
    ensures findings == before + UnboundRequirements(bindings, flagged, vs)
  {
    findings := before;
    for i := 0 to |vs|
      invariant findings == before + UnboundRequirements(bindings, flagged, vs[..i])
    {
      assert vs[..i + 1][..i] == vs[..i];
      if vs[i].requirement.None? || vs[i].claimId in flagged { continue; }
      if !RequirementBound(bindings, vs[i]) {
        findings := findings + [Finding(1, UnboundRequirement, vs[i].claimId)];
      }
    }
    assert vs[..|vs|] == vs;
  }

  // ---------------------------------------------------------------- lint against the gate

  /** Past the gate, and with a command to run: the point where a run would otherwise abort. */
  ghost predicate Admitted(reg: Registry, bindings: Bound, v: VerificationIr) {
    Gate(reg, bindings, v).Ok? && SpecOf(reg, Gate(reg, bindings, v).value).Ok?
  }

  /** The failures lint says nothing about: any reference while the registry is empty, and an
      inline command that is missing or registered nowhere. */
  predicate Overlooked(reg: Registry, bindings: Bound, v: VerificationIr) {
    && Gate(reg, bindings, v).Ok?
    && v.verifierRef !in reg
    && if v.verifierRef == "shell"
       then v.inlineShell.None? || (reg != map[] && !Registered(reg, v.inlineShell.value))
       else reg == map[]
  }

  predicate Registered(reg: Registry, command: string) {
    exists k :: k in reg && reg[k].kind == "shell" && reg[k].run == command
  }

  predicate Blocks(kind: FindingKind) {
    kind.UnknownVerifierRef? || kind.SelectorTemplate? || kind.UnboundRequirement?
  }

  /** What a blocking finding is about. */
  ghost predicate Faulty(reg: Registry, bindings: Bound, v: VerificationIr) {
    || (reg != map[] && Unregistered(reg, v))
    || (TemplateRef(reg, v.verifierRef) && !SelectorAuthorized(bindings, v))
    || (v.requirement.Some? && !RequirementBound(bindings, v))
  }

  ghost predicate Blamed(findings: seq<Finding>, claim: string) {
    exists f :: f in findings && Blocks(f.kind) && f.claim == claim
  }

  /** A verification is faulty exactly when a run would abort on it, the overlooked apart. */
  lemma FaultyExact(reg: Registry, bindings: Bound, v: VerificationIr)
    ensures Faulty(reg, bindings, v) <==> !Admitted(reg, bindings, v) && !Overlooked(reg, bindings, v)
  {
    assert v.requirement.Some? && !RequirementBound(bindings, v) ==> Gate(reg, bindings, v).Err?;
    assert TemplateRef(reg, v.verifierRef) && !SelectorAuthorized(bindings, v) ==> Gate(reg, bindings, v).Err?;
  }
}
