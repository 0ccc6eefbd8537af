/** What a lint says about the run that would follow it. */
module LintFacts {
  import opened Bindings
  import opened EvidenceStore
  import opened Ir
  import opened Lint
  import opened Prelude
  import opened Verifier
  import opened VerifyRun

  // ---------------------------------------------------------------- each rule, exactly

  lemma LastIn<T>(s: seq<T>, x: T)
    requires s != []
    ensures x in s <==> x in s[..|s| - 1] || x == s[|s| - 1]
  {
    assert s == s[..|s| - 1] + [s[|s| - 1]];
  }

  ghost predicate Names(findings: seq<Finding>, kind: FindingKind, claim: string) {
    exists f :: f in findings && f.kind == kind && f.claim == claim
  }

  /** A list in which every finding is of one kind. */
  ghost predicate Only(findings: seq<Finding>, kind: FindingKind) {
    forall f :: f in findings ==> f.kind == kind
  }

  lemma NamesGrow(init: seq<Finding>, more: seq<Finding>, kind: FindingKind, claim: string)
    ensures Names(init + more, kind, claim) <==> Names(init, kind, claim) || Names(more, kind, claim)
    ensures Only(init + more, kind) <==> Only(init, kind) && Only(more, kind)
  {
    forall f ensures f in init + more <==> f in init || f in more {}
  }

  lemma OneNames(f: Finding, claim: string)
    ensures Names([f], f.kind, claim) <==> f.claim == claim
    ensures Only([f], f.kind)
  {
    assert f in [f];
  }

  lemma {:induction false} MissingExact(vs: seq<VerificationIr>, claims: seq<ClaimIr>, claim: string)
    ensures Names(MissingVerifies(vs, claims), MissingVerify, claim) <==>
              exists c :: c in claims && c.id == claim && !Covered(vs, c.id)
    ensures Only(MissingVerifies(vs, claims), MissingVerify)
  {
    if claims != [] {
      var init, c := claims[..|claims| - 1], claims[|claims| - 1];
      MissingExact(vs, init, claim);
      forall x ensures x in claims <==> x in init || x == c { LastIn(claims, x); }
      var more := if Covered(vs, c.id) then [] else [Finding(2, MissingVerify, c.id)];
      NamesGrow(MissingVerifies(vs, init), more, MissingVerify, claim);
      OneNames(Finding(2, MissingVerify, c.id), claim);
    }
  }

  lemma {:induction false} UnknownExact(reg: Registry, vs: seq<VerificationIr>, claim: string)
    ensures Names(UnknownVerifiers(reg, vs), UnknownVerifierRef, claim) <==>
              exists v :: v in vs && v.claimId == claim && Unregistered(reg, v)
    ensures Only(UnknownVerifiers(reg, vs), UnknownVerifierRef)
  {
    if vs != [] {
      var init, v := vs[..|vs| - 1], vs[|vs| - 1];
      UnknownExact(reg, init, claim);
      forall x ensures x in vs <==> x in init || x == v { LastIn(vs, x); }
      var more := if Unregistered(reg, v) then [Finding(1, UnknownVerifierRef, v.claimId)] else [];
      NamesGrow(UnknownVerifiers(reg, init), more, UnknownVerifierRef, claim);
      OneNames(Finding(1, UnknownVerifierRef, v.claimId), claim);
    }
  }

  lemma {:induction false} SelectorsExact(reg: Registry, bindings: Bound, vs: seq<VerificationIr>, claim: string)
    ensures Names(SelectorTemplates(reg, bindings, vs), SelectorTemplate, claim) <==>
              exists v :: v in vs && v.claimId == claim
                && TemplateRef(reg, v.verifierRef) && !SelectorAuthorized(bindings, v)
    ensures Only(SelectorTemplates(reg, bindings, vs), SelectorTemplate)
  {
    hide TemplateRef, SelectorAuthorized;
    if vs != [] {
      var init, v := vs[..|vs| - 1], vs[|vs| - 1];
      SelectorsExact(reg, bindings, init, claim);
      forall x ensures x in vs <==> x in init || x == v { LastIn(vs, x); }
      var more := if TemplateRef(reg, v.verifierRef) && !SelectorAuthorized(bindings, v)
                  then [Finding(1, SelectorTemplate, v.claimId)] else [];
      NamesGrow(SelectorTemplates(reg, bindings, init), more, SelectorTemplate, claim);
      OneNames(Finding(1, SelectorTemplate, v.claimId), claim);
    }
  }

  lemma {:induction false} PinnedExact(reg: Registry, pins: Pins, vs: seq<VerificationIr>, claim: string)
    ensures Names(PinnedTests(reg, pins, vs), PinnedTestSelector, claim) <==>
              exists v :: v in vs && v.claimId == claim && v.verifierRef in reg && pins(reg[v.verifierRef])
    ensures Only(PinnedTests(reg, pins, vs), PinnedTestSelector)
  {
    if vs != [] {
      var init, v := vs[..|vs| - 1], vs[|vs| - 1];
      PinnedExact(reg, pins, init, claim);
      forall x ensures x in vs <==> x in init || x == v { LastIn(vs, x); }
      var more := if v.verifierRef in reg && pins(reg[v.verifierRef])
                  then [Finding(1, PinnedTestSelector, v.claimId)] else [];
      NamesGrow(PinnedTests(reg, pins, init), more, PinnedTestSelector, claim);
      OneNames(Finding(1, PinnedTestSelector, v.claimId), claim);
    }
  }

  lemma {:induction false} UnboundExact(bindings: Bound, flagged: set<string>, vs: seq<VerificationIr>, claim: string)
    ensures Names(UnboundRequirements(bindings, flagged, vs), UnboundRequirement, claim) <==>
              claim !in flagged
              && exists v :: v in vs && v.claimId == claim && v.requirement.Some? && !RequirementBound(bindings, v)
    ensures Only(UnboundRequirements(bindings, flagged, vs), UnboundRequirement)
  {
    hide RequirementBound;
    if vs != [] {
      var init, v := vs[..|vs| - 1], vs[|vs| - 1];
      UnboundExact(bindings, flagged, init, claim);
      forall x ensures x in vs <==> x in init || x == v { LastIn(vs, x); }
      var more := if v.requirement.Some? && v.claimId !in flagged && !RequirementBound(bindings, v)
                  then [Finding(1, UnboundRequirement, v.claimId)] else [];
      NamesGrow(UnboundRequirements(bindings, flagged, init), more, UnboundRequirement, claim);
      OneNames(Finding(1, UnboundRequirement, v.claimId), claim);
    }
  }

  lemma {:induction false} RepeatsExact(a: VerificationIr, later: seq<VerificationIr>)
    ensures RepeatsOf(a, later) == [] <==> forall b :: b in later ==> !SameTarget(a, b)
    ensures Only(RepeatsOf(a, later), DuplicateVerify)
  {
    if later != [] {
      var init, b := later[..|later| - 1], later[|later| - 1];
      RepeatsExact(a, init);
      forall x ensures x in later <==> x in init || x == b { LastIn(later, x); }
      NamesGrow(RepeatsOf(a, init), if SameTarget(a, b) then [Finding(1, DuplicateVerify, a.claimId)] else [],
                DuplicateVerify, "");
      OneNames(Finding(1, DuplicateVerify, a.claimId), "");
    }
  }

  ghost predicate Unrepeated(vs: seq<VerificationIr>, i: nat) {
    forall j :: i < j < |vs| ==> !SameTarget(vs[i], vs[j])
  }

  lemma RepeatsAt(vs: seq<VerificationIr>, i: nat)
    requires i < |vs|
    ensures RepeatsOf(vs[i], vs[i + 1..]) == [] <==> Unrepeated(vs, i)
    ensures Only(RepeatsOf(vs[i], vs[i + 1..]), DuplicateVerify)
  {
    hide SameTarget;
    RepeatsExact(vs[i], vs[i + 1..]);
    assert forall j :: i + 1 <= j < |vs| ==> vs[j] in vs[i + 1..];
  }

  ghost predicate NoneRepeats(vs: seq<VerificationIr>, n: nat)
    requires n <= |vs|
  {
    forall i :: 0 <= i < n ==> Unrepeated(vs, i)
  }

  lemma NoneRepeatsGrows(vs: seq<VerificationIr>, n: nat)
    requires 0 < n <= |vs|
    ensures NoneRepeats(vs, n) <==> NoneRepeats(vs, n - 1) && Unrepeated(vs, n - 1)
  {
    hide Unrepeated;
  }

  lemma BothEmpty(init: seq<Finding>, more: seq<Finding>)
    ensures init + more == [] <==> init == [] && more == []
  {
    assert |init + more| == |init| + |more|;
  }

  lemma {:induction false} DuplicatesByFirst(vs: seq<VerificationIr>, n: nat)
    requires n <= |vs|
    ensures Duplicates(vs, n) == [] <==> NoneRepeats(vs, n)
    ensures Only(Duplicates(vs, n), DuplicateVerify)
  {
    if n > 0 {
      hide NoneRepeats, Unrepeated, RepeatsOf, Only, Names;
      DuplicatesByFirst(vs, n - 1);
      NoneRepeatsGrows(vs, n);
      RepeatsAt(vs, n - 1);
      BothEmpty(Duplicates(vs, n - 1), RepeatsOf(vs[n - 1], vs[n..]));
      NamesGrow(Duplicates(vs, n - 1), RepeatsOf(vs[n - 1], vs[n..]), DuplicateVerify, "");
    }
  }

  lemma DuplicatesApart(vs: seq<VerificationIr>, n: nat)
    requires n <= |vs|
    ensures Duplicates(vs, n) == [] <==> forall i, j :: 0 <= i < j < |vs| && i < n ==> !SameTarget(vs[i], vs[j])
    ensures Only(Duplicates(vs, n), DuplicateVerify)
  {
    hide SameTarget, Duplicates;
    DuplicatesByFirst(vs, n);
    if Duplicates(vs, n) == [] {
      forall i, j | 0 <= i < j < |vs| && i < n ensures !SameTarget(vs[i], vs[j]) {
        assert Unrepeated(vs, i);
      }
    }
  }

  /** No duplicate is reported exactly when claim, verifier and inline command tell all
      verifications apart. */
  lemma DuplicatesExact(vs: seq<VerificationIr>)
    ensures Duplicates(vs, |vs|) == [] <==>
              forall i, j :: 0 <= i < j < |vs| ==>
                !(vs[i].claimId == vs[j].claimId && vs[i].verifierRef == vs[j].verifierRef
                  && vs[i].inlineShell == vs[j].inlineShell)
  {
    DuplicatesApart(vs, |vs|);
    hide Duplicates;
  }

  // ---------------------------------------------------------------- blame

  ghost predicate FaultyFor(reg: Registry, bindings: Bound, vs: seq<VerificationIr>, claim: string) {
    exists v :: v in vs && v.claimId == claim && Faulty(reg, bindings, v)
  }

  /** The parts of the report that block, by claim. */
  lemma BlamedParts(reg: Registry, bindings: Bound, pins: Pins, ir: Contract, claim: string)
    ensures var vs := ir.verification;
            var selectors := SelectorTemplates(reg, bindings, vs);
            Blamed(Findings(reg, bindings, pins, ir), claim) <==>
              || (reg != map[] && Names(UnknownVerifiers(reg, vs), UnknownVerifierRef, claim))
              || Names(selectors, SelectorTemplate, claim)
              || Names(UnboundRequirements(bindings, ClaimsOf(selectors), vs), UnboundRequirement, claim)
  {
    var vs := ir.verification;
    var selectors := SelectorTemplates(reg, bindings, vs);
    var unbound := UnboundRequirements(bindings, ClaimsOf(selectors), vs);
    var unknown := if reg == map[] then [] else UnknownVerifiers(reg, vs);
    MissingExact(vs, ir.claims, claim);
    UnknownExact(reg, vs, claim);
    DuplicatesApart(vs, |vs|);
    SelectorsExact(reg, bindings, vs, claim);
    PinnedExact(reg, pins, vs, claim);
    UnboundExact(bindings, ClaimsOf(selectors), vs, claim);
    OfParts(MissingVerifies(vs, ir.claims), unknown, Duplicates(vs, |vs|), selectors,
            PinnedTests(reg, pins, vs), unbound, claim);
  }

  lemma OfParts(missing: seq<Finding>, unknown: seq<Finding>, twice: seq<Finding>, selectors: seq<Finding>,
                pinned: seq<Finding>, unbound: seq<Finding>, claim: string)
    requires Only(missing, MissingVerify) && Only(unknown, UnknownVerifierRef) && Only(twice, DuplicateVerify)
    requires Only(selectors, SelectorTemplate) && Only(pinned, PinnedTestSelector) && Only(unbound, UnboundRequirement)
    ensures Blamed(missing + unknown + twice + selectors + pinned + unbound, claim) <==>
              || Names(unknown, UnknownVerifierRef, claim)
              || Names(selectors, SelectorTemplate, claim)
              || Names(unbound, UnboundRequirement, claim)
  {
    var all := missing + unknown + twice + selectors + pinned + unbound;
    forall f ensures f in all <==>
        f in missing || f in unknown || f in twice || f in selectors || f in pinned || f in unbound {}
  }

  lemma FlaggedExact(reg: Registry, bindings: Bound, vs: seq<VerificationIr>, claim: string)
    ensures claim in ClaimsOf(SelectorTemplates(reg, bindings, vs)) <==>
              Names(SelectorTemplates(reg, bindings, vs), SelectorTemplate, claim)
  {
    SelectorsExact(reg, bindings, vs, claim);
  }

  /** A claim is named by a blocking finding exactly when one of its verifications is faulty. */
  lemma BlamedExact(reg: Registry, bindings: Bound, pins: Pins, ir: Contract, claim: string)
    ensures Blamed(Findings(reg, bindings, pins, ir), claim) <==> FaultyFor(reg, bindings, ir.verification, claim)
  {
    hide Findings, Blamed, TemplateRef, SelectorAuthorized, RequirementBound, Unregistered;
    var vs := ir.verification;
    BlamedParts(reg, bindings, pins, ir, claim);
    UnknownExact(reg, vs, claim);
    SelectorsExact(reg, bindings, vs, claim);
    FlaggedExact(reg, bindings, vs, claim);
    UnboundExact(bindings, ClaimsOf(SelectorTemplates(reg, bindings, vs)), vs, claim);
  }

  // ---------------------------------------------------------------- lint and the run

  /** No blocking finding, exactly when each verification would get past the gate with a
      command to run, or fails in a way lint does not look at. */
  lemma PreflightExact(reg: Registry, bindings: Bound, pins: Pins, ir: Contract)
    ensures (forall f :: f in Findings(reg, bindings, pins, ir) ==> !Blocks(f.kind)) <==>
            (forall v :: v in ir.verification ==> Admitted(reg, bindings, v) || Overlooked(reg, bindings, v))
  {
    hide Findings, Faulty, Admitted, Overlooked;
    var fs := Findings(reg, bindings, pins, ir);
    forall claim ensures Blamed(fs, claim) <==> FaultyFor(reg, bindings, ir.verification, claim) {
      BlamedExact(reg, bindings, pins, ir, claim);
    }
    forall v ensures Faulty(reg, bindings, v) <==> !Admitted(reg, bindings, v) && !Overlooked(reg, bindings, v) {
      FaultyExact(reg, bindings, v);
    }
    if f :| f in fs && Blocks(f.kind) {
      assert Blamed(fs, f.claim);
    }
    if v :| v in ir.verification && Faulty(reg, bindings, v) {
      assert FaultyFor(reg, bindings, ir.verification, v.claimId);
    }
  }

  /** With a registry and no `shell` reference nothing is overlooked: a clean lint means every
      verification is admitted, and each one that is not has a finding against its claim. */
  lemma PreflightAgrees(reg: Registry, bindings: Bound, pins: Pins, ir: Contract)
    requires reg != map[] && forall v :: v in ir.verification ==> v.verifierRef != "shell"
    ensures Findings(reg, bindings, pins, ir) == [] ==>
              forall v :: v in ir.verification ==> Admitted(reg, bindings, v)
    ensures forall v :: v in ir.verification && !Admitted(reg, bindings, v) ==>
              Blamed(Findings(reg, bindings, pins, ir), v.claimId)
  {
    hide Findings, Faulty, Admitted;
    PreflightExact(reg, bindings, pins, ir);
    forall v | v in ir.verification && !Admitted(reg, bindings, v)
      ensures Blamed(Findings(reg, bindings, pins, ir), v.claimId)
    {
      FaultyExact(reg, bindings, v);
      BlamedExact(reg, bindings, pins, ir, v.claimId);
    }
  }

  /** The probing loop of a run ends normally exactly when every verification passes the gate. */
  lemma {:induction false} GateDecidesProbe(reg: Registry, w: World, store: Store, vs: seq<VerificationIr>)
    ensures ProbeAll(reg, w, store, vs).Ok? <==> forall v :: v in vs ==> Gate(reg, w.bindings, v).Ok?
  {
    hide Gate, ProbeOne;
    if vs != [] {
      GateDecidesProbe(reg, w, store, vs[..|vs| - 1]);
      forall x ensures x in vs <==> x in vs[..|vs| - 1] || x == vs[|vs| - 1] { LastIn(vs, x); }
    }
  }

  /** With no registry a reference that names nothing is not found: lint stays silent, and the
      run gets past the gate and then aborts. */
  lemma EmptyRegistryOverlooked(pins: Pins, c: ClaimIr, verifierRef: string)
    requires verifierRef != "shell"
    ensures var v := VerificationIr(c.id, verifierRef, None, None);
            var ir := Contract("0.1", "intent", "software", "", [c], [v]);
            Findings(map[], map[], pins, ir) == [] && !Admitted(map[], map[], v)
  {
    var v := VerificationIr(c.id, verifierRef, None, None);
    var ir := Contract("0.1", "intent", "software", "", [c], [v]);
    assert ir.verification[0].claimId == c.id;
    assert [c][..0] == [] && [v][..0] == [] && [v][1..] == [];
    assert UnknownVerifiers(map[], [v][..0]) == [];
    assert MissingVerifies([v], [c]) == MissingVerifies([v], [c][..0]) + [];
    assert Duplicates([v], 1) == Duplicates([v], 0) + RepeatsOf(v, []);
    assert SelectorTemplates(map[], map[], [v]) == SelectorTemplates(map[], map[], [v][..0]) + [];
    assert PinnedTests(map[], pins, [v]) == PinnedTests(map[], pins, [v][..0]) + [];
    assert ClaimsOf(SelectorTemplates(map[], map[], [v])) == {};
    assert Gate(map[], map[], v) == Ok(Need(v, None, None));
    assert SpecOf(map[], Need(v, None, None)) == Err(UnknownVerifier(verifierRef));
    assert UnboundRequirements(map[], {}, [v]) == UnboundRequirements(map[], {}, [v][..0]) + [];
  }

  lemma {:induction false} ErrorsExact(findings: seq<Finding>)
    ensures Errors(findings) == [] <==> forall f :: f in findings ==> f.severity != 2
  {
    if findings != [] {
      ErrorsExact(findings[..|findings| - 1]);
      forall f ensures f in findings <==> f in findings[..|findings| - 1] || f == findings[|findings| - 1] {
        LastIn(findings, f);
      }
    }
  }

  /** Severity is tied to the kind. */
  ghost predicate Graded(findings: seq<Finding>) {
    forall f :: f in findings ==> (f.severity == 2 <==> f.kind == MissingVerify)
  }

  lemma {:induction false} MissingGraded(vs: seq<VerificationIr>, claims: seq<ClaimIr>)
    ensures Graded(MissingVerifies(vs, claims))
  {
    if claims != [] { MissingGraded(vs, claims[..|claims| - 1]); }
  }

  lemma {:induction false} WarningsGraded(reg: Registry, bindings: Bound, pins: Pins, flagged: set<string>,
                                          vs: seq<VerificationIr>)
    ensures Graded(UnknownVerifiers(reg, vs)) && Graded(SelectorTemplates(reg, bindings, vs))
    ensures Graded(PinnedTests(reg, pins, vs)) && Graded(UnboundRequirements(bindings, flagged, vs))
  {
    hide TemplateRef, SelectorAuthorized, RequirementBound, Unregistered;
    if vs != [] { WarningsGraded(reg, bindings, pins, flagged, vs[..|vs| - 1]); }
  }

  lemma {:induction false} RepeatsGraded(a: VerificationIr, later: seq<VerificationIr>)
    ensures Graded(RepeatsOf(a, later))
  {
    if later != [] { RepeatsGraded(a, later[..|later| - 1]); }
  }

  lemma {:induction false} DuplicatesGraded(vs: seq<VerificationIr>, n: nat)
    requires n <= |vs|
    ensures Graded(Duplicates(vs, n))
  {
    if n > 0 {
      DuplicatesGraded(vs, n - 1);
      RepeatsGraded(vs[n - 1], vs[n..]);
    }
  }

  lemma FailsIffMissing(reg: Registry, bindings: Bound, pins: Pins, ir: Contract)
    ensures Errors(Findings(reg, bindings, pins, ir)) == [] <==>
              forall c :: c in ir.claims ==> Covered(ir.verification, c.id)
  {
    hide MissingVerifies, UnknownVerifiers, Duplicates, SelectorTemplates, PinnedTests, UnboundRequirements, Covered;
    var vs := ir.verification;
    var fs, selectors := Findings(reg, bindings, pins, ir), SelectorTemplates(reg, bindings, vs);
    ErrorsExact(fs);
    MissingGraded(vs, ir.claims);
    WarningsGraded(reg, bindings, pins, ClaimsOf(selectors), vs);
    DuplicatesGraded(vs, |vs|);
    UnknownExact(reg, vs, "");
    DuplicatesApart(vs, |vs|);
    SelectorsExact(reg, bindings, vs, "");
    PinnedExact(reg, pins, vs, "");
    UnboundExact(bindings, ClaimsOf(selectors), vs, "");
    forall f ensures f in fs && f.severity == 2 <==> f in MissingVerifies(vs, ir.claims) {
      MissingExact(vs, ir.claims, f.claim);
    }
    forall c | c in ir.claims
      ensures !Covered(vs, c.id) ==> Names(MissingVerifies(vs, ir.claims), MissingVerify, c.id)
    {
      MissingExact(vs, ir.claims, c.id);
    }
    forall f | f in MissingVerifies(vs, ir.claims)
      ensures exists c :: c in ir.claims && !Covered(vs, c.id)
    {
      MissingExact(vs, ir.claims, f.claim);
      assert Names(MissingVerifies(vs, ir.claims), MissingVerify, f.claim);
    }
  }

  /** The lint fails exactly when some claim has no VERIFY; everything else only warns. */
  lemma FailsIffUncovered(reg: Registry, bindings: Bound, pins: Pins, ir: Contract)
    ensures Errors(Findings(reg, bindings, pins, ir)) == [] <==>
              forall c :: c in ir.claims ==> exists v :: v in ir.verification && v.claimId == c.id
  {
    hide Findings;
    FailsIffMissing(reg, bindings, pins, ir);
    forall c | c in ir.claims
      ensures Covered(ir.verification, c.id) <==> exists v :: v in ir.verification && v.claimId == c.id
    {
      CoveredIs(ir.verification, c.id);
    }
  }

  lemma CoveredIs(vs: seq<VerificationIr>, id: string)
    ensures Covered(vs, id) <==> exists v :: v in vs && v.claimId == id
  {
  }
}
