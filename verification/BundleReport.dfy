/** Each error of a bundle report, and each record of an export, one by one. */
module BundleReport {
  import opened Bundle
  import opened BundleExport
  import opened BundleFacts
  import opened BundleRoundTrip
  import opened Ir
  import opened Ordered
  import opened Prelude

  // ---------------------------------------------------------------- errors of integrity

  /** What an integrity error says of header and records. */
  ghost predicate Broken(codec: Codec, h: Header, first: Json, recs: seq<Json>, e: IntegrityError) {
    match e
    case HeaderMismatch => AsStr(Field(first, "sha256")) != Some(codec.shaJson(HeaderSeal(h)))
    case ShaMismatch(kind) => exists r :: r in recs && Kind(r) == kind && !Sealed(codec, r)
    case ContractMismatch =>
      exists r :: r in recs && TagOf(r).ContractTag? && codec.shaText(TextOf(Field(Body(r), "text"))) != h.contractHash
    case RegistryMismatch =>
      exists r :: r in recs && TagOf(r).RegistryTag? && codec.shaText(TextOf(Field(Body(r), "text"))) != h.registryHash
    case CountMismatch(declared, found) => declared == h.records && found == |recs| && declared != found
  }

  lemma {:induction false} AddedIntegrity(codec: Codec, h: Header, t: Tally, recs: seq<Json>, e: IntegrityError)
    ensures e in AddAll(codec, h, t, recs).integrity <==>
              e in t.integrity || exists r :: r in recs && (e in SealErrors(codec, r) || e in TextErrors(codec, h, r))
  {
    hide SealErrors, TextErrors, Add;
    if recs != [] {
      var init, last := recs[..|recs| - 1], recs[|recs| - 1];
      AddedIntegrity(codec, h, t, init, e);
      AddErrors(codec, h, AddAll(codec, h, t, init), last);
      forall r ensures r in recs <==> r in init || r == last { LastOf(recs, r); }
    }
  }

  lemma {:induction false} AddedCross(codec: Codec, h: Header, t: Tally, recs: seq<Json>, e: CrossError)
    ensures e in AddAll(codec, h, t, recs).cross <==>
              e in t.cross || exists r :: r in recs && e in CrossOf(codec, h, r)
  {
    hide CrossOf, SealErrors, TextErrors, Add;
    if recs != [] {
      var init, last := recs[..|recs| - 1], recs[|recs| - 1];
      AddedCross(codec, h, t, init, e);
      AddErrors(codec, h, AddAll(codec, h, t, init), last);
      forall r ensures r in recs <==> r in init || r == last { LastOf(recs, r); }
    }
  }

  lemma AddErrors(codec: Codec, h: Header, t: Tally, rec: Json)
    ensures var end := Add(codec, h, t, rec);
      && end.integrity == t.integrity + SealErrors(codec, rec) + TextErrors(codec, h, rec)
      && end.cross == t.cross + CrossOf(codec, h, rec)
  {
  }

  lemma OfRecord(codec: Codec, h: Header, r: Json, e: IntegrityError)
    ensures e in SealErrors(codec, r) <==> e == ShaMismatch(Kind(r)) && !Sealed(codec, r)
    ensures e in TextErrors(codec, h, r) <==>
              || (e == ContractMismatch && TagOf(r).ContractTag?
                  && codec.shaText(TextOf(Field(Body(r), "text"))) != h.contractHash)
              || (e == RegistryMismatch && TagOf(r).RegistryTag?
                  && codec.shaText(TextOf(Field(Body(r), "text"))) != h.registryHash)
  {
  }

  /** A report lists exactly the integrity errors that hold. */
  lemma IntegrityExact(codec: Codec, lines: seq<Option<Json>>, e: IntegrityError)
    requires Verified(codec, lines).Ok?
    ensures var (h, report) := Verified(codec, lines).value;
            e in report.integrity <==> Broken(codec, h, lines[0].value, Values(lines[1..]), e)
  {
    hide Add, TagOf, Sealed, HeaderSeal, Kind, Field;
    var h, recs := Verified(codec, lines).value.0, Values(lines[1..]);
    var start := Start(codec, h, lines[0].value);
    AddedIntegrity(codec, h, start, recs, e);
    AddAllCounts(codec, h, start, recs);
    hide SealErrors, TextErrors;
    forall r ensures e in SealErrors(codec, r) <==> e == ShaMismatch(Kind(r)) && !Sealed(codec, r) {
      OfRecord(codec, h, r, e);
    }
    forall r ensures e in TextErrors(codec, h, r) <==>
        || (e == ContractMismatch && TagOf(r).ContractTag?
            && codec.shaText(TextOf(Field(Body(r), "text"))) != h.contractHash)
        || (e == RegistryMismatch && TagOf(r).RegistryTag?
            && codec.shaText(TextOf(Field(Body(r), "text"))) != h.registryHash)
    {
      OfRecord(codec, h, r, e);
    }
  }

  // ---------------------------------------------------------------- errors across records

  /** What a cross-check error says of the records. */
  ghost predicate Crossed(codec: Codec, h: Header, recs: seq<Json>, e: CrossError) {
    match e
    case DifferentRegistry(claim) =>
      exists r, p :: r in recs && ProofIn(codec, r) == Some(p) && p.claimId == claim
        && p.registryHash != "" && p.registryHash != h.registryHash
    case DifferentContract(claim) =>
      exists r, p :: r in recs && ProofIn(codec, r) == Some(p) && p.claimId == claim
        && p.contractHash != "" && p.contractHash != h.contractHash
    case NoBindingFor(claim, requirement) => Requires(recs, (claim, requirement)) && !Bound(recs, claim)
    case Unbacked(claim) => Decided(recs, claim) && !Proven(codec, recs, claim)
    case UnknownClaimEvidence(claim) => Proven(codec, recs, claim) && !Claimed(recs, claim)
  }

  lemma {:induction false} UnboundIs(requirements: seq<(string, string)>, bindings: set<string>, e: CrossError)
    ensures e in Unbound(requirements, bindings) <==>
              e.NoBindingFor? && (e.claim, e.requirement) in requirements && e.claim !in bindings
  {
    if requirements != [] {
      var init, last := requirements[..|requirements| - 1], requirements[|requirements| - 1];
      UnboundIs(init, bindings, e);
      assert requirements == init + [last];
      if e.NoBindingFor? {
        var q := (e.claim, e.requirement);
        assert q in requirements <==> q in init || q == last;
        assert e == NoBindingFor(last.0, last.1) <==> q == last;
      }
    }
  }

  lemma ListedIs(claims: set<string>, e: CrossError)
    ensures e in UnbackedOf(Listing(claims)) <==> e.Unbacked? && e.claim in claims
    ensures e in UnknownOf(Listing(claims)) <==> e.UnknownClaimEvidence? && e.claim in claims
  {
    var names := Listing(claims);
    ListingExact(claims);
    forall i | 0 <= i < |names| ensures names[i] in claims { assert names[i] in names; }
    if e.Unbacked? && e.claim in claims {
      var i :| 0 <= i < |names| && names[i] == e.claim;
      assert UnbackedOf(names)[i] == e;
    }
    if e.UnknownClaimEvidence? && e.claim in claims {
      var i :| 0 <= i < |names| && names[i] == e.claim;
      assert UnknownOf(names)[i] == e;
    }
  }

  lemma CloseLists(h: Header, t: Tally, e: CrossError)
    ensures e in Close(h, t).cross <==>
      || e in t.cross
      || (e.NoBindingFor? && (e.claim, e.requirement) in t.requirements && e.claim !in t.bindings)
      || (e.Unbacked? && e.claim in t.decided - t.evidence)
      || (e.UnknownClaimEvidence? && e.claim in t.evidence - t.claims)
  {
    UnboundIs(t.requirements, t.bindings, e);
    ListedIs(t.decided - t.evidence, e);
    ListedIs(t.evidence - t.claims, e);
    hide Unbound, UnbackedOf, UnknownOf;
  }

  lemma OfProof(codec: Codec, h: Header, r: Json, e: CrossError)
    ensures e in CrossOf(codec, h, r) <==>
      ProofIn(codec, r).Some? &&
      var p := ProofIn(codec, r).value;
      || (e == DifferentRegistry(p.claimId) && p.registryHash != "" && p.registryHash != h.registryHash)
      || (e == DifferentContract(p.claimId) && p.contractHash != "" && p.contractHash != h.contractHash)
  {
    hide ProofIn;
  }

  /** A report lists exactly the cross-check errors that hold. */
  lemma CrossExact(codec: Codec, lines: seq<Option<Json>>, e: CrossError)
    requires Verified(codec, lines).Ok?
    ensures var (h, report) := Verified(codec, lines).value;
            e in report.cross <==> Crossed(codec, h, Values(lines[1..]), e)
  {
    hide Add, EvidenceIn, ClaimsIn, BindingIn, DecidedIn, RequiredIn, SealErrors, TextErrors;
    var h, recs := Verified(codec, lines).value.0, Values(lines[1..]);
    var start := Start(codec, h, lines[0].value);
    var t := AddAll(codec, h, start, recs);
    AddedCross(codec, h, start, recs, e);
    AddAllNames(codec, h, start, recs);
    CloseLists(h, t, e);
    assert start.cross == [];
    hide Close, AddAll, Start, Proven, Claimed, Bound, Decided, Requires, CrossOf, ProofIn;
    forall r ensures e in CrossOf(codec, h, r) <==>
        ProofIn(codec, r).Some? &&
        var p := ProofIn(codec, r).value;
        || (e == DifferentRegistry(p.claimId) && p.registryHash != "" && p.registryHash != h.registryHash)
        || (e == DifferentContract(p.claimId) && p.contractHash != "" && p.contractHash != h.contractHash)
    {
      OfProof(codec, h, r, e);
    }
  }

  /** A header is read exactly from a record of that kind and version, field by field. */
  lemma ReadHeaderExact(first: Json)
    ensures ReadHeader(first).Ok? <==>
              AsStr(Field(first, "kind")) == Some("header")
              && Field(Body(first), "version") == Str(BUNDLE_VERSION)
    ensures ReadHeader(first).Ok? ==>
              var h, body := ReadHeader(first).value, Body(first);
              && h.version == BUNDLE_VERSION && h.intent == TextOf(Field(body, "intent"))
              && h.registryHash == TextOf(Field(body, "registry_hash"))
              && h.contractHash == TextOf(Field(body, "contract_hash"))
              && h.createdAt == TextOf(Field(body, "created_at")) && h.tool == TextOf(Field(body, "tool"))
              && (forall k: nat :: k <= U64_MAX && Field(body, "records") == Num(k) ==> h.records == k)
    ensures ReadHeader(first).Err? ==>
              ReadHeader(first).error == (if AsStr(Field(first, "kind")) == Some("header") then UnsupportedVersion
                                          else NotAHeader)
  {
    assert BUNDLE_VERSION != "";
  }

  /** The hash of the header covers version, intent, registry and contract, and no more. */
  lemma SealExact(h: Header, h': Header)
    ensures HeaderSeal(h) == HeaderSeal(h') <==>
              h.version == h'.version && h.intent == h'.intent
              && h.registryHash == h'.registryHash && h.contractHash == h'.contractHash
  {
    if HeaderSeal(h) == HeaderSeal(h') {
      SealedFields(h, h');
      assert HeaderSeal(h).fields["version"] == HeaderSeal(h').fields["version"];
      assert HeaderSeal(h).fields["intent"] == HeaderSeal(h').fields["intent"];
    }
  }

  /** A bundle that cannot be read is empty, or has a header that is none or another version, or
      stops at the first line that does not parse or is evidence that does not read. */
  lemma ReadErrorExact(codec: Codec, lines: seq<Option<Json>>) returns (i: nat)
    requires Verified(codec, lines).Err? && lines != [] && lines[0].Some? && ReadHeader(lines[0].value).Ok?
    ensures 1 <= i < |lines| && (forall j :: 1 <= j < i ==> Sound(codec, lines[j]))
    ensures Verified(codec, lines).error == Malformed <==> lines[i].None?
    ensures Verified(codec, lines).error == BadEvidence <==> lines[i].Some? && !Readable(codec, lines[i].value)
  {
    hide AddAll, Start, Close, Readable, ReadHeader;
    i := FaultIn(codec, lines[1..]);
    FaultAt(codec, lines[1..], i);
    assert lines[1..][i] == lines[i + 1];
    forall j | 1 <= j < i + 1 ensures Sound(codec, lines[j]) { assert lines[j] == lines[1..][j - 1]; }
    i := i + 1;
  }

  lemma {:induction false} FaultIn(codec: Codec, lines: seq<Option<Json>>) returns (i: nat)
    requires FirstFault(codec, lines).Some?
    ensures i < |lines| && !Sound(codec, lines[i]) && forall j :: 0 <= j < i ==> Sound(codec, lines[j])
  {
    if Sound(codec, lines[0]) {
      i := FaultIn(codec, lines[1..]);
      assert forall j :: 1 <= j < i + 1 ==> lines[j] == lines[1..][j - 1];
      i := i + 1;
    } else {
      i := 0;
    }
  }

  // ---------------------------------------------------------------- the records of an export

  ghost predicate IsPolicyRecord(codec: Codec, files: seq<PolicyFile>, r: Json) {
    exists f :: f in files && f.extension in {"toml", "rego"} && f.text.Some?
      && r == Record(codec, "policy", Obj(map["name" := Str(f.name), "text" := Str(f.text.value)]))
  }

  lemma {:induction false} PolicyRecordsExact(codec: Codec, files: seq<PolicyFile>, r: Json)
    ensures r in PolicyRecords(codec, files) <==> IsPolicyRecord(codec, files, r)
  {
    hide Record;
    if files != [] {
      var init, last := files[..|files| - 1], files[|files| - 1];
      PolicyRecordsExact(codec, init, r);
      assert files == init + [last];
    }
  }

  /** An export holds the contract, the registry, every policy file of the two kinds that can be
      read, every proof of a claim of the contract, every binding of a requirement, the decision if
      it is of this intent, and the journal; and nothing else. */
  lemma RecordsExact(codec: Codec, src: Source, ir: Contract, r: Json)
    ensures r in Records(codec, src, ir) <==>
      || r == Record(codec, "contract", ContractBody(codec, src, ir))
      || r == Record(codec, "registry", RegistryBody(codec, src))
      || IsPolicyRecord(codec, src.policies, r)
      || IsProofRecord(codec, ClaimIds(ir), src.proofs, r)
      || IsBindingRecord(codec, ir.verification, src.bindings, r)
      || (src.decision.Some? && OfIntent(src.decision.value, ir.intent)
          && r == Record(codec, "decision", src.decision.value))
      || (src.events.Some? && r == Record(codec, "events", Obj(map["events" := Arr(src.events.value)])))
  {
    hide Record, ContractBody, RegistryBody, IsPolicyRecord, IsProofRecord, IsBindingRecord, OfIntent;
    hide PolicyRecords, ProofRecords, BindingRecords;
    PolicyRecordsExact(codec, src.policies, r);
    ProofRecordsExact(codec, ClaimIds(ir), src.proofs, r);
    BindingRecordsExact(codec, ir.verification, src.bindings, r);
    InParts(codec, src, ir, r);
  }

  /** The header of an export speaks of the texts that are in it, and counts its records. */
  lemma ExportedHeader(codec: Codec, src: Source, ir: Contract)
    requires LoadContract(src.contractText) == Some(ir)
    ensures Exported(codec, src).Ok?
    ensures var (h, lines) := Exported(codec, src).value;
      && h.version == BUNDLE_VERSION && h.intent == ir.intent && h.createdAt == src.createdAt && h.tool == src.tool
      && h.registryHash == codec.shaText(src.registryText) && h.contractHash == codec.shaText(src.contractText)
      && |lines| == h.records + 1 && (forall r :: r in lines[1..] <==> r in Records(codec, src, ir))
  {
    hide LoadContract, Records, HeaderLine;
    var (h, lines) := Exported(codec, src).value;
    assert lines[1..] == Records(codec, src, ir);
  }

  /** Contract and registry travel with their text and its hash, which is the one in the header. */
  lemma TextsTold(codec: Codec, src: Source, ir: Contract, records: nat)
    ensures var h, contract, registry := HeaderOf(codec, src, ir, records), ContractBody(codec, src, ir),
                                         RegistryBody(codec, src);
      && Field(contract, "path") == Str(src.contractPath) && Field(contract, "text") == Str(src.contractText)
      && Field(contract, "hash") == Str(h.contractHash) && Field(contract, "ir") == IrJson(ir)
      && Field(registry, "text") == Str(src.registryText) && Field(registry, "hash") == Str(h.registryHash)
  {
    hide IrJson;
    ContractFields(codec, src, ir);
  }

  /** The bundled contract is told from any other. */
  lemma IrJsonInjective(a: Contract, b: Contract)
    ensures IrJson(a) == IrJson(b) <==> a == b
  {
    if IrJson(a) == IrJson(b) {
      hide ClaimJson, VerificationJson;
      IrFieldsOf(a);
      IrFieldsOf(b);
      assert ClaimJsons(a.claims) == ClaimJsons(b.claims);
      assert |ClaimJsons(a.claims)| == |a.claims| && |ClaimJsons(b.claims)| == |b.claims|;
      forall i | 0 <= i < |a.claims| ensures a.claims[i] == b.claims[i] {
        assert ClaimJsons(a.claims)[i] == ClaimJsons(b.claims)[i];
        ClaimJsonInjective(a.claims[i], b.claims[i]);
      }
      assert |VerificationJsons(a.verification)| == |a.verification|;
      assert |VerificationJsons(b.verification)| == |b.verification|;
      forall i | 0 <= i < |a.verification| ensures a.verification[i] == b.verification[i] {
        assert VerificationJsons(a.verification)[i] == VerificationJsons(b.verification)[i];
        VerificationJsonInjective(a.verification[i], b.verification[i]);
      }
      assert a.claims == b.claims && a.verification == b.verification;
    }
  }

  lemma BindingJsonInjective(a: StoredBinding, b: StoredBinding)
    ensures BindingJson(a) == BindingJson(b) <==> a == b
  {
    if BindingJson(a) == BindingJson(b) {
      assert BindingJson(a).fields["claim_id"] == BindingJson(b).fields["claim_id"];
      assert BindingJson(a).fields["rest"] == BindingJson(b).fields["rest"];
    }
  }

  lemma IrFieldsOf(c: Contract)
    ensures var j := IrJson(c);
      && Field(j, "uni_version") == Str(c.uniVersion)
      && Field(Field(j, "intent"), "id") == Str(c.intent) && Field(Field(j, "intent"), "domain") == Str(c.domain)
      && Field(Field(j, "intent"), "goal") == Str(c.goal)
      && Field(j, "claims") == Arr(ClaimJsons(c.claims))
      && Field(j, "verification") == Arr(VerificationJsons(c.verification))
  {
  }

  lemma ClaimJsonInjective(a: ClaimIr, b: ClaimIr)
    requires ClaimJson(a) == ClaimJson(b)
    ensures a == b
  {
    assert ClaimJson(a).fields["id"] == ClaimJson(b).fields["id"];
    assert ClaimJson(a).fields["kind"] == ClaimJson(b).fields["kind"];
    assert ClaimJson(a).fields["required"] == ClaimJson(b).fields["required"];
    assert ClaimJson(a).fields["critical"] == ClaimJson(b).fields["critical"];
    assert ClaimJson(a).fields["ensure"] == ClaimJson(b).fields["ensure"];
  }

  lemma VerificationJsonInjective(a: VerificationIr, b: VerificationIr)
    requires VerificationJson(a) == VerificationJson(b)
    ensures a == b
  {
    assert VerificationJson(a).fields["claim_id"] == VerificationJson(b).fields["claim_id"];
    assert VerificationJson(a).fields["verifier_ref"] == VerificationJson(b).fields["verifier_ref"];
    assert VerificationJson(a).fields["inline_shell"] == VerificationJson(b).fields["inline_shell"];
    assert VerificationJson(a).fields["requirement"] == VerificationJson(b).fields["requirement"];
  }
}
