/** Verifying what was just exported. */
module BundleRoundTrip {
  import opened Bundle
  import opened BundleExport
  import opened BundleFacts
  import opened Ir
  import opened Prelude

  function Sent(lines: seq<Json>): (r: seq<Option<Json>>)
    ensures |r| == |lines|
  {
    seq(|lines|, i requires 0 <= i < |lines| => Some(lines[i]))
  }

  // ---------------------------------------------------------------- what the sources hold

  ghost predicate HasProof(src: Source, ir: Contract, id: string) {
    id in ClaimIds(ir) && exists p :: Some(p) in src.proofs && p.claimId == id
  }

  ghost predicate HasBinding(src: Source, ir: Contract, id: string) {
    exists v :: v in ir.verification && v.requirement.Some? && v.claimId in src.bindings
                && src.bindings[v.claimId].claimId == id
  }

  ghost predicate RequiresHere(ir: Contract, q: (string, string)) {
    exists v :: v in ir.verification && v.claimId == q.0 && v.requirement == Some(q.1)
  }

  ghost predicate DecidedHere(src: Source, ir: Contract, id: string) {
    && src.decision.Some? && OfIntent(src.decision.value, ir.intent)
    && id in Names(ItemsOf(Field(src.decision.value, "claims")), "claim_id")
  }

  ghost predicate SameContext(codec: Codec, src: Source, p: Proof) {
    && (p.registryHash == "" || p.registryHash == codec.shaText(src.registryText))
    && (p.contractHash == "" || p.contractHash == codec.shaText(src.contractText))
  }

  /** What must hold of the store for its export to be coherent. */
  ghost predicate StoreCoherent(codec: Codec, src: Source, ir: Contract) {
    && (forall p :: Some(p) in src.proofs && p.claimId in ClaimIds(ir) ==> SameContext(codec, src, p))
    && (forall q: (string, string) :: RequiresHere(ir, q) ==> HasBinding(src, ir, q.0))
    && (forall id :: DecidedHere(src, ir, id) ==> HasProof(src, ir, id))
  }

  // ---------------------------------------------------------------- one record at a time

  lemma RecordParts(codec: Codec, kind: string, body: Json)
    ensures var r := Record(codec, kind, body); Kind(r) == kind && Body(r) == body && TagOf(r) == TagNamed(kind)
  {
  }

  lemma TagNames()
    ensures TagNamed("contract").ContractTag? && TagNamed("registry").RegistryTag?
    ensures TagNamed("evidence").EvidenceTag? && TagNamed("binding").BindingTag?
    ensures TagNamed("decision").DecisionTag?
    ensures TagNamed("policy").OtherTag? && TagNamed("events").OtherTag?
  {
    assert "contract"[0] == 'c' && "registry"[0] == 'r' && "evidence"[1] == 'v' && "binding"[0] == 'b'
        && "decision"[0] == 'd' && "policy"[0] == 'p' && "events"[2] == 'e' && "evidence"[2] == 'i';
  }

  /** Contributes nothing to any list of the report. */
  ghost predicate Silent(codec: Codec, r: Json) {
    EvidenceIn(codec, r) == ClaimsIn(r) == BindingIn(r) == DecidedIn(r) == {} && RequiredIn(r) == []
  }

  lemma {:induction false} RequiredExact(vs: seq<VerificationIr>, q: (string, string))
    ensures q in Required(VerificationJsons(vs)) <==>
              exists v :: v in vs && v.claimId == q.0 && v.requirement == Some(q.1)
  {
    if vs != [] {
      var init, last := vs[..|vs| - 1], vs[|vs| - 1];
      RequiredExact(init, q);
      assert VerificationJsons(vs)[..|vs| - 1] == VerificationJsons(init);
      assert vs == init + [last];
      VerificationFields(last);
    }
  }

  lemma VerificationFields(v: VerificationIr)
    ensures Field(VerificationJson(v), "claim_id") == Str(v.claimId)
    ensures Field(VerificationJson(v), "requirement") == OptStr(v.requirement)
  {
  }

  lemma ClaimNames(cs: seq<ClaimIr>, id: string)
    ensures id in Names(ClaimJsons(cs), "id") <==> exists c :: c in cs && c.id == id
  {
    forall c ensures Field(ClaimJson(c), "id") == Str(c.id) {}
    if c :| c in cs && c.id == id {
      var i :| 0 <= i < |cs| && cs[i] == c;
      assert ClaimJsons(cs)[i] == ClaimJson(c);
      assert ClaimJson(c) in ClaimJsons(cs);
    }
  }

  lemma IrFields(ir: Contract)
    ensures ItemsOf(Field(IrJson(ir), "claims")) == ClaimJsons(ir.claims)
    ensures ItemsOf(Field(IrJson(ir), "verification")) == VerificationJsons(ir.verification)
  {
  }

  lemma ContractFields(codec: Codec, src: Source, ir: Contract)
    ensures Field(ContractBody(codec, src, ir), "text") == Str(src.contractText)
    ensures Field(ContractBody(codec, src, ir), "ir") == IrJson(ir)
  {
  }

  lemma ContractGives(codec: Codec, src: Source, ir: Contract)
    ensures var r := Record(codec, "contract", ContractBody(codec, src, ir));
      && TagOf(r).ContractTag?
      && EvidenceIn(codec, r) == BindingIn(r) == DecidedIn(r) == {}
      && (forall id :: id in ClaimsIn(r) <==> id in ClaimIds(ir))
      && (forall q :: q in RequiredIn(r) <==> RequiresHere(ir, q))
      && TextOf(Field(Body(r), "text")) == src.contractText
  {
    hide TagNamed, IrJson, ContractBody, Names, Required;
    TagNames();
    RecordParts(codec, "contract", ContractBody(codec, src, ir));
    ContractFields(codec, src, ir);
    IrFields(ir);
    forall id ensures id in Names(ClaimJsons(ir.claims), "id") <==> id in ClaimIds(ir) { ClaimNames(ir.claims, id); }
    forall q ensures q in Required(VerificationJsons(ir.verification)) <==> RequiresHere(ir, q) {
      RequiredExact(ir.verification, q);
    }
  }

  lemma RegistryGives(codec: Codec, src: Source)
    ensures var r := Record(codec, "registry", RegistryBody(codec, src));
            TagOf(r).RegistryTag? && Silent(codec, r) && TextOf(Field(Body(r), "text")) == src.registryText
  {
    hide TagNamed;
    TagNames();
    RecordParts(codec, "registry", RegistryBody(codec, src));
  }

  lemma OtherGives(codec: Codec, kind: string, body: Json)
    requires TagNamed(kind).OtherTag?
    ensures var r := Record(codec, kind, body); TagOf(r).OtherTag? && Silent(codec, r)
  {
    hide TagNamed;
    RecordParts(codec, kind, body);
  }

  lemma ProofGives(codec: Codec, p: Proof)
    requires ReadsBack(codec)
    ensures var r := Record(codec, "evidence", codec.writeProof(p));
      && TagOf(r).EvidenceTag? && ProofIn(codec, r) == Some(p) && EvidenceIn(codec, r) == {p.claimId}
      && ClaimsIn(r) == BindingIn(r) == DecidedIn(r) == {} && RequiredIn(r) == []
  {
    hide TagNamed;
    TagNames();
    RecordParts(codec, "evidence", codec.writeProof(p));
  }

  lemma BindingGives(codec: Codec, b: StoredBinding)
    ensures var r := Record(codec, "binding", BindingJson(b));
      && TagOf(r).BindingTag? && BindingIn(r) == {b.claimId}
      && EvidenceIn(codec, r) == ClaimsIn(r) == DecidedIn(r) == {} && RequiredIn(r) == []
  {
    hide TagNamed;
    TagNames();
    RecordParts(codec, "binding", BindingJson(b));
  }

  lemma DecisionGives(codec: Codec, d: Json)
    ensures var r := Record(codec, "decision", d);
      && TagOf(r).DecisionTag? && DecidedIn(r) == Names(ItemsOf(Field(d, "claims")), "claim_id")
      && EvidenceIn(codec, r) == ClaimsIn(r) == BindingIn(r) == {} && RequiredIn(r) == []
  {
    hide TagNamed, Names;
    TagNames();
    RecordParts(codec, "decision", d);
  }

  // ---------------------------------------------------------------- the lists of records

  ghost predicate IsProofRecord(codec: Codec, ids: set<string>, proofs: seq<Option<Proof>>, r: Json) {
    exists p :: Some(p) in proofs && p.claimId in ids && r == Record(codec, "evidence", codec.writeProof(p))
  }

  lemma {:induction false} ProofRecordsExact(codec: Codec, ids: set<string>, proofs: seq<Option<Proof>>, r: Json)
    ensures r in ProofRecords(codec, ids, proofs) <==> IsProofRecord(codec, ids, proofs, r)
  {
    hide Record;
    if proofs != [] {
      var init, last := proofs[..|proofs| - 1], proofs[|proofs| - 1];
      ProofRecordsExact(codec, ids, init, r);
      assert proofs == init + [last];
    }
  }

  ghost predicate IsBindingRecord(codec: Codec, vs: seq<VerificationIr>, bindings: map<string, StoredBinding>, r: Json)
  {
    exists v :: v in vs && v.requirement.Some? && v.claimId in bindings
                && r == Record(codec, "binding", BindingJson(bindings[v.claimId]))
  }

  lemma {:induction false} BindingRecordsExact(codec: Codec, vs: seq<VerificationIr>,
                                               bindings: map<string, StoredBinding>, r: Json)
    ensures r in BindingRecords(codec, vs, bindings) <==> IsBindingRecord(codec, vs, bindings, r)
  {
    hide Record, BindingJson;
    if vs != [] {
      var init, last := vs[..|vs| - 1], vs[|vs| - 1];
      BindingRecordsExact(codec, init, bindings, r);
      assert vs == init + [last];
    }
  }

  /** Policies and events: shipped, and ignored by the verifier. */
  ghost predicate IsOtherRecord(codec: Codec, r: Json) {
    exists kind, body :: TagNamed(kind).OtherTag? && r == Record(codec, kind, body)
  }

  lemma {:induction false} PolicyRecordsOther(codec: Codec, files: seq<PolicyFile>, r: Json)
    requires r in PolicyRecords(codec, files)
    ensures IsOtherRecord(codec, r)
  {
    hide Record, TagNamed;
    TagNames();
    var init := files[..|files| - 1];
    if r in PolicyRecords(codec, init) { PolicyRecordsOther(codec, init, r); }
  }

  /** Every exported record, by kind. */
  lemma RecordsAre(codec: Codec, src: Source, ir: Contract, r: Json)
    ensures r in Records(codec, src, ir) ==>
      || r == Record(codec, "contract", ContractBody(codec, src, ir))
      || r == Record(codec, "registry", RegistryBody(codec, src))
      || IsOtherRecord(codec, r)
      || IsProofRecord(codec, ClaimIds(ir), src.proofs, r)
      || IsBindingRecord(codec, ir.verification, src.bindings, r)
      || (src.decision.Some? && OfIntent(src.decision.value, ir.intent)
          && r == Record(codec, "decision", src.decision.value))
    ensures
      || r == Record(codec, "contract", ContractBody(codec, src, ir))
      || IsProofRecord(codec, ClaimIds(ir), src.proofs, r)
      || IsBindingRecord(codec, ir.verification, src.bindings, r)
      || (src.decision.Some? && OfIntent(src.decision.value, ir.intent)
          && r == Record(codec, "decision", src.decision.value))
      ==> r in Records(codec, src, ir)
  {
    hide Record, TagNamed, ContractBody, RegistryBody, IsOtherRecord, IsProofRecord, IsBindingRecord, OfIntent;
    hide PolicyRecords, ProofRecords, BindingRecords;
    ProofRecordsExact(codec, ClaimIds(ir), src.proofs, r);
    BindingRecordsExact(codec, ir.verification, src.bindings, r);
    if r in PolicyRecords(codec, src.policies) { PolicyRecordsOther(codec, src.policies, r); }
    if r in EventRecords(codec, src) { EventIsOther(codec, src, r); }
    InParts(codec, src, ir, r);
  }

  lemma EventIsOther(codec: Codec, src: Source, r: Json)
    requires r in EventRecords(codec, src)
    ensures IsOtherRecord(codec, r)
  {
    hide Record, TagNamed;
    TagNames();
  }

  lemma InParts(codec: Codec, src: Source, ir: Contract, r: Json)
    ensures r in Records(codec, src, ir) <==>
      || r == Record(codec, "contract", ContractBody(codec, src, ir))
      || r == Record(codec, "registry", RegistryBody(codec, src))
      || r in PolicyRecords(codec, src.policies)
      || r in ProofRecords(codec, ClaimIds(ir), src.proofs)
      || r in BindingRecords(codec, ir.verification, src.bindings)
      || r in DecisionRecords(codec, src, ir)
      || r in EventRecords(codec, src)
  {
    hide Record, ContractBody, RegistryBody, PolicyRecords, ProofRecords, BindingRecords, DecisionRecords, EventRecords;
  }

  // ---------------------------------------------------------------- the report of an export

  /** A record says nothing the sources do not. */
  ghost predicate Faithful(codec: Codec, src: Source, ir: Contract, r: Json) {
    && (forall id :: id in EvidenceIn(codec, r) ==> HasProof(src, ir, id))
    && (forall id :: id in ClaimsIn(r) ==> id in ClaimIds(ir))
    && (forall id :: id in BindingIn(r) ==> HasBinding(src, ir, id))
    && (forall id :: id in DecidedIn(r) ==> DecidedHere(src, ir, id))
    && (forall q :: q in RequiredIn(r) ==> RequiresHere(ir, q))
  }

  lemma SilentFaithful(codec: Codec, src: Source, ir: Contract, r: Json)
    requires Silent(codec, r)
    ensures Faithful(codec, src, ir, r)
  {
    hide EvidenceIn, ClaimsIn, BindingIn, DecidedIn, RequiredIn;
  }

  lemma ContractFaithful(codec: Codec, src: Source, ir: Contract)
    ensures Faithful(codec, src, ir, Record(codec, "contract", ContractBody(codec, src, ir)))
  {
    hide Record, ContractBody, EvidenceIn, ClaimsIn, BindingIn, DecidedIn, RequiredIn, RequiresHere;
    ContractGives(codec, src, ir);
  }

  lemma ProofFaithful(codec: Codec, src: Source, ir: Contract, r: Json)
    requires ReadsBack(codec) && IsProofRecord(codec, ClaimIds(ir), src.proofs, r)
    ensures Faithful(codec, src, ir, r)
  {
    hide Record, EvidenceIn, ClaimsIn, BindingIn, DecidedIn, RequiredIn;
    var p :| Some(p) in src.proofs && p.claimId in ClaimIds(ir) && r == Record(codec, "evidence", codec.writeProof(p));
    ProofGives(codec, p);
  }

  lemma BindingFaithful(codec: Codec, src: Source, ir: Contract, r: Json)
    requires IsBindingRecord(codec, ir.verification, src.bindings, r)
    ensures Faithful(codec, src, ir, r)
  {
    hide Record, EvidenceIn, ClaimsIn, BindingIn, DecidedIn, RequiredIn;
    var v :| v in ir.verification && v.requirement.Some? && v.claimId in src.bindings
             && r == Record(codec, "binding", BindingJson(src.bindings[v.claimId]));
    BindingGives(codec, src.bindings[v.claimId]);
  }

  lemma DecisionFaithful(codec: Codec, src: Source, ir: Contract)
    requires src.decision.Some? && OfIntent(src.decision.value, ir.intent)
    ensures Faithful(codec, src, ir, Record(codec, "decision", src.decision.value))
  {
    hide Record, EvidenceIn, ClaimsIn, BindingIn, DecidedIn, RequiredIn;
    DecisionGives(codec, src.decision.value);
  }

  lemma RecordFaithful(codec: Codec, src: Source, ir: Contract, r: Json)
    requires ReadsBack(codec) && r in Records(codec, src, ir)
    ensures Faithful(codec, src, ir, r)
  {
    hide Record, TagNamed, Records, ContractBody, RegistryBody;
    hide Faithful, Silent, IsProofRecord, IsBindingRecord, OfIntent;
    RecordsAre(codec, src, ir, r);
    if r == Record(codec, "contract", ContractBody(codec, src, ir)) {
      ContractFaithful(codec, src, ir);
    } else if r == Record(codec, "registry", RegistryBody(codec, src)) {
      RegistryGives(codec, src);
      SilentFaithful(codec, src, ir, r);
    } else if IsOtherRecord(codec, r) {
      var kind, body :| TagNamed(kind).OtherTag? && r == Record(codec, kind, body);
      OtherGives(codec, kind, body);
      SilentFaithful(codec, src, ir, r);
    } else if IsProofRecord(codec, ClaimIds(ir), src.proofs, r) {
      ProofFaithful(codec, src, ir, r);
    } else if IsBindingRecord(codec, ir.verification, src.bindings, r) {
      BindingFaithful(codec, src, ir, r);
    } else {
      DecisionFaithful(codec, src, ir);
    }
  }

  lemma RecordIsIntact(codec: Codec, src: Source, ir: Contract, h: Header, r: Json)
    requires ReadsBack(codec) && r in Records(codec, src, ir)
    requires h.contractHash == codec.shaText(src.contractText) && h.registryHash == codec.shaText(src.registryText)
    ensures RecordIntact(codec, h, r) && Readable(codec, r)
  {
    hide Record, TagNamed, Records, ContractBody, RegistryBody;
    RecordsAre(codec, src, ir, r);
    ContractGives(codec, src, ir);
    RegistryGives(codec, src);
    if IsOtherRecord(codec, r) {
      var kind, body :| TagNamed(kind).OtherTag? && r == Record(codec, kind, body);
      OtherGives(codec, kind, body);
    } else if IsProofRecord(codec, ClaimIds(ir), src.proofs, r) {
      var p :| Some(p) in src.proofs && p.claimId in ClaimIds(ir)
               && r == Record(codec, "evidence", codec.writeProof(p));
      ProofGives(codec, p);
    } else if IsBindingRecord(codec, ir.verification, src.bindings, r) {
      var v :| v in ir.verification && v.requirement.Some? && v.claimId in src.bindings
               && r == Record(codec, "binding", BindingJson(src.bindings[v.claimId]));
      BindingGives(codec, src.bindings[v.claimId]);
    } else if src.decision.Some? {
      DecisionGives(codec, src.decision.value);
    }
  }

  lemma ProvenExact(codec: Codec, src: Source, ir: Contract, id: string)
    requires ReadsBack(codec)
    ensures Proven(codec, Records(codec, src, ir), id) <==> HasProof(src, ir, id)
  {
    hide Record, Records;
    forall r | r in Records(codec, src, ir) ensures Faithful(codec, src, ir, r) { RecordFaithful(codec, src, ir, r); }
    if HasProof(src, ir, id) {
      var p :| Some(p) in src.proofs && p.claimId == id;
      var r := Record(codec, "evidence", codec.writeProof(p));
      assert IsProofRecord(codec, ClaimIds(ir), src.proofs, r);
      RecordsAre(codec, src, ir, r);
      ProofGives(codec, p);
    }
  }

  lemma BoundExact(codec: Codec, src: Source, ir: Contract, id: string)
    requires ReadsBack(codec)
    ensures Bound(Records(codec, src, ir), id) <==> HasBinding(src, ir, id)
  {
    hide Record, Records;
    forall r | r in Records(codec, src, ir) ensures Faithful(codec, src, ir, r) { RecordFaithful(codec, src, ir, r); }
    if HasBinding(src, ir, id) {
      var v :| v in ir.verification && v.requirement.Some? && v.claimId in src.bindings
               && src.bindings[v.claimId].claimId == id;
      var r := Record(codec, "binding", BindingJson(src.bindings[v.claimId]));
      assert IsBindingRecord(codec, ir.verification, src.bindings, r);
      RecordsAre(codec, src, ir, r);
      BindingGives(codec, src.bindings[v.claimId]);
    }
  }

  lemma DecidedExact(codec: Codec, src: Source, ir: Contract, id: string)
    requires ReadsBack(codec)
    ensures Decided(Records(codec, src, ir), id) <==> DecidedHere(src, ir, id)
  {
    hide Record, Records;
    forall r | r in Records(codec, src, ir) ensures Faithful(codec, src, ir, r) { RecordFaithful(codec, src, ir, r); }
    if DecidedHere(src, ir, id) {
      var r := Record(codec, "decision", src.decision.value);
      RecordsAre(codec, src, ir, r);
      DecisionGives(codec, src.decision.value);
    }
  }

  lemma ClaimedExact(codec: Codec, src: Source, ir: Contract)
    requires ReadsBack(codec)
    ensures forall id :: Claimed(Records(codec, src, ir), id) <==> id in ClaimIds(ir)
    ensures forall q :: Requires(Records(codec, src, ir), q) <==> RequiresHere(ir, q)
  {
    hide Record, Records, ContractBody;
    forall r | r in Records(codec, src, ir) ensures Faithful(codec, src, ir, r) { RecordFaithful(codec, src, ir, r); }
    var r := Record(codec, "contract", ContractBody(codec, src, ir));
    RecordsAre(codec, src, ir, r);
    ContractGives(codec, src, ir);
  }

  /** No cross error comes from a record exactly when each bundled proof was gathered here. */
  lemma ContextsExact(codec: Codec, src: Source, ir: Contract, h: Header)
    requires ReadsBack(codec)
    requires h.contractHash == codec.shaText(src.contractText) && h.registryHash == codec.shaText(src.registryText)
    ensures (forall r :: r in Records(codec, src, ir) ==> CrossOf(codec, h, r) == []) <==>
            (forall p :: Some(p) in src.proofs && p.claimId in ClaimIds(ir) ==> SameContext(codec, src, p))
  {
    hide Record, Records;
    forall p | Some(p) in src.proofs && p.claimId in ClaimIds(ir)
      ensures Record(codec, "evidence", codec.writeProof(p)) in Records(codec, src, ir)
      ensures CrossOf(codec, h, Record(codec, "evidence", codec.writeProof(p))) == [] <==> SameContext(codec, src, p)
    {
      var r := Record(codec, "evidence", codec.writeProof(p));
      assert IsProofRecord(codec, ClaimIds(ir), src.proofs, r);
      RecordsAre(codec, src, ir, r);
      ProofGives(codec, p);
    }
    forall r | r in Records(codec, src, ir)
      ensures CrossOf(codec, h, r) == [] || IsProofRecord(codec, ClaimIds(ir), src.proofs, r)
    {
      QuietUnlessProof(codec, src, ir, h, r);
    }
  }

  lemma QuietUnlessProof(codec: Codec, src: Source, ir: Contract, h: Header, r: Json)
    requires r in Records(codec, src, ir)
    ensures CrossOf(codec, h, r) == [] || IsProofRecord(codec, ClaimIds(ir), src.proofs, r)
  {
    hide Record, TagNamed, Records, ContractBody, RegistryBody;
    RecordsAre(codec, src, ir, r);
    ContractGives(codec, src, ir);
    RegistryGives(codec, src);
    if IsOtherRecord(codec, r) {
      var kind, body :| TagNamed(kind).OtherTag? && r == Record(codec, kind, body);
      OtherGives(codec, kind, body);
    } else if IsBindingRecord(codec, ir.verification, src.bindings, r) {
      var v :| v in ir.verification && v.requirement.Some? && v.claimId in src.bindings
               && r == Record(codec, "binding", BindingJson(src.bindings[v.claimId]));
      BindingGives(codec, src.bindings[v.claimId]);
    } else if src.decision.Some? {
      DecisionGives(codec, src.decision.value);
    }
  }

  lemma HeaderReads(codec: Codec, h: Header)
    requires h.version == BUNDLE_VERSION && h.records <= U64_MAX
    ensures ReadHeader(HeaderLine(codec, h)) == Ok(h)
    ensures AsStr(Field(HeaderLine(codec, h), "sha256")) == Some(codec.shaJson(HeaderSeal(h)))
  {
    var hb := HeaderBody(h);
    assert Field(hb, "version") == Str(h.version) && Field(hb, "intent") == Str(h.intent);
    assert Field(hb, "registry_hash") == Str(h.registryHash) && Field(hb, "contract_hash") == Str(h.contractHash);
    assert Field(hb, "created_at") == Str(h.createdAt) && Field(hb, "tool") == Str(h.tool);
    assert Field(hb, "records") == Num(h.records);
    assert Body(HeaderLine(codec, h)) == hb;
  }

  /** Records that are intact under the header that counts them. */
  lemma Delivered(codec: Codec, h: Header, recs: seq<Json>)
    requires h.version == BUNDLE_VERSION && h.records == |recs| <= U64_MAX
    requires forall r :: r in recs ==> RecordIntact(codec, h, r) && Readable(codec, r)
    ensures var lines := Sent([HeaderLine(codec, h)] + recs);
            var r := Verified(codec, lines);
      && r.Ok? && r.value.0 == h && r.value.1.integrity == [] && Values(lines[1..]) == recs
      && (r.value.1.cross == [] <==> Coherent(codec, h, recs))
  {
    hide RecordIntact, HeaderLine, Coherent, Readable, ReadHeader;
    var lines := Sent([HeaderLine(codec, h)] + recs);
    HeaderReads(codec, h);
    assert lines[0] == Some(HeaderLine(codec, h));
    forall j | 0 <= j < |lines[1..]| ensures lines[1..][j] == Some(recs[j]) && Sound(codec, lines[1..][j]) {
      assert recs[j] in recs;
    }
    ReadableExact(codec, lines);
    assert Values(lines[1..]) == recs;
    VerifiedExact(codec, lines);
  }

  /** A bundle just exported has no integrity error; it has no cross-check error exactly when
      the store it was taken from is coherent; and it never holds evidence outside the contract. */
  lemma ExportVerifies(codec: Codec, src: Source, ir: Contract)
    requires ReadsBack(codec) && LoadContract(src.contractText) == Some(ir)
    requires |Records(codec, src, ir)| <= U64_MAX
    ensures Exported(codec, src).Ok?
    ensures var (h, lines) := Exported(codec, src).value;
            var r := Verified(codec, Sent(lines));
      && r.Ok? && r.value.0 == h && r.value.1.integrity == []
      && (r.value.1.cross == [] <==> StoreCoherent(codec, src, ir))
      && r.value.1.total == |ClaimIds(ir)|
  {
    hide Records, RecordIntact, Readable, HeaderLine, StoreCoherent, Coherent, Verified, Values;
    hide Sent, ClaimIds, LoadContract;
    var recs := Records(codec, src, ir);
    var h := HeaderOf(codec, src, ir, |recs|);
    assert Exported(codec, src) == Ok((h, [HeaderLine(codec, h)] + recs));
    forall r | r in recs ensures RecordIntact(codec, h, r) && Readable(codec, r) {
      RecordIsIntact(codec, src, ir, h, r);
    }
    Delivered(codec, h, recs);
    CoherentExact(codec, src, ir, h);
    TotalExact(codec, src, ir, Sent([HeaderLine(codec, h)] + recs));
  }

  lemma CoherentExact(codec: Codec, src: Source, ir: Contract, h: Header)
    requires ReadsBack(codec)
    requires h.contractHash == codec.shaText(src.contractText) && h.registryHash == codec.shaText(src.registryText)
    ensures Coherent(codec, h, Records(codec, src, ir)) <==> StoreCoherent(codec, src, ir)
  {
    hide Records, CrossOf, HasBinding, HasProof, RequiresHere, DecidedHere, SameContext;
    hide Proven, Bound, Claimed, Decided, Requires;
    var recs := Records(codec, src, ir);
    forall id ensures Proven(codec, recs, id) <==> HasProof(src, ir, id) { ProvenExact(codec, src, ir, id); }
    forall id ensures Bound(recs, id) <==> HasBinding(src, ir, id) { BoundExact(codec, src, ir, id); }
    forall id ensures Decided(recs, id) <==> DecidedHere(src, ir, id) { DecidedExact(codec, src, ir, id); }
    ClaimedExact(codec, src, ir);
    ContextsExact(codec, src, ir, h);
    forall id ensures HasProof(src, ir, id) ==> id in ClaimIds(ir) { InContract(src, ir, id); }
  }

  lemma InContract(src: Source, ir: Contract, id: string)
    ensures HasProof(src, ir, id) ==> id in ClaimIds(ir)
  {
  }

  lemma TotalExact(codec: Codec, src: Source, ir: Contract, lines: seq<Option<Json>>)
    requires ReadsBack(codec) && Verified(codec, lines).Ok? && Values(lines[1..]) == Records(codec, src, ir)
    ensures Verified(codec, lines).value.1.total == |ClaimIds(ir)|
  {
    hide Records, Proven, Claimed, Verified;
    ClaimedExact(codec, src, ir);
    var proven := set id | id in ClaimIds(ir) && HasProof(src, ir, id);
    forall id ensures id in proven <==> Proven(codec, Records(codec, src, ir), id) {
      ProvenExact(codec, src, ir, id);
      InContract(src, ir, id);
    }
    CountsExact(codec, lines, ClaimIds(ir), proven);
  }
}
