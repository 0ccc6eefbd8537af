/** The export of a bundle, and what verifying it reports. */
module BundleExport {
  import opened Bundle
  import opened Ir
  import opened IrCompile
  import opened Parser
  import opened Prelude
  import opened Text

  datatype PolicyFile = PolicyFile(name: string, extension: string, text: Option<string>)

  /** A stored binding; a legacy file may carry another claim's id inside. */
  datatype StoredBinding = StoredBinding(claimId: string, rest: Json)

  /** What `.uni` and the contract file hold. Directory listings come sorted; a file that does
      not read or parse is None. */
  datatype Source = Source(
    contractPath: string,
    contractText: string,
    registryText: string,
    policies: seq<PolicyFile>,
    proofs: seq<Option<Proof>>,
    bindings: map<string, StoredBinding>,
    decision: Option<Json>,
    events: Option<seq<Json>>,
    createdAt: string,
    tool: string)

  function OptStr(o: Option<string>): Json {
    match o
    case None => Null
    case Some(s) => Str(s)
  }

  function ClaimJson(c: ClaimIr): Json {
    Obj(map["id" := Str(c.id), "kind" := Str(c.kind), "required" := Bool(c.required),
            "critical" := Bool(c.critical), "ensure" := Str(c.ensure)])
  }

  function VerificationJson(v: VerificationIr): Json {
    Obj(map["claim_id" := Str(v.claimId), "verifier_ref" := Str(v.verifierRef),
            "inline_shell" := OptStr(v.inlineShell), "requirement" := OptStr(v.requirement)])
  }

  function ClaimJsons(cs: seq<ClaimIr>): seq<Json> {
    seq(|cs|, i requires 0 <= i < |cs| => ClaimJson(cs[i]))
  }

  function VerificationJsons(vs: seq<VerificationIr>): seq<Json> {
    seq(|vs|, i requires 0 <= i < |vs| => VerificationJson(vs[i]))
  }

  function IrJson(c: Contract): Json {
    Obj(map["uni_version" := Str(c.uniVersion),
            "intent" := Obj(map["id" := Str(c.intent), "domain" := Str(c.domain), "goal" := Str(c.goal)]),
            "claims" := Arr(ClaimJsons(c.claims)),
            "verification" := Arr(VerificationJsons(c.verification)),
            "acceptance" := Obj(map["require_verified" := Bool(true)])])
  }

  /** One transport record: its hash covers the canonical print of the body. */
  function Record(codec: Codec, kind: string, body: Json): (r: Json)
    ensures Sealed(codec, r)
  {
    Obj(map["kind" := Str(kind), "sha256" := Str(codec.shaJson(body)), "body" := body])
  }

  function ContractBody(codec: Codec, src: Source, ir: Contract): Json {
    Obj(map["path" := Str(src.contractPath), "text" := Str(src.contractText),
            "hash" := Str(codec.shaText(src.contractText)), "ir" := IrJson(ir)])
  }

  function RegistryBody(codec: Codec, src: Source): Json {
    Obj(map["text" := Str(src.registryText), "hash" := Str(codec.shaText(src.registryText))])
  }

  function PolicyRecords(codec: Codec, files: seq<PolicyFile>): seq<Json> {
    if files == [] then [] else
      var f := files[|files| - 1];
      PolicyRecords(codec, files[..|files| - 1])
      + if (f.extension == "toml" || f.extension == "rego") && f.text.Some?
        then [Record(codec, "policy", Obj(map["name" := Str(f.name), "text" := Str(f.text.value)]))] else []
  }

  function ClaimIds(ir: Contract): set<string> {
    set c | c in ir.claims :: c.id
  }

  function ProofRecords(codec: Codec, ids: set<string>, proofs: seq<Option<Proof>>): seq<Json> {
    if proofs == [] then [] else
      var p := proofs[|proofs| - 1];
      ProofRecords(codec, ids, proofs[..|proofs| - 1])
      + if p.Some? && p.value.claimId in ids then [Record(codec, "evidence", codec.writeProof(p.value))] else []
  }

  function BindingJson(b: StoredBinding): Json {
    Obj(map["claim_id" := Str(b.claimId), "rest" := b.rest])
  }

  function BindingRecords(codec: Codec, vs: seq<VerificationIr>, bindings: map<string, StoredBinding>): seq<Json> {
    if vs == [] then [] else
      var v := vs[|vs| - 1];
      BindingRecords(codec, vs[..|vs| - 1], bindings)
      + if v.requirement.Some? && v.claimId in bindings
        then [Record(codec, "binding", BindingJson(bindings[v.claimId]))] else []
  }

  predicate OfIntent(decision: Json, intent: string) {
    AsStr(Field(Field(decision, "intent"), "id")) == Some(intent)
  }

  function DecisionRecords(codec: Codec, src: Source, ir: Contract): seq<Json> {
    if src.decision.Some? && OfIntent(src.decision.value, ir.intent)
    then [Record(codec, "decision", src.decision.value)] else []
  }

  function EventRecords(codec: Codec, src: Source): seq<Json> {
    if src.events.Some? then [Record(codec, "events", Obj(map["events" := Arr(src.events.value)]))] else []
  }

  function Records(codec: Codec, src: Source, ir: Contract): seq<Json> {
    [Record(codec, "contract", ContractBody(codec, src, ir)), Record(codec, "registry", RegistryBody(codec, src))]
    + PolicyRecords(codec, src.policies)
    + ProofRecords(codec, ClaimIds(ir), src.proofs)
    + BindingRecords(codec, ir.verification, src.bindings)
    + DecisionRecords(codec, src, ir)
    + EventRecords(codec, src)
  }

  function HeaderOf(codec: Codec, src: Source, ir: Contract, records: nat): Header {
    Header(BUNDLE_VERSION, ir.intent, codec.shaText(src.registryText), codec.shaText(src.contractText),
           src.createdAt, src.tool, records)
  }

  function HeaderBody(h: Header): Json {
    Obj(map["version" := Str(h.version), "intent" := Str(h.intent), "registry_hash" := Str(h.registryHash),
            "contract_hash" := Str(h.contractHash), "created_at" := Str(h.createdAt), "tool" := Str(h.tool),
            "records" := Num(h.records)])
  }

  function HeaderLine(codec: Codec, h: Header): Json {
    Obj(map["kind" := Str("header"), "sha256" := Str(codec.shaJson(HeaderSeal(h))), "body" := HeaderBody(h)])
  }

  function LoadContract(text: string): Option<Contract> {
    match ParseLines(Lines(text))
    case Err(_) => None
    case Ok(ast) => match Compile(ast) case Err(_) => None case Ok(ir) => Some(ir)
  }

  function Exported(codec: Codec, src: Source): Result<(Header, seq<Json>), BundleError> {
    match LoadContract(src.contractText)
    case None => Err(DoesNotCompile)
    case Some(ir) =>
      var records := Records(codec, src, ir);
      var h := HeaderOf(codec, src, ir, |records|);
      Ok((h, [HeaderLine(codec, h)] + records))
  }

  // ---------------------------------------------------------------- the pushes

  method Export(codec: Codec, src: Source) returns (r: Result<(Header, seq<Json>), BundleError>)
    ensures r == Exported(codec, src)
  {
    var parsed := LoadContract(src.contractText);
    if parsed.None? { return Err(DoesNotCompile); }
    var ir := parsed.value;
    var lines := [Record(codec, "contract", ContractBody(codec, src, ir)),
                  Record(codec, "registry", RegistryBody(codec, src))];
    lines := PushPolicies(codec, src.policies, lines);
    lines := PushProofs(codec, ClaimIds(ir), src.proofs, lines);
    lines := PushBindings(codec, ir.verification, src.bindings, lines);
    if src.decision.Some? && OfIntent(src.decision.value, ir.intent) {
      lines := lines + [Record(codec, "decision", src.decision.value)];
    }
    if src.events.Some? {
      lines := lines + [Record(codec, "events", Obj(map["events" := Arr(src.events.value)]))];
    }
    assert lines == Records(codec, src, ir);
    var h := HeaderOf(codec, src, ir, |lines|);
    return Ok((h, [HeaderLine(codec, h)] + lines));
  }

  method PushPolicies(codec: Codec, files: seq<PolicyFile>, before: seq<Json>) returns (lines: seq<Json>)
    ensures lines == before + PolicyRecords(codec, files)
  {
    lines := before;
    for i := 0 to |files|
      invariant lines == before + PolicyRecords(codec, files[..i])
    {
      var f := files[i];
      assert files[..i + 1][..i] == files[..i];
      if (f.extension == "toml" || f.extension == "rego") && f.text.Some? {
        lines := lines + [Record(codec, "policy", Obj(map["name" := Str(f.name), "text" := Str(f.text.value)]))];
      }
    }
    assert files[..|files|] == files;
  }

  method PushProofs(codec: Codec, ids: set<string>, proofs: seq<Option<Proof>>, before: seq<Json>)
    returns (lines: seq<Json>)
    ensures lines == before + ProofRecords(codec, ids, proofs)
  {
    lines := before;
    for i := 0 to |proofs|
      invariant lines == before + ProofRecords(codec, ids, proofs[..i])
    {
      assert proofs[..i + 1][..i] == proofs[..i];
      if proofs[i].None? { continue; }
      var p := proofs[i].value;
      if p.claimId in ids { lines := lines + [Record(codec, "evidence", codec.writeProof(p))]; }
    }
    assert proofs[..|proofs|] == proofs;
  }

  method PushBindings(codec: Codec, vs: seq<VerificationIr>, bindings: map<string, StoredBinding>, before: seq<Json>)
    returns (lines: seq<Json>)
    ensures lines == before + BindingRecords(codec, vs, bindings)
  {
    lines := before;
    for i := 0 to |vs|
      invariant lines == before + BindingRecords(codec, vs[..i], bindings)
    {
      var v := vs[i];
      assert vs[..i + 1][..i] == vs[..i];
      if v.requirement.Some? && v.claimId in bindings {
        lines := lines + [Record(codec, "binding", BindingJson(bindings[v.claimId]))];
      }
    }
    assert vs[..|vs|] == vs;
  }
}
