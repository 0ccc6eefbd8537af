/** Evidence bundles: the audit surface of a decision as a list of sealed records, and its
    offline verification. */
module Bundle {
  import opened Ordered
  import opened Prelude

  datatype Json =
    | Null
    | Bool(flag: bool)
    | Num(n: int)
    | Str(s: string)
    | Arr(items: seq<Json>)
    | Obj(fields: map<string, Json>)

  /** `v[key]`: null when there is no such field. */
  function Field(v: Json, key: string): Json {
    if v.Obj? && key in v.fields then v.fields[key] else Null
  }

  function AsStr(v: Json): Option<string> {
    if v.Str? then Some(v.s) else None
  }

  function TextOf(v: Json): string {
    AsStr(v).GetOr("")
  }

  function ItemsOf(v: Json): seq<Json> {
    if v.Arr? then v.items else []
  }

  const U64_MAX := 0xFFFF_FFFF_FFFF_FFFF

  function CountOf(v: Json): nat {
    if v.Num? && 0 <= v.n <= U64_MAX then v.n else 0
  }

  /** The parts of a stored proof a bundle looks at, and everything else in it. */
  datatype Proof = Proof(claimId: string, registryHash: string, contractHash: string, rest: Json)

  /** The foreign parts: sha256 over a text and over a value printed canonically, and the
      serialization of evidence. */
  datatype Codec = Codec(
    shaText: string -> string,
    shaJson: Json -> string,
    readProof: Json -> Option<Proof>,
    writeProof: Proof -> Json)

  ghost predicate ReadsBack(codec: Codec) {
    forall p :: codec.readProof(codec.writeProof(p)) == Some(p)
  }

  datatype Header = Header(
    version: string,
    intent: string,
    registryHash: string,
    contractHash: string,
    createdAt: string,
    tool: string,
    records: nat)

  datatype BundleError =
    | DoesNotCompile
    | EmptyBundle
    | Malformed
    | NotAHeader
    | UnsupportedVersion
    | BadEvidence

  datatype IntegrityError =
    | HeaderMismatch
    | ShaMismatch(kind: string)
    | ContractMismatch
    | RegistryMismatch
    | CountMismatch(declared: nat, found: nat)

  datatype CrossError =
    | DifferentRegistry(claim: string)
    | DifferentContract(claim: string)
    | NoBindingFor(claim: string, requirement: string)
    | Unbacked(claim: string)
    | UnknownClaimEvidence(claim: string)

  datatype Report = Report(
    records: nat,
    integrity: seq<IntegrityError>,
    cross: seq<CrossError>,
    covered: nat,
    total: nat)

  const BUNDLE_VERSION := "uni-bundle-0.1"

  // ---------------------------------------------------------------- what one record contributes

  function Kind(rec: Json): string {
    AsStr(Field(rec, "kind")).GetOr("?")
  }

  datatype Tag = ContractTag | RegistryTag | EvidenceTag | BindingTag | DecisionTag | OtherTag

  function TagNamed(kind: string): Tag {
    if kind == "contract" then ContractTag
    else if kind == "registry" then RegistryTag
    else if kind == "evidence" then EvidenceTag
    else if kind == "binding" then BindingTag
    else if kind == "decision" then DecisionTag
    else OtherTag
  }

  function TagOf(rec: Json): Tag {
    TagNamed(Kind(rec))
  }

  function Body(rec: Json): Json {
    Field(rec, "body")
  }

  predicate Sealed(codec: Codec, rec: Json) {
    AsStr(Field(rec, "sha256")) == Some(codec.shaJson(Body(rec)))
  }

  /** What a header record's own hash covers. */
  function HeaderSeal(h: Header): Json {
    Obj(map["version" := Str(h.version), "intent" := Str(h.intent),
            "registry_hash" := Str(h.registryHash), "contract_hash" := Str(h.contractHash)])
  }

  function SealErrors(codec: Codec, rec: Json): seq<IntegrityError> {
    if Sealed(codec, rec) then [] else [ShaMismatch(Kind(rec))]
  }

  /** The bundled texts must be the ones the header speaks of. */
  function TextErrors(codec: Codec, h: Header, rec: Json): seq<IntegrityError> {
    var sha := codec.shaText(TextOf(Field(Body(rec), "text")));
    match TagOf(rec)
    case ContractTag => if sha != h.contractHash then [ContractMismatch] else []
    case RegistryTag => if sha != h.registryHash then [RegistryMismatch] else []
    case _ => []
  }

  predicate Readable(codec: Codec, rec: Json) {
    TagOf(rec).EvidenceTag? ==> codec.readProof(Body(rec)).Some?
  }

  function ProofIn(codec: Codec, rec: Json): Option<Proof> {
    if TagOf(rec).EvidenceTag? then codec.readProof(Body(rec)) else None
  }

  function CrossOf(codec: Codec, h: Header, rec: Json): seq<CrossError> {
    match ProofIn(codec, rec)
    case None => []
    case Some(p) => CrossOfProof(h, p)
  }

  function CrossOfProof(h: Header, p: Proof): seq<CrossError> {
    (if p.registryHash != "" && p.registryHash != h.registryHash then [DifferentRegistry(p.claimId)] else [])
    + (if p.contractHash != "" && p.contractHash != h.contractHash then [DifferentContract(p.claimId)] else [])
  }

  function EvidenceIn(codec: Codec, rec: Json): set<string> {
    match ProofIn(codec, rec)
    case None => {}
    case Some(p) => {p.claimId}
  }

  /** The strings found under a key of the items. */
  function Names(items: seq<Json>, key: string): set<string> {
    set v | v in items && Field(v, key).Str? :: Field(v, key).s
  }

  function ClaimsIn(rec: Json): set<string> {
    if TagOf(rec).ContractTag? then Names(ItemsOf(Field(Field(Body(rec), "ir"), "claims")), "id") else {}
  }

  function DecidedIn(rec: Json): set<string> {
    if TagOf(rec).DecisionTag? then Names(ItemsOf(Field(Body(rec), "claims")), "claim_id") else {}
  }

  function BindingIn(rec: Json): set<string> {
    if TagOf(rec).BindingTag? && Field(Body(rec), "claim_id").Str? then {Field(Body(rec), "claim_id").s} else {}
  }

  function Required(items: seq<Json>): seq<(string, string)> {
    if items == [] then [] else
      var v := items[|items| - 1];
      Required(items[..|items| - 1])
      + (if Field(v, "requirement").Str?
         then [(TextOf(Field(v, "claim_id")), Field(v, "requirement").s)] else [])
  }

  function RequiredIn(rec: Json): seq<(string, string)> {
    if TagOf(rec).ContractTag? then Required(ItemsOf(Field(Field(Body(rec), "ir"), "verification"))) else []
  }

  // ---------------------------------------------------------------- the accumulators

  datatype Tally = Tally(
    records: nat,
    integrity: seq<IntegrityError>,
    cross: seq<CrossError>,
    evidence: set<string>,
    claims: set<string>,
    bindings: set<string>,
    requirements: seq<(string, string)>,
    decided: set<string>)

  function AddBody(codec: Codec, h: Header, t: Tally, rec: Json): Tally {
    t.(integrity := t.integrity + TextErrors(codec, h, rec), cross := t.cross + CrossOf(codec, h, rec),
       evidence := t.evidence + EvidenceIn(codec, rec), claims := t.claims + ClaimsIn(rec),
       bindings := t.bindings + BindingIn(rec), requirements := t.requirements + RequiredIn(rec),
       decided := t.decided + DecidedIn(rec))
  }

  function Add(codec: Codec, h: Header, t: Tally, rec: Json): Tally {
    AddBody(codec, h, t.(records := t.records + 1, integrity := t.integrity + SealErrors(codec, rec)), rec)
  }

  function Start(codec: Codec, h: Header, first: Json): Tally {
    Tally(0, if AsStr(Field(first, "sha256")) == Some(codec.shaJson(HeaderSeal(h))) then [] else [HeaderMismatch],
          [], {}, {}, {}, [], {})
  }

  function AddAll(codec: Codec, h: Header, t: Tally, recs: seq<Json>): Tally {
    if recs == [] then t
    else Add(codec, h, AddAll(codec, h, t, recs[..|recs| - 1]), recs[|recs| - 1])
  }

  function Unbound(requirements: seq<(string, string)>, bindings: set<string>): seq<CrossError> {
    if requirements == [] then [] else
      var (claim, req) := requirements[|requirements| - 1];
      Unbound(requirements[..|requirements| - 1], bindings)
      + (if claim in bindings then [] else [NoBindingFor(claim, req)])
  }

  function UnbackedOf(claims: seq<string>): seq<CrossError> {
    seq(|claims|, i requires 0 <= i < |claims| => Unbacked(claims[i]))
  }

  function UnknownOf(claims: seq<string>): seq<CrossError> {
    seq(|claims|, i requires 0 <= i < |claims| => UnknownClaimEvidence(claims[i]))
  }

  function Close(h: Header, t: Tally): Report {
    Report(t.records,
           t.integrity + (if t.records != h.records then [CountMismatch(h.records, t.records)] else []),
           t.cross + Unbound(t.requirements, t.bindings) + UnbackedOf(Listing(t.decided - t.evidence))
             + UnknownOf(Listing(t.evidence - t.claims)),
           |t.claims * t.evidence|, |t.claims|)
  }

  function ReadHeader(first: Json): Result<Header, BundleError> {
    var hb := Body(first);
    if AsStr(Field(first, "kind")) != Some("header") then Err(NotAHeader)
    else if TextOf(Field(hb, "version")) != BUNDLE_VERSION then Err(UnsupportedVersion)
    else Ok(Header(TextOf(Field(hb, "version")), TextOf(Field(hb, "intent")), TextOf(Field(hb, "registry_hash")),
                   TextOf(Field(hb, "contract_hash")), TextOf(Field(hb, "created_at")), TextOf(Field(hb, "tool")),
                   CountOf(Field(hb, "records"))))
  }

  predicate Sound(codec: Codec, line: Option<Json>) {
    line.Some? && Readable(codec, line.value)
  }

  function FaultOf(line: Option<Json>): BundleError {
    if line.None? then Malformed else BadEvidence
  }

  /** The first line that stops the reading. */
  function FirstFault(codec: Codec, lines: seq<Option<Json>>): Option<BundleError> {
    if lines == [] then None
    else if Sound(codec, lines[0]) then FirstFault(codec, lines[1..])
    else Some(FaultOf(lines[0]))
  }

  function Values(lines: seq<Option<Json>>): (vs: seq<Json>)
    ensures |vs| == |lines|
    ensures forall i :: 0 <= i < |lines| && lines[i].Some? ==> vs[i] == lines[i].value
  {
    seq(|lines|, i requires 0 <= i < |lines| => lines[i].GetOr(Null))
  }

  /** A bundle file: its lines that are not blank, parsed where they parse. */
  function Verified(codec: Codec, lines: seq<Option<Json>>): Result<(Header, Report), BundleError> {
    if lines == [] then Err(EmptyBundle)
    else if lines[0].None? then Err(Malformed)
    else
      match ReadHeader(lines[0].value)
      case Err(e) => Err(e)
      case Ok(h) =>
        match FirstFault(codec, lines[1..])
        case Some(e) => Err(e)
        case None =>
          Ok((h, Close(h, AddAll(codec, h, Start(codec, h, lines[0].value), Values(lines[1..])))))
  }

  // ---------------------------------------------------------------- the loops

  method CollectNames(items: seq<Json>, key: string, before: set<string>) returns (names: set<string>)
    ensures names == before + Names(items, key)
  {
    names := before;
    for i := 0 to |items|
      invariant names == before + Names(items[..i], key)
    {
      var v := items[i];
      assert items[..i + 1] == items[..i] + [v];
      assert Names(items[..i + 1], key) == Names(items[..i], key) + Names([v], key);
      if Field(v, key).Str? {
        assert v in [v];
        names := names + {Field(v, key).s};
      }
    }
    assert items[..|items|] == items;
  }

  method CollectRequired(items: seq<Json>, before: seq<(string, string)>) returns (all: seq<(string, string)>)
    ensures all == before + Required(items)
  {
    all := before;
    for i := 0 to |items|
      invariant all == before + Required(items[..i])
    {
      var v := items[i];
      assert items[..i + 1][..i] == items[..i];
      if Field(v, "requirement").Str? {
        all := all + [(TextOf(Field(v, "claim_id")), Field(v, "requirement").s)];
      }
    }
    assert items[..|items|] == items;
  }

  /** One turn of the loop. */
  method TakeRecord(codec: Codec, h: Header, before: Tally, rec: Json) returns (t: Tally)
    requires Readable(codec, rec)
    ensures t == Add(codec, h, before, rec)
  {
    t := before.(records := before.records + 1);
    if !Sealed(codec, rec) { t := t.(integrity := t.integrity + [ShaMismatch(Kind(rec))]); }
    t := TakeBody(codec, h, t, rec);
  }

  method TakeBody(codec: Codec, h: Header, before: Tally, rec: Json) returns (t: Tally)
    requires Readable(codec, rec)
    ensures t == AddBody(codec, h, before, rec)
  {
    hide TagNamed, Kind, Names, Required, Sealed, Field, TextOf, CrossOfProof;
    t := before;
    match TagOf(rec)
    case ContractTag =>
      t := TakeContract(codec, h, t, Body(rec));
    case RegistryTag =>
      if codec.shaText(TextOf(Field(Body(rec), "text"))) != h.registryHash {
        t := t.(integrity := t.integrity + [RegistryMismatch]);
      }
    case EvidenceTag =>
      t := TakeProof(h, t, codec.readProof(Body(rec)).value);
    case BindingTag =>
      if Field(Body(rec), "claim_id").Str? { t := t.(bindings := t.bindings + {Field(Body(rec), "claim_id").s}); }
    case DecisionTag =>
      var decided := CollectNames(ItemsOf(Field(Body(rec), "claims")), "claim_id", t.decided);
      t := t.(decided := decided);
    case OtherTag =>
  }

  method TakeContract(codec: Codec, h: Header, before: Tally, body: Json) returns (t: Tally)
    ensures t == before.(
      integrity := before.integrity
        + (if codec.shaText(TextOf(Field(body, "text"))) != h.contractHash then [ContractMismatch] else []),
      claims := before.claims + Names(ItemsOf(Field(Field(body, "ir"), "claims")), "id"),
      requirements := before.requirements + Required(ItemsOf(Field(Field(body, "ir"), "verification"))))
  {
    t := before;
    if codec.shaText(TextOf(Field(body, "text"))) != h.contractHash {
      t := t.(integrity := t.integrity + [ContractMismatch]);
    }
    var claims := CollectNames(ItemsOf(Field(Field(body, "ir"), "claims")), "id", t.claims);
    var requirements := CollectRequired(ItemsOf(Field(Field(body, "ir"), "verification")), t.requirements);
    t := t.(claims := claims, requirements := requirements);
  }

  method TakeProof(h: Header, before: Tally, p: Proof) returns (t: Tally)
    ensures t == before.(evidence := before.evidence + {p.claimId}, cross := before.cross + CrossOfProof(h, p))
  {
    t := before.(evidence := before.evidence + {p.claimId});
    if p.registryHash != "" && p.registryHash != h.registryHash {
      t := t.(cross := t.cross + [DifferentRegistry(p.claimId)]);
    }
    if p.contractHash != "" && p.contractHash != h.contractHash {
      t := t.(cross := t.cross + [DifferentContract(p.claimId)]);
    }
  }

  lemma {:induction false} FaultAt(codec: Codec, lines: seq<Option<Json>>, i: nat)
    requires i < |lines| && !Sound(codec, lines[i])
    requires forall j :: 0 <= j < i ==> Sound(codec, lines[j])
    ensures FirstFault(codec, lines) == Some(FaultOf(lines[i]))
  {
    if i > 0 { FaultAt(codec, lines[1..], i - 1); }
  }

  lemma {:induction false} NoFault(codec: Codec, lines: seq<Option<Json>>)
    ensures FirstFault(codec, lines).None? <==> forall j :: 0 <= j < |lines| ==> Sound(codec, lines[j])
  {
    if lines != [] {
      NoFault(codec, lines[1..]);
      assert forall j :: 1 <= j < |lines| ==> lines[j] == lines[1..][j - 1];
    }
  }

  lemma AddNext(codec: Codec, h: Header, t: Tally, recs: seq<Json>, i: nat)
    requires i < |recs|
    ensures AddAll(codec, h, t, recs[..i + 1]) == Add(codec, h, AddAll(codec, h, t, recs[..i]), recs[i])
  {
    assert recs[..i + 1][..i] == recs[..i];
  }

  method Verify(codec: Codec, lines: seq<Option<Json>>) returns (r: Result<(Header, Report), BundleError>)
    ensures r == Verified(codec, lines)
  {
    if lines == [] { return Err(EmptyBundle); }
    if lines[0].None? { return Err(Malformed); }
    var header := ReadHeader(lines[0].value);
    if header.Err? { return Err(header.error); }
    var tally := ReadRecords(codec, header.value, Start(codec, header.value, lines[0].value), lines[1..]);
    if tally.Err? { return Err(tally.error); }
    var report := Conclude(header.value, tally.value);
    return Ok((header.value, report));
  }

  method ReadRecords(codec: Codec, h: Header, start: Tally, rest: seq<Option<Json>>)
    returns (r: Result<Tally, BundleError>)
    ensures r == match FirstFault(codec, rest)
                 case Some(e) => Err(e)
                 case None => Ok(AddAll(codec, h, start, Values(rest)))
  {
    hide Add;
    var t := start;
    ghost var recs := Values(rest);
    for i := 0 to |rest|
      invariant forall j :: 0 <= j < i ==> Sound(codec, rest[j])
      invariant t == AddAll(codec, h, start, recs[..i])
    {
      if rest[i].None? {
        FaultAt(codec, rest, i);
        return Err(Malformed);
      }
      if !Readable(codec, rest[i].value) {
        FaultAt(codec, rest, i);
        return Err(BadEvidence);
      }
      AddNext(codec, h, start, recs, i);
      t := TakeRecord(codec, h, t, rest[i].value);
    }
    NoFault(codec, rest);
    assert recs[..|rest|] == recs;
    return Ok(t);
  }

  method Conclude(h: Header, t: Tally) returns (report: Report)
    ensures report == Close(h, t)
  {
    var integrity := t.integrity;
    if t.records != h.records { integrity := integrity + [CountMismatch(h.records, t.records)]; }
    var cross := t.cross;
    for i := 0 to |t.requirements|
      invariant cross == t.cross + Unbound(t.requirements[..i], t.bindings)
    {
      var (claim, req) := t.requirements[i];
      assert t.requirements[..i + 1][..i] == t.requirements[..i];
      if claim !in t.bindings { cross := cross + [NoBindingFor(claim, req)]; }
    }
    assert t.requirements[..|t.requirements|] == t.requirements;
    var unbacked := Listing(t.decided - t.evidence);
    for i := 0 to |unbacked|
      invariant cross == t.cross + Unbound(t.requirements, t.bindings) + UnbackedOf(unbacked[..i])
    {
      assert UnbackedOf(unbacked[..i + 1]) == UnbackedOf(unbacked[..i]) + [Unbacked(unbacked[i])];
      cross := cross + [Unbacked(unbacked[i])];
    }
    assert unbacked[..|unbacked|] == unbacked;
    var unknown := Listing(t.evidence - t.claims);
    for i := 0 to |unknown|
      invariant cross == t.cross + Unbound(t.requirements, t.bindings) + UnbackedOf(unbacked) + UnknownOf(unknown[..i])
    {
      assert UnknownOf(unknown[..i + 1]) == UnknownOf(unknown[..i]) + [UnknownClaimEvidence(unknown[i])];
      cross := cross + [UnknownClaimEvidence(unknown[i])];
    }
    assert unknown[..|unknown|] == unknown;
    report := Report(t.records, integrity, cross, |t.claims * t.evidence|, |t.claims|);
  }
}
