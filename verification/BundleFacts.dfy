/** What a bundle report says about the records, independently of their order. */
module BundleFacts {
  import opened Bundle
  import opened Ordered
  import opened Prelude

  // ---------------------------------------------------------------- reports without loops

  ghost predicate RecordIntact(codec: Codec, h: Header, rec: Json) {
    SealErrors(codec, rec) == [] && TextErrors(codec, h, rec) == []
  }

  ghost predicate Intact(codec: Codec, h: Header, first: Json, recs: seq<Json>) {
    && AsStr(Field(first, "sha256")) == Some(codec.shaJson(HeaderSeal(h)))
    && |recs| == h.records
    && forall r :: r in recs ==> RecordIntact(codec, h, r)
  }

  ghost predicate Proven(codec: Codec, recs: seq<Json>, id: string) {
    exists r :: r in recs && id in EvidenceIn(codec, r)
  }

  ghost predicate Claimed(recs: seq<Json>, id: string) {
    exists r :: r in recs && id in ClaimsIn(r)
  }

  ghost predicate Bound(recs: seq<Json>, id: string) {
    exists r :: r in recs && id in BindingIn(r)
  }

  ghost predicate Decided(recs: seq<Json>, id: string) {
    exists r :: r in recs && id in DecidedIn(r)
  }

  ghost predicate Requires(recs: seq<Json>, q: (string, string)) {
    exists r :: r in recs && q in RequiredIn(r)
  }

  /** Every requirement has its binding, every decided claim its evidence, and no evidence
      stands outside the contract or comes from another registry or contract. */
  ghost predicate Coherent(codec: Codec, h: Header, recs: seq<Json>) {
    && (forall r :: r in recs ==> CrossOf(codec, h, r) == [])
    && (forall q: (string, string) :: Requires(recs, q) ==> Bound(recs, q.0))
    && (forall id :: Decided(recs, id) ==> Proven(codec, recs, id))
    && (forall id :: Proven(codec, recs, id) ==> Claimed(recs, id))
  }

  // ---------------------------------------------------------------- the accumulators, exactly

  ghost predicate CountsAre(codec: Codec, h: Header, t: Tally, recs: seq<Json>, end: Tally) {
    && end.records == t.records + |recs|
    && (end.integrity == [] <==> t.integrity == [] && forall r :: r in recs ==> RecordIntact(codec, h, r))
    && (end.cross == [] <==> t.cross == [] && forall r :: r in recs ==> CrossOf(codec, h, r) == [])
  }

  lemma LastOf(recs: seq<Json>, r: Json)
    requires recs != []
    ensures r in recs <==> r in recs[..|recs| - 1] || r == recs[|recs| - 1]
  {
    assert recs == recs[..|recs| - 1] + [recs[|recs| - 1]];
  }

  lemma AddCounts(codec: Codec, h: Header, t: Tally, rec: Json)
    ensures var end := Add(codec, h, t, rec);
      && end.records == t.records + 1
      && (end.integrity == [] <==> t.integrity == [] && RecordIntact(codec, h, rec))
      && (end.cross == [] <==> t.cross == [] && CrossOf(codec, h, rec) == [])
  {
    hide EvidenceIn, ClaimsIn, BindingIn, DecidedIn, RequiredIn, SealErrors, TextErrors, CrossOf;
  }

  lemma {:induction false} AddAllCounts(codec: Codec, h: Header, t: Tally, recs: seq<Json>)
    ensures CountsAre(codec, h, t, recs, AddAll(codec, h, t, recs))
  {
    hide Add, RecordIntact, CrossOf;
    if recs != [] {
      var init, last := recs[..|recs| - 1], recs[|recs| - 1];
      AddAllCounts(codec, h, t, init);
      AddCounts(codec, h, AddAll(codec, h, t, init), last);
      forall r ensures r in recs <==> r in init || r == last { LastOf(recs, r); }
    }
  }

  ghost predicate NamesAre(codec: Codec, recs: seq<Json>, end: Tally) {
    && (forall id :: id in end.evidence <==> Proven(codec, recs, id))
    && (forall id :: id in end.claims <==> Claimed(recs, id))
    && (forall id :: id in end.bindings <==> Bound(recs, id))
    && (forall id :: id in end.decided <==> Decided(recs, id))
    && (forall q :: q in end.requirements <==> Requires(recs, q))
  }

  lemma NamesGrow(codec: Codec, recs: seq<Json>)
    requires recs != []
    ensures var init, last := recs[..|recs| - 1], recs[|recs| - 1];
      && (forall id :: Proven(codec, recs, id) <==> Proven(codec, init, id) || id in EvidenceIn(codec, last))
      && (forall id :: Claimed(recs, id) <==> Claimed(init, id) || id in ClaimsIn(last))
      && (forall id :: Bound(recs, id) <==> Bound(init, id) || id in BindingIn(last))
      && (forall id :: Decided(recs, id) <==> Decided(init, id) || id in DecidedIn(last))
      && (forall q :: Requires(recs, q) <==> Requires(init, q) || q in RequiredIn(last))
  {
    hide EvidenceIn, ClaimsIn, BindingIn, DecidedIn, RequiredIn;
    forall r ensures r in recs <==> r in recs[..|recs| - 1] || r == recs[|recs| - 1] { LastOf(recs, r); }
  }

  lemma {:induction false} AddAllNames(codec: Codec, h: Header, t: Tally, recs: seq<Json>)
    requires t.evidence == t.claims == t.bindings == t.decided == {} && t.requirements == []
    ensures NamesAre(codec, recs, AddAll(codec, h, t, recs))
  {
    hide EvidenceIn, ClaimsIn, BindingIn, DecidedIn, RequiredIn;
    if recs != [] {
      hide Add, Proven, Claimed, Bound, Decided, Requires;
      AddAllNames(codec, h, t, recs[..|recs| - 1]);
      NamesGrow(codec, recs);
      AddFields(codec, h, AddAll(codec, h, t, recs[..|recs| - 1]), recs[|recs| - 1]);
    }
  }

  lemma AddFields(codec: Codec, h: Header, t: Tally, rec: Json)
    ensures var end := Add(codec, h, t, rec);
      && end.evidence == t.evidence + EvidenceIn(codec, rec) && end.claims == t.claims + ClaimsIn(rec)
      && end.bindings == t.bindings + BindingIn(rec) && end.decided == t.decided + DecidedIn(rec)
      && end.requirements == t.requirements + RequiredIn(rec)
  {
  }

  lemma {:induction false} UnboundNone(requirements: seq<(string, string)>, bindings: set<string>)
    ensures Unbound(requirements, bindings) == [] <==>
              forall q: (string, string) :: q in requirements ==> q.0 in bindings
  {
    if requirements != [] {
      var init, last := requirements[..|requirements| - 1], requirements[|requirements| - 1];
      UnboundNone(init, bindings);
      assert requirements == init + [last];
    }
  }

  lemma NothingLeft(a: set<string>, b: set<string>)
    ensures a - b == {} <==> a <= b
  {
    if !(a <= b) {
      var x :| x in a && x !in b;
      assert x in a - b;
    }
  }

  lemma ListingNone(s: set<string>)
    ensures Listing(s) == [] <==> s == {}
  {
  }

  lemma CloseExact(h: Header, t: Tally)
    ensures Close(h, t).integrity == [] <==> t.integrity == [] && t.records == h.records
    ensures Close(h, t).cross == [] <==>
            && t.cross == []
            && (forall q: (string, string) :: q in t.requirements ==> q.0 in t.bindings)
            && t.decided <= t.evidence && t.evidence <= t.claims
  {
    UnboundNone(t.requirements, t.bindings);
    ListingNone(t.decided - t.evidence);
    ListingNone(t.evidence - t.claims);
    NothingLeft(t.decided, t.evidence);
    NothingLeft(t.evidence, t.claims);
    ConcatNone(t.cross, Unbound(t.requirements, t.bindings), UnbackedOf(Listing(t.decided - t.evidence)),
               UnknownOf(Listing(t.evidence - t.claims)));
  }

  lemma ConcatNone<T>(a: seq<T>, b: seq<T>, c: seq<T>, d: seq<T>)
    ensures a + b + c + d == [] <==> a == [] && b == [] && c == [] && d == []
  {
    assert |a + b + c + d| == |a| + |b| + |c| + |d|;
  }

  /** An error-free report is a statement about the records alone, in both directions. */
  lemma VerifiedExact(codec: Codec, lines: seq<Option<Json>>)
    requires Verified(codec, lines).Ok?
    ensures var (h, report) := Verified(codec, lines).value;
      && (report.integrity == [] <==> Intact(codec, h, lines[0].value, Values(lines[1..])))
      && (report.cross == [] <==> Coherent(codec, h, Values(lines[1..])))
  {
    hide EvidenceIn, ClaimsIn, BindingIn, DecidedIn, RequiredIn, SealErrors, TextErrors, CrossOf, Add;
    var h, recs := Verified(codec, lines).value.0, Values(lines[1..]);
    var start := Start(codec, h, lines[0].value);
    var t := AddAll(codec, h, start, recs);
    AddAllCounts(codec, h, start, recs);
    AddAllNames(codec, h, start, recs);
    CloseExact(h, t);
    CrossMeans(codec, h, recs, t);
  }

  lemma CrossMeans(codec: Codec, h: Header, recs: seq<Json>, t: Tally)
    requires NamesAre(codec, recs, t)
    requires t.cross == [] <==> forall r :: r in recs ==> CrossOf(codec, h, r) == []
    ensures Close(h, t).cross == [] <==> Coherent(codec, h, recs)
  {
    hide EvidenceIn, ClaimsIn, BindingIn, DecidedIn, RequiredIn, CrossOf, Close;
    hide Proven, Claimed, Bound, Decided, Requires;
    CloseExact(h, t);
  }

  // ---------------------------------------------------------------- order

  /** Whether a bundle can be read at all depends on its header and its set of lines. */
  lemma ReadableExact(codec: Codec, lines: seq<Option<Json>>)
    ensures Verified(codec, lines).Ok? <==>
            && lines != [] && lines[0].Some? && ReadHeader(lines[0].value).Ok?
            && forall j :: 0 <= j < |lines[1..]| ==> Sound(codec, lines[1..][j])
  {
    if lines != [] { NoFault(codec, lines[1..]); }
  }

  lemma SameElements<T>(a: seq<T>, b: seq<T>)
    requires multiset(a) == multiset(b)
    ensures |a| == |b| && forall x :: x in a <==> x in b
  {
    assert |multiset(a)| == |a| && |multiset(b)| == |b|;
    forall x ensures x in a <==> x in b {
      assert x in a <==> x in multiset(a);
      assert x in b <==> x in multiset(b);
    }
  }

  lemma SameValues(a: seq<Option<Json>>, b: seq<Option<Json>>)
    requires forall x :: x in a <==> x in b
    ensures forall x :: x in Values(a) <==> x in Values(b)
  {
    forall x ensures x in Values(a) <==> x in Values(b) {
      if x in Values(a) {
        var i :| 0 <= i < |a| && Values(a)[i] == x;
        assert a[i] in b;
        var j :| 0 <= j < |b| && b[j] == a[i];
        assert Values(b)[j] == x;
      }
      if x in Values(b) {
        var i :| 0 <= i < |b| && Values(b)[i] == x;
        assert b[i] in a;
        var j :| 0 <= j < |a| && a[j] == b[i];
        assert Values(a)[j] == x;
      }
    }
  }

  lemma ElementsDecide(codec: Codec, h: Header, a: seq<Json>, b: seq<Json>)
    requires forall r :: r in a <==> r in b
    ensures forall id :: Proven(codec, a, id) <==> Proven(codec, b, id)
    ensures forall id :: Claimed(a, id) <==> Claimed(b, id)
    ensures Coherent(codec, h, a) <==> Coherent(codec, h, b)
  {
    hide EvidenceIn, ClaimsIn, BindingIn, DecidedIn, RequiredIn, CrossOf;
    forall id ensures Bound(a, id) <==> Bound(b, id) {}
    forall id ensures Decided(a, id) <==> Decided(b, id) {}
    forall q ensures Requires(a, q) <==> Requires(b, q) {}
  }

  lemma SameSet(a: set<string>, b: set<string>)
    requires forall x :: x in a <==> x in b
    ensures a == b
  {
  }

  /** The counts of covered and declared claims, from the records. */
  lemma CountsExact(codec: Codec, lines: seq<Option<Json>>, claims: set<string>, proven: set<string>)
    requires Verified(codec, lines).Ok?
    requires forall id :: id in claims <==> Claimed(Values(lines[1..]), id)
    requires forall id :: id in proven <==> Proven(codec, Values(lines[1..]), id)
    ensures var report := Verified(codec, lines).value.1;
            report.total == |claims| && report.covered == |claims * proven| && report.records == |lines| - 1
  {
    hide EvidenceIn, ClaimsIn, BindingIn, DecidedIn, RequiredIn, SealErrors, TextErrors, CrossOf, Add;
    var h, recs := Verified(codec, lines).value.0, Values(lines[1..]);
    var start := Start(codec, h, lines[0].value);
    hide Proven, Claimed, Bound, Decided, Requires;
    AddAllCounts(codec, h, start, recs);
    AddAllNames(codec, h, start, recs);
    SameSet(claims, AddAll(codec, h, start, recs).claims);
    SameSet(proven, AddAll(codec, h, start, recs).evidence);
  }

  /** Permuting the records below the header changes nothing a reader acts on. */
  lemma OrderIrrelevant(codec: Codec, lines: seq<Option<Json>>, other: seq<Option<Json>>)
    requires lines != [] && other != [] && lines[0] == other[0]
    requires multiset(lines[1..]) == multiset(other[1..])
    requires Verified(codec, lines).Ok?
    ensures Verified(codec, other).Ok?
    ensures var (h, a) := Verified(codec, lines).value;
            var (h', b) := Verified(codec, other).value;
      && h == h' && a.records == b.records && a.total == b.total && a.covered == b.covered
      && (a.integrity == [] <==> b.integrity == [])
      && (a.cross == [] <==> b.cross == [])
  {
    hide Coherent, Proven, Claimed, RecordIntact, Values, Sound;
    SameElements(lines[1..], other[1..]);
    ReadableExact(codec, lines);
    forall j | 0 <= j < |other[1..]| ensures Sound(codec, other[1..][j]) {
      assert other[1..][j] in lines[1..];
    }
    ReadableExact(codec, other);
    VerifiedExact(codec, lines);
    VerifiedExact(codec, other);
    var h := Verified(codec, lines).value.0;
    SameHeader(codec, lines, other);
    var a, b := Values(lines[1..]), Values(other[1..]);
    SameValues(lines[1..], other[1..]);
    ElementsDecide(codec, h, a, b);
    SameCounts(codec, lines, other);
  }

  lemma SameHeader(codec: Codec, lines: seq<Option<Json>>, other: seq<Option<Json>>)
    requires Verified(codec, lines).Ok? && Verified(codec, other).Ok? && lines[0] == other[0]
    ensures Verified(codec, lines).value.0 == Verified(codec, other).value.0
  {
    hide AddAll, Close, FirstFault;
  }

  lemma SameCounts(codec: Codec, lines: seq<Option<Json>>, other: seq<Option<Json>>)
    requires Verified(codec, lines).Ok? && Verified(codec, other).Ok? && |lines| == |other|
    requires forall id :: Proven(codec, Values(lines[1..]), id) <==> Proven(codec, Values(other[1..]), id)
    requires forall id :: Claimed(Values(lines[1..]), id) <==> Claimed(Values(other[1..]), id)
    ensures var a, b := Verified(codec, lines).value.1, Verified(codec, other).value.1;
            a.records == b.records && a.total == b.total && a.covered == b.covered
  {
    hide EvidenceIn, ClaimsIn, BindingIn, DecidedIn, RequiredIn, SealErrors, TextErrors, CrossOf, Add, Proven, Claimed;
    var h, recs := Verified(codec, lines).value.0, Values(lines[1..]);
    var start := Start(codec, h, lines[0].value);
    AddAllNames(codec, h, start, recs);
    var end := AddAll(codec, h, start, recs);
    CountsExact(codec, lines, end.claims, end.evidence);
    CountsExact(codec, other, end.claims, end.evidence);
  }

  // ---------------------------------------------------------------- tampering

  /** The records of a bundle in which record `i` was replaced. */
  lemma EditedRecords(codec: Codec, lines: seq<Option<Json>>, i: nat, edited: Json)
    requires 1 <= i < |lines| && lines[0].Some?
    ensures Values(lines[i := Some(edited)][1..]) == Values(lines[1..])[i - 1 := edited]
  {
    var now, was := lines[i := Some(edited)][1..], lines[1..];
    forall j | 0 <= j < |now| ensures Values(now)[j] == Values(was)[i - 1 := edited][j] {
      if j != i - 1 { assert now[j] == was[j]; }
    }
  }

  lemma EditedReadable(codec: Codec, lines: seq<Option<Json>>, i: nat, edited: Json)
    requires 1 <= i < |lines| && Verified(codec, lines).Ok?
    ensures Verified(codec, lines[i := Some(edited)]).Ok? <==> Readable(codec, edited)
  {
    hide Verified, ReadHeader, Readable;
    var other := lines[i := Some(edited)];
    ReadableExact(codec, lines);
    ReadableExact(codec, other);
    assert other[1..][i - 1] == Some(edited);
    forall j | 0 <= j < |other[1..]| && j != i - 1 ensures Sound(codec, other[1..][j]) {
      assert other[1..][j] == lines[1..][j];
    }
  }

  lemma EditedIntact(codec: Codec, h: Header, first: Json, recs: seq<Json>, i: nat, edited: Json)
    requires i < |recs| && Intact(codec, h, first, recs)
    ensures Intact(codec, h, first, recs[i := edited]) <==> RecordIntact(codec, h, edited)
  {
    hide RecordIntact;
    var now := recs[i := edited];
    assert edited == now[i];
    forall r | r in now && r != edited ensures r in recs {
      var j :| 0 <= j < |now| && now[j] == r;
      assert r == recs[j];
    }
  }

  /** Any replacement of one record of a bundle without integrity errors goes unseen exactly
      when the new record reads, carries the hash of its own body, and, as a contract or a
      registry, has the text the header speaks of. */
  lemma EditExact(codec: Codec, lines: seq<Option<Json>>, i: nat, edited: Json)
    requires 1 <= i < |lines| && Verified(codec, lines).Ok? && Verified(codec, lines).value.1.integrity == []
    ensures var other := lines[i := Some(edited)];
            Verified(codec, other).Ok? && Verified(codec, other).value.1.integrity == []
            <==> Readable(codec, edited) && RecordIntact(codec, Verified(codec, lines).value.0, edited)
  {
    hide RecordIntact, Readable, Verified, Values, Coherent, Intact;
    var other := lines[i := Some(edited)];
    ReadableExact(codec, lines);
    VerifiedExact(codec, lines);
    EditedReadable(codec, lines, i, edited);
    if Readable(codec, edited) {
      VerifiedExact(codec, other);
      SameHeader(codec, lines, other);
      EditedRecords(codec, lines, i, edited);
      assert |Values(lines[1..])| == |lines| - 1;
      EditedIntact(codec, Verified(codec, lines).value.0, lines[0].value, Values(lines[1..]), i - 1, edited);
    }
  }

  /** The number of records is outside the hash of the header. */
  ghost predicate SameSeal(first: Json, h': Header, was: Json, h: Header) {
    && ReadHeader(first) == Ok(h') && HeaderSeal(h') == HeaderSeal(h)
    && Field(first, "sha256") == Field(was, "sha256")
  }

  lemma SealedFields(h: Header, h': Header)
    requires HeaderSeal(h') == HeaderSeal(h)
    ensures h'.registryHash == h.registryHash && h'.contractHash == h.contractHash
  {
    assert HeaderSeal(h).fields["registry_hash"] == Str(h.registryHash);
    assert HeaderSeal(h').fields["registry_hash"] == Str(h'.registryHash);
    assert HeaderSeal(h).fields["contract_hash"] == Str(h.contractHash);
    assert HeaderSeal(h').fields["contract_hash"] == Str(h'.contractHash);
  }

  lemma IntactUnder(codec: Codec, h: Header, h': Header, rec: Json)
    requires h'.registryHash == h.registryHash && h'.contractHash == h.contractHash
    ensures RecordIntact(codec, h', rec) <==> RecordIntact(codec, h, rec)
  {
  }

  function Dropped(lines: seq<Option<Json>>, i: nat, first: Json): (r: seq<Option<Json>>)
    requires 1 <= i < |lines|
    ensures |r| == |lines| - 1 && r[0] == Some(first)
    ensures forall j :: 1 <= j < |r| ==> r[j] in lines[1..]
  {
    [Some(first)] + lines[1..i] + lines[i + 1..]
  }

  lemma DroppedIntact(codec: Codec, lines: seq<Option<Json>>, i: nat, first: Json, h: Header, h': Header)
    requires 1 <= i < |lines| && lines[0].Some? && SameSeal(first, h', lines[0].value, h)
    requires Intact(codec, h, lines[0].value, Values(lines[1..]))
    requires forall j :: 0 <= j < |lines[1..]| ==> Sound(codec, lines[1..][j])
    ensures Intact(codec, h', first, Values(Dropped(lines, i, first)[1..])) <==> h'.records + 1 == h.records
    ensures forall j :: 0 <= j < |Dropped(lines, i, first)[1..]| ==> Sound(codec, Dropped(lines, i, first)[1..][j])
  {
    hide RecordIntact, HeaderSeal, ReadHeader, Readable;
    var other := Dropped(lines, i, first)[1..];
    SealedFields(h, h');
    forall j | 0 <= j < |other| ensures Sound(codec, other[j]) && RecordIntact(codec, h', Values(other)[j]) {
      assert other[j] == Dropped(lines, i, first)[j + 1];
      var k :| 0 <= k < |lines[1..]| && lines[1..][k] == other[j];
      assert Values(lines[1..])[k] == Values(other)[j];
      IntactUnder(codec, h, h', Values(other)[j]);
    }
    assert |Values(lines[1..])| == |lines| - 1;
  }

  /** Dropping a record goes unseen exactly when the count in the header is lowered with it; the
      hash of the header does not change. */
  lemma DropExact(codec: Codec, lines: seq<Option<Json>>, i: nat, first: Json, h': Header)
    requires 1 <= i < |lines| && Verified(codec, lines).Ok? && Verified(codec, lines).value.1.integrity == []
    requires lines[0].Some? && SameSeal(first, h', lines[0].value, Verified(codec, lines).value.0)
    ensures var other := Dropped(lines, i, first);
      && Verified(codec, other).Ok? && Verified(codec, other).value.0 == h'
      && (Verified(codec, other).value.1.integrity == [] <==> h'.records + 1 == Verified(codec, lines).value.0.records)
  {
    var h := Verified(codec, lines).value.0;
    HeaderIs(codec, lines);
    hide Verified, Values, Coherent, Intact, Sound, Dropped;
    VerifiedExact(codec, lines);
    ReadableExact(codec, lines);
    DroppedIntact(codec, lines, i, first, h, h');
    ReadableExact(codec, Dropped(lines, i, first));
    HeaderIs(codec, Dropped(lines, i, first));
    VerifiedExact(codec, Dropped(lines, i, first));
  }

  lemma HeaderIs(codec: Codec, lines: seq<Option<Json>>)
    requires Verified(codec, lines).Ok?
    ensures lines != [] && lines[0].Some? && ReadHeader(lines[0].value) == Ok(Verified(codec, lines).value.0)
  {
  }

  lemma IntactAt(codec: Codec, lines: seq<Option<Json>>, i: nat)
    requires 1 <= i < |lines| && Verified(codec, lines).Ok? && Verified(codec, lines).value.1.integrity == []
    ensures lines[i].Some? && RecordIntact(codec, Verified(codec, lines).value.0, lines[i].value)
    ensures Readable(codec, lines[i].value)
  {
    hide RecordIntact, Readable, Verified, Values, Coherent;
    VerifiedExact(codec, lines);
    ReadableExact(codec, lines);
    assert Sound(codec, lines[1..][i - 1]);
    assert lines[i].value == Values(lines[1..])[i - 1];
  }

  /** Editing a body in transit is seen: with its hash left as it was, no other body verifies. */
  lemma EditIsSeen(codec: Codec, lines: seq<Option<Json>>, i: nat, edited: Json)
    requires forall x, y :: codec.shaJson(x) == codec.shaJson(y) ==> x == y
    requires 1 <= i < |lines| && Verified(codec, lines).Ok? && Verified(codec, lines).value.1.integrity == []
    requires lines[i].Some? && Field(edited, "sha256") == Field(lines[i].value, "sha256")
    requires Body(edited) != Body(lines[i].value)
    ensures var other := lines[i := Some(edited)];
            Verified(codec, other).Err? || Verified(codec, other).value.1.integrity != []
  {
    EditExact(codec, lines, i, edited);
    IntactAt(codec, lines, i);
    var h := Verified(codec, lines).value.0;
    hide Verified, Field, Body;
    if RecordIntact(codec, h, edited) {
      SealOf(codec, h, edited);
      SealOf(codec, h, lines[i].value);
    }
  }

  lemma SealOf(codec: Codec, h: Header, rec: Json)
    requires RecordIntact(codec, h, rec)
    ensures AsStr(Field(rec, "sha256")) == Some(codec.shaJson(Body(rec)))
  {
  }

  /** What a record must hold to pass under a kind. */
  ghost predicate FitsKind(codec: Codec, h: Header, tag: Tag, body: Json) {
    match tag
    case ContractTag => codec.shaText(TextOf(Field(body, "text"))) == h.contractHash
    case RegistryTag => codec.shaText(TextOf(Field(body, "text"))) == h.registryHash
    case EvidenceTag => codec.readProof(body).Some?
    case _ => true
  }

  /** The kind of a record is outside its hash. Relabelling one, hash and body untouched, goes
      unseen exactly when the body fits the new kind: always, for a binding, a decision or a
      kind the reader ignores; for a contract or a registry, when it holds the text the header
      speaks of; for evidence, when it reads as a proof. */
  lemma RelabelExact(codec: Codec, lines: seq<Option<Json>>, i: nat, relabelled: Json)
    requires 1 <= i < |lines| && Verified(codec, lines).Ok? && Verified(codec, lines).value.1.integrity == []
    requires lines[i].Some? && Field(relabelled, "sha256") == Field(lines[i].value, "sha256")
    requires Body(relabelled) == Body(lines[i].value)
    ensures var other := lines[i := Some(relabelled)];
            Verified(codec, other).Ok? && Verified(codec, other).value.1.integrity == []
            <==> FitsKind(codec, Verified(codec, lines).value.0, TagOf(relabelled), Body(relabelled))
  {
    hide Verified, Readable, RecordIntact, FitsKind, Body, Field;
    var h := Verified(codec, lines).value.0;
    EditExact(codec, lines, i, relabelled);
    IntactAt(codec, lines, i);
    SealOf(codec, h, lines[i].value);
    FitsExact(codec, h, relabelled);
  }

  lemma FitsExact(codec: Codec, h: Header, rec: Json)
    requires AsStr(Field(rec, "sha256")) == Some(codec.shaJson(Body(rec)))
    ensures Readable(codec, rec) && RecordIntact(codec, h, rec) <==> FitsKind(codec, h, TagOf(rec), Body(rec))
  {
    hide Field, Body, TagNamed, Kind;
  }
}
