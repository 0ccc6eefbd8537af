/** The watched subject: the traversal that finds the files a verifier is bound to, and
    their digests. */
module Watch {
  import opened Digests
  import opened Glob
  import opened Prelude
  import opened Text

  /** A workspace tree in the order its directories are read. A file's bytes, and a
      directory's listing, may be unreadable. */
  datatype Node =
    | File(name: string, bytes: Option<string>)
    | Dir(name: string, readable: bool, entries: seq<Node>)

  type Path = seq<string>

  /** A directory waiting on the worklist, and a file the traversal came across. */
  datatype Place = Place(path: Path, dir: Node)
  datatype Seen = Seen(path: Path, bytes: Option<string>)

  const SKIP_NAMED := {"target", ".git", ".uni", "evidence"}
  const SKIP_HASHED := {"target", ".git", ".uni"}

  // ---------------------------------------------------------------- the worklist

  function Size(n: Node): nat
    decreases n, 1
  {
    match n
    case File(_, _) => 1
    case Dir(_, _, entries) => 1 + SizeAll(entries)
  }

  function SizeAll(ns: seq<Node>): nat
    decreases ns, 0
  {
    if ns == [] then 0 else SizeAll(ns[..|ns| - 1]) + Size(ns[|ns| - 1])
  }

  function StackSize(stack: seq<Place>): nat {
    if stack == [] then 0 else StackSize(stack[..|stack| - 1]) + Size(stack[|stack| - 1].dir)
  }

  function Entries(d: Node): seq<Node> {
    if d.Dir? && d.readable then d.entries else []
  }

  /** The files directly in a directory, in order. */
  function FilesIn(path: Path, es: seq<Node>): seq<Seen> {
    if es == [] then [] else
      var e := es[|es| - 1];
      FilesIn(path, es[..|es| - 1]) + if e.File? then [Seen(path + [e.name], e.bytes)] else []
  }

  /** The directories it pushes, in order. */
  function PushedBy(path: Path, es: seq<Node>, skip: set<string>): seq<Place> {
    if es == [] then [] else
      var e := es[|es| - 1];
      PushedBy(path, es[..|es| - 1], skip)
      + if e.Dir? && e.name !in skip then [Place(path + [e.name], e)] else []
  }

  lemma {:induction false} StackSizeConcat(s: seq<Place>, t: seq<Place>)
    ensures StackSize(s + t) == StackSize(s) + StackSize(t)
    decreases |t|
  {
    if t == [] {
      assert s + t == s;
    } else {
      assert (s + t)[..|s + t| - 1] == s + t[..|t| - 1];
      StackSizeConcat(s, t[..|t| - 1]);
    }
  }

  lemma {:induction false} PushedSize(path: Path, es: seq<Node>, skip: set<string>)
    ensures StackSize(PushedBy(path, es, skip)) <= SizeAll(es)
    decreases |es|
  {
    if es != [] {
      PushedSize(path, es[..|es| - 1], skip);
      var e := es[|es| - 1];
      StackSizeConcat(PushedBy(path, es[..|es| - 1], skip),
                      if e.Dir? && e.name !in skip then [Place(path + [e.name], e)] else []);
      assert StackSize([]) == 0;
      assert [Place(path + [e.name], e)][..0] == [];
    }
  }

  /** Taking a directory off the stack and pushing what it holds makes the stack smaller. */
  lemma PopShrinks(stack: seq<Place>, skip: set<string>)
    requires stack != []
    ensures StackSize(Popped(stack, skip)) < StackSize(stack)
  {
    var top := stack[|stack| - 1];
    PushedSize(top.path, Entries(top.dir), skip);
    StackSizeConcat(stack[..|stack| - 1], PushedBy(top.path, Entries(top.dir), skip));
  }

  function Popped(stack: seq<Place>, skip: set<string>): seq<Place>
    requires stack != []
  {
    var top := stack[|stack| - 1];
    stack[..|stack| - 1] + PushedBy(top.path, Entries(top.dir), skip)
  }

  /** Every file the worklist visits, in visiting order. */
  function Walk(stack: seq<Place>, skip: set<string>): seq<Seen>
    decreases StackSize(stack)
  {
    if stack == [] then [] else
      var top := stack[|stack| - 1];
      PopShrinks(stack, skip);
      FilesIn(top.path, Entries(top.dir)) + Walk(Popped(stack, skip), skip)
  }

  function Visited(root: Node, skip: set<string>): seq<Seen> {
    Walk([Place([], root)], skip)
  }

  function Rel(path: Path): string {
    Join(path, '/')
  }

  function Matched(seen: seq<Seen>, globs: seq<string>): seq<Seen> {
    if seen == [] then [] else
      var s := seen[|seen| - 1];
      Matched(seen[..|seen| - 1], globs) + if MatchesAny(Rel(s.path), globs) then [s] else []
  }

  // ---------------------------------------------------------------- what a traversal must find

  /** The tree holds a file at this path, below readable directories none of which is skipped. */
  ghost predicate FileAt(d: Node, path: Path, bytes: Option<string>, skip: set<string>)
    decreases |path|
  {
    path != [] && exists e :: (e in Entries(d) && e.name == path[0] &&
      if |path| == 1 then e == File(e.name, bytes)
      else e.Dir? && e.name !in skip && FileAt(e, path[1..], bytes, skip))
  }

  ghost predicate Under(p: Place, s: Seen, skip: set<string>) {
    p.path <= s.path && FileAt(p.dir, s.path[|p.path|..], s.bytes, skip)
  }

  lemma {:induction false} FilesInExact(path: Path, es: seq<Node>, s: Seen)
    ensures s in FilesIn(path, es) <==> exists e :: e in es && e.File? && s == Seen(path + [e.name], e.bytes)
    decreases |es|
  {
    if es != [] {
      FilesInExact(path, es[..|es| - 1], s);
      assert es == es[..|es| - 1] + [es[|es| - 1]];
    }
  }

  lemma {:induction false} PushedByExact(path: Path, es: seq<Node>, skip: set<string>, p: Place)
    ensures p in PushedBy(path, es, skip)
       <==> exists e :: e in es && e.Dir? && e.name !in skip && p == Place(path + [e.name], e)
    decreases |es|
  {
    if es != [] {
      PushedByExact(path, es[..|es| - 1], skip, p);
      assert es == es[..|es| - 1] + [es[|es| - 1]];
    }
  }

  /** A file lies under a directory when it is directly in it or under one it pushes. */
  lemma UnderStep(p: Place, s: Seen, skip: set<string>)
    ensures Under(p, s, skip) <==>
              s in FilesIn(p.path, Entries(p.dir))
              || exists c :: c in PushedBy(p.path, Entries(p.dir), skip) && Under(c, s, skip)
  {
    FilesInExact(p.path, Entries(p.dir), s);
    if Under(p, s, skip) {
      var rest := s.path[|p.path|..];
      var e :| e in Entries(p.dir) && e.name == rest[0] &&
        if |rest| == 1 then e == File(e.name, s.bytes)
        else e.Dir? && e.name !in skip && FileAt(e, rest[1..], s.bytes, skip);
      assert s.path == p.path + rest;
      if |rest| == 1 {
        assert s == Seen(p.path + [e.name], e.bytes);
      } else {
        var c := Place(p.path + [e.name], e);
        PushedByExact(p.path, Entries(p.dir), skip, c);
        assert s.path[|c.path|..] == rest[1..];
        assert Under(c, s, skip);
      }
    }
    if s in FilesIn(p.path, Entries(p.dir)) {
      assert s.path[|p.path|..] == [s.path[|p.path|]];
    }
    forall c | c in PushedBy(p.path, Entries(p.dir), skip) && Under(c, s, skip)
      ensures Under(p, s, skip)
    {
      PushedByExact(p.path, Entries(p.dir), skip, c);
      assert s.path[|c.path|..] == s.path[|p.path|..][1..];
      assert s.path[|p.path|] == c.path[|p.path|];
    }
  }

  ghost predicate SomeUnder(stack: seq<Place>, s: Seen, skip: set<string>) {
    exists p :: p in stack && Under(p, s, skip)
  }

  lemma SomeUnderConcat(a: seq<Place>, b: seq<Place>, s: Seen, skip: set<string>)
    ensures SomeUnder(a + b, s, skip) <==> SomeUnder(a, s, skip) || SomeUnder(b, s, skip)
  {
    hide Under;
  }

  lemma SomeUnderOne(p: Place, s: Seen, skip: set<string>)
    ensures SomeUnder([p], s, skip) <==> Under(p, s, skip)
  {
    hide Under;
    assert p in [p];
  }

  /** The worklist visits exactly the files under its directories. */
  lemma {:induction false} WalkExact(stack: seq<Place>, skip: set<string>, s: Seen)
    ensures s in Walk(stack, skip) <==> exists p :: p in stack && Under(p, s, skip)
    decreases StackSize(stack)
  {
    hide SomeUnder, Under, FilesIn, PushedBy;
    SomeUnderIs(stack, s, skip);
    if stack != [] {
      var top, init := stack[|stack| - 1], stack[..|stack| - 1];
      PopShrinks(stack, skip);
      WalkExact(Popped(stack, skip), skip, s);
      UnderTop(top, s, skip);
      SomeUnderConcat(init, PushedBy(top.path, Entries(top.dir), skip), s, skip);
      SomeUnderConcat(init, [top], s, skip);
      SomeUnderOne(top, s, skip);
      assert stack == init + [top];
      SomeUnderIs(Popped(stack, skip), s, skip);
    }
  }

  lemma SomeUnderIs(stack: seq<Place>, s: Seen, skip: set<string>)
    ensures SomeUnder(stack, s, skip) <==> exists p :: p in stack && Under(p, s, skip)
  {
  }

  lemma UnderTop(top: Place, s: Seen, skip: set<string>)
    ensures Under(top, s, skip) <==>
              s in FilesIn(top.path, Entries(top.dir)) || SomeUnder(PushedBy(top.path, Entries(top.dir), skip), s, skip)
  {
    UnderStep(top, s, skip);
  }

  lemma VisitedExact(root: Node, skip: set<string>, s: Seen)
    ensures s in Visited(root, skip) <==> FileAt(root, s.path, s.bytes, skip)
  {
    WalkExact([Place([], root)], skip, s);
    assert s.path[0..] == s.path;
    if FileAt(root, s.path, s.bytes, skip) { assert Under(Place([], root), s, skip); }
  }

  lemma {:induction false} MatchedExact(seen: seq<Seen>, globs: seq<string>, s: Seen)
    ensures s in Matched(seen, globs) <==> s in seen && MatchesAny(Rel(s.path), globs)
    decreases |seen|
  {
    if seen != [] {
      MatchedExact(seen[..|seen| - 1], globs, s);
      assert seen == seen[..|seen| - 1] + [seen[|seen| - 1]];
    }
  }

  // ---------------------------------------------------------------- once each

  /** Names are as a filesystem has them: '/'-free and unique in their directory. */
  ghost predicate WellNamed(n: Node) {
    n.Dir? ==>
      && (forall i :: 0 <= i < |n.entries| ==> '/' !in n.entries[i].name)
      && (forall i, j :: 0 <= i < j < |n.entries| ==> n.entries[i].name != n.entries[j].name)
      && (forall i :: 0 <= i < |n.entries| ==> WellNamed(n.entries[i]))
  }

  /** Every directory can be listed. */
  ghost predicate Listable(n: Node) {
    n.Dir? ==> n.readable && forall i :: 0 <= i < |n.entries| ==> Listable(n.entries[i])
  }

  /** What a workspace holds: names as a filesystem has them, directories that can be listed. */
  type Tree = n: Node | WellNamed(n) && Listable(n) witness Dir(".", true, [])

  /** Neither path leads into the other. */
  ghost predicate Apart(a: Path, b: Path) {
    !(a <= b) && !(b <= a)
  }

  ghost predicate PlacesApart(stack: seq<Place>) {
    && (forall i, j :: 0 <= i < j < |stack| ==> Apart(stack[i].path, stack[j].path))
    && (forall i :: 0 <= i < |stack| ==> WellNamed(stack[i].dir))
  }

  ghost predicate NoRepeats(seen: seq<Seen>) {
    forall i, j :: 0 <= i < j < |seen| ==> seen[i].path != seen[j].path
  }

  lemma {:induction false} FilesInOnce(path: Path, es: seq<Node>)
    requires forall i, j :: 0 <= i < j < |es| ==> es[i].name != es[j].name
    ensures NoRepeats(FilesIn(path, es))
    decreases |es|
  {
    if es != [] {
      var init, e := es[..|es| - 1], es[|es| - 1];
      FilesInOnce(path, init);
      forall i | 0 <= i < |FilesIn(path, init)|
        ensures FilesIn(path, init)[i].path != path + [e.name]
      {
        var f := FilesIn(path, init)[i];
        FilesInExact(path, init, f);
        var e' :| e' in init && f.path == path + [e'.name];
        assert f.path[|path|] == e'.name && (path + [e.name])[|path|] == e.name;
      }
    }
  }

  lemma {:induction false} PushedApart(path: Path, es: seq<Node>, skip: set<string>)
    requires forall i, j :: 0 <= i < j < |es| ==> es[i].name != es[j].name
    requires forall i :: 0 <= i < |es| ==> WellNamed(es[i])
    ensures PlacesApart(PushedBy(path, es, skip))
    decreases |es|
  {
    if es != [] {
      var init, e := es[..|es| - 1], es[|es| - 1];
      PushedApart(path, init, skip);
      var ps := PushedBy(path, init, skip);
      forall i | 0 <= i < |ps|
        ensures Apart(ps[i].path, path + [e.name])
      {
        PushedByExact(path, init, skip, ps[i]);
        assert ps[i].path[|path|] != (path + [e.name])[|path|];
      }
    }
  }

  lemma PoppedApart(stack: seq<Place>, skip: set<string>)
    requires stack != [] && PlacesApart(stack)
    ensures PlacesApart(Popped(stack, skip))
  {
    var top := stack[|stack| - 1];
    var ps := PushedBy(top.path, Entries(top.dir), skip);
    PushedApart(top.path, Entries(top.dir), skip);
    forall i, j | 0 <= i < |stack| - 1 && 0 <= j < |ps|
      ensures Apart(stack[i].path, ps[j].path)
    {
      PushedByExact(top.path, Entries(top.dir), skip, ps[j]);
      assert Apart(stack[i].path, top.path);
      ApartExtends(stack[i].path, top.path, ps[j].path);
    }
  }

  lemma ApartExtends(a: Path, b: Path, c: Path)
    requires Apart(a, b) && b <= c
    ensures Apart(a, c)
  {
  }

  /** No path is visited twice. */
  lemma {:induction false} WalkOnce(stack: seq<Place>, skip: set<string>)
    requires PlacesApart(stack)
    ensures NoRepeats(Walk(stack, skip))
    decreases StackSize(stack)
  {
    if stack != [] {
      var top := stack[|stack| - 1];
      var rest := Popped(stack, skip);
      PopShrinks(stack, skip);
      PoppedApart(stack, skip);
      WalkOnce(rest, skip);
      FilesInOnce(top.path, Entries(top.dir));
      var here, later := FilesIn(top.path, Entries(top.dir)), Walk(rest, skip);
      forall i, j | 0 <= i < |here| && 0 <= j < |later|
        ensures here[i].path != later[j].path
      {
        NotBelow(stack, skip, here[i], later[j]);
      }
    }
  }

  lemma NotBelow(stack: seq<Place>, skip: set<string>, here: Seen, later: Seen)
    requires stack != [] && PlacesApart(stack)
    requires here in FilesIn(stack[|stack| - 1].path, Entries(stack[|stack| - 1].dir))
    requires later in Walk(Popped(stack, skip), skip)
    ensures here.path != later.path
  {
    var top := stack[|stack| - 1];
    FilesInExact(top.path, Entries(top.dir), here);
    WalkExact(Popped(stack, skip), skip, later);
    var p :| p in Popped(stack, skip) && Under(p, later, skip);
    if p in PushedBy(top.path, Entries(top.dir), skip) {
      PushedByExact(top.path, Entries(top.dir), skip, p);
      assert later.path[|p.path|..] != [];
      assert |later.path| > |here.path|;
    } else {
      assert p in stack[..|stack| - 1];
      if here.path == later.path {
        assert top.path <= here.path;
        ApartExtends(p.path, top.path, here.path);
        assert false;
      }
    }
  }

  lemma VisitedOnce(root: Node, skip: set<string>)
    requires WellNamed(root)
    ensures NoRepeats(Visited(root, skip))
  {
    WalkOnce([Place([], root)], skip);
  }

  lemma {:induction false} MatchedOnce(seen: seq<Seen>, globs: seq<string>)
    requires NoRepeats(seen)
    ensures NoRepeats(Matched(seen, globs))
    decreases |seen|
  {
    if seen != [] {
      var init := seen[..|seen| - 1];
      MatchedOnce(init, globs);
      forall i | 0 <= i < |Matched(init, globs)|
        ensures Matched(init, globs)[i].path != seen[|seen| - 1].path
      {
        MatchedExact(init, globs, Matched(init, globs)[i]);
        var k :| 0 <= k < |init| && init[k] == Matched(init, globs)[i];
      }
    }
  }

  // ---------------------------------------------------------------- the two digests

  function Insert(m: map<string, Digest>, seen: seq<Seen>): map<string, Digest> {
    if seen == [] then m else
      var s := seen[|seen| - 1];
      var m' := Insert(m, seen[..|seen| - 1]);
      match s.bytes
      case Some(b) => m'[Rel(s.path) := OfText(b)]
      case None => m'
  }

  /** The digest of every readable watched file, by workspace-relative path. */
  function FileHashes(globs: seq<string>, root: Node): map<string, Digest> {
    Insert(map[], Matched(Visited(root, SKIP_NAMED), globs))
  }

  function Listed(seen: seq<Seen>): seq<(string, Option<Digest>)> {
    seq(|seen|, i requires 0 <= i < |seen| => (Rel(seen[i].path), DigestOf(seen[i].bytes)))
  }

  function DigestOf(bytes: Option<string>): Option<Digest> {
    match bytes
    case Some(b) => Some(OfText(b))
    case None => None
  }

  /** The digest that binds a proof to its watched subject: everything matched, in the
      order it was met. None when nothing is declared or nothing matches. */
  function SubjectHash(globs: seq<string>, root: Node): Option<Digest> {
    var matched := Matched(Visited(root, SKIP_HASHED), globs);
    if globs == [] || matched == [] then None else Some(OfMatches(Listed(matched)))
  }

  lemma {:induction false} MatchedConcat(s: seq<Seen>, t: seq<Seen>, globs: seq<string>)
    ensures Matched(s + t, globs) == Matched(s, globs) + Matched(t, globs)
    decreases |t|
  {
    if t == [] {
      assert s + t == s;
    } else {
      assert (s + t)[..|s + t| - 1] == s + t[..|t| - 1];
      MatchedConcat(s, t[..|t| - 1], globs);
    }
  }

  lemma {:induction false} InsertConcat(m: map<string, Digest>, s: seq<Seen>, t: seq<Seen>)
    ensures Insert(m, s + t) == Insert(Insert(m, s), t)
    decreases |t|
  {
    if t == [] {
      assert s + t == s;
    } else {
      assert (s + t)[..|s + t| - 1] == s + t[..|t| - 1];
      InsertConcat(m, s, t[..|t| - 1]);
    }
  }

  method ArtifactHashes(globs: seq<string>, root: Node) returns (out: map<string, Digest>)
    ensures out == FileHashes(globs, root)
  {
    out := map[];
    if globs == [] {
      NoGlobs(Visited(root, SKIP_NAMED));
      return;
    }
    var stack := [Place([], root)];
    while stack != []
      invariant Insert(out, Matched(Walk(stack, SKIP_NAMED), globs)) == FileHashes(globs, root)
      decreases StackSize(stack)
    {
      WalkStep(stack, SKIP_NAMED, globs);
      var top := stack[|stack| - 1];
      InsertConcat(out, Matched(FilesIn(top.path, Entries(top.dir)), globs),
                   Matched(Walk(Popped(stack, SKIP_NAMED), SKIP_NAMED), globs));
      var pushed;
      out, pushed := HashEntries(globs, top, out);
      stack := stack[..|stack| - 1] + pushed;
    }
  }

  /** One directory of `artifact_hashes`: hash its files, push its directories. */
  method HashEntries(globs: seq<string>, top: Place, sofar: map<string, Digest>)
    returns (out: map<string, Digest>, pushed: seq<Place>)
    ensures pushed == PushedBy(top.path, Entries(top.dir), SKIP_NAMED)
    ensures out == Insert(sofar, Matched(FilesIn(top.path, Entries(top.dir)), globs))
  {
    out, pushed := sofar, [];
    var es := Entries(top.dir);
    for i := 0 to |es|
      invariant pushed == PushedBy(top.path, es[..i], SKIP_NAMED)
      invariant out == Insert(sofar, Matched(FilesIn(top.path, es[..i]), globs))
    {
      var e := es[i];
      var path := top.path + [e.name];
      EntryStep(top.path, es, i, SKIP_NAMED);
      if e.Dir? {
        if e.name !in SKIP_NAMED {
          pushed := pushed + [Place(path, e)];
        }
      } else {
        MatchedPush(FilesIn(top.path, es[..i]), Seen(path, e.bytes), globs);
        if MatchesAny(Rel(path), globs) {
          InsertPush(sofar, Matched(FilesIn(top.path, es[..i]), globs), Seen(path, e.bytes));
          if e.bytes.Some? { out := out[Rel(path) := OfText(e.bytes.value)]; }
        }
      }
    }
    assert es[..|es|] == es;
  }

  /** What one directory entry adds to the files and to the directories pushed. */
  lemma EntryStep(path: Path, es: seq<Node>, i: nat, skip: set<string>)
    requires i < |es|
    ensures FilesIn(path, es[..i + 1]) ==
            if es[i].File? then FilesIn(path, es[..i]) + [Seen(path + [es[i].name], es[i].bytes)]
            else FilesIn(path, es[..i])
    ensures PushedBy(path, es[..i + 1], skip) ==
            if es[i].Dir? && es[i].name !in skip
            then PushedBy(path, es[..i], skip) + [Place(path + [es[i].name], es[i])]
            else PushedBy(path, es[..i], skip)
  {
    assert es[..i + 1][..i] == es[..i];
    assert FilesIn(path, es[..i]) + [] == FilesIn(path, es[..i]);
    assert PushedBy(path, es[..i], skip) + [] == PushedBy(path, es[..i], skip);
  }

  lemma MatchedPush(seen: seq<Seen>, s: Seen, globs: seq<string>)
    ensures Matched(seen + [s], globs) ==
            if MatchesAny(Rel(s.path), globs) then Matched(seen, globs) + [s] else Matched(seen, globs)
  {
    assert (seen + [s])[..|seen|] == seen;
    assert Matched(seen, globs) + [] == Matched(seen, globs);
  }

  lemma InsertPush(m: map<string, Digest>, seen: seq<Seen>, s: Seen)
    ensures Insert(m, seen + [s]) ==
            match s.bytes
            case Some(b) => Insert(m, seen)[Rel(s.path) := OfText(b)]
            case None => Insert(m, seen)
  {
    assert (seen + [s])[..|seen|] == seen;
  }

  lemma {:induction false} NoGlobs(seen: seq<Seen>)
    ensures Matched(seen, []) == []
  {
    if seen != [] { NoGlobs(seen[..|seen| - 1]); }
  }

  method ArtifactHash(globs: seq<string>, root: Node) returns (h: Option<Digest>)
    ensures h == SubjectHash(globs, root)
  {
    if globs == [] { return None; }
    var matched := CollectMatches(globs, [Place([], root)]);
    if matched == [] { return None; }
    return Some(OfMatches(Listed(matched)));
  }

  method CollectMatches(globs: seq<string>, start: seq<Place>) returns (matched: seq<Seen>)
    ensures matched == Matched(Walk(start, SKIP_HASHED), globs)
  {
    matched := [];
    var stack := start;
    ghost var rest := Matched(Walk(start, SKIP_HASHED), globs);
    ghost var all := rest;
    while stack != []
      invariant rest == Matched(Walk(stack, SKIP_HASHED), globs)
      invariant all == matched + rest
      decreases StackSize(stack)
    {
      WalkStep(stack, SKIP_HASHED, globs);
      var found, pushed := MatchEntries(globs, stack[|stack| - 1]);
      rest := Matched(Walk(Popped(stack, SKIP_HASHED), SKIP_HASHED), globs);
      Regroup(matched, found, rest);
      matched, stack := matched + found, stack[..|stack| - 1] + pushed;
    }
  }

  lemma Regroup(a: seq<Seen>, b: seq<Seen>, c: seq<Seen>)
    ensures a + (b + c) == (a + b) + c
  {
  }

  lemma WalkStep(stack: seq<Place>, skip: set<string>, globs: seq<string>)
    requires stack != []
    ensures StackSize(Popped(stack, skip)) < StackSize(stack)
    ensures Matched(Walk(stack, skip), globs)
         == Matched(FilesIn(stack[|stack| - 1].path, Entries(stack[|stack| - 1].dir)), globs)
          + Matched(Walk(Popped(stack, skip), skip), globs)
  {
    PopShrinks(stack, skip);
    var top := stack[|stack| - 1];
    MatchedConcat(FilesIn(top.path, Entries(top.dir)), Walk(Popped(stack, skip), skip), globs);
  }

  /** One directory of `artifact_hash`: collect its matches, push its directories. */
  method MatchEntries(globs: seq<string>, top: Place)
    returns (matched: seq<Seen>, pushed: seq<Place>)
    ensures pushed == PushedBy(top.path, Entries(top.dir), SKIP_HASHED)
    ensures matched == Matched(FilesIn(top.path, Entries(top.dir)), globs)
  {
    matched, pushed := [], [];
    var es := Entries(top.dir);
    for i := 0 to |es|
      invariant pushed == PushedBy(top.path, es[..i], SKIP_HASHED)
      invariant matched == Matched(FilesIn(top.path, es[..i]), globs)
    {
      var e := es[i];
      var path := top.path + [e.name];
      EntryStep(top.path, es, i, SKIP_HASHED);
      if e.Dir? {
        if e.name !in SKIP_HASHED {
          pushed := pushed + [Place(path, e)];
        }
      } else {
        MatchedPush(FilesIn(top.path, es[..i]), Seen(path, e.bytes), globs);
        if MatchesAny(Rel(path), globs) {
          matched := matched + [Seen(path, e.bytes)];
        }
      }
    }
    assert es[..|es|] == es;
  }

  // ---------------------------------------------------------------- what they hold

  lemma {:induction false} CleanPath(d: Node, path: Path, bytes: Option<string>, skip: set<string>)
    requires WellNamed(d) && FileAt(d, path, bytes, skip)
    ensures forall i :: 0 <= i < |path| ==> '/' !in path[i]
    decreases |path|
  {
    var e :| (e in Entries(d) && e.name == path[0] &&
      if |path| == 1 then e == File(e.name, bytes)
      else e.Dir? && e.name !in skip && FileAt(e, path[1..], bytes, skip));
    if |path| > 1 { CleanPath(e, path[1..], bytes, skip); }
  }

  /** Two files of a well-named tree never share a relative path. */
  lemma RelInjective(p: Path, q: Path)
    requires p != [] && q != []
    requires forall i :: 0 <= i < |p| ==> '/' !in p[i]
    requires forall i :: 0 <= i < |q| ==> '/' !in q[i]
    ensures Rel(p) == Rel(q) <==> p == q
  {
    SplitJoin(p, '/');
    SplitJoin(q, '/');
  }

  ghost predicate RelsDiffer(seen: seq<Seen>) {
    forall i, j :: 0 <= i < j < |seen| ==> Rel(seen[i].path) != Rel(seen[j].path)
  }

  ghost predicate HasEntry(m: map<string, Digest>, s: Seen) {
    s.bytes.Some? ==> Rel(s.path) in m && m[Rel(s.path)] == OfText(s.bytes.value)
  }

  ghost predicate ComesFrom(seen: seq<Seen>, rel: string) {
    exists s :: s in seen && s.bytes.Some? && Rel(s.path) == rel
  }

  /** What inserting one more file does to entries made before. */
  lemma InsertLast(before: map<string, Digest>, s: Seen, last: Seen)
    requires HasEntry(before, s) && Rel(s.path) != Rel(last.path)
    ensures HasEntry(if last.bytes.Some? then before[Rel(last.path) := OfText(last.bytes.value)] else before, s)
  {
  }

  lemma StillFrom(init: seq<Seen>, last: Seen, rel: string)
    requires ComesFrom(init, rel) || (last.bytes.Some? && Rel(last.path) == rel)
    ensures ComesFrom(init + [last], rel)
  {
    if ComesFrom(init, rel) {
      var s :| s in init && s.bytes.Some? && Rel(s.path) == rel;
      assert s in init + [last];
    } else {
      assert last in init + [last];
    }
  }

  lemma {:induction false} InsertExact(seen: seq<Seen>)
    requires RelsDiffer(seen)
    ensures forall rel :: rel in Insert(map[], seen) ==> ComesFrom(seen, rel)
    ensures forall s :: s in seen ==> HasEntry(Insert(map[], seen), s)
    decreases |seen|
  {
    if seen != [] {
      hide HasEntry, ComesFrom, Rel;
      var init, last := seen[..|seen| - 1], seen[|seen| - 1];
      InsertExact(init);
      assert seen == init + [last];
      var before, after := Insert(map[], init), Insert(map[], seen);
      forall i | 0 <= i < |seen| ensures HasEntry(after, seen[i]) {
        if i < |init| {
          InsertLast(before, init[i], last);
        } else {
          LastEntry(before, last);
        }
      }
      forall rel | rel in after ensures ComesFrom(seen, rel) {
        StillFrom(init, last, rel);
      }
    }
  }

  lemma LastEntry(before: map<string, Digest>, last: Seen)
    ensures HasEntry(if last.bytes.Some? then before[Rel(last.path) := OfText(last.bytes.value)] else before, last)
  {
  }

  /** The matched files of a traversal: exactly the tree's matching files outside the
      skipped directories, each once. */
  lemma MatchedFiles(globs: seq<string>, root: Node, skip: set<string>)
    requires WellNamed(root)
    ensures forall s :: s in Matched(Visited(root, skip), globs)
                   <==> FileAt(root, s.path, s.bytes, skip) && MatchesAny(Rel(s.path), globs)
    ensures RelsDiffer(Matched(Visited(root, skip), globs))
  {
    var ms := Matched(Visited(root, skip), globs);
    forall s
      ensures s in ms <==> FileAt(root, s.path, s.bytes, skip) && MatchesAny(Rel(s.path), globs)
    {
      MatchedExact(Visited(root, skip), globs, s);
      VisitedExact(root, skip, s);
    }
    VisitedOnce(root, skip);
    MatchedOnce(Visited(root, skip), globs);
    forall i, j | 0 <= i < j < |ms|
      ensures Rel(ms[i].path) != Rel(ms[j].path)
    {
      assert ms[i] in ms && ms[j] in ms;
      CleanPath(root, ms[i].path, ms[i].bytes, skip);
      CleanPath(root, ms[j].path, ms[j].bytes, skip);
      RelInjective(ms[i].path, ms[j].path);
    }
  }

  /** The tree has this content at this relative path, where `artifact_hashes` looks. */
  ghost predicate Watches(globs: seq<string>, root: Node, path: Path, content: string) {
    FileAt(root, path, Some(content), SKIP_NAMED) && MatchesAny(Rel(path), globs)
  }

  /** `artifact_hashes`: an entry for exactly the readable files that match some pattern and
      lie below no skipped directory, each with the digest of its content. */
  lemma FileHashesExact(globs: seq<string>, root: Node)
    requires WellNamed(root)
    ensures forall rel :: rel in FileHashes(globs, root) ==>
              exists path, b :: Watches(globs, root, path, b) && Rel(path) == rel
    ensures forall path, b :: Watches(globs, root, path, b) ==>
              Rel(path) in FileHashes(globs, root) && FileHashes(globs, root)[Rel(path)] == OfText(b)
  {
    MatchedFiles(globs, root, SKIP_NAMED);
    var ms := Matched(Visited(root, SKIP_NAMED), globs);
    InsertExact(ms);
    forall rel | rel in FileHashes(globs, root)
      ensures exists path, b :: Watches(globs, root, path, b) && Rel(path) == rel
    {
      assert ComesFrom(ms, rel);
      var s :| s in ms && s.bytes.Some? && Rel(s.path) == rel;
      assert Watches(globs, root, s.path, s.bytes.value);
    }
    forall path, b | Watches(globs, root, path, b)
      ensures Rel(path) in FileHashes(globs, root) && FileHashes(globs, root)[Rel(path)] == OfText(b)
    {
      assert Seen(path, Some(b)) in ms && HasEntry(FileHashes(globs, root), Seen(path, Some(b)));
    }
  }

  /** `artifact_hash`: absent exactly when no file outside the skipped directories matches. */
  lemma SubjectHashPresent(globs: seq<string>, root: Node)
    requires WellNamed(root)
    ensures SubjectHash(globs, root).Some? <==>
              exists path: Path, bytes :: FileAt(root, path, bytes, SKIP_HASHED) && MatchesAny(Rel(path), globs)
  {
    MatchedFiles(globs, root, SKIP_HASHED);
    var ms := Matched(Visited(root, SKIP_HASHED), globs);
    if ms != [] {
      assert ms[0] in ms;
      assert FileAt(root, ms[0].path, ms[0].bytes, SKIP_HASHED);
    }
    forall path: Path, bytes | FileAt(root, path, bytes, SKIP_HASHED) && MatchesAny(Rel(path), globs)
      ensures ms != [] && globs != []
    {
      assert Seen(path, bytes) in ms;
    }
  }
}
