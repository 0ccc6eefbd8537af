/** The subject digest and the per-file digests agree on whether the watched content moved,
    so a drifted proof can always name its files. */
module SubjectDrift {
  import opened Digests
  import opened EvidenceStore
  import opened Glob
  import opened Ordered
  import opened Prelude
  import opened Watch

  // ---------------------------------------------------------------- what a subject must be

  /** The directories a path leads through. */
  function Dirs(path: Path): Path {
    if path == [] then [] else path[..|path| - 1]
  }

  /** Where `artifact_hash` looks and `artifact_hashes` does not. */
  ghost predicate BelowEvidence(path: Path) {
    "evidence" in Dirs(path)
  }

  /** No watched file of the tree lies below an `evidence` directory. */
  ghost predicate NoneHidden(root: Node, globs: seq<string>) {
    forall path: Path, bytes :: FileAt(root, path, bytes, SKIP_HASHED) && MatchesAny(Rel(path), globs) ==>
      !BelowEvidence(path)
  }

  ghost predicate WatchedReadable(root: Node, globs: seq<string>) {
    forall s :: s in Matched(Visited(root, SKIP_HASHED), globs) ==> s.bytes.Some?
  }

  function Subject(root: Node, globs: seq<string>): seq<Seen> {
    Matched(Visited(root, SKIP_HASHED), globs)
  }

  /** The two trees list the same watched paths in the same order. */
  ghost predicate SamePaths(m: seq<Seen>, n: seq<Seen>) {
    |m| == |n| && forall i :: 0 <= i < |m| ==> m[i].path == n[i].path
  }

  ghost predicate InPaths(seen: seq<Seen>, p: Path) {
    exists i :: 0 <= i < |seen| && seen[i].path == p
  }

  /** The order of enumeration is a function of the set of watched paths. */
  ghost predicate SameOrder(was: Node, cur: Node, globs: seq<string>) {
    (forall p: Path :: InPaths(Subject(was, globs), p) <==> InPaths(Subject(cur, globs), p))
    ==> SamePaths(Subject(was, globs), Subject(cur, globs))
  }

  lemma {:induction false} SkipsBelow(d: Node, path: Path, bytes: Option<string>, skip: set<string>)
    ensures FileAt(d, path, bytes, skip) <==>
              FileAt(d, path, bytes, {}) && forall name :: name in Dirs(path) ==> name !in skip
    decreases |path|
  {
    if |path| > 1 {
      assert Dirs(path) == [path[0]] + Dirs(path[1..]);
      forall e | e in Entries(d)
        ensures FileAt(e, path[1..], bytes, skip) <==>
                FileAt(e, path[1..], bytes, {}) && forall name :: name in Dirs(path[1..]) ==> name !in skip
      {
        SkipsBelow(e, path[1..], bytes, skip);
      }
    }
  }

  /** What the traversals never enter: the build directory, the repository's own and the tool's own;
      the per-file one leaves out the evidence as well. Everything else is entered. */
  lemma SkippedNames(root: Node, path: Path, bytes: Option<string>)
    ensures Seen(path, bytes) in Visited(root, SKIP_HASHED) <==>
              FileAt(root, path, bytes, {})
              && "target" !in Dirs(path) && ".git" !in Dirs(path) && ".uni" !in Dirs(path)
    ensures Seen(path, bytes) in Visited(root, SKIP_NAMED) <==>
              FileAt(root, path, bytes, {})
              && "target" !in Dirs(path) && ".git" !in Dirs(path) && ".uni" !in Dirs(path)
              && "evidence" !in Dirs(path)
  {
    hide FileAt;
    SkipsBelow(root, path, bytes, SKIP_HASHED);
    SkipsBelow(root, path, bytes, SKIP_NAMED);
    VisitedExact(root, SKIP_HASHED, Seen(path, bytes));
    VisitedExact(root, SKIP_NAMED, Seen(path, bytes));
  }

  /** The two skip lists differ by `evidence` alone. */
  lemma {:induction false} SkipsAgree(d: Node, path: Path, bytes: Option<string>)
    ensures FileAt(d, path, bytes, SKIP_NAMED) <==> FileAt(d, path, bytes, SKIP_HASHED) && !BelowEvidence(path)
    decreases |path|
  {
    if |path| > 1 {
      assert Dirs(path) == [path[0]] + Dirs(path[1..]);
      forall e | e in Entries(d)
        ensures FileAt(e, path[1..], bytes, SKIP_NAMED) <==>
                FileAt(e, path[1..], bytes, SKIP_HASHED) && !BelowEvidence(path[1..])
      {
        SkipsAgree(e, path[1..], bytes);
      }
    }
  }

  /** A file the traversal of `artifact_hash` meets, with what it knows of it. */
  ghost predicate Holds(m: map<string, Digest>, s: Seen) {
    && s.path != [] && (forall k :: 0 <= k < |s.path| ==> '/' !in s.path[k])
    && (s.bytes.Some? <==> Rel(s.path) in m)
    && (s.bytes.Some? ==> m[Rel(s.path)] == OfText(s.bytes.value))
  }

  ghost predicate Lists(seen: seq<Seen>, rel: string) {
    exists i :: 0 <= i < |seen| && Rel(seen[i].path) == rel
  }

  ghost predicate HoldsExactly(m: map<string, Digest>, seen: seq<Seen>) {
    && (forall i :: 0 <= i < |seen| ==> Holds(m, seen[i]))
    && (forall rel :: rel in m ==> Lists(seen, rel))
  }

  /** The per-file map holds exactly the readable files the subject digest was taken over. */
  lemma SameFiles(globs: seq<string>, root: Node)
    requires WellNamed(root) && NoneHidden(root, globs)
    ensures HoldsExactly(FileHashes(globs, root), Subject(root, globs))
  {
    var ms, m := Subject(root, globs), FileHashes(globs, root);
    MatchedFiles(globs, root, SKIP_HASHED);
    FileHashesExact(globs, root);
    forall i | 0 <= i < |ms| ensures Holds(m, ms[i]) {
      assert ms[i] in ms;
      SeenHolds(globs, root, ms[i]);
    }
    forall rel | rel in m ensures Lists(ms, rel) {
      var path, b :| Watches(globs, root, path, b) && Rel(path) == rel;
      SkipsAgree(root, path, Some(b));
      assert Seen(path, Some(b)) in ms;
    }
  }

  lemma SeenHolds(globs: seq<string>, root: Node, s: Seen)
    requires WellNamed(root) && NoneHidden(root, globs)
    requires FileAt(root, s.path, s.bytes, SKIP_HASHED) && MatchesAny(Rel(s.path), globs)
    ensures Holds(FileHashes(globs, root), s)
  {
    hide FileAt, FileHashes, WellNamed;
    FileHashesExact(globs, root);
    PathNotEmpty(root, s.path, s.bytes, SKIP_HASHED);
    CleanPath(root, s.path, s.bytes, SKIP_HASHED);
    SkipsAgree(root, s.path, s.bytes);
    if s.bytes.Some? {
      assert Watches(globs, root, s.path, s.bytes.value);
    } else if Rel(s.path) in FileHashes(globs, root) {
      var path, b :| Watches(globs, root, path, b) && Rel(path) == Rel(s.path);
      PathNotEmpty(root, path, Some(b), SKIP_NAMED);
      CleanPath(root, path, Some(b), SKIP_NAMED);
      RelInjective(path, s.path);
      SkipsAgree(root, path, Some(b));
      OneContent(root, path, Some(b), s.bytes, SKIP_HASHED);
    }
  }

  lemma PathNotEmpty(d: Node, path: Path, bytes: Option<string>, skip: set<string>)
    requires FileAt(d, path, bytes, skip)
    ensures path != []
  {
  }

  /** A well-named tree has one file at a path. */
  lemma {:induction false} OneContent(d: Node, path: Path, a: Option<string>, b: Option<string>, skip: set<string>)
    requires WellNamed(d) && FileAt(d, path, a, skip) && FileAt(d, path, b, skip)
    ensures a == b
    decreases |path|
  {
    var e := EntryAt(d, path, a, skip);
    var f := EntryAt(d, path, b, skip);
    if |path| > 1 { OneContent(e, path[1..], a, b, skip); }
  }

  /** The one entry a path goes through. */
  lemma EntryAt(d: Node, path: Path, bytes: Option<string>, skip: set<string>) returns (e: Node)
    requires WellNamed(d) && FileAt(d, path, bytes, skip)
    ensures WellNamed(e) && e in Entries(d) && e.name == path[0]
    ensures forall f :: f in Entries(d) && f.name == path[0] ==> f == e
    ensures if |path| == 1 then e == File(e.name, bytes) else e.Dir? && FileAt(e, path[1..], bytes, skip)
  {
    e :| (e in Entries(d) && e.name == path[0] &&
      if |path| == 1 then e == File(e.name, bytes)
      else e.Dir? && e.name !in skip && FileAt(e, path[1..], bytes, skip));
  }

  lemma ListedDetermines(m: map<string, Digest>, n: map<string, Digest>, ms: seq<Seen>, ns: seq<Seen>)
    requires HoldsExactly(m, ms) && HoldsExactly(n, ns) && Listed(ms) == Listed(ns)
    ensures m == n && SamePaths(ms, ns)
  {
    assert |ms| == |Listed(ms)| == |ns|;
    forall i | 0 <= i < |ms|
      ensures ms[i].path == ns[i].path && ms[i].bytes == ns[i].bytes
    {
      assert Listed(ms)[i] == Listed(ns)[i];
      assert Holds(m, ms[i]) && Holds(n, ns[i]);
      RelInjective(ms[i].path, ns[i].path);
    }
    assert ms == ns;
    SameMaps(m, n, ms);
  }

  lemma SameMaps(m: map<string, Digest>, n: map<string, Digest>, ms: seq<Seen>)
    requires HoldsExactly(m, ms) && HoldsExactly(n, ms)
    ensures m == n
  {
    forall rel ensures rel in m <==> rel in n {
      if rel in m { var i :| 0 <= i < |ms| && Rel(ms[i].path) == rel; assert Holds(n, ms[i]) && Holds(m, ms[i]); }
      if rel in n { var i :| 0 <= i < |ms| && Rel(ms[i].path) == rel; assert Holds(n, ms[i]) && Holds(m, ms[i]); }
    }
    forall rel | rel in m ensures m[rel] == n[rel] {
      assert Lists(ms, rel);
      var i :| 0 <= i < |ms| && Rel(ms[i].path) == rel;
      assert Holds(n, ms[i]) && Holds(m, ms[i]);
    }
  }

  lemma MapDetermines(m: map<string, Digest>, ms: seq<Seen>, ns: seq<Seen>)
    requires HoldsExactly(m, ms) && HoldsExactly(m, ns)
    ensures forall p: Path :: InPaths(ms, p) && Rel(p) in m ==> InPaths(ns, p)
  {
    forall p: Path | InPaths(ms, p) && Rel(p) in m ensures InPaths(ns, p) {
      var i :| 0 <= i < |ms| && ms[i].path == p;
      assert Holds(m, ms[i]) && Lists(ns, Rel(p));
      var j :| 0 <= j < |ns| && Rel(ns[j].path) == Rel(p);
      assert Holds(m, ns[j]);
      RelInjective(ns[j].path, p);
    }
  }

  lemma SamePathsSameFiles(m: map<string, Digest>, ms: seq<Seen>, ns: seq<Seen>)
    requires HoldsExactly(m, ms) && HoldsExactly(m, ns)
    requires SamePaths(ms, ns)
    ensures ms == ns
  {
    forall i | 0 <= i < |ms| ensures ms[i] == ns[i] {
      assert Holds(m, ms[i]) && Holds(m, ns[i]);
    }
  }

  lemma HashIsListing(globs: seq<string>, was: Node, cur: Node)
    ensures SubjectHash(globs, was) == SubjectHash(globs, cur) <==>
            Listed(Subject(was, globs)) == Listed(Subject(cur, globs))
  {
    if globs == [] { NoGlobs(Visited(was, SKIP_HASHED)); NoGlobs(Visited(cur, SKIP_HASHED)); }
    var ms, ns := Subject(was, globs), Subject(cur, globs);
    assert |Listed(ms)| == |ms| && |Listed(ns)| == |ns|;
  }

  /** The subject digest stands still exactly when every per-file digest does and the watched
      paths are met in the same order; whatever the order, and whatever is readable. */
  lemma DigestsExact(globs: seq<string>, was: Node, cur: Node)
    requires WellNamed(was) && WellNamed(cur) && NoneHidden(was, globs) && NoneHidden(cur, globs)
    ensures SubjectHash(globs, was) == SubjectHash(globs, cur) <==>
            && FileHashes(globs, was) == FileHashes(globs, cur)
            && SamePaths(Subject(was, globs), Subject(cur, globs))
  {
    hide FileHashes, SubjectHash, Subject, WellNamed, NoneHidden;
    var m, n := FileHashes(globs, was), FileHashes(globs, cur);
    var ms, ns := Subject(was, globs), Subject(cur, globs);
    SameFiles(globs, was);
    SameFiles(globs, cur);
    HashIsListing(globs, was, cur);
    if Listed(ms) == Listed(ns) {
      ListedDetermines(m, n, ms, ns);
    }
    if m == n && SamePaths(ms, ns) {
      SamePathsSameFiles(m, ms, ns);
    }
  }

  ghost predicate Plain(root: Node, globs: seq<string>) {
    WellNamed(root) && NoneHidden(root, globs) && WatchedReadable(root, globs)
  }

  /** With readable files and one order of enumeration, the watched content has the same digest
      exactly when every watched file has. */
  lemma DigestsAgree(globs: seq<string>, was: Node, cur: Node)
    requires Plain(was, globs) && Plain(cur, globs) && SameOrder(was, cur, globs)
    ensures SubjectHash(globs, was) == SubjectHash(globs, cur) <==> FileHashes(globs, was) == FileHashes(globs, cur)
  {
    DigestsExact(globs, was, cur);
    if FileHashes(globs, was) == FileHashes(globs, cur) {
      var m, ms, ns := FileHashes(globs, was), Subject(was, globs), Subject(cur, globs);
      SameFiles(globs, was);
      SameFiles(globs, cur);
      MapDetermines(m, ms, ns);
      MapDetermines(m, ns, ms);
      AllInMap(m, ms);
      AllInMap(m, ns);
    }
  }

  lemma AllInMap(m: map<string, Digest>, ms: seq<Seen>)
    requires HoldsExactly(m, ms) && forall s :: s in ms ==> s.bytes.Some?
    ensures forall p: Path :: InPaths(ms, p) ==> Rel(p) in m
  {
    forall p: Path | InPaths(ms, p) ensures Rel(p) in m {
      var i :| 0 <= i < |ms| && ms[i].path == p;
      assert Holds(m, ms[i]) && ms[i] in ms;
    }
  }

  /** A proof bound to the tree `was` and held against the tree `cur`. */
  ghost predicate BoundTo(ev: Evidence, ctx: Context, globs: seq<string>, was: Node, cur: Node) {
    && ev.artifactHash == SubjectHash(globs, was).GetOr(Empty)
    && ev.artifactFiles == FileHashes(globs, was)
    && ctx.artifactHash == SubjectHash(globs, cur)
    && ctx.artifactFiles == FileHashes(globs, cur)
  }

  /** Named drift is complete: a bound proof reports SubjectChanged exactly when some watched
      file differs, and then the three sorted, disjoint lists together name exactly the
      paths whose content differs, at least one of them. */
  lemma DriftIsNamed(ev: Evidence, ctx: Context, globs: seq<string>, was: Node, cur: Node)
    requires BoundTo(ev, ctx, globs, was, cur) && ev.artifactHash != Empty
    requires Plain(was, globs) && Plain(cur, globs) && SameOrder(was, cur, globs)
    ensures SubjectMoved(ev, ctx) <==> FileHashes(globs, was) != FileHashes(globs, cur)
    ensures SubjectMoved(ev, ctx) ==>
      var d := NamedDrift(ev.artifactFiles, ctx.artifactFiles);
      && d.changed + d.added + d.removed != []
      && Increasing(d.changed) && Increasing(d.added) && Increasing(d.removed)
      && (forall p :: p in d.changed ==> p !in d.added && p !in d.removed)
      && (forall p :: p in d.added ==> p !in d.removed)
      && (forall p :: p in d.changed + d.added + d.removed <==>
            (p in FileHashes(globs, was) || p in FileHashes(globs, cur))
            && !(p in FileHashes(globs, was) && p in FileHashes(globs, cur)
                 && FileHashes(globs, was)[p] == FileHashes(globs, cur)[p]))
  {
    DigestsAgree(globs, was, cur);
    NamedDriftExact(ev.artifactFiles, ctx.artifactFiles);
  }

  // ---------------------------------------------------------------- what the hypotheses exclude

  const TOP := "."

  /** Some pattern reaches a path below an `evidence` directory that `artifact_hash` enters. */
  ghost predicate Reaches(globs: seq<string>) {
    exists path: Path :: Exposed(globs, path)
  }

  ghost predicate Exposed(globs: seq<string>, path: Path) {
    && BelowEvidence(path) && (forall i :: 0 <= i < |path| ==> '/' !in path[i])
    && (forall d :: d in SKIP_HASHED ==> d !in Dirs(path))
    && MatchesAny(Rel(path), globs)
  }

  lemma {:induction false} NoSkippedDirs(d: Node, path: Path, bytes: Option<string>, skip: set<string>)
    requires FileAt(d, path, bytes, skip)
    ensures forall s :: s in skip ==> s !in Dirs(path)
    decreases |path|
  {
    if |path| > 1 {
      var e :| (e in Entries(d) && e.name == path[0] && e.Dir? && e.name !in skip && FileAt(e, path[1..], bytes, skip));
      NoSkippedDirs(e, path[1..], bytes, skip);
      assert Dirs(path) == [path[0]] + Dirs(path[1..]);
    }
  }

  /** Patterns that do not reach there hide nothing in any tree. */
  lemma UnreachedHidesNothing(globs: seq<string>, root: Node)
    requires WellNamed(root) && !Reaches(globs)
    ensures NoneHidden(root, globs)
  {
    forall path: Path, bytes | FileAt(root, path, bytes, SKIP_HASHED) && MatchesAny(Rel(path), globs)
      ensures !BelowEvidence(path)
    {
      CleanPath(root, path, bytes, SKIP_HASHED);
      NoSkippedDirs(root, path, bytes, SKIP_HASHED);
      assert !Exposed(globs, path);
    }
  }

  /** A tree with one file, at this path. */
  function Chain(name: string, path: Path, content: string): Node
    decreases |path|
  {
    if path == [] then File(name, Some(content)) else Dir(name, true, [Chain(path[0], path[1..], content)])
  }

  lemma {:induction false} ChainWellNamed(name: string, path: Path, content: string)
    requires forall i :: 0 <= i < |path| ==> '/' !in path[i]
    ensures WellNamed(Chain(name, path, content))
    decreases |path|
  {
    if path != [] {
      ChainWellNamed(path[0], path[1..], content);
    }
  }

  lemma {:induction false} ChainHolds(name: string, path: Path, content: string,
                                      p: Path, bytes: Option<string>, skip: set<string>)
    requires path != []
    ensures FileAt(Chain(name, path, content), p, bytes, skip) <==>
              p == path && bytes == Some(content) && forall s :: s in skip ==> s !in Dirs(path)
    decreases |path|
  {
    var d, e := Chain(name, path, content), Chain(path[0], path[1..], content);
    assert Entries(d) == [e] && e in Entries(d) && e.name == path[0];
    if |path| == 1 {
      assert path == [path[0]] && Dirs(path) == [];
      assert p != [] ==> p == [p[0]] + p[1..];
    } else {
      assert Dirs(path) == [path[0]] + Dirs(path[1..]);
      assert path == [path[0]] + path[1..];
      if p != [] {
        assert p == [p[0]] + p[1..];
        ChainHolds(path[0], path[1..], content, p[1..], bytes, skip);
      }
    }
  }

  /** The one file is the whole subject, and no file has a digest of its own. */
  lemma ChainHashes(globs: seq<string>, path: Path, content: string)
    requires Exposed(globs, path)
    ensures WellNamed(Chain(TOP, path, content))
    ensures Subject(Chain(TOP, path, content), globs) == [Seen(path, Some(content))]
    ensures FileHashes(globs, Chain(TOP, path, content)) == map[]
  {
    var root, s := Chain(TOP, path, content), Seen(path, Some(content));
    var ms := Subject(root, globs);
    ChainWellNamed(TOP, path, content);
    MatchedFiles(globs, root, SKIP_HASHED);
    FileHashesExact(globs, root);
    ChainHolds(TOP, path, content, path, Some(content), SKIP_HASHED);
    forall t | t in ms ensures t == s {
      ChainHolds(TOP, path, content, t.path, t.bytes, SKIP_HASHED);
    }
    assert s in ms;
    OnlyElement(ms, s);
    forall p: Path, b ensures !Watches(globs, root, p, b) {
      ChainHolds(TOP, path, content, p, Some(b), SKIP_NAMED);
    }
  }

  lemma TwoDiffer(ms: seq<Seen>)
    requires RelsDiffer(ms) && |ms| > 1
    ensures exists a, b :: a in ms && b in ms && a != b
  {
    assert Rel(ms[0].path) != Rel(ms[1].path);
    assert ms[0] in ms && ms[1] in ms;
  }

  lemma OnlyElement(ms: seq<Seen>, s: Seen)
    requires RelsDiffer(ms) && s in ms && forall t :: t in ms ==> t == s
    ensures ms == [s]
  {
    if |ms| > 1 {
      TwoDiffer(ms);
      assert false;
    }
  }

  /** Wherever a pattern reaches below an `evidence` directory, content there moves the subject
      digest and is named nowhere. */
  lemma EvidenceDirUnnamed(globs: seq<string>, path: Path, content: string, other: string)
    requires Exposed(globs, path) && content != other
    ensures var was, cur := Chain(TOP, path, content), Chain(TOP, path, other);
      && WellNamed(was) && WellNamed(cur) && WatchedReadable(was, globs) && WatchedReadable(cur, globs)
      && SamePaths(Subject(was, globs), Subject(cur, globs))
      && SubjectHash(globs, was) != SubjectHash(globs, cur)
      && FileHashes(globs, was) == FileHashes(globs, cur)
  {
    hide Chain, WellNamed, FileHashes, SubjectHash, Exposed, Listed;
    ChainHashes(globs, path, content);
    ChainHashes(globs, path, other);
    HashIsListing(globs, Chain(TOP, path, content), Chain(TOP, path, other));
    HeadsDiffer([Seen(path, Some(content))], [Seen(path, Some(other))]);
  }

  /** The two digests agree over every pair of well-named, readable trees enumerated in the same
      order. */
  ghost predicate AlwaysNamed(globs: seq<string>) {
    forall was, cur :: Comparable(globs, was, cur) ==>
      (SubjectHash(globs, was) == SubjectHash(globs, cur) <==> FileHashes(globs, was) == FileHashes(globs, cur))
  }

  ghost predicate Comparable(globs: seq<string>, was: Node, cur: Node) {
    && WellNamed(was) && WellNamed(cur) && WatchedReadable(was, globs) && WatchedReadable(cur, globs)
    && SameOrder(was, cur, globs)
  }

  /** Which patterns always name what moved: exactly those that reach no file below an
      `evidence` directory. */
  lemma AlwaysNamedExact(globs: seq<string>)
    ensures AlwaysNamed(globs) <==> !Reaches(globs)
  {
    hide WellNamed, SubjectHash, FileHashes, Exposed, WatchedReadable, SameOrder;
    if Reaches(globs) {
      var path: Path :| Exposed(globs, path);
      EvidenceDirUnnamed(globs, path, "0", "1");
      OrderOf(Chain(TOP, path, "0"), Chain(TOP, path, "1"), globs);
      assert Comparable(globs, Chain(TOP, path, "0"), Chain(TOP, path, "1"));
    } else {
      forall was, cur | Comparable(globs, was, cur)
        ensures SubjectHash(globs, was) == SubjectHash(globs, cur) <==> FileHashes(globs, was) == FileHashes(globs, cur)
      {
        UnreachedHidesNothing(globs, was);
        UnreachedHidesNothing(globs, cur);
        DigestsAgree(globs, was, cur);
      }
    }
  }

  lemma OrderOf(was: Node, cur: Node, globs: seq<string>)
    requires SamePaths(Subject(was, globs), Subject(cur, globs))
    ensures SameOrder(was, cur, globs)
  {
  }

  lemma HeadsDiffer(s: seq<Seen>, t: seq<Seen>)
    requires s != [] && t != []
    requires Rel(s[0].path) != Rel(t[0].path) || DigestOf(s[0].bytes) != DigestOf(t[0].bytes)
    ensures Listed(s) != Listed(t)
  {
    assert Listed(s)[0] != Listed(t)[0];
  }

  lemma OneMatched(s: Seen)
    ensures Matched([s], ["**"]) == [s]
  {
    StarsMatch(Rel(s.path));
    MatchedPush([], s, ["**"]);
    assert [] + [s] == [s];
  }

  lemma OneEntry(path: Path, e: Node, skip: set<string>)
    ensures FilesIn(path, [e]) == if e.File? then [Seen(path + [e.name], e.bytes)] else []
    ensures PushedBy(path, [e], skip) == if e.Dir? && e.name !in skip then [Place(path + [e.name], e)] else []
  {
    EntryStep(path, [e], 0, skip);
    assert [e][..1] == [e] && [e][..0] == [];
  }

  lemma OneStep(p: Place, skip: set<string>)
    ensures Walk([p], skip) == FilesIn(p.path, Entries(p.dir)) + Walk(PushedBy(p.path, Entries(p.dir), skip), skip)
  {
    assert Popped([p], skip) == PushedBy(p.path, Entries(p.dir), skip);
  }

  lemma StarsMatch(rel: string)
    ensures MatchesAny(rel, ["**"])
  {
    var r := Text.Split(rel, '/');
    Text.SplitPiece("**", [], '/');
    assert r[|r|..] == [];
    assert ["**"][1..] == [];
    assert MatchesGlob(rel, ["**"][0]);
  }

  function Pair(a: string, b: string): Node {
    Dir(TOP, true, [File(a, Some("1")), File(b, Some("1"))])
  }

  /** The same files met in another order move the subject digest and are named nowhere. */
  lemma ReorderedUnnamed(a: string, b: string)
    requires a != b && '/' !in a && '/' !in b
    ensures WellNamed(Pair(a, b))
    ensures SubjectHash(["**"], Pair(a, b)) != SubjectHash(["**"], Pair(b, a))
    ensures FileHashes(["**"], Pair(a, b)) == FileHashes(["**"], Pair(b, a))
  {
    PairHashes(a, b);
    PairHashes(b, a);
    HeadsDiffer([Seen([a], Some("1")), Seen([b], Some("1"))], [Seen([b], Some("1")), Seen([a], Some("1"))]);
    MapOrder(a, b);
    PairWellNamed(a, b);
  }

  lemma PairWellNamed(a: string, b: string)
    requires a != b && '/' !in a && '/' !in b
    ensures WellNamed(Pair(a, b))
  {
  }

  lemma MapOrder(a: string, b: string)
    ensures map[a := OfText("1"), b := OfText("1")] == map[b := OfText("1"), a := OfText("1")]
  {
  }

  lemma PairHashes(a: string, b: string)
    ensures SubjectHash(["**"], Pair(a, b))
         == Some(OfMatches(Listed([Seen([a], Some("1")), Seen([b], Some("1"))])))
    ensures FileHashes(["**"], Pair(a, b)) == map[a := OfText("1"), b := OfText("1")]
  {
    PairVisited(File(a, Some("1")), File(b, Some("1")), SKIP_HASHED);
    PairVisited(File(a, Some("1")), File(b, Some("1")), SKIP_NAMED);
    PairMatched(Seen([a], Some("1")), Seen([b], Some("1")));
  }

  lemma PairMatched(x: Seen, y: Seen)
    requires x.bytes == y.bytes == Some("1")
    ensures Matched([x, y], ["**"]) == [x, y]
    ensures Insert(map[], [x, y]) == map[Rel(x.path) := OfText("1"), Rel(y.path) := OfText("1")]
  {
    OneMatched(x);
    StarsMatch(Rel(y.path));
    MatchedPush([x], y, ["**"]);
    assert [x] + [y] == [x, y] && [] + [x] == [x];
    InsertPush(map[], [], x);
    InsertPush(map[], [x], y);
  }

  lemma PairVisited(f: Node, g: Node, skip: set<string>)
    requires f.File? && g.File?
    ensures Visited(Dir(TOP, true, [f, g]), skip) == [Seen([f.name], f.bytes), Seen([g.name], g.bytes)]
  {
    var t := Dir(TOP, true, [f, g]);
    OneEntry([], f, skip);
    EntryStep([], [f, g], 1, skip);
    OneStep(Place([], t), skip);
    assert [f, g][..1] == [f] && [f, g][..2] == [f, g];
    assert [] + [f.name] == [f.name] && [] + [g.name] == [g.name];
  }
}
