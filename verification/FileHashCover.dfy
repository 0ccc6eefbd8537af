/** Which `file-hash` checks the cache can stand in for: those whose expected files are all watched. */
module FileHashCover {
  import opened Glob
  import opened Prelude
  import opened Reuse
  import opened ReuseLimits
  import opened SubjectDrift
  import opened Text
  import opened Verifier
  import opened VerifyRun
  import opened Watch

  // ---------------------------------------------------------------- paths as text

  lemma JoinFirst(x: char, r: seq<string>, c: char)
    requires r != []
    ensures Join([[x] + r[0]] + r[1..], c) == [x] + Join(r, c)
  {
    var t := [[x] + r[0]] + r[1..];
    if |r| > 1 {
      assert t[1..] == r[1..];
      assert [x] + (r[0] + [c] + Join(r[1..], c)) == ([x] + r[0]) + [c] + Join(r[1..], c);
    }
  }

  lemma JoinEmpty(r: seq<string>, c: char)
    requires r != []
    ensures Join([[]] + r, c) == [c] + Join(r, c)
  {
    assert ([[]] + r)[1..] == r;
  }

  lemma {:induction false} JoinSplit(s: string, c: char)
    ensures Join(Split(s, c), c) == s
  {
    if s != [] {
      JoinSplit(s[1..], c);
      var r := Split(s[1..], c);
      assert s == [s[0]] + s[1..];
      if s[0] == c { JoinEmpty(r, c); } else { JoinFirst(s[0], r, c); }
    }
  }

  lemma {:induction false} SplitClean(s: string, c: char)
    ensures forall i :: 0 <= i < |Split(s, c)| ==> c !in Split(s, c)[i]
  {
    if s != [] { SplitClean(s[1..], c); }
  }

  function PathOf(rel: string): Path {
    Split(rel, '/')
  }

  /** An expected file that `artifact_hash` is bound to. */
  ghost predicate Watched(spec: VerifierSpec, rel: string) {
    MatchesAny(rel, spec.files) && forall d :: d in SKIP_HASHED ==> d !in Dirs(PathOf(rel))
  }

  // ---------------------------------------------------------------- one file rewritten

  /** The tree with this content wherever it has a file at this path. */
  function Rewritten(d: Node, path: Path, content: string): Node
    decreases |path|, 1
  {
    if path == [] || d.File? then d else Dir(d.name, d.readable, RewrittenAll(d.entries, path, content))
  }

  function RewrittenAll(es: seq<Node>, path: Path, content: string): seq<Node>
    requires path != []
    decreases |path|, 0
  {
    seq(|es|, i requires 0 <= i < |es| => RewrittenEntry(es[i], path, content))
  }

  function RewrittenEntry(e: Node, path: Path, content: string): (r: Node)
    requires path != []
    ensures r.name == e.name && r.Dir? == e.Dir?
    decreases |path| - 1, 2
  {
    if e.name != path[0] then e
    else if |path| == 1 then (if e.File? then File(e.name, Some(content)) else e)
    else Rewritten(e, path[1..], content)
  }

  lemma {:induction false} ChildRewritten(es: seq<Node>, path: Path, content: string)
    requires path != []
    ensures Child(RewrittenAll(es, path, content), path[0]) ==
            match Child(es, path[0])
            case None => None
            case Some(e) => Some(RewrittenEntry(e, path, content))
  {
    if es != [] {
      ChildRewritten(es[1..], path, content);
      assert RewrittenAll(es, path, content)[1..] == RewrittenAll(es[1..], path, content);
    }
  }

  lemma {:induction false} ChildNamed(es: seq<Node>, name: string)
    ensures Child(es, name).Some? ==> Child(es, name).value.name == name
  {
    if es != [] { ChildNamed(es[1..], name); }
  }

  lemma {:induction false} ReadRewritten(d: Node, path: Path, content: string)
    requires ReadAt(d, path).Some?
    ensures ReadAt(Rewritten(d, path, content), path) == Some(content)
    decreases |path|
  {
    ChildRewritten(d.entries, path, content);
    assert Rewritten(d, path, content) == Dir(d.name, d.readable, RewrittenAll(d.entries, path, content));
    var e := Child(d.entries, path[0]).value;
    ChildNamed(d.entries, path[0]);
    if |path| > 1 { ReadRewritten(e, path[1..], content); }
  }

  // ---------------------------------------------------------------- the traversal does not notice

  /** The same files in the same order, the one at `target` apart. */
  ghost predicate Twins(s: seq<Seen>, t: seq<Seen>, target: Path) {
    |s| == |t| && forall i :: 0 <= i < |s| ==> s[i].path == t[i].path && (s[i].path != target ==> s[i] == t[i])
  }

  ghost predicate LeadsTo(path: Path, target: Path) {
    path <= target && |path| < |target|
  }

  /** A directory and its rewriting, as far as the path leads through it. */
  ghost predicate Aligned(p: Place, q: Place, target: Path, content: string) {
    && q.path == p.path
    && q.dir == if LeadsTo(p.path, target) then Rewritten(p.dir, target[|p.path|..], content) else p.dir
  }

  ghost predicate AllAligned(s: seq<Place>, t: seq<Place>, target: Path, content: string) {
    |s| == |t| && forall i :: 0 <= i < |s| ==> Aligned(s[i], t[i], target, content)
  }

  lemma {:induction false} FilesTwins(path: Path, es: seq<Node>, target: Path, content: string)
    requires LeadsTo(path, target)
    ensures Twins(FilesIn(path, es), FilesIn(path, RewrittenAll(es, target[|path|..], content)), target)
    decreases |es|
  {
    if es != [] {
      var rest, init, e := target[|path|..], es[..|es| - 1], es[|es| - 1];
      FilesTwins(path, init, target, content);
      assert RewrittenAll(es, rest, content)[..|es| - 1] == RewrittenAll(init, rest, content);
      assert RewrittenAll(es, rest, content)[|es| - 1] == RewrittenEntry(e, rest, content);
      if e.File? && e.name == rest[0] && |rest| == 1 {
        assert target == path + [e.name];
      }
    }
  }

  lemma {:induction false} PushedAligned(path: Path, es: seq<Node>, skip: set<string>, target: Path, content: string)
    requires LeadsTo(path, target)
    ensures AllAligned(PushedBy(path, es, skip), PushedBy(path, RewrittenAll(es, target[|path|..], content), skip),
                       target, content)
    decreases |es|
  {
    if es != [] {
      var rest, init, e := target[|path|..], es[..|es| - 1], es[|es| - 1];
      PushedAligned(path, init, skip, target, content);
      assert RewrittenAll(es, rest, content)[..|es| - 1] == RewrittenAll(init, rest, content);
      assert RewrittenAll(es, rest, content)[|es| - 1] == RewrittenEntry(e, rest, content);
      if e.Dir? { EntryAligned(path, e, target, content); }
    }
  }

  lemma EntryAligned(path: Path, e: Node, target: Path, content: string)
    requires LeadsTo(path, target) && e.Dir?
    ensures Aligned(Place(path + [e.name], e), Place(path + [e.name], RewrittenEntry(e, target[|path|..], content)),
                    target, content)
  {
    NextLeads(path, e.name, target);
  }

  lemma NextLeads(path: Path, name: string, target: Path)
    requires LeadsTo(path, target)
    ensures LeadsTo(path + [name], target) <==> name == target[|path|] && |target| > |path| + 1
    ensures LeadsTo(path + [name], target) ==> target[|path + [name]|..] == target[|path|..][1..]
  {
    if name == target[|path|] {
      assert path + [name] == target[..|path| + 1];
    } else {
      assert (path + [name])[|path|] != target[|path|];
    }
  }

  /** One step of the traversal on both sides. */
  lemma StepAligned(s: seq<Place>, t: seq<Place>, skip: set<string>, target: Path, content: string)
    requires AllAligned(s, t, target, content) && s != []
    ensures var p, q := s[|s| - 1], t[|t| - 1];
      && Twins(FilesIn(p.path, Entries(p.dir)), FilesIn(q.path, Entries(q.dir)), target)
      && AllAligned(Popped(s, skip), Popped(t, skip), target, content)
  {
    var p, q := s[|s| - 1], t[|t| - 1];
    assert Aligned(p, q, target, content);
    if LeadsTo(p.path, target) && p.dir.Dir? {
      EntriesRewritten(p.dir, target[|p.path|..], content);
      FilesTwins(p.path, Entries(p.dir), target, content);
      PushedAligned(p.path, Entries(p.dir), skip, target, content);
    } else if p.dir.Dir? {
      SameAligned(p.path, Entries(p.dir), skip, target, content);
    }
  }

  lemma EntriesRewritten(d: Node, path: Path, content: string)
    requires d.Dir? && path != []
    ensures Entries(Rewritten(d, path, content)) == RewrittenAll(Entries(d), path, content)
  {
  }

  lemma NoWayBack(path: Path, next: Path, target: Path)
    requires path <= next && !LeadsTo(path, target)
    ensures !LeadsTo(next, target)
  {
  }

  /** Below a directory off the path nothing is rewritten. */
  lemma SameAligned(path: Path, es: seq<Node>, skip: set<string>, target: Path, content: string)
    requires !LeadsTo(path, target)
    ensures AllAligned(PushedBy(path, es, skip), PushedBy(path, es, skip), target, content)
  {
    var ps := PushedBy(path, es, skip);
    forall i | 0 <= i < |ps| ensures Aligned(ps[i], ps[i], target, content) {
      PushedByExact(path, es, skip, ps[i]);
      NoWayBack(path, ps[i].path, target);
    }
  }

  lemma TwinsConcat(a: seq<Seen>, b: seq<Seen>, c: seq<Seen>, d: seq<Seen>, target: Path)
    requires Twins(a, b, target) && Twins(c, d, target)
    ensures Twins(a + c, b + d, target)
  {
  }

  lemma {:induction false} WalkTwins(s: seq<Place>, t: seq<Place>, skip: set<string>, target: Path, content: string)
    requires AllAligned(s, t, target, content)
    ensures Twins(Walk(s, skip), Walk(t, skip), target)
    decreases StackSize(s)
  {
    if s != [] {
      hide Twins, Aligned, FilesIn, Entries, Popped, StackSize;
      var p, q := s[|s| - 1], t[|t| - 1];
      PopShrinks(s, skip);
      StepAligned(s, t, skip, target, content);
      WalkTwins(Popped(s, skip), Popped(t, skip), skip, target, content);
      TwinsConcat(FilesIn(p.path, Entries(p.dir)), FilesIn(q.path, Entries(q.dir)),
                  Walk(Popped(s, skip), skip), Walk(Popped(t, skip), skip), target);
    }
  }

  lemma {:induction false} MatchedTwins(s: seq<Seen>, t: seq<Seen>, globs: seq<string>, target: Path)
    requires Twins(s, t, target)
    requires forall i :: 0 <= i < |s| && s[i].path == target ==> !MatchesAny(Rel(target), globs)
    ensures Matched(s, globs) == Matched(t, globs)
    decreases |s|
  {
    if s != [] {
      MatchedTwins(s[..|s| - 1], t[..|t| - 1], globs, target);
      assert s[|s| - 1].path == t[|t| - 1].path;
    }
  }

  /** Rewriting an unwatched file leaves the subject as it was. */
  lemma UnwatchedUnseen(spec: VerifierSpec, root: Node, rel: string, content: string)
    requires !Watched(spec, rel)
    ensures SubjectHash(spec.files, Rewritten(root, PathOf(rel), content)) == SubjectHash(spec.files, root)
  {
    var target := PathOf(rel);
    var cur := Rewritten(root, target, content);
    JoinSplit(rel, '/');
    assert target[0..] == target;
    assert Aligned(Place([], root), Place([], cur), target, content);
    WalkTwins([Place([], root)], [Place([], cur)], SKIP_HASHED, target, content);
    var s := Visited(root, SKIP_HASHED);
    forall i | 0 <= i < |s| && s[i].path == target ensures !MatchesAny(Rel(target), spec.files) {
      assert s[i] in s;
      VisitedExact(root, SKIP_HASHED, s[i]);
      NoSkippedDirs(root, s[i].path, s[i].bytes, SKIP_HASHED);
    }
    MatchedTwins(s, Visited(cur, SKIP_HASHED), spec.files, target);
  }

  // ---------------------------------------------------------------- the workspace rewritten

  lemma {:induction false} RewrittenWellNamed(d: Node, path: Path, content: string)
    requires WellNamed(d) && Listable(d)
    ensures WellNamed(Rewritten(d, path, content)) && Listable(Rewritten(d, path, content))
    decreases |path|, 1
  {
    if path != [] && d.Dir? {
      var es := RewrittenAll(d.entries, path, content);
      forall i | 0 <= i < |es| ensures WellNamed(es[i]) && Listable(es[i]) && es[i].name == d.entries[i].name {
        EntryWellNamed(d.entries[i], path, content);
      }
      assert Rewritten(d, path, content) == Dir(d.name, d.readable, es);
    }
  }

  lemma {:induction false} EntryWellNamed(e: Node, path: Path, content: string)
    requires WellNamed(e) && Listable(e) && path != []
    ensures WellNamed(RewrittenEntry(e, path, content)) && Listable(RewrittenEntry(e, path, content))
    decreases |path| - 1, 2
  {
    if e.name == path[0] && |path| > 1 { RewrittenWellNamed(e, path[1..], content); }
  }

  /** Content other than what is there. */
  function Other(root: Node, rel: string): string {
    ReadAt(root, PathOf(rel)).GetOr("") + "x"
  }

  /** The workspace with other content in one file. */
  ghost function Edited(a: Workspace, rel: string): Workspace {
    RewrittenWellNamed(a.root, PathOf(rel), Other(a.root, rel));
    Workspace(a.commit, a.dirty, Rewritten(a.root, PathOf(rel), Other(a.root, rel)))
  }

  /** A `file-hash` check that passes somewhere, over some file it does not watch, is not covered:
      rewriting that file goes unnoticed. Whatever the patterns and the expectations. */
  lemma UnwatchedFileHash(shell: Shell, spec: VerifierSpec, rel: string, a: Workspace, platform: Platform, now: int)
    requires spec.kind == "file-hash" && rel in spec.expectSha256 && !Watched(spec, rel)
    requires Proves(shell, spec, a, platform, now)
    ensures LooksAlike(spec, a, Edited(a, rel)) && !Proves(shell, spec, Edited(a, rel), platform, now)
    ensures !Covered(shell, spec, platform)
  {
    assert PathMatches(spec, a.root, rel);
    ReadRewritten(a.root, PathOf(rel), Other(a.root, rel));
    assert !PathMatches(spec, Edited(a, rel).root, rel);
    UnwatchedUnseen(spec, a.root, rel, Other(a.root, rel));
    assert InWindow(spec, now, now);
  }

  // ---------------------------------------------------------------- watched files read alike

  lemma {:induction false} ChildIn(es: seq<Node>, e: Node)
    requires e in es && forall i, j :: 0 <= i < j < |es| ==> es[i].name != es[j].name
    ensures Child(es, e.name) == Some(e)
  {
    if es[0] != e {
      var i :| 0 <= i < |es| && es[i] == e;
      assert es[1..][i - 1] == e;
      ChildIn(es[1..], e);
    }
  }

  lemma {:induction false} ChildFound(es: seq<Node>, name: string)
    ensures Child(es, name).Some? ==> Child(es, name).value in es
  {
    if es != [] { ChildFound(es[1..], name); }
  }

  /** What can be read at a path is a file the traversal meets, unless a directory is skipped. */
  lemma {:induction false} ReadIsMet(d: Node, path: Path, skip: set<string>)
    requires Listable(d) && ReadAt(d, path).Some? && forall s :: s in skip ==> s !in Dirs(path)
    ensures FileAt(d, path, ReadAt(d, path), skip)
    decreases |path|
  {
    ChildFound(d.entries, path[0]);
    ChildNamed(d.entries, path[0]);
    var e := Child(d.entries, path[0]).value;
    assert e in Entries(d);
    if |path| > 1 {
      assert Dirs(path) == [path[0]] + Dirs(path[1..]);
      ReadIsMet(e, path[1..], skip);
    }
  }

  lemma {:induction false} MetIsRead(d: Node, path: Path, bytes: Option<string>, skip: set<string>)
    requires WellNamed(d) && FileAt(d, path, bytes, skip)
    ensures ReadAt(d, path) == bytes
    decreases |path|
  {
    var e := EntryAt(d, path, bytes, skip);
    ChildIn(d.entries, e);
    if |path| > 1 { MetIsRead(e, path[1..], bytes, skip); }
  }

  /** A watched file reads the same in two trees with the same subject. */
  lemma WatchedReadsAlike(spec: VerifierSpec, a: Workspace, b: Workspace, rel: string)
    requires Watched(spec, rel)
    requires SubjectHash(spec.files, a.root) == SubjectHash(spec.files, b.root)
    requires ReadAt(a.root, PathOf(rel)).Some?
    ensures ReadAt(b.root, PathOf(rel)) == ReadAt(a.root, PathOf(rel))
  {
    var path := PathOf(rel);
    var s := Seen(path, ReadAt(a.root, path));
    JoinSplit(rel, '/');
    SplitClean(rel, '/');
    ReadIsMet(a.root, path, SKIP_HASHED);
    var ms, ns := Subject(a.root, spec.files), Subject(b.root, spec.files);
    MatchedFiles(spec.files, a.root, SKIP_HASHED);
    MatchedFiles(spec.files, b.root, SKIP_HASHED);
    HashIsListing(spec.files, a.root, b.root);
    var i :| 0 <= i < |ms| && ms[i] == s;
    var t := SameListed(ms, ns, i);
    CleanPath(b.root, t.path, t.bytes, SKIP_HASHED);
    PathNotEmpty(b.root, t.path, t.bytes, SKIP_HASHED);
    RelInjective(t.path, path);
    MetIsRead(b.root, path, t.bytes, SKIP_HASHED);
  }

  lemma SameListed(ms: seq<Seen>, ns: seq<Seen>, i: nat) returns (t: Seen)
    requires i < |ms| && Listed(ms) == Listed(ns)
    ensures t in ns && Rel(t.path) == Rel(ms[i].path) && t.bytes == ms[i].bytes
  {
    assert |ms| == |Listed(ms)| == |ns|;
    assert Listed(ms)[i] == Listed(ns)[i];
    t := ns[i];
  }

  lemma AllWatchedProves(shell: Shell, spec: VerifierSpec, a: Workspace, b: Workspace,
                         platform: Platform, then_: int, now: int)
    requires spec.kind == "file-hash" && (forall rel :: rel in spec.expectSha256 ==> Watched(spec, rel))
    requires LooksAlike(spec, a, b) && Proves(shell, spec, a, platform, then_)
    ensures Proves(shell, spec, b, platform, now)
  {
    hide Watched, ReadAt, SubjectHash;
    forall rel | rel in spec.expectSha256
      ensures PathMatches(spec, a.root, rel) && PathMatches(spec, b.root, rel)
      ensures FileHashLine(spec, a.root, rel) == FileHashLine(spec, b.root, rel)
    {
      assert PathMatches(spec, a.root, rel);
      WatchedReadsAlike(spec, a, b, rel);
    }
    assert FileHashOutput(spec, a.root, ExpectedPaths(spec)) == FileHashOutput(spec, b.root, ExpectedPaths(spec));
  }

  // ---------------------------------------------------------------- exactly

  ghost predicate AllWatched(spec: VerifierSpec) {
    forall rel :: rel in spec.expectSha256 ==> Watched(spec, rel)
  }

  /** Some workspace passes the check. */
  ghost predicate CanPass(shell: Shell, spec: VerifierSpec, platform: Platform) {
    exists ws, now :: Proves(shell, spec, ws, platform, now)
  }

  /** A `file-hash` check that can pass at all is covered if and only if every expected file is
      watched: matched by a declared pattern, and below no skipped directory. */
  lemma FileHashExact(shell: Shell, spec: VerifierSpec, platform: Platform)
    requires spec.kind == "file-hash"
    ensures Covered(shell, spec, platform) <==> AllWatched(spec) || !CanPass(shell, spec, platform)
  {
    hide Watched, Proves, LooksAlike;
    if AllWatched(spec) {
      forall x, y, t, now | LooksAlike(spec, x, y) && InWindow(spec, t, now) && Proves(shell, spec, x, platform, t)
        ensures Proves(shell, spec, y, platform, now)
      {
        AllWatchedProves(shell, spec, x, y, platform, t, now);
      }
    } else if CanPass(shell, spec, platform) {
      var rel :| rel in spec.expectSha256 && !Watched(spec, rel);
      var ws, now :| Proves(shell, spec, ws, platform, now);
      UnwatchedFileHash(shell, spec, rel, ws, platform, now);
    }
  }

  /** So reuse of such a check is exact, over all histories, under the very same condition;
      whatever the commands of the other verifiers do. */
  lemma FileHashReuseExact(shell: Shell, spec: VerifierSpec, platform: Platform)
    requires spec.kind == "file-hash"
    ensures ReuseExact(OneClaim(shell, spec), platform) <==> AllWatched(spec) || !CanPass(shell, spec, platform)
  {
    hide ReuseExact, Covered, AllWatched, CanPass;
    ReuseExactIffCovered(shell, spec, platform);
    FileHashExact(shell, spec, platform);
  }

  /** A contract whose registered verifiers are all `file-hash` checks over watched files meets
      the hypothesis under which reuse refines re-running. */
  lemma WatchedChecksAreCovered(tool: Tool, w: World)
    requires var reg := tool.registryOf(w.registryText);
             forall k :: k in reg ==> reg[k].kind == "file-hash" && AllWatched(reg[k])
    ensures AllCovered(tool, w)
  {
    var reg := tool.registryOf(w.registryText);
    forall v ensures CoveredAt(tool, w, v) {
      var g := Gate(reg, w.bindings, v);
      if g.Ok? && g.value.spec.Some? {
        assert v.verifierRef in reg && g.value.spec.value == reg[v.verifierRef];
        FileHashExact(tool.shell, g.value.spec.value, w.platform);
      }
    }
  }

  // ---------------------------------------------------------------- outside workspaces

  function Shut(dir: string, file: string, content: string): Node {
    Dir(TOP, true, [Dir(dir, false, [File(file, Some(content))])])
  }

  /** Why workspaces are trees that can be listed: a file below a directory that cannot is read by
      a `file-hash` check, and met by no traversal. */
  lemma UnlistableUnseen(globs: seq<string>, dir: string, file: string, content: string)
    ensures ReadAt(Shut(dir, file, content), [dir, file]) == Some(content)
    ensures SubjectHash(globs, Shut(dir, file, content)) == None
  {
    var d := Dir(dir, false, [File(file, Some(content))]);
    var root := Shut(dir, file, content);
    assert [dir, file][1..] == [file];
    assert ReadAt(d, [file]) == Some(content);
    var seen := Visited(root, SKIP_HASHED);
    if seen != [] {
      var s := seen[0];
      VisitedExact(root, SKIP_HASHED, s);
      NothingBelow(d, s.path[1..], s.bytes, SKIP_HASHED);
      assert false;
    }
    assert Matched([], globs) == [];
  }

  lemma NothingBelow(d: Node, path: Path, bytes: Option<string>, skip: set<string>)
    requires d.Dir? && !d.readable
    ensures !FileAt(d, path, bytes, skip)
  {
  }
}
