/** The journal retains a suffix of everything ever appended. */
module JournalFacts {
  import opened Journal
  import opened Ordered

  // ---------------------------------------------------------------- the reference: segments

  /** Everything appended, cut where the journal rotates. */
  function Segments(cap: nat, bs: seq<Batch>): (segs: seq<seq<string>>)
    ensures bs != [] ==> segs != []
  {
    if bs == [] then [] else
      var segs := Segments(cap, bs[..|bs| - 1]);
      var events := bs[|bs| - 1].events;
      if segs == [] || SizeOf(segs[|segs| - 1]) > cap then segs + [events]
      else segs[|segs| - 1 := segs[|segs| - 1] + events]
  }

  function Flatten(segs: seq<seq<string>>): seq<string> {
    if segs == [] then [] else Flatten(segs[..|segs| - 1]) + segs[|segs| - 1]
  }

  function Everything(bs: seq<Batch>): seq<string> {
    if bs == [] then [] else Everything(bs[..|bs| - 1]) + bs[|bs| - 1].events
  }

  function Newest(segs: seq<seq<string>>, n: nat): seq<seq<string>> {
    if |segs| > n then segs[|segs| - n..] else segs
  }

  /** The directory after a run of appends. */
  function Run(cap: nat, files: Files, bs: seq<Batch>): Files {
    if bs == [] then files else Appended(Run(cap, files, bs[..|bs| - 1]), cap, bs[|bs| - 1])
  }

  ghost predicate Clean(files: Files) {
    LIVE !in files && forall n :: n in files ==> !IsArchive(n)
  }

  ghost predicate RotatesAt(cap: nat, files: Files, bs: seq<Batch>, i: nat)
    requires i < |bs|
  {
    NeedsRotation(Run(cap, files, bs[..i]), cap)
  }

  const STAMP_LENGTH := 15

  /** Time stamps have one format, and each rotation has a later one than every rotation before. */
  ghost predicate Clocked(cap: nat, files: Files, bs: seq<Batch>) {
    && (forall i :: 0 <= i < |bs| ==> |bs[i].stamp| == STAMP_LENGTH)
    && forall i, j :: 0 <= i < j < |bs| && RotatesAt(cap, files, bs, i) && RotatesAt(cap, files, bs, j) ==>
         Less(bs[i].stamp, bs[j].stamp)
  }

  ghost predicate NewerThanAll(files: Files, name: string) {
    forall n :: n in files && IsArchive(n) ==> Less(n, name)
  }

  /** Each rotation names its archive after every archive then present. */
  ghost predicate Ascending(cap: nat, files: Files, bs: seq<Batch>) {
    forall i :: 0 <= i < |bs| && RotatesAt(cap, files, bs, i) ==>
      NewerThanAll(Run(cap, files, bs[..i]), ArchiveName(bs[i].stamp))
  }

  // ---------------------------------------------------------------- names

  lemma {:induction false} LessPrefix(p: string, a: string, b: string)
    ensures Less(p + a, p + b) <==> Less(a, b)
  {
    if p == [] {
      assert p + a == a && p + b == b;
    } else {
      assert (p + a)[1..] == p[1..] + a && (p + b)[1..] == p[1..] + b;
      LessPrefix(p[1..], a, b);
    }
  }

  lemma {:induction false} LessSuffix(a: string, b: string, s: string)
    requires |a| == |b|
    ensures Less(a + s, b + s) <==> Less(a, b)
  {
    if a == [] {
      assert a + s == s && b + s == s;
      LessTotal(s, s);
    } else {
      assert (a + s)[1..] == a[1..] + s && (b + s)[1..] == b[1..] + s;
      LessSuffix(a[1..], b[1..], s);
    }
  }

  /** File names of archives sort like their time stamps. */
  lemma NamesSortLikeStamps(a: string, b: string)
    requires |a| == |b|
    ensures Less(ArchiveName(a), ArchiveName(b)) <==> Less(a, b)
    ensures IsArchive(ArchiveName(a))
  {
    LessPrefix(PREFIX, a + SUFFIX, b + SUFFIX);
    LessSuffix(a, b, SUFFIX);
    assert PREFIX + (a + SUFFIX) == ArchiveName(a) && PREFIX + (b + SUFFIX) == ArchiveName(b);
    assert |ArchiveName(a)| == 13 + |a| && |LIVE| == 12;
  }

  lemma LiveIsNoArchive()
    ensures !IsArchive(LIVE)
  {
  }

  // ---------------------------------------------------------------- one append

  /** The directory holds the newest segments: the last one live, those before it archived. */
  ghost predicate Holds(files: Files, segs: seq<seq<string>>) {
    var names := Archives(files);
    if segs == [] then LIVE !in files && names == []
    else
      && LIVE in files && files[LIVE] == segs[|segs| - 1]
      && |names| == (if |segs| - 1 < KEEP_ARCHIVES then |segs| - 1 else KEEP_ARCHIVES)
      && forall i :: 0 <= i < |names| ==> LinesIn(files, names[i]) == segs[|segs| - 1 - |names| + i]
  }

  /** Renaming the live file puts one more archive at the end of the listing. */
  lemma RenamedArchives(files: Files, name: string)
    requires LIVE in files && IsArchive(name) && NewerThanAll(files, name)
    ensures Archives(Renamed(files, name)) == Archives(files) + [name]
    ensures forall n :: n in files && IsArchive(n) ==> n != name
  {
    LiveIsNoArchive();
    LessTotal(name, name);
    assert ArchiveNames(Renamed(files, name)) == ArchiveNames(files) + {name};
    ListingPush(ArchiveNames(files), name);
  }

  /** What is left of a listing after its first names go. */
  lemma PrunedArchives(files: Files)
    ensures Archives(Pruned(files, KEEP_ARCHIVES)) == Archives(files)[|Doomed(Archives(files), KEEP_ARCHIVES)|..]
    ensures forall n :: n in Pruned(files, KEEP_ARCHIVES) ==> n in files
    ensures forall n :: n in files && !IsArchive(n) ==> n in Pruned(files, KEEP_ARCHIVES)
    ensures forall n :: n in Pruned(files, KEEP_ARCHIVES) ==> Pruned(files, KEEP_ARCHIVES)[n] == files[n]
  {
    var names, d := Archives(files), |Doomed(Archives(files), KEEP_ARCHIVES)|;
    ListingExact(ArchiveNames(files));
    var f := Pruned(files, KEEP_ARCHIVES);
    ListingExact(ArchiveNames(f));
    forall n | n in files && !IsArchive(n) ensures n in f { assert n !in names; }
    forall n ensures n in Archives(f) <==> n in names[d..] {
      SplitListing(names, d, n);
    }
    assert Increasing(names[d..]);
    IncreasingUnique(Archives(f), names[d..]);
  }

  /** In a listing each name stands once: below the cut or above it. */
  lemma SplitListing(names: seq<string>, d: nat, n: string)
    requires Increasing(names) && d <= |names|
    ensures n in names[d..] <==> n in names && n !in names[..d]
  {
    assert names == names[..d] + names[d..];
    if n in names[..d] && n in names[d..] {
      var i :| 0 <= i < d && names[i] == n;
      var j :| d <= j < |names| && names[j] == n;
      LessTotal(n, n);
    }
  }

  /** Writing the live file leaves the archives alone. */
  lemma WriteLive(files: Files, more: seq<string>)
    ensures Archives(files[LIVE := more]) == Archives(files)
    ensures forall n :: n in Archives(files) ==> LinesIn(files[LIVE := more], n) == LinesIn(files, n)
  {
    LiveIsNoArchive();
    assert ArchiveNames(files[LIVE := more]) == ArchiveNames(files);
    ListingExact(ArchiveNames(files));
  }

  /** The renamed directory: one more archive, holding what was live. */
  lemma RenamedLines(files: Files, segs: seq<seq<string>>, name: string)
    requires Holds(files, segs) && LIVE in files && IsArchive(name) && NewerThanAll(files, name)
    ensures var g, names := Renamed(files, name), Archives(files) + [name];
            LIVE !in g && Archives(g) == names
            && forall i :: 0 <= i < |names| ==> LinesIn(g, names[i]) == segs[|segs| - |names| + i]
  {
    LiveIsNoArchive();
    RenamedArchives(files, name);
    ListingExact(ArchiveNames(files));
    var g, names := Renamed(files, name), Archives(files) + [name];
    forall i | 0 <= i < |names| ensures LinesIn(g, names[i]) == segs[|segs| - |names| + i] {
      if i < |names| - 1 {
        assert names[i] == Archives(files)[i];
        assert names[i] in ArchiveNames(files) && names[i] != LIVE && names[i] != name;
      }
    }
  }

  lemma PrunedLines(g: Files, names: seq<string>, d: nat)
    requires names == Archives(g) && d == |Doomed(names, KEEP_ARCHIVES)|
    ensures var f := Pruned(g, KEEP_ARCHIVES);
            Archives(f) == names[d..]
            && forall i :: 0 <= i < |names| - d ==> LinesIn(f, names[d..][i]) == LinesIn(g, names[d + i])
  {
    PrunedArchives(g);
    var f := Pruned(g, KEEP_ARCHIVES);
    ListingExact(ArchiveNames(f));
    forall i | 0 <= i < |names| - d ensures LinesIn(f, names[d..][i]) == LinesIn(g, names[d + i]) {
      assert names[d..][i] in Archives(f);
      assert names[d..][i] in ArchiveNames(f);
    }
  }

  lemma HoldsCount(files: Files, segs: seq<seq<string>>)
    requires Holds(files, segs) && LIVE in files
    ensures segs != [] && |Archives(files)| == if |segs| - 1 < KEEP_ARCHIVES then |segs| - 1 else KEEP_ARCHIVES
  {
  }

  lemma NotLive(g: Files)
    requires LIVE !in g
    ensures LIVE !in Pruned(g, KEEP_ARCHIVES)
  {
  }

  lemma RotationHolds(files: Files, segs: seq<seq<string>>, name: string, more: seq<string>)
    requires Holds(files, segs) && LIVE in files && IsArchive(name) && NewerThanAll(files, name)
    ensures var f := Pruned(Renamed(files, name), KEEP_ARCHIVES);
            LIVE !in f && Holds(f[LIVE := more], segs + [more])
  {
    hide Pruned, Renamed, Archives, Holds, NewerThanAll, IsArchive, LinesIn;
    var g, names := Renamed(files, name), Archives(files) + [name];
    var f, d := Pruned(g, KEEP_ARCHIVES), |Doomed(names, KEEP_ARCHIVES)|;
    HoldsCount(files, segs);
    RenamedLines(files, segs, name);
    NotLive(g);
    PrunedLines(g, names, d);
    WriteLive(f, more);
    LiveLast(f, names[d..], segs, more);
  }

  lemma LiveLast(f: Files, names: seq<string>, segs: seq<seq<string>>, more: seq<string>)
    requires Archives(f) == Archives(f[LIVE := more]) == names
    requires forall n :: n in names ==> LinesIn(f[LIVE := more], n) == LinesIn(f, n)
    requires |names| == (if |segs| < KEEP_ARCHIVES then |segs| else KEEP_ARCHIVES)
    requires forall i :: 0 <= i < |names| ==> LinesIn(f, names[i]) == segs[|segs| - |names| + i]
    ensures Holds(f[LIVE := more], segs + [more])
  {
  }

  lemma AppendHolds(files: Files, cap: nat, b: Batch, segs: seq<seq<string>>)
    requires Holds(files, segs)
    requires NeedsRotation(files, cap) ==> IsArchive(ArchiveName(b.stamp)) && NewerThanAll(files, ArchiveName(b.stamp))
    ensures segs == [] || SizeOf(segs[|segs| - 1]) > cap ==> Holds(Appended(files, cap, b), segs + [b.events])
    ensures segs != [] && SizeOf(segs[|segs| - 1]) <= cap ==>
              Holds(Appended(files, cap, b), segs[|segs| - 1 := segs[|segs| - 1] + b.events])
  {
    hide Pruned, Archives, SizeOf;
    if NeedsRotation(files, cap) {
      RotationHolds(files, segs, ArchiveName(b.stamp), [] + b.events);
      assert [] + b.events == b.events;
    } else if segs == [] {
      WriteLive(files, [] + b.events);
      assert [] + b.events == b.events;
    } else {
      WriteLive(files, segs[|segs| - 1] + b.events);
    }
  }

  // ---------------------------------------------------------------- whole runs

  /** Every archive present was written by a rotation of the run. */
  ghost predicate FromRotations(f: Files, cap: nat, files: Files, bs: seq<Batch>) {
    forall n :: n in f && IsArchive(n) ==>
      exists i :: 0 <= i < |bs| && RotatesAt(cap, files, bs, i) && n == ArchiveName(bs[i].stamp)
  }

  lemma ShorterRun(cap: nat, files: Files, bs: seq<Batch>)
    requires bs != []
    ensures var init := bs[..|bs| - 1];
            forall i :: 0 <= i < |init| ==> (RotatesAt(cap, files, init, i) <==> RotatesAt(cap, files, bs, i))
  {
    var init := bs[..|bs| - 1];
    forall i | 0 <= i < |init| ensures RotatesAt(cap, files, init, i) <==> RotatesAt(cap, files, bs, i) {
      assert init[..i] == bs[..i];
    }
  }

  lemma RotatedNames(files: Files, cap: nat, b: Batch, n: string)
    requires n in Appended(files, cap, b) && n != LIVE
    ensures n in files || (NeedsRotation(files, cap) && n == ArchiveName(b.stamp))
  {
    if NeedsRotation(files, cap) { PrunedArchives(Renamed(files, ArchiveName(b.stamp))); }
  }

  lemma {:induction false} RunNames(cap: nat, files: Files, bs: seq<Batch>)
    requires Clean(files)
    ensures FromRotations(Run(cap, files, bs), cap, files, bs)
  {
    if bs != [] {
      var init, b := bs[..|bs| - 1], bs[|bs| - 1];
      RunNames(cap, files, init);
      ShorterRun(cap, files, bs);
      LiveIsNoArchive();
      forall n | n in Run(cap, files, bs) && IsArchive(n)
        ensures exists i :: 0 <= i < |bs| && RotatesAt(cap, files, bs, i) && n == ArchiveName(bs[i].stamp)
      {
        RotatedNames(Run(cap, files, init), cap, b, n);
        if n in Run(cap, files, init) {
          var i :| 0 <= i < |init| && RotatesAt(cap, files, init, i) && n == ArchiveName(init[i].stamp);
          assert RotatesAt(cap, files, bs, i) && n == ArchiveName(bs[i].stamp);
        } else {
          assert RotatesAt(cap, files, bs, |bs| - 1);
        }
      }
    }
  }

  /** At a rotation the new archive is the newest of all. */
  lemma StampIsNewest(cap: nat, files: Files, bs: seq<Batch>)
    requires Clean(files) && Clocked(cap, files, bs) && bs != []
    requires RotatesAt(cap, files, bs, |bs| - 1)
    ensures NewerThanAll(Run(cap, files, bs[..|bs| - 1]), ArchiveName(bs[|bs| - 1].stamp))
  {
    var init, last := bs[..|bs| - 1], bs[|bs| - 1];
    RunNames(cap, files, init);
    ShorterRun(cap, files, bs);
    forall n | n in Run(cap, files, init) && IsArchive(n) ensures Less(n, ArchiveName(last.stamp)) {
      var i :| 0 <= i < |init| && RotatesAt(cap, files, init, i) && n == ArchiveName(init[i].stamp);
      assert RotatesAt(cap, files, bs, i) && bs[i] == init[i];
      NamesSortLikeStamps(bs[i].stamp, last.stamp);
    }
  }

  lemma RotatesPrefix(cap: nat, files: Files, bs: seq<Batch>, n: nat, i: nat)
    requires i < n <= |bs|
    ensures bs[..n][..i] == bs[..i]
    ensures RotatesAt(cap, files, bs[..n], i) <==> RotatesAt(cap, files, bs, i)
  {
    assert bs[..n][..i] == bs[..i];
  }

  lemma ClockedPrefix(cap: nat, files: Files, bs: seq<Batch>, n: nat)
    requires n <= |bs| && Clocked(cap, files, bs)
    ensures Clocked(cap, files, bs[..n])
  {
    forall i | 0 <= i < n ensures RotatesAt(cap, files, bs[..n], i) <==> RotatesAt(cap, files, bs, i) {
      RotatesPrefix(cap, files, bs, n, i);
    }
    hide RotatesAt;
  }

  /** Stamps that increase from rotation to rotation are enough. */
  lemma ClockedAscends(cap: nat, files: Files, bs: seq<Batch>)
    requires Clean(files) && Clocked(cap, files, bs)
    ensures Ascending(cap, files, bs)
  {
    hide Clean, Clocked, NewerThanAll, RotatesAt, Run;
    forall i | 0 <= i < |bs| && RotatesAt(cap, files, bs, i)
      ensures NewerThanAll(Run(cap, files, bs[..i]), ArchiveName(bs[i].stamp))
    {
      RotatesPrefix(cap, files, bs, i + 1, i);
      ClockedPrefix(cap, files, bs, i + 1);
      StampIsNewest(cap, files, bs[..i + 1]);
    }
  }

  lemma AscendingPrefix(cap: nat, files: Files, bs: seq<Batch>, n: nat)
    requires n <= |bs| && Ascending(cap, files, bs)
    ensures Ascending(cap, files, bs[..n])
  {
    forall i | 0 <= i < n && RotatesAt(cap, files, bs[..n], i)
      ensures NewerThanAll(Run(cap, files, bs[..n][..i]), ArchiveName(bs[..n][i].stamp))
    {
      RotatesPrefix(cap, files, bs, n, i);
    }
  }

  lemma AscendsLast(cap: nat, files: Files, bs: seq<Batch>)
    requires Ascending(cap, files, bs) && bs != []
    ensures NeedsRotation(Run(cap, files, bs[..|bs| - 1]), cap) ==>
              NewerThanAll(Run(cap, files, bs[..|bs| - 1]), ArchiveName(bs[|bs| - 1].stamp))
  {
    assert RotatesAt(cap, files, bs, |bs| - 1) <==> NeedsRotation(Run(cap, files, bs[..|bs| - 1]), cap);
  }

  lemma SegmentsHold(f: Files, cap: nat, bs: seq<Batch>)
    requires bs != [] && Holds(f, Segments(cap, bs[..|bs| - 1]))
    requires NeedsRotation(f, cap) ==> NewerThanAll(f, ArchiveName(bs[|bs| - 1].stamp))
    ensures Holds(Appended(f, cap, bs[|bs| - 1]), Segments(cap, bs))
  {
    hide Holds, NewerThanAll, Appended, IsArchive, NeedsRotation;
    var last := bs[|bs| - 1];
    NamesSortLikeStamps(last.stamp, last.stamp);
    AppendHolds(f, cap, last, Segments(cap, bs[..|bs| - 1]));
  }

  lemma CleanHolds(cap: nat, files: Files)
    requires Clean(files)
    ensures Holds(files, Segments(cap, []))
  {
    assert ArchiveNames(files) == {};
  }

  lemma {:induction false} RunHolds(cap: nat, files: Files, bs: seq<Batch>)
    requires Clean(files) && Ascending(cap, files, bs)
    ensures Holds(Run(cap, files, bs), Segments(cap, bs))
  {
    hide Holds, NewerThanAll, Appended, IsArchive, Ascending, NeedsRotation, Clean, Segments;
    if bs == [] {
      CleanHolds(cap, files);
    } else {
      AscendingPrefix(cap, files, bs, |bs| - 1);
      RunHolds(cap, files, bs[..|bs| - 1]);
      AscendsLast(cap, files, bs);
      SegmentsHold(Run(cap, files, bs[..|bs| - 1]), cap, bs);
    }
  }

  /** The text of a file: each line and its newline. */
  function TextOf(lines: seq<string>): string {
    if lines == [] then "" else TextOf(lines[..|lines| - 1]) + lines[|lines| - 1] + "\n"
  }

  /** The size that is held against the cap is that of the text. */
  lemma {:induction false} SizeIsText(lines: seq<string>)
    ensures SizeOf(lines) == |TextOf(lines)|
  {
    if lines != [] { SizeIsText(lines[..|lines| - 1]); }
  }

  /** An archive is a file named by some time stamp, and nothing else. */
  lemma ArchiveNameExact(name: string)
    ensures IsArchive(name) <==> exists stamp :: name == ArchiveName(stamp)
  {
    if IsArchive(name) {
      var n := |name|;
      if n < 13 {
        ShortNames(name);
      } else {
        var stamp := name[7..n - 6];
        assert name == PREFIX + stamp + SUFFIX;
        assert name == ArchiveName(stamp);
      }
    }
    if stamp :| name == ArchiveName(stamp) { NamesSortLikeStamps(stamp, stamp); }
  }

  /** Prefix and suffix overlap in the name of the live file alone. */
  lemma ShortNames(name: string)
    requires PREFIX <= name && EndsWith(name, SUFFIX)
    ensures |name| >= 12 && (|name| == 12 ==> name == LIVE)
  {
    var n := |name|;
    assert forall i :: 0 <= i < 7 ==> name[i] == PREFIX[i];
    assert forall i :: 0 <= i < 6 ==> name[n - 6 + i] == SUFFIX[i];
    assert name[n - 6] == '.' && forall i :: 0 <= i < 6 ==> PREFIX[i] != '.';
  }

  lemma {:induction false} SizeOfAppend(a: seq<string>, b: seq<string>)
    ensures SizeOf(a + b) == SizeOf(a) + SizeOf(b)
    decreases |b|
  {
    if b == [] {
      assert a + b == a;
    } else {
      assert (a + b)[..|a + b| - 1] == a + b[..|b| - 1];
      SizeOfAppend(a, b[..|b| - 1]);
    }
  }

  lemma LastSegmentSize(cap: nat, bs: seq<Batch>)
    requires bs != []
    ensures var segs := Segments(cap, bs); SizeOf(segs[|segs| - 1]) <= cap + SizeOf(bs[|bs| - 1].events)
  {
    var segs := Segments(cap, bs[..|bs| - 1]);
    if segs != [] { SizeOfAppend(segs[|segs| - 1], bs[|bs| - 1].events); }
  }

  lemma {:induction false} FlattenConcat(a: seq<seq<string>>, b: seq<seq<string>>)
    ensures Flatten(a + b) == Flatten(a) + Flatten(b)
    decreases |b|
  {
    if b == [] {
      assert a + b == a;
    } else {
      assert (a + b)[..|a + b| - 1] == a + b[..|b| - 1];
      FlattenConcat(a, b[..|b| - 1]);
    }
  }

  lemma FlattenLast(init: seq<seq<string>>, last: seq<string>)
    ensures Flatten(init + [last]) == Flatten(init) + last
  {
    assert (init + [last])[..|init|] == init;
  }

  lemma FlattenGrown(segs: seq<seq<string>>, more: seq<string>)
    requires segs != []
    ensures Flatten(segs[|segs| - 1 := segs[|segs| - 1] + more]) == Flatten(segs) + more
  {
    var init, last := segs[..|segs| - 1], segs[|segs| - 1];
    var grown := segs[|segs| - 1 := last + more];
    assert grown == init + [last + more] && segs == init + [last];
    FlattenLast(init, last + more);
    FlattenLast(init, last);
    assert Flatten(init) + (last + more) == Flatten(init) + last + more;
  }

  lemma {:induction false} SegmentsAreEverything(cap: nat, bs: seq<Batch>)
    ensures Flatten(Segments(cap, bs)) == Everything(bs)
  {
    if bs != [] {
      hide Flatten, SizeOf;
      var before, events := Segments(cap, bs[..|bs| - 1]), bs[|bs| - 1].events;
      SegmentsAreEverything(cap, bs[..|bs| - 1]);
      FlattenLast(before, events);
      if before != [] { FlattenGrown(before, events); }
    }
  }

  lemma {:induction false} LinesAre(files: Files, names: seq<string>, segs: seq<seq<string>>)
    requires |names| == |segs| && forall i :: 0 <= i < |names| ==> LinesIn(files, names[i]) == segs[i]
    ensures LinesOf(files, names) == Flatten(segs)
  {
    if names != [] { LinesAre(files, names[..|names| - 1], segs[..|segs| - 1]); }
  }

  lemma HistoryIs(files: Files, segs: seq<seq<string>>)
    requires Holds(files, segs)
    ensures History(files) == Flatten(Newest(segs, KEEP_ARCHIVES + 1))
    ensures |Archives(files)| <= KEEP_ARCHIVES
  {
    var names, kept := Archives(files), Newest(segs, KEEP_ARCHIVES + 1);
    if segs != [] {
      assert kept[..|kept| - 1] == segs[|segs| - 1 - |names|..|segs| - 1];
      LinesAre(files, names, kept[..|kept| - 1]);
    }
  }

  lemma HoldsLive(f: Files, segs: seq<seq<string>>)
    requires Holds(f, segs) && segs != []
    ensures LIVE in f && f[LIVE] == segs[|segs| - 1]
  {
  }

  lemma NothingKept()
    ensures Flatten([]) == []
  {
  }

  /** After any run of appends in which each rotation names its archive after all archives then
      present, what can be read back is the newest segments of everything ever appended: a
      contiguous suffix, in order, in at most three archives and a live file no larger than its
      cap and the last batch. */
  lemma JournalKeepsSuffix(cap: nat, files: Files, bs: seq<Batch>) returns (lost: seq<string>)
    requires Clean(files) && Ascending(cap, files, bs)
    ensures var f, segs := Run(cap, files, bs), Segments(cap, bs);
      && Everything(bs) == lost + History(f)
      && History(f) == Flatten(Newest(segs, KEEP_ARCHIVES + 1))
      && (|segs| <= KEEP_ARCHIVES + 1 ==> lost == [])
      && |Archives(f)| <= KEEP_ARCHIVES
      && (bs != [] ==> LIVE in f && SizeOf(f[LIVE]) <= cap + SizeOf(bs[|bs| - 1].events))
  {
    hide Run, Holds, Ascending, Clean, History, Archives, SizeOf, Everything, Segments, Flatten;
    var f, segs := Run(cap, files, bs), Segments(cap, bs);
    RunHolds(cap, files, bs);
    HistoryIs(f, segs);
    SegmentsAreEverything(cap, bs);
    NothingKept();
    if bs != [] {
      HoldsLive(f, segs);
      LastSegmentSize(cap, bs);
    }
    var kept := Newest(segs, KEEP_ARCHIVES + 1);
    var older := segs[..|segs| - |kept|];
    assert segs == older + kept;
    FlattenConcat(older, kept);
    lost := Flatten(older);
  }

  /** Nothing beside the journal and its archives is ever touched. */
  lemma {:induction false} BystandersStay(cap: nat, files: Files, bs: seq<Batch>, n: string)
    requires n in files && n != LIVE && !IsArchive(n)
    requires forall i :: 0 <= i < |bs| ==> |bs[i].stamp| == STAMP_LENGTH
    ensures n in Run(cap, files, bs) && Run(cap, files, bs)[n] == files[n]
  {
    if bs != [] {
      var f, b := Run(cap, files, bs[..|bs| - 1]), bs[|bs| - 1];
      BystandersStay(cap, files, bs[..|bs| - 1], n);
      NamesSortLikeStamps(b.stamp, b.stamp);
      if NeedsRotation(f, cap) { PrunedArchives(Renamed(f, ArchiveName(b.stamp))); }
    }
  }

  /** A rotation onto the name of the newest archive. */
  lemma RenamedOver(files: Files, name: string)
    requires LIVE in files && name in ArchiveNames(files)
    ensures Archives(Renamed(files, name)) == Archives(files)
    ensures |Archives(files)| <= KEEP_ARCHIVES ==> Pruned(Renamed(files, name), KEEP_ARCHIVES) == Renamed(files, name)
    ensures LIVE !in Renamed(files, name) && LinesIn(Renamed(files, name), name) == files[LIVE]
    ensures forall n :: n in ArchiveNames(files) && n != name ==> LinesIn(Renamed(files, name), n) == LinesIn(files, n)
  {
    LiveIsNoArchive();
    assert ArchiveNames(Renamed(files, name)) == ArchiveNames(files);
  }

  lemma LastName(files: Files, i: nat)
    requires i < |Archives(files)|
    ensures Archives(files)[i] in ArchiveNames(files)
    ensures i < |Archives(files)| - 1 ==> Archives(files)[i] != Archives(files)[|Archives(files)| - 1]
  {
    ListingExact(ArchiveNames(files));
    LessTotal(Archives(files)[i], Archives(files)[i]);
  }

  /** Two rotations in one second: the second overwrites the archive of the first, and exactly
      that segment is lost, from the middle of the history. */
  lemma SameSecondLosesASegment(files: Files, segs: seq<seq<string>>, cap: nat, b: Batch)
    requires Holds(files, segs) && |segs| >= 2 && NeedsRotation(files, cap)
    requires ArchiveName(b.stamp) == Archives(files)[|Archives(files)| - 1]
    ensures Holds(Appended(files, cap, b), segs[..|segs| - 2] + [segs[|segs| - 1], b.events])
  {
    var name, names := ArchiveName(b.stamp), Archives(files);
    var g := Renamed(files, name);
    LastName(files, |names| - 1);
    RenamedOver(files, name);
    var left := segs[..|segs| - 2] + [segs[|segs| - 1]];
    forall i | 0 <= i < |names| ensures LinesIn(g, names[i]) == left[|left| - |names| + i] {
      LastName(files, i);
    }
    hide Renamed, ArchiveNames, Archives, Pruned;
    WriteLive(g, [] + b.events);
    assert [] + b.events == b.events;
    LiveLast(g, names, left, b.events);
    assert left + [b.events] == segs[..|segs| - 2] + [segs[|segs| - 1], b.events];
  }
}
