/** Exactly when a rotation keeps the journal a suffix: when its archive is named after every
    archive present. What goes wrong otherwise. */
module JournalOrder {
  import opened Journal
  import opened JournalFacts
  import opened Ordered

  // ---------------------------------------------------------------- order of lines

  ghost predicate Distinct(t: seq<string>) {
    forall i, j :: 0 <= i < j < |t| ==> t[i] != t[j]
  }

  ghost predicate IsSuffix(s: seq<string>, t: seq<string>) {
    |s| <= |t| && t[|t| - |s|..] == s
  }

  ghost predicate Precedes(t: seq<string>, x: string, y: string) {
    exists i, j :: 0 <= i < j < |t| && t[i] == x && t[j] == y
  }

  lemma PlaceOf(t: seq<string>, i: nat)
    requires Distinct(t) && i < |t|
    ensures forall k :: 0 <= k < |t| && t[k] == t[i] ==> k == i
  {
  }

  lemma PrecedesOneWay(t: seq<string>, x: string, y: string)
    requires Distinct(t) && Precedes(t, x, y)
    ensures x != y && !Precedes(t, y, x)
  {
    var i, j :| 0 <= i < j < |t| && t[i] == x && t[j] == y;
    PlaceOf(t, i);
    PlaceOf(t, j);
  }

  lemma SuffixPrecedes(s: seq<string>, t: seq<string>, x: string, y: string)
    requires IsSuffix(s, t) && Precedes(s, x, y)
    ensures Precedes(t, x, y)
  {
    var i, j :| 0 <= i < j < |s| && s[i] == x && s[j] == y;
    var d := |t| - |s|;
    assert t[d + i] == x && t[d + j] == y;
  }

  /** What follows a line of a suffix is in the suffix. */
  lemma SuffixClosed(s: seq<string>, t: seq<string>, x: string, y: string)
    requires Distinct(t) && IsSuffix(s, t) && x in s && Precedes(t, x, y)
    ensures y in s
  {
    hide Distinct, IsSuffix;
    var i, j :| 0 <= i < j < |t| && t[i] == x && t[j] == y;
    var k :| 0 <= k < |s| && s[k] == x;
    PlaceOf(t, i);
    SuffixAt(s, t, k);
    var d := |t| - |s|;
    assert d + k == i;
    SuffixAt(s, t, j - d);
    assert s[j - d] == y;
  }

  lemma SuffixAt(s: seq<string>, t: seq<string>, k: int)
    requires IsSuffix(s, t) && 0 <= k < |s|
    ensures |s| <= |t| && t[|t| - |s| + k] == s[k]
  {
  }

  lemma PrecedesIn(a: seq<string>, b: seq<string>, x: string, y: string)
    requires (x in a && y in b) || Precedes(a, x, y)
    ensures Precedes(a + b, x, y)
  {
    var t := a + b;
    if x in a && y in b {
      var i :| 0 <= i < |a| && a[i] == x;
      var j :| 0 <= j < |b| && b[j] == y;
      assert t[i] == x && t[|a| + j] == y;
    } else {
      var i, j :| 0 <= i < j < |a| && a[i] == x && a[j] == y;
      assert t[i] == x && t[j] == y;
    }
  }

  lemma {:induction false} FlattenHas(segs: seq<seq<string>>, a: nat, x: string)
    requires a < |segs| && x in segs[a]
    ensures x in Flatten(segs)
  {
    if a < |segs| - 1 { FlattenHas(segs[..|segs| - 1], a, x); }
  }

  lemma {:induction false} FlattenPrecedes(segs: seq<seq<string>>, a: nat, b: nat, x: string, y: string)
    requires a < b < |segs| && x in segs[a] && y in segs[b]
    ensures Precedes(Flatten(segs), x, y)
  {
    var init := segs[..|segs| - 1];
    if b < |init| {
      FlattenPrecedes(init, a, b, x, y);
    } else {
      FlattenHas(init, a, x);
    }
    PrecedesIn(Flatten(init), segs[|segs| - 1], x, y);
  }

  /** A line stands in one segment. */
  lemma OneSegment(segs: seq<seq<string>>, a: nat, b: nat, x: string)
    requires Distinct(Flatten(segs)) && a < |segs| && b < |segs| && x in segs[a] && x in segs[b]
    ensures a == b
  {
    if a != b {
      FlattenPrecedes(segs, if a < b then a else b, if a < b then b else a, x, x);
      PrecedesOneWay(Flatten(segs), x, x);
    }
  }

  // ---------------------------------------------------------------- what can be read back

  lemma {:induction false} LinesHave(f: Files, names: seq<string>, x: string)
    ensures x in LinesOf(f, names) <==> exists i :: 0 <= i < |names| && x in LinesIn(f, names[i])
  {
    if names != [] {
      var init := names[..|names| - 1];
      LinesHave(f, init, x);
      if i :| 0 <= i < |names| && x in LinesIn(f, names[i]) {
        if i < |init| { assert x in LinesIn(f, init[i]); }
      }
      if i :| 0 <= i < |init| && x in LinesIn(f, init[i]) {
        assert x in LinesIn(f, names[i]);
      }
    }
  }

  lemma {:induction false} LinesPrecede(f: Files, names: seq<string>, i: nat, j: nat, x: string, y: string)
    requires i < j < |names| && x in LinesIn(f, names[i]) && y in LinesIn(f, names[j])
    ensures Precedes(LinesOf(f, names), x, y)
  {
    var init := names[..|names| - 1];
    if j < |init| {
      LinesPrecede(f, init, i, j, x, y);
    } else {
      LinesHave(f, init, x);
      assert x in LinesIn(f, init[i]);
    }
    PrecedesIn(LinesOf(f, init), LinesIn(f, names[|names| - 1]), x, y);
  }

  /** Archives are read in the order of their names. */
  lemma HistoryPrecedes(f: Files, m: string, n: string, x: string, y: string)
    requires m in ArchiveNames(f) && n in ArchiveNames(f) && Less(m, n)
    requires x in LinesIn(f, m) && y in LinesIn(f, n)
    ensures Precedes(History(f), x, y)
  {
    ListingExact(ArchiveNames(f));
    var names := Archives(f);
    var i :| 0 <= i < |names| && names[i] == m;
    var j :| 0 <= j < |names| && names[j] == n;
    LessTotal(m, n);
    LessTotal(m, m);
    assert i < j;
    LinesPrecede(f, names, i, j, x, y);
    PrecedesIn(LinesOf(f, names), LinesIn(f, LIVE), x, y);
  }

  lemma HistoryHas(f: Files, x: string)
    ensures x in History(f) <==> x in LinesIn(f, LIVE) || exists m :: m in ArchiveNames(f) && x in LinesIn(f, m)
  {
    var names := Archives(f);
    ListingExact(ArchiveNames(f));
    LinesHave(f, names, x);
    if m :| m in ArchiveNames(f) && x in LinesIn(f, m) {
      assert m in names;
      var i :| 0 <= i < |names| && names[i] == m;
    }
    if i :| 0 <= i < |names| && x in LinesIn(f, names[i]) {
      assert names[i] in ArchiveNames(f);
    }
  }

  // ---------------------------------------------------------------- one rotation, exactly

  /** A state that needs rotation, with every line told apart. */
  ghost predicate Ready(files: Files, segs: seq<seq<string>>, cap: nat, b: Batch) {
    && Holds(files, segs) && NeedsRotation(files, cap)
    && (forall i :: 0 <= i < |segs| - 1 ==> segs[i] != [])
    && Distinct(Flatten(segs + [b.events]))
  }

  /** The segment an archive holds. */
  ghost predicate HoldsSegment(files: Files, segs: seq<seq<string>>, n: string, a: nat) {
    a < |segs| - 1 && n in ArchiveNames(files) && LinesIn(files, n) == segs[a]
  }

  lemma ArchivedSegment(files: Files, segs: seq<seq<string>>, n: string) returns (a: nat)
    requires Holds(files, segs) && n in ArchiveNames(files)
    ensures HoldsSegment(files, segs, n, a)
  {
    ListingExact(ArchiveNames(files));
    var names := Archives(files);
    var i :| 0 <= i < |names| && names[i] == n;
    a := |segs| - 1 - |names| + i;
  }

  /** The newest archive by name holds the last segment archived, and no other archive does. */
  lemma NewestArchive(files: Files, segs: seq<seq<string>>) returns (top: string)
    requires Holds(files, segs) && ArchiveNames(files) != {}
    ensures |segs| >= 2 && HoldsSegment(files, segs, top, |segs| - 2)
    ensures top == Archives(files)[|Archives(files)| - 1]
    ensures forall n :: n in ArchiveNames(files) && n != top ==> Less(n, top)
  {
    ListingExact(ArchiveNames(files));
    var names := Archives(files);
    top := names[|names| - 1];
    forall n | n in ArchiveNames(files) && n != top ensures Less(n, top) {
      var i :| 0 <= i < |names| && names[i] == n;
    }
  }

  lemma RenamedHas(files: Files, name: string)
    requires LIVE in files && IsArchive(name)
    ensures var g := Renamed(files, name);
      && ArchiveNames(g) == ArchiveNames(files) + {name} && LIVE !in g && LinesIn(g, name) == files[LIVE]
      && forall n :: n in ArchiveNames(files) && n != name ==> LinesIn(g, n) == LinesIn(files, n)
  {
    LiveIsNoArchive();
  }

  lemma PrunedHas(g: Files)
    ensures var f := Pruned(g, KEEP_ARCHIVES);
      && ArchiveNames(f) <= ArchiveNames(g) && (LIVE !in g ==> LIVE !in f)
      && forall n :: n in ArchiveNames(f) ==> LinesIn(f, n) == LinesIn(g, n)
  {
    PrunedArchives(g);
  }

  lemma WrittenHas(f: Files, more: seq<string>)
    ensures ArchiveNames(f[LIVE := more]) == ArchiveNames(f) && LinesIn(f[LIVE := more], LIVE) == more
    ensures forall n :: n in ArchiveNames(f) ==> LinesIn(f[LIVE := more], n) == LinesIn(f, n)
  {
    LiveIsNoArchive();
  }

  ghost predicate Greatest(names: set<string>, n: string) {
    n in names && forall m :: m in names && m != n ==> Less(m, n)
  }

  /** After a rotation onto any name at all: what each remaining file holds. */
  lemma AfterRotation(files: Files, cap: nat, b: Batch)
    requires NeedsRotation(files, cap)
    ensures var name, f := ArchiveName(b.stamp), Appended(files, cap, b);
      && LinesIn(f, LIVE) == b.events
      && ArchiveNames(f) <= ArchiveNames(files) + {name}
      && (name in ArchiveNames(f) ==> LinesIn(f, name) == files[LIVE])
      && (forall n :: n in ArchiveNames(f) && n != name ==> LinesIn(f, n) == LinesIn(files, n))
      && (forall n :: Greatest(ArchiveNames(files) + {name}, n) ==> n in ArchiveNames(f))
      && (name in ArchiveNames(files) && |Archives(files)| <= KEEP_ARCHIVES ==> ArchiveNames(f) == ArchiveNames(files))
  {
    hide ArchiveNames, LinesIn, Pruned, Renamed;
    var name := ArchiveName(b.stamp);
    var g := Renamed(files, name);
    var f := Pruned(g, KEEP_ARCHIVES);
    NamesSortLikeStamps(b.stamp, b.stamp);
    RenamedHas(files, name);
    PrunedHas(g);
    assert LinesIn(f, LIVE) == [] by { NotLive(g); EmptyLive(f); }
    assert [] + b.events == b.events;
    WrittenHas(f, b.events);
    forall n | Greatest(ArchiveNames(g), n) ensures n in ArchiveNames(f) { GreatestStays(g, n); }
    if name in ArchiveNames(files) {
      RenamedOver(files, name);
    }
  }

  lemma EmptyLive(f: Files)
    requires LIVE !in f
    ensures LinesIn(f, LIVE) == []
  {
  }

  lemma GreatestStays(g: Files, n: string)
    requires Greatest(ArchiveNames(g), n)
    ensures n in ArchiveNames(Pruned(g, KEEP_ARCHIVES))
  {
    var names, f := Archives(g), Pruned(g, KEEP_ARCHIVES);
    PrunedArchives(g);
    ListingExact(ArchiveNames(g));
    ListingExact(ArchiveNames(f));
    var last := |names| - 1;
    assert names[last] in ArchiveNames(g);
    var i :| 0 <= i < |names| && names[i] == n;
    LessTotal(names[last], n);
    assert names[last] == n;
    assert Archives(f)[|Archives(f)| - 1] == n;
  }

  /** Distinct lines: a line of one segment is found in no file that holds another. */
  lemma WhereItStands(files: Files, segs: seq<seq<string>>, cap: nat, b: Batch, a: nat, x: string)
    requires Ready(files, segs, cap, b) && a <= |segs| && x in (segs + [b.events])[a]
    ensures x in b.events ==> a == |segs|
    ensures x in files[LIVE] ==> a == |segs| - 1
    ensures forall m :: m in ArchiveNames(files) && x in LinesIn(files, m) ==> HoldsSegment(files, segs, m, a)
  {
    hide ArchiveNames, LinesIn, Distinct, Flatten;
    var all := segs + [b.events];
    assert all[|segs| - 1] == files[LIVE] && all[|segs|] == b.events;
    if x in b.events { OneSegment(all, a, |segs|, x); }
    if x in files[LIVE] { OneSegment(all, a, |segs| - 1, x); }
    forall m | m in ArchiveNames(files) && x in LinesIn(files, m) ensures HoldsSegment(files, segs, m, a) {
      var c := ArchivedSegment(files, segs, m);
      assert all[c] == segs[c];
      OneSegment(all, a, c, x);
    }
  }

  /** A line of the live segment can be read back only while its new archive stands. */
  lemma LiveLineRead(files: Files, segs: seq<seq<string>>, cap: nat, b: Batch, x: string)
    requires Ready(files, segs, cap, b) && x in files[LIVE]
    ensures x in History(Appended(files, cap, b)) ==> ArchiveName(b.stamp) in ArchiveNames(Appended(files, cap, b))
  {
    hide Distinct, Flatten, ArchiveNames, LinesIn, Appended, History;
    var f := Appended(files, cap, b);
    AfterRotation(files, cap, b);
    HistoryHas(f, x);
    assert x in (segs + [b.events])[|segs| - 1];
    WhereItStands(files, segs, cap, b, |segs| - 1, x);
  }

  /** A line of an archived segment cannot be read back once its archive was overwritten. */
  lemma OverwrittenUnread(files: Files, segs: seq<seq<string>>, cap: nat, b: Batch, a: nat, x: string)
    requires Ready(files, segs, cap, b) && a < |segs| - 1 && x in segs[a]
    requires forall m :: m in ArchiveNames(files) && m != ArchiveName(b.stamp) ==> !HoldsSegment(files, segs, m, a)
    ensures x !in History(Appended(files, cap, b))
  {
    hide Distinct, Flatten, ArchiveNames, LinesIn, Appended, History, HoldsSegment;
    var f := Appended(files, cap, b);
    AfterRotation(files, cap, b);
    HistoryHas(f, x);
    assert x in (segs + [b.events])[a];
    WhereItStands(files, segs, cap, b, a, x);
  }

  /** A new archive that sorts before one present: the history is out of order, or has a hole. */
  lemma OlderNameBreaks(files: Files, segs: seq<seq<string>>, cap: nat, b: Batch, n: string)
    requires Ready(files, segs, cap, b) && n in ArchiveNames(files) && Less(ArchiveName(b.stamp), n)
    ensures !IsSuffix(History(Appended(files, cap, b)), Flatten(segs + [b.events]))
  {
    var name, f, all := ArchiveName(b.stamp), Appended(files, cap, b), segs + [b.events];
    var top := NewestArchive(files, segs);
    if n != top { LessTransitive(name, n, top); }
    LessTotal(name, top);
    AfterRotation(files, cap, b);
    assert Greatest(ArchiveNames(files) + {name}, top);
    var x, y := segs[|segs| - 2][0], files[LIVE][0];
    assert x in all[|segs| - 2] && y in all[|segs| - 1];
    FlattenPrecedes(all, |segs| - 2, |segs| - 1, x, y);
    assert x in LinesIn(f, top);
    HistoryHas(f, x);
    OutOfOrder(files, segs, cap, b, top, x, y);
  }

  lemma OutOfOrder(files: Files, segs: seq<seq<string>>, cap: nat, b: Batch, top: string, x: string, y: string)
    requires Ready(files, segs, cap, b) && Less(ArchiveName(b.stamp), top)
    requires var f := Appended(files, cap, b);
             x in History(f) && top in ArchiveNames(f) && x in LinesIn(f, top)
             && (ArchiveName(b.stamp) in ArchiveNames(f) ==> y in LinesIn(f, ArchiveName(b.stamp)))
    requires y in files[LIVE] && Precedes(Flatten(segs + [b.events]), x, y)
    ensures !IsSuffix(History(Appended(files, cap, b)), Flatten(segs + [b.events]))
  {
    var name, f, t := ArchiveName(b.stamp), Appended(files, cap, b), Flatten(segs + [b.events]);
    if IsSuffix(History(f), t) {
      hide IsSuffix, Precedes, History, Flatten, Appended, Distinct, ArchiveNames, LinesIn;
      SuffixClosed(History(f), t, x, y);
      LiveLineRead(files, segs, cap, b, y);
      HistoryPrecedes(f, name, top, y, x);
      SuffixPrecedes(History(f), t, y, x);
      PrecedesOneWay(t, x, y);
    }
  }

  /** An archive holds one segment only, the one its place says. */
  lemma HolderOf(files: Files, segs: seq<seq<string>>, cap: nat, b: Batch, i: nat, a: nat)
    requires Ready(files, segs, cap, b) && i < |Archives(files)|
    requires HoldsSegment(files, segs, Archives(files)[i], a)
    ensures a == |segs| - 1 - |Archives(files)| + i
  {
    var all, c := segs + [b.events], |segs| - 1 - |Archives(files)| + i;
    assert LinesIn(files, Archives(files)[i]) == segs[c];
    assert all[a] == segs[a] && all[c] == segs[c] && segs[a] != [];
    assert segs[a][0] in segs[a];
    OneSegment(all, a, c, segs[a][0]);
  }

  /** The name of the newest archive taken again, with an older archive present: a hole. */
  lemma TakenNameBreaks(files: Files, segs: seq<seq<string>>, cap: nat, b: Batch)
    requires Ready(files, segs, cap, b) && |Archives(files)| >= 2
    requires ArchiveName(b.stamp) == Archives(files)[|Archives(files)| - 1]
    ensures !IsSuffix(History(Appended(files, cap, b)), Flatten(segs + [b.events]))
  {
    var name, f, all, k := ArchiveName(b.stamp), Appended(files, cap, b), segs + [b.events], |Archives(files)|;
    var n := Archives(files)[k - 2];
    hide Distinct, Flatten, IsSuffix, Precedes, Appended, History, Archives, LinesIn;
    HoldsCount(files, segs);
    LastName(files, k - 1);
    LastName(files, k - 2);
    AfterRotation(files, cap, b);
    var x, y := segs[|segs| - 3][0], segs[|segs| - 2][0];
    assert LinesIn(files, n) == segs[|segs| - 3] && x in LinesIn(f, n);
    assert x in all[|segs| - 3] && y in all[|segs| - 2];
    FlattenPrecedes(all, |segs| - 3, |segs| - 2, x, y);
    HistoryHas(f, x);
    forall m | m in ArchiveNames(files) && m != name ensures !HoldsSegment(files, segs, m, |segs| - 2) {
      NotHolder(files, segs, cap, b, m);
    }
    OverwrittenUnread(files, segs, cap, b, |segs| - 2, y);
    Hole(History(f), Flatten(all), x, y);
  }

  lemma NotHolder(files: Files, segs: seq<seq<string>>, cap: nat, b: Batch, m: string)
    requires Ready(files, segs, cap, b) && m in ArchiveNames(files) && |segs| >= 2
    requires m != Archives(files)[|Archives(files)| - 1]
    ensures !HoldsSegment(files, segs, m, |segs| - 2)
  {
    ListingExact(ArchiveNames(files));
    var i :| 0 <= i < |Archives(files)| && Archives(files)[i] == m;
    if HoldsSegment(files, segs, m, |segs| - 2) { HolderOf(files, segs, cap, b, i, |segs| - 2); }
  }

  lemma Hole(s: seq<string>, t: seq<string>, x: string, y: string)
    requires Distinct(t) && Precedes(t, x, y) && x in s && y !in s
    ensures !IsSuffix(s, t)
  {
    if IsSuffix(s, t) { SuffixClosed(s, t, x, y); }
  }

  /** The only archive overwritten: what is left is the newest two segments, a suffix still. */
  lemma SoleArchiveTaken(files: Files, segs: seq<seq<string>>, cap: nat, b: Batch)
    requires Ready(files, segs, cap, b) && Archives(files) == [ArchiveName(b.stamp)]
    ensures IsSuffix(History(Appended(files, cap, b)), Flatten(segs + [b.events]))
    ensures !Holds(Appended(files, cap, b), segs + [b.events])
  {
    HoldsCount(files, segs);
    assert |segs| == 2;
    var left := segs[..|segs| - 2] + [segs[|segs| - 1], b.events];
    SameSecondLosesASegment(files, segs, cap, b);
    HistoryIs(Appended(files, cap, b), left);
    var all := segs + [b.events];
    assert all == [segs[0]] + left;
    FlattenConcat([segs[0]], left);
  }

  /** Full refinement reads back as a suffix. */
  lemma HoldsIsSuffix(f: Files, all: seq<seq<string>>)
    requires Holds(f, all)
    ensures IsSuffix(History(f), Flatten(all))
  {
    HistoryIs(f, all);
    var kept := Newest(all, KEEP_ARCHIVES + 1);
    var older := all[..|all| - |kept|];
    assert all == older + kept;
    FlattenConcat(older, kept);
  }

  /** Why an archive name is not the newest. */
  lemma NotNewest(files: Files, name: string)
    requires IsArchive(name) && !NewerThanAll(files, name)
    ensures (exists n :: n in ArchiveNames(files) && Less(name, n))
         || (Archives(files) != [] && name == Archives(files)[|Archives(files)| - 1])
  {
    var n :| n in files && IsArchive(n) && !Less(n, name);
    assert n in ArchiveNames(files);
    LessTotal(n, name);
    if !(exists n :: n in ArchiveNames(files) && Less(name, n)) {
      assert n == name;
      ListingExact(ArchiveNames(files));
      var names := Archives(files);
      var i :| 0 <= i < |names| && names[i] == n;
      assert names[|names| - 1] in ArchiveNames(files);
      LessTotal(names[|names| - 1], n);
    }
  }

  /** One rotation, exactly. With every line told apart: the directory goes on holding the
      newest segments if and only if the new archive is named after every archive present; and
      what can be read back is still a contiguous suffix if and only if that holds, or the name
      is that of the only archive, which is then the one segment lost. */
  lemma RotationExact(files: Files, segs: seq<seq<string>>, cap: nat, b: Batch)
    requires Ready(files, segs, cap, b)
    ensures var f, all := Appended(files, cap, b), segs + [b.events];
      && (Holds(f, all) <==> NewerThanAll(files, ArchiveName(b.stamp)))
      && (IsSuffix(History(f), Flatten(all)) <==>
            NewerThanAll(files, ArchiveName(b.stamp)) || Archives(files) == [ArchiveName(b.stamp)])
  {
    var name, f, all := ArchiveName(b.stamp), Appended(files, cap, b), segs + [b.events];
    NamesSortLikeStamps(b.stamp, b.stamp);
    if NewerThanAll(files, name) {
      AppendHolds(files, cap, b, segs);
      LiveSize(files, segs);
      HoldsIsSuffix(f, all);
    } else {
      hide Holds, IsSuffix, History, Appended, Distinct, Ready, Flatten;
      NotNewest(files, name);
      if n :| n in ArchiveNames(files) && Less(name, n) {
        OlderNameBreaks(files, segs, cap, b, n);
        NotThatOne(files, n, name);
      } else if |Archives(files)| >= 2 {
        TakenNameBreaks(files, segs, cap, b);
      } else {
        assert Archives(files) == [name];
        SoleArchiveTaken(files, segs, cap, b);
      }
      if Holds(f, all) { HoldsIsSuffix(f, all); }
    }
  }

  lemma LiveSize(files: Files, segs: seq<seq<string>>)
    requires Holds(files, segs) && LIVE in files
    ensures segs != [] && files[LIVE] == segs[|segs| - 1]
  {
  }

  lemma NotThatOne(files: Files, n: string, name: string)
    requires n in ArchiveNames(files) && Less(name, n)
    ensures Archives(files) != [name]
  {
    ListingExact(ArchiveNames(files));
    LessTotal(name, name);
    assert n in Archives(files);
  }

  // ---------------------------------------------------------------- whole runs, exactly

  ghost predicate Outgrown(cap: nat, segs: seq<seq<string>>) {
    forall i :: 0 <= i < |segs| ==> SizeOf(segs[i]) > cap
  }

  lemma OutgrownPush(cap: nat, segs: seq<seq<string>>)
    requires segs != [] && Outgrown(cap, segs[..|segs| - 1]) && SizeOf(segs[|segs| - 1]) > cap
    ensures Outgrown(cap, segs)
  {
    forall i | 0 <= i < |segs| ensures SizeOf(segs[i]) > cap {
      if i < |segs| - 1 { assert segs[i] == segs[..|segs| - 1][i]; }
    }
  }

  /** Only segments past the cap are archived, so none is empty. */
  lemma {:induction false} ArchivedOutgrew(cap: nat, bs: seq<Batch>)
    ensures var segs := Segments(cap, bs); segs != [] ==> Outgrown(cap, segs[..|segs| - 1])
  {
    if bs != [] {
      var before, segs := Segments(cap, bs[..|bs| - 1]), Segments(cap, bs);
      ArchivedOutgrew(cap, bs[..|bs| - 1]);
      if before == [] {
        assert segs[..|segs| - 1] == [];
      } else if SizeOf(before[|before| - 1]) > cap {
        OutgrownPush(cap, before);
        assert segs[..|segs| - 1] == before;
      } else {
        assert segs[..|segs| - 1] == before[..|before| - 1];
      }
    }
  }

  lemma {:induction false} EverythingPrefix(bs: seq<Batch>, n: nat)
    requires n <= |bs|
    ensures Everything(bs[..n]) <= Everything(bs)
  {
    if n == |bs| {
      assert bs[..n] == bs;
    } else {
      EverythingPrefix(bs[..|bs| - 1], n);
      assert bs[..|bs| - 1][..n] == bs[..n];
    }
  }

  lemma DistinctPrefix(s: seq<string>, t: seq<string>)
    requires Distinct(t) && s <= t
    ensures Distinct(s)
  {
  }

  lemma NoneEmpty(cap: nat, segs: seq<seq<string>>)
    requires segs != [] ==> Outgrown(cap, segs[..|segs| - 1])
    ensures forall i :: 0 <= i < |segs| - 1 ==> segs[i] != []
  {
    forall i | 0 <= i < |segs| - 1 ensures segs[i] != [] {
      assert segs[i] == segs[..|segs| - 1][i];
    }
  }

  /** The step of a run, and of its segments, at a rotation. */
  lemma RotationStep(cap: nat, files: Files, bs: seq<Batch>, i: nat)
    requires i < |bs| && RotatesAt(cap, files, bs, i)
    requires Holds(Run(cap, files, bs[..i]), Segments(cap, bs[..i]))
    ensures Run(cap, files, bs[..i + 1]) == Appended(Run(cap, files, bs[..i]), cap, bs[i])
    ensures Segments(cap, bs[..i + 1]) == Segments(cap, bs[..i]) + [bs[i].events]
  {
    hide Holds, Appended, SizeOf;
    var init := bs[..i + 1];
    assert init[..|init| - 1] == bs[..i] && init[|init| - 1] == bs[i];
    LiveSize(Run(cap, files, bs[..i]), Segments(cap, bs[..i]));
  }

  /** A rotation of a run that has refined its segments so far. */
  lemma RunReady(cap: nat, files: Files, bs: seq<Batch>, i: nat)
    requires i < |bs| && Distinct(Everything(bs)) && RotatesAt(cap, files, bs, i)
    requires Holds(Run(cap, files, bs[..i]), Segments(cap, bs[..i]))
    ensures Ready(Run(cap, files, bs[..i]), Segments(cap, bs[..i]), cap, bs[i])
  {
    hide Holds, Distinct, Everything, Flatten, Appended, Run, Segments, Outgrown;
    RotationStep(cap, files, bs, i);
    ArchivedOutgrew(cap, bs[..i]);
    NoneEmpty(cap, Segments(cap, bs[..i]));
    SegmentsAreEverything(cap, bs[..i + 1]);
    EverythingPrefix(bs, i + 1);
    DistinctPrefix(Everything(bs[..i + 1]), Everything(bs));
  }

  /** Over any run of appends with all lines told apart: the directory holds the newest segments
      after every append if and only if every rotation names its archive after all present. */
  lemma RunExact(cap: nat, files: Files, bs: seq<Batch>)
    requires Clean(files) && Distinct(Everything(bs))
    ensures (forall i :: 0 <= i <= |bs| ==> Holds(Run(cap, files, bs[..i]), Segments(cap, bs[..i])))
       <==> Ascending(cap, files, bs)
  {
    if Ascending(cap, files, bs) {
      forall i | 0 <= i <= |bs| ensures Holds(Run(cap, files, bs[..i]), Segments(cap, bs[..i])) {
        AscendingPrefix(cap, files, bs, i);
        RunHolds(cap, files, bs[..i]);
      }
    }
    if forall i :: 0 <= i <= |bs| ==> Holds(Run(cap, files, bs[..i]), Segments(cap, bs[..i])) {
      forall i | 0 <= i < |bs| && RotatesAt(cap, files, bs, i)
        ensures NewerThanAll(Run(cap, files, bs[..i]), ArchiveName(bs[i].stamp))
      {
        hide Holds, Ready;
        assert Holds(Run(cap, files, bs[..i + 1]), Segments(cap, bs[..i + 1]));
        RotationStep(cap, files, bs, i);
        RunReady(cap, files, bs, i);
        RotationExact(Run(cap, files, bs[..i]), Segments(cap, bs[..i]), cap, bs[i]);
      }
    }
  }

  // ---------------------------------------------------------------- whole runs as suffixes

  /** The directory holds segments that end everything appended. */
  ghost predicate Follows(f: Files, kept: seq<seq<string>>, all: seq<string>) {
    Holds(f, kept) && (forall i :: 0 <= i < |kept| - 1 ==> kept[i] != []) && IsSuffix(Flatten(kept), all)
  }

  ghost predicate SomeFollow(f: Files, all: seq<string>) {
    exists kept :: Follows(f, kept, all)
  }

  /** The new archive sorts after all present, or replaces the only one. */
  ghost predicate NameFits(f: Files, name: string) {
    NewerThanAll(f, name) || Archives(f) == [name]
  }

  lemma SuffixOf(r: seq<string>, s: seq<string>, t: seq<string>)
    requires IsSuffix(s, t)
    ensures IsSuffix(r, s) ==> IsSuffix(r, t)
    ensures IsSuffix(r, t) && |r| <= |s| ==> IsSuffix(r, s)
  {
    if IsSuffix(r, t) && |r| <= |s| {
      assert s[|s| - |r|..] == t[|t| - |s|..][|s| - |r|..] == t[|t| - |r|..];
    }
    if IsSuffix(r, s) {
      assert t[|t| - |r|..] == t[|t| - |s|..][|s| - |r|..];
    }
  }

  lemma SuffixPush(s: seq<string>, t: seq<string>, more: seq<string>)
    requires IsSuffix(s, t)
    ensures IsSuffix(s + more, t + more)
  {
    assert (t + more)[|t + more| - |s + more|..] == t[|t| - |s|..] + more;
  }

  lemma DistinctSuffix(s: seq<string>, t: seq<string>)
    requires Distinct(t) && IsSuffix(s, t)
    ensures Distinct(s)
  {
    var d := |t| - |s|;
    forall i, j | 0 <= i < j < |s| ensures s[i] != s[j] {
      assert s[i] == t[d + i] && s[j] == t[d + j];
    }
  }

  lemma FollowsReady(f: Files, kept: seq<seq<string>>, all: seq<string>, cap: nat, b: Batch)
    requires Follows(f, kept, all) && NeedsRotation(f, cap) && Distinct(all + b.events)
    ensures Ready(f, kept, cap, b) && IsSuffix(Flatten(kept + [b.events]), all + b.events)
    ensures kept != [] && f[LIVE] == kept[|kept| - 1] && kept[|kept| - 1] != []
  {
    hide Holds, Distinct, IsSuffix;
    FlattenLast(kept, b.events);
    SuffixPush(Flatten(kept), all, b.events);
    DistinctSuffix(Flatten(kept + [b.events]), all + b.events);
    LiveSize(f, kept);
    SizeOfNothing();
  }

  lemma SizeOfNothing()
    ensures SizeOf([]) == 0
  {
  }

  /** Nothing is read back that was not held or just appended. */
  lemma HistoryWithin(f: Files, kept: seq<seq<string>>, cap: nat, b: Batch, x: string)
    requires Ready(f, kept, cap, b) && x in History(Appended(f, cap, b))
    ensures x in Flatten(kept + [b.events])
  {
    hide Distinct, Flatten, ArchiveNames, LinesIn, Appended, History;
    var g, all := Appended(f, cap, b), kept + [b.events];
    AfterRotation(f, cap, b);
    HistoryHas(g, x);
    LiveSize(f, kept);
    if x in b.events {
      FlattenHas(all, |kept|, x);
    } else {
      var n :| n in ArchiveNames(g) && x in LinesIn(g, n);
      if n == ArchiveName(b.stamp) {
        FlattenHas(all, |kept| - 1, x);
      } else {
        var a := ArchivedSegment(f, kept, n);
        FlattenHas(all, a, x);
      }
    }
  }

  /** One rotation of such a directory: still a suffix of everything exactly when the name fits. */
  lemma FollowsExact(f: Files, kept: seq<seq<string>>, all: seq<string>, cap: nat, b: Batch)
    requires Follows(f, kept, all) && NeedsRotation(f, cap) && Distinct(all + b.events)
    ensures IsSuffix(History(Appended(f, cap, b)), all + b.events) <==> NameFits(f, ArchiveName(b.stamp))
  {
    var h, t, u := History(Appended(f, cap, b)), Flatten(kept + [b.events]), all + b.events;
    FollowsReady(f, kept, all, cap, b);
    RotationExact(f, kept, cap, b);
    hide Holds, Ready, IsSuffix, History, Appended, Flatten, Distinct, NewerThanAll, Archives;
    SuffixOf(h, t, u);
    if IsSuffix(h, u) && |h| > |t| {
      TooLong(h, t, u);
      var x :| x in h && x !in t;
      HistoryWithin(f, kept, cap, b, x);
    }
  }

  lemma TooLong(h: seq<string>, t: seq<string>, u: seq<string>)
    requires IsSuffix(h, u) && IsSuffix(t, u) && |h| > |t| && Distinct(u)
    ensures exists x :: x in h && x !in t
  {
    var d := |u| - |h|;
    assert h[0] == u[d] && h[0] in h;
    forall j | 0 <= j < |t| ensures t[j] != h[0] {
      assert t[j] == u[|u| - |t| + j];
    }
  }

  /** Any append whose name fits leaves such a directory. */
  lemma FollowsOn(f: Files, all: seq<string>, cap: nat, b: Batch)
    requires SomeFollow(f, all) && Distinct(all + b.events)
    requires NeedsRotation(f, cap) ==> NameFits(f, ArchiveName(b.stamp))
    ensures SomeFollow(Appended(f, cap, b), all + b.events)
  {
    var kept :| Follows(f, kept, all);
    var name := ArchiveName(b.stamp);
    NamesSortLikeStamps(b.stamp, b.stamp);
    if !NeedsRotation(f, cap) {
      StaysFollowing(f, kept, all, cap, b);
    } else {
      FollowsReady(f, kept, all, cap, b);
      if NewerThanAll(f, name) {
        AppendHolds(f, cap, b, kept);
        assert Follows(Appended(f, cap, b), kept + [b.events], all + b.events);
      } else {
        SoleFollows(f, kept, all, cap, b);
      }
    }
  }

  lemma StaysFollowing(f: Files, kept: seq<seq<string>>, all: seq<string>, cap: nat, b: Batch)
    requires Follows(f, kept, all) && !NeedsRotation(f, cap)
    ensures SomeFollow(Appended(f, cap, b), all + b.events)
  {
    AppendHolds(f, cap, b, kept);
    SuffixPush(Flatten(kept), all, b.events);
    if kept == [] {
      FlattenLast([], b.events);
      assert kept + [b.events] == [b.events];
      assert Follows(Appended(f, cap, b), kept + [b.events], all + b.events);
    } else {
      LiveInPlace(f, kept);
      var grown := kept[|kept| - 1 := kept[|kept| - 1] + b.events];
      FlattenGrown(kept, b.events);
      assert Follows(Appended(f, cap, b), grown, all + b.events);
    }
  }

  lemma LiveInPlace(f: Files, kept: seq<seq<string>>)
    requires Holds(f, kept) && kept != []
    ensures LIVE in f && f[LIVE] == kept[|kept| - 1]
  {
  }

  lemma SoleFollows(f: Files, kept: seq<seq<string>>, all: seq<string>, cap: nat, b: Batch)
    requires Follows(f, kept, all) && NeedsRotation(f, cap) && Distinct(all + b.events)
    requires Archives(f) == [ArchiveName(b.stamp)]
    ensures SomeFollow(Appended(f, cap, b), all + b.events)
  {
    FollowsReady(f, kept, all, cap, b);
    HoldsCount(f, kept);
    assert |kept| == 2;
    SameSecondLosesASegment(f, kept, cap, b);
    var left := kept[..|kept| - 2] + [kept[|kept| - 1], b.events];
    assert kept + [b.events] == [kept[0]] + left;
    FlattenConcat([kept[0]], left);
    SuffixOf(Flatten(left), Flatten(kept + [b.events]), all + b.events);
    assert Follows(Appended(f, cap, b), left, all + b.events);
  }

  ghost predicate FitsAt(cap: nat, files: Files, bs: seq<Batch>, i: nat)
    requires i < |bs|
  {
    RotatesAt(cap, files, bs, i) ==> NameFits(Run(cap, files, bs[..i]), ArchiveName(bs[i].stamp))
  }

  lemma RunStep(cap: nat, files: Files, bs: seq<Batch>, i: nat)
    requires i < |bs| && Distinct(Everything(bs))
    ensures Run(cap, files, bs[..i + 1]) == Appended(Run(cap, files, bs[..i]), cap, bs[i])
    ensures Everything(bs[..i + 1]) == Everything(bs[..i]) + bs[i].events
    ensures Distinct(Everything(bs[..i]) + bs[i].events)
  {
    hide Distinct;
    assert bs[..i + 1][..i] == bs[..i] && bs[..i + 1][i] == bs[i];
    EverythingPrefix(bs, i + 1);
    DistinctPrefix(Everything(bs[..i + 1]), Everything(bs));
  }

  lemma {:induction false} FittingRunFollows(cap: nat, files: Files, bs: seq<Batch>, n: nat)
    requires Clean(files) && Distinct(Everything(bs)) && n <= |bs|
    requires forall i :: 0 <= i < n ==> FitsAt(cap, files, bs, i)
    ensures SomeFollow(Run(cap, files, bs[..n]), Everything(bs[..n]))
  {
    hide Distinct, Clean, SomeFollow, NameFits, Appended;
    if n == 0 {
      NothingFollows(cap, files);
      assert bs[..0] == [];
    } else {
      FittingRunFollows(cap, files, bs, n - 1);
      RunStep(cap, files, bs, n - 1);
      assert FitsAt(cap, files, bs, n - 1);
      FollowsOn(Run(cap, files, bs[..n - 1]), Everything(bs[..n - 1]), cap, bs[n - 1]);
    }
  }

  lemma NothingFollows(cap: nat, files: Files)
    requires Clean(files)
    ensures SomeFollow(files, [])
  {
    CleanHolds(cap, files);
    assert Follows(files, [], []);
  }

  lemma FollowsIsSuffix(f: Files, all: seq<string>)
    requires SomeFollow(f, all)
    ensures IsSuffix(History(f), all)
  {
    var kept :| Follows(f, kept, all);
    HoldsIsSuffix(f, kept);
    SuffixOf(History(f), Flatten(kept), all);
  }

  /** What can be read back is a suffix of everything appended, after each append so far. */
  ghost predicate AlwaysSuffix(cap: nat, files: Files, bs: seq<Batch>) {
    forall n :: 0 <= n <= |bs| ==> IsSuffix(History(Run(cap, files, bs[..n])), Everything(bs[..n]))
  }

  lemma {:induction false} SuffixRunFits(cap: nat, files: Files, bs: seq<Batch>, n: nat)
    requires Clean(files) && Distinct(Everything(bs)) && AlwaysSuffix(cap, files, bs) && n <= |bs|
    ensures forall i :: 0 <= i < n ==> FitsAt(cap, files, bs, i)
  {
    hide Distinct, Clean, SomeFollow, NameFits, Appended, IsSuffix, History;
    if n > 0 {
      SuffixRunFits(cap, files, bs, n - 1);
      FittingRunFollows(cap, files, bs, n - 1);
      RunStep(cap, files, bs, n - 1);
      assert IsSuffix(History(Run(cap, files, bs[..n])), Everything(bs[..n]));
      LastFits(Run(cap, files, bs[..n - 1]), Everything(bs[..n - 1]), cap, bs[n - 1]);
    }
  }

  lemma LastFits(f: Files, all: seq<string>, cap: nat, b: Batch)
    requires SomeFollow(f, all) && Distinct(all + b.events)
    requires IsSuffix(History(Appended(f, cap, b)), all + b.events)
    ensures NeedsRotation(f, cap) ==> NameFits(f, ArchiveName(b.stamp))
  {
    hide Follows, Distinct, IsSuffix, NameFits;
    var kept :| Follows(f, kept, all);
    if NeedsRotation(f, cap) { FollowsExact(f, kept, all, cap, b); }
  }

  /** Over any run of appends with all lines told apart: what can be read back is a contiguous
      suffix of everything appended, after every append, if and only if every rotation names its
      archive after all present or takes the name of the only one. */
  lemma RunSuffixExact(cap: nat, files: Files, bs: seq<Batch>)
    requires Clean(files) && Distinct(Everything(bs))
    ensures AlwaysSuffix(cap, files, bs) <==> forall i :: 0 <= i < |bs| ==> FitsAt(cap, files, bs, i)
  {
    hide Distinct, Clean, FitsAt, SomeFollow, IsSuffix, History;
    if AlwaysSuffix(cap, files, bs) {
      SuffixRunFits(cap, files, bs, |bs|);
    }
    if forall i :: 0 <= i < |bs| ==> FitsAt(cap, files, bs, i) {
      forall n | 0 <= n <= |bs| ensures IsSuffix(History(Run(cap, files, bs[..n])), Everything(bs[..n])) {
        FittingRunFollows(cap, files, bs, n);
        FollowsIsSuffix(Run(cap, files, bs[..n]), Everything(bs[..n]));
      }
    }
  }

  // ---------------------------------------------------------------- two runs that go wrong

  const NOTHING: Files := map[]

  lemma OneMore(cap: nat, bs: seq<Batch>, b: Batch)
    ensures Run(cap, NOTHING, bs + [b]) == Appended(Run(cap, NOTHING, bs), cap, b)
    ensures Everything(bs + [b]) == Everything(bs) + b.events
  {
    assert (bs + [b])[..|bs|] == bs;
  }

  lemma {:induction false} ListingSize(s: set<string>)
    ensures |Listing(s)| == |s|
    decreases |s|
  {
    if s != {} { ListingSize(s - {Least(s)}); }
  }

  /** A rotation at cap 0 while there are few archives: nothing is pruned. */
  lemma SmallRotation(f: Files, stamp: string, x: string, y: string)
    requires LIVE in f && f[LIVE] == [x] && |ArchiveNames(f) + {ArchiveName(stamp)}| <= KEEP_ARCHIVES
    ensures Appended(f, 0, Batch(stamp, [y])) == f[ArchiveName(stamp) := [x]][LIVE := [y]]
  {
    var name := ArchiveName(stamp);
    var g := Renamed(f, name);
    NamesSortLikeStamps(stamp, stamp);
    RenamedHas(f, name);
    ListingSize(ArchiveNames(g));
    assert [x][..|[x]| - 1] == [];
    assert SizeOf([x]) > 0;
    assert Pruned(g, KEEP_ARCHIVES) == g;
    assert [] + [y] == [y];
  }

  lemma FirstAppend(stamp: string, a: string)
    ensures Run(0, NOTHING, [Batch(stamp, [a])]) == map[LIVE := [a]]
    ensures Everything([Batch(stamp, [a])]) == [a]
  {
    OneMore(0, [], Batch(stamp, [a]));
    assert [] + [Batch(stamp, [a])] == [Batch(stamp, [a])];
    assert [] + [a] == [a];
  }

  lemma NextAppend(bs: seq<Batch>, stamp: string, x: string, y: string)
    requires var f := Run(0, NOTHING, bs);
             LIVE in f && f[LIVE] == [x] && |ArchiveNames(f) + {ArchiveName(stamp)}| <= KEEP_ARCHIVES
    ensures Run(0, NOTHING, bs + [Batch(stamp, [y])]) == Run(0, NOTHING, bs)[ArchiveName(stamp) := [x]][LIVE := [y]]
    ensures Everything(bs + [Batch(stamp, [y])]) == Everything(bs) + [y]
  {
    OneMore(0, bs, Batch(stamp, [y]));
    SmallRotation(Run(0, NOTHING, bs), stamp, x, y);
  }

  function Three(s: string, t: string, a: string, b: string, c: string): seq<Batch> {
    [Batch(s, [a])] + [Batch(s, [b])] + [Batch(t, [c])]
  }

  /** A journal of two archives and a live line. */
  function Trio(m: string, n: string, x: string, y: string, z: string): Files {
    map[LIVE := [z], m := [x], n := [y]]
  }

  lemma TrioNames(m: string, n: string, x: string, y: string, z: string)
    requires IsArchive(m) && IsArchive(n) && m != n
    ensures var f := Trio(m, n, x, y, z);
      && ArchiveNames(f) == {m, n} && LIVE in f && f[LIVE] == [z]
      && LinesIn(f, m) == [x] && LinesIn(f, n) == [y] && LinesIn(f, LIVE) == [z]
    ensures forall u, v :: Trio(m, n, x, y, z)[n := [u]][LIVE := [v]] == Trio(m, n, x, u, v)
  {
    hide IsArchive;
    LiveIsNoArchive();
    forall u, v ensures Trio(m, n, x, y, z)[n := [u]][LIVE := [v]] == Trio(m, n, x, u, v) {}
    TrioArchives(m, n, x, y, z);
  }

  lemma TrioArchives(m: string, n: string, x: string, y: string, z: string)
    requires IsArchive(m) && IsArchive(n) && m != n
    ensures ArchiveNames(Trio(m, n, x, y, z)) == {m, n}
  {
    LiveIsNoArchive();
  }

  lemma PairSize(m: string, n: string)
    ensures |{m, n}| <= 2 <= KEEP_ARCHIVES
  {
    if m == n { assert {m, n} == {m}; }
  }

  lemma OneArchive(m: string, x: string, z: string)
    requires IsArchive(m)
    ensures ArchiveNames(map[LIVE := [z]]) == {} && ArchiveNames(map[LIVE := [z], m := [x]]) == {m}
    ensures map[LIVE := [x]][m := [x]][LIVE := [z]] == map[LIVE := [z], m := [x]]
  {
    LiveIsNoArchive();
  }

  /** Three appends at cap 0, two rotations with different stamps. */
  lemma ThreeAppends(s: string, t: string, a: string, b: string, c: string)
    requires |s| == |t| && s != t
    ensures Run(0, NOTHING, Three(s, t, a, b, c)) == Trio(ArchiveName(s), ArchiveName(t), a, b, c)
    ensures Everything(Three(s, t, a, b, c)) == [a, b, c]
  {
    hide ArchiveName, ArchiveNames, Run, Everything, Appended;
    var m, n := ArchiveName(s), ArchiveName(t);
    StampsApart(s, t);
    FirstAppend(s, a);
    OneArchive(m, a, a);
    OneArchive(m, a, b);
    PairSize(m, m);
    PairSize(m, n);
    assert {} + {m} == {m, m} && {m} + {n} == {m, n};
    NextAppend([Batch(s, [a])], s, a, b);
    NextAppend([Batch(s, [a])] + [Batch(s, [b])], t, b, c);
    assert map[LIVE := [b], m := [a]][n := [b]][LIVE := [c]] == Trio(m, n, a, b, c);
    assert [a] + [b] + [c] == [a, b, c];
  }

  lemma StampsApart(s: string, t: string)
    requires |s| == |t| && s != t
    ensures ArchiveName(s) != ArchiveName(t) && IsArchive(ArchiveName(s)) && IsArchive(ArchiveName(t))
    ensures !IsArchive(LIVE)
  {
    NamesSortLikeStamps(s, t);
    NamesSortLikeStamps(t, s);
    LessTotal(s, t);
    LessTotal(ArchiveName(s), ArchiveName(t));
    LiveIsNoArchive();
  }

  /** Two archives read in the order of their names, then the live file. */
  lemma TwoArchives(f: Files, m: string, n: string)
    requires ArchiveNames(f) == {m, n} && Less(m, n)
    ensures History(f) == LinesIn(f, m) + LinesIn(f, n) + LinesIn(f, LIVE)
  {
    LessTotal(m, n);
    ListingExact(ArchiveNames(f));
    IncreasingUnique(Archives(f), [m, n]);
    assert [m, n][..1] == [m] && [m][..0] == [];
    assert LinesOf(f, [m]) == LinesIn(f, m);
  }

  /** The clock set back between two rotations in different seconds: the order is lost. */
  lemma ClockSetBack(s: string, t: string, a: string, b: string, c: string)
    requires |s| == |t| == STAMP_LENGTH && Less(t, s)
    ensures var bs := Three(s, t, a, b, c);
            History(Run(0, NOTHING, bs)) == [b, a, c] && Everything(bs) == [a, b, c]
  {
    hide ArchiveName, ArchiveNames, Run, Everything, History;
    LessTotal(s, t);
    ThreeAppends(s, t, a, b, c);
    StampsApart(s, t);
    NamesSortLikeStamps(t, s);
    TrioNames(ArchiveName(s), ArchiveName(t), a, b, c);
    TwoArchives(Trio(ArchiveName(s), ArchiveName(t), a, b, c), ArchiveName(t), ArchiveName(s));
    assert [b] + [a] + [c] == [b, a, c];
  }

  /** Two rotations in one second: the segment between them is lost from the middle. */
  lemma SameSecondRun(s: string, t: string, a: string, b: string, c: string, d: string)
    requires |s| == |t| == STAMP_LENGTH && Less(s, t)
    ensures var bs := Three(s, t, a, b, c) + [Batch(t, [d])];
            History(Run(0, NOTHING, bs)) == [a, c, d] && Everything(bs) == [a, b, c, d]
  {
    hide ArchiveName, ArchiveNames, Run, Everything, History, Three;
    var m, n := ArchiveName(s), ArchiveName(t);
    LessTotal(s, t);
    ThreeAppends(s, t, a, b, c);
    StampsApart(s, t);
    TrioNames(m, n, a, b, c);
    TrioNames(m, n, a, c, d);
    PairSize(m, n);
    assert {m, n} + {n} == {m, n};
    NextAppend(Three(s, t, a, b, c), t, c, d);
    NamesSortLikeStamps(s, t);
    TwoArchives(Trio(m, n, a, c, d), m, n);
    assert [a] + [c] + [d] == [a, c, d] && [a, b, c] + [d] == [a, b, c, d];
  }
}
