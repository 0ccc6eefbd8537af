/** The event journal: one live file, archived when it outgrows its cap, and the few newest
    archives beside it. */
module Journal {
  import opened Ordered
  import opened Prelude

  /** The journal directory: file names and the lines in each file. */
  type Files = map<string, seq<string>>

  const LIVE := "events.jsonl"
  const PREFIX := "events."
  const SUFFIX := ".jsonl"
  const KEEP_ARCHIVES := 3
  const JOURNAL_MAX_BYTES := 1_048_576

  /** One append: the time stamp a rotation would use, and the event lines. */
  datatype Batch = Batch(stamp: string, events: seq<string>)

  function ArchiveName(stamp: string): string {
    PREFIX + stamp + SUFFIX
  }

  predicate EndsWith(s: string, t: string) {
    |t| <= |s| && s[|s| - |t|..] == t
  }

  predicate IsArchive(name: string) {
    name != LIVE && PREFIX <= name && EndsWith(name, SUFFIX)
  }

  function ArchiveNames(files: Files): set<string> {
    set n | n in files && IsArchive(n)
  }

  /** Archives present, oldest first. */
  function Archives(files: Files): seq<string> {
    Listing(ArchiveNames(files))
  }

  function SizeOf(lines: seq<string>): nat {
    if lines == [] then 0 else SizeOf(lines[..|lines| - 1]) + |lines[|lines| - 1]| + 1
  }

  predicate NeedsRotation(files: Files, cap: nat) {
    LIVE in files && SizeOf(files[LIVE]) > cap
  }

  /** The oldest names beyond the newest `keep`. */
  function Doomed(names: seq<string>, keep: nat): seq<string> {
    if |names| > keep then names[..|names| - keep] else []
  }

  function Without(files: Files, names: seq<string>): Files {
    map n | n in files && n !in names :: files[n]
  }

  function Pruned(files: Files, keep: nat): Files {
    Without(files, Doomed(Archives(files), keep))
  }

  function Renamed(files: Files, name: string): Files
    requires LIVE in files
  {
    (files - {LIVE})[name := files[LIVE]]
  }

  function Rotated(files: Files, cap: nat, stamp: string): Files {
    if NeedsRotation(files, cap) then Pruned(Renamed(files, ArchiveName(stamp)), KEEP_ARCHIVES) else files
  }

  function LinesIn(files: Files, name: string): seq<string> {
    if name in files then files[name] else []
  }

  function Appended(files: Files, cap: nat, b: Batch): Files {
    var f := Rotated(files, cap, b.stamp);
    f[LIVE := LinesIn(f, LIVE) + b.events]
  }

  function LinesOf(files: Files, names: seq<string>): seq<string> {
    if names == [] then [] else LinesOf(files, names[..|names| - 1]) + LinesIn(files, names[|names| - 1])
  }

  /** The whole retained history: archives oldest first, then the live file. */
  function History(files: Files): seq<string> {
    LinesOf(files, Archives(files)) + LinesIn(files, LIVE)
  }

  // ---------------------------------------------------------------- the directory, in place

  class Directory {
    var files: Files

    constructor ()
      ensures files == map[]
    {
      files := map[];
    }

    /** Deletes the oldest archives beyond the newest `keep`. */
    method PruneArchives(keep: nat) returns (removed: nat)
      modifies this
      ensures files == Pruned(old(files), keep)
      ensures removed == |Doomed(Archives(old(files)), keep)|
    {
      var archives := Archives(files);
      ghost var all := archives;
      removed := 0;
      assert files == Without(files, all[..0]);
      while |archives| > keep
        invariant removed <= |all| && archives == all[removed..]
        invariant removed > 0 ==> |all| - removed >= keep
        invariant files == Without(old(files), all[..removed])
      {
        var oldest := archives[0];
        archives := archives[1..];
        files := files - {oldest};
        WithoutNext(old(files), all, removed);
        removed := removed + 1;
      }
    }

    /** Archives the live file when it exceeds its cap, and prunes. */
    method RotateIfNeeded(cap: nat, stamp: string) returns (archive: Option<string>)
      modifies this
      ensures files == Rotated(old(files), cap, stamp)
      ensures archive == if NeedsRotation(old(files), cap) then Some(ArchiveName(stamp)) else None
    {
      if LIVE !in files { return None; }
      if SizeOf(files[LIVE]) <= cap { return None; }
      files := Renamed(files, ArchiveName(stamp));
      var _ := PruneArchives(KEEP_ARCHIVES);
      return Some(ArchiveName(stamp));
    }

    /** Rotates before writing. */
    method Append(stamp: string, events: seq<string>) returns (count: nat)
      modifies this
      ensures files == Appended(old(files), JOURNAL_MAX_BYTES, Batch(stamp, events))
      ensures count == |events|
    {
      var _ := RotateIfNeeded(JOURNAL_MAX_BYTES, stamp);
      var before := LinesIn(files, LIVE);
      if LIVE !in files { files := files[LIVE := []]; }
      ghost var start := files;
      assert before + events[..0] == before && start == start[LIVE := before];
      for i := 0 to |events|
        invariant LIVE in files && files == start[LIVE := before + events[..i]]
      {
        assert before + events[..i + 1] == before + events[..i] + [events[i]];
        files := files[LIVE := files[LIVE] + [events[i]]];
      }
      assert events[..|events|] == events;
      return |events|;
    }

    method ReadAllIncludingArchives<E>(parse: string -> Option<E>) returns (events: seq<E>)
      ensures events == Parsed(parse, History(files))
    {
      events := [];
      var archives := Archives(files);
      for i := 0 to |archives|
        invariant events == Parsed(parse, LinesOf(files, archives[..i]))
      {
        assert archives[..i + 1][..i] == archives[..i];
        var more := ReadFile(parse, archives[i]);
        ParsedConcat(parse, LinesOf(files, archives[..i]), LinesIn(files, archives[i]));
        events := events + more;
      }
      assert archives[..|archives|] == archives;
      var live := ReadFile(parse, LIVE);
      ParsedConcat(parse, LinesOf(files, archives), LinesIn(files, LIVE));
      events := events + live;
    }

    /** The events of one file; a line that does not parse is passed over. */
    method ReadFile<E>(parse: string -> Option<E>, name: string) returns (events: seq<E>)
      ensures events == Parsed(parse, LinesIn(files, name))
    {
      events := [];
      if name !in files { return; }
      var lines := files[name];
      for i := 0 to |lines|
        invariant events == Parsed(parse, lines[..i])
      {
        assert lines[..i + 1][..i] == lines[..i];
        var event := parse(lines[i]);
        if event.Some? { events := events + [event.value]; }
      }
      assert lines[..|lines|] == lines;
    }
  }

  /** The events that the lines hold, in order. */
  function Parsed<E>(parse: string -> Option<E>, lines: seq<string>): seq<E> {
    if lines == [] then [] else
      Parsed(parse, lines[..|lines| - 1])
      + match parse(lines[|lines| - 1]) case Some(event) => [event] case None => []
  }

  lemma {:induction false} ParsedConcat<E>(parse: string -> Option<E>, a: seq<string>, b: seq<string>)
    ensures Parsed(parse, a + b) == Parsed(parse, a) + Parsed(parse, b)
    decreases |b|
  {
    if b == [] {
      assert a + b == a;
    } else {
      assert (a + b)[..|a + b| - 1] == a + b[..|b| - 1];
      ParsedConcat(parse, a, b[..|b| - 1]);
    }
  }

  /** The lines that hold an event. */
  ghost predicate Lists<E>(parse: string -> Option<E>, lines: seq<string>, ks: seq<nat>) {
    && (forall i, j :: 0 <= i < j < |ks| ==> ks[i] < ks[j])
    && (forall k: nat :: k in ks <==> k < |lines| && parse(lines[k]).Some?)
  }

  /** Reading gives one event for each line that holds one, in order, and nothing else. */
  lemma {:induction false} ParsedExact<E>(parse: string -> Option<E>, lines: seq<string>) returns (ks: seq<nat>)
    ensures Lists(parse, lines, ks) && |Parsed(parse, lines)| == |ks|
    ensures forall i :: 0 <= i < |ks| ==>
              ks[i] < |lines| && parse(lines[ks[i]]) == Some(Parsed(parse, lines)[i])
  {
    if lines == [] {
      ks := [];
    } else {
      var n := |lines| - 1;
      var before := ParsedExact(parse, lines[..n]);
      ks := if parse(lines[n]).Some? then before + [n] else before;
      ListsOneMore(parse, lines, before);
    }
  }

  lemma ListsOneMore<E>(parse: string -> Option<E>, lines: seq<string>, before: seq<nat>)
    requires lines != [] && Lists(parse, lines[..|lines| - 1], before)
    ensures var n := |lines| - 1;
      && Lists(parse, lines, if parse(lines[n]).Some? then before + [n] else before)
      && forall i :: 0 <= i < |before| ==> before[i] < n
  {
    var n := |lines| - 1;
    var ks := if parse(lines[n]).Some? then before + [n] else before;
    forall i | 0 <= i < |before| ensures before[i] < n { assert before[i] in before; }
    forall k: nat ensures k in ks <==> k in before || (k == n && parse(lines[n]).Some?) {}
    forall k: nat ensures k in before <==> k < n && parse(lines[..n][k]).Some? {}
    forall k: nat | k < n ensures lines[..n][k] == lines[k] {}
  }

  lemma WithoutNext(files: Files, names: seq<string>, k: nat)
    requires k < |names|
    ensures Without(files, names[..k + 1]) == Without(files, names[..k]) - {names[k]}
  {
    assert names[..k + 1] == names[..k] + [names[k]];
  }
}
