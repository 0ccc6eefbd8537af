/** Watch patterns: '*' is one whole path segment, '**' any run of segments. */
module Glob {
  import opened Text

  predicate Matches(p: seq<string>, r: seq<string>)
    decreases |p|
  {
    if p == [] then r == []
    else if p[0] == "**" then exists i :: 0 <= i <= |r| && Matches(p[1..], r[i..])
    else if p[0] == "*" then r != [] && Matches(p[1..], r[1..])
    else r != [] && r[0] == p[0] && Matches(p[1..], r[1..])
  }

  predicate MatchesGlob(rel: string, pat: string) {
    Matches(Split(pat, '/'), Split(rel, '/'))
  }

  predicate MatchesAny(rel: string, pats: seq<string>) {
    exists i :: 0 <= i < |pats| && MatchesGlob(rel, pats[i])
  }

  // ---------------------------------------------------------------- what it means

  /** The run of path segments that one pattern segment may stand for. */
  ghost predicate StandsFor(seg: string, run: seq<string>) {
    if seg == "**" then true else if seg == "*" then |run| == 1 else run == [seg]
  }

  ghost predicate Reading(p: seq<string>, runs: seq<seq<string>>) {
    |runs| == |p| && forall i :: 0 <= i < |p| ==> StandsFor(p[i], runs[i])
  }

  ghost function Flatten(runs: seq<seq<string>>): seq<string> {
    if runs == [] then [] else runs[0] + Flatten(runs[1..])
  }

  /** A path matches exactly when some reading of the pattern spells it. */
  lemma MatchesIffReading(p: seq<string>, r: seq<string>)
    ensures Matches(p, r) <==> exists runs :: Reading(p, runs) && Flatten(runs) == r
  {
    if Matches(p, r) {
      var runs := ReadingOf(p, r);
    }
    if runs :| Reading(p, runs) && Flatten(runs) == r {
      ReadingMatches(p, runs);
    }
  }

  lemma {:induction false} ReadingOf(p: seq<string>, r: seq<string>) returns (runs: seq<seq<string>>)
    requires Matches(p, r)
    ensures Reading(p, runs) && Flatten(runs) == r
    decreases |p|
  {
    if p == [] {
      runs := [];
    } else {
      var i := 1;
      if p[0] == "**" {
        i :| 0 <= i <= |r| && Matches(p[1..], r[i..]);
      }
      var tail := ReadingOf(p[1..], r[i..]);
      runs := [r[..i]] + tail;
      assert r == r[..i] + r[i..];
      assert runs[1..] == tail;
    }
  }

  lemma {:induction false} ReadingMatches(p: seq<string>, runs: seq<seq<string>>)
    requires Reading(p, runs)
    ensures Matches(p, Flatten(runs))
    decreases |p|
  {
    if p != [] {
      ReadingMatches(p[1..], runs[1..]);
      var r := Flatten(runs);
      assert r[|runs[0]|..] == Flatten(runs[1..]);
    }
  }

  /** Concatenated patterns split the path between them. */
  lemma {:induction false} MatchesConcat(p: seq<string>, q: seq<string>, r: seq<string>)
    ensures Matches(p + q, r) <==> exists i :: 0 <= i <= |r| && Matches(p, r[..i]) && Matches(q, r[i..])
    decreases |p|
  {
    if p == [] {
      assert p + q == q;
      assert r[..0] == [] && r[0..] == r;
      if Matches(q, r) { assert Matches(p, r[..0]) && Matches(q, r[0..]); }
      forall i | 0 <= i <= |r| && Matches(p, r[..i]) && Matches(q, r[i..])
        ensures Matches(q, r)
      {
        assert r[..i] == [] ==> i == 0;
      }
    } else {
      assert (p + q)[1..] == p[1..] + q && (p + q)[0] == p[0];
      if Matches(p + q, r) { ConcatSplits(p, q, r); }
      forall i | 0 <= i <= |r| && Matches(p, r[..i]) && Matches(q, r[i..])
        ensures Matches(p + q, r)
      {
        ConcatJoins(p, q, r, i);
      }
    }
  }

  /** How far a non-empty pattern's first segment may reach into a matched path. */
  ghost predicate Head(p: seq<string>, r: seq<string>, k: nat)
    requires p != []
  {
    k <= |r| && StandsFor(p[0], r[..k]) && Matches(p[1..], r[k..])
  }

  lemma MatchesHead(p: seq<string>, r: seq<string>)
    requires p != []
    ensures Matches(p, r) <==> exists k: nat :: Head(p, r, k)
  {
    if Matches(p, r) {
      var k := 1;
      if p[0] == "**" {
        k :| 0 <= k <= |r| && Matches(p[1..], r[k..]);
      }
      assert Head(p, r, k);
    }
  }

  lemma {:induction false} ConcatSplits(p: seq<string>, q: seq<string>, r: seq<string>)
    requires p != [] && Matches(p + q, r)
    ensures exists i :: 0 <= i <= |r| && Matches(p, r[..i]) && Matches(q, r[i..])
    decreases |p|, 1
  {
    hide Matches, StandsFor;
    assert (p + q)[1..] == p[1..] + q;
    MatchesHead(p + q, r);
    var k: nat :| Head(p + q, r, k);
    MatchesConcat(p[1..], q, r[k..]);
    var j :| 0 <= j <= |r[k..]| && Matches(p[1..], r[k..][..j]) && Matches(q, r[k..][j..]);
    assert r[..k + j][k..] == r[k..][..j] && r[..k + j][..k] == r[..k] && r[k + j..] == r[k..][j..];
    assert Head(p, r[..k + j], k);
    MatchesHead(p, r[..k + j]);
  }

  lemma {:induction false} ConcatJoins(p: seq<string>, q: seq<string>, r: seq<string>, i: nat)
    requires p != [] && i <= |r| && Matches(p, r[..i]) && Matches(q, r[i..])
    ensures Matches(p + q, r)
    decreases |p|, 1
  {
    hide Matches, StandsFor;
    assert (p + q)[1..] == p[1..] + q;
    MatchesHead(p, r[..i]);
    var k: nat :| Head(p, r[..i], k);
    assert r[..i][k..] == r[k..][..i - k] && r[..i][..k] == r[..k] && r[i..] == r[k..][i - k..];
    MatchesConcat(p[1..], q, r[k..]);
    assert Head(p + q, r, k);
    MatchesHead(p + q, r);
  }

  /** Adjacent '**' say no more than one. */
  lemma CollapseStars(p: seq<string>, q: seq<string>, r: seq<string>)
    ensures Matches(p + ["**", "**"] + q, r) <==> Matches(p + ["**"] + q, r)
  {
    var one, two := ["**"] + q, ["**", "**"] + q;
    assert p + ["**", "**"] + q == p + two && p + ["**"] + q == p + one;
    forall s: seq<string>
      ensures Matches(two, s) <==> Matches(one, s)
    {
      assert two[1..] == one && one[1..] == q;
      if Matches(two, s) {
        var i :| 0 <= i <= |s| && Matches(one, s[i..]);
        var j :| 0 <= j <= |s[i..]| && Matches(q, s[i..][j..]);
        assert s[i..][j..] == s[i + j..];
      }
      if Matches(one, s) {
        assert s[0..] == s;
      }
    }
    MatchesConcat(p, one, r);
    MatchesConcat(p, two, r);
  }

  /** A pattern without stars matches its own path and nothing else. */
  lemma {:induction false} LiteralMatches(p: seq<string>, r: seq<string>)
    requires "*" !in p && "**" !in p
    ensures Matches(p, r) <==> p == r
  {
    if p != [] {
      assert p == [p[0]] + p[1..];
      if r != [] {
        assert r == [r[0]] + r[1..];
        LiteralMatches(p[1..], r[1..]);
      }
    }
  }
}
