/** The string operations the program uses. */
module Text {
  import opened Prelude

  /** char::is_whitespace: the Unicode White_Space property. */
  predicate IsSpace(c: char) {
    || '\t' <= c <= '\r' || c == ' ' || c == '\U{85}' || c == '\U{A0}' || c == '\U{1680}'
    || '\U{2000}' <= c <= '\U{200A}' || c == '\U{2028}' || c == '\U{2029}' || c == '\U{202F}'
    || c == '\U{205F}' || c == '\U{3000}'
  }

  function TrimStart(s: string): string {
    if s != [] && IsSpace(s[0]) then TrimStart(s[1..]) else s
  }

  function TrimEnd(s: string): string {
    if s != [] && IsSpace(s[|s| - 1]) then TrimEnd(s[..|s| - 1]) else s
  }

  function Trim(s: string): string {
    TrimEnd(TrimStart(s))
  }

  predicate Blank(s: string) {
    Trim(s) == []
  }

  predicate Contains(s: string, t: string) {
    t <= s || (s != [] && Contains(s[1..], t))
  }

  ghost predicate Occurs(s: string, t: string) {
    exists i :: 0 <= i <= |s| && t <= s[i..]
  }

  lemma {:induction false} ContainsExact(s: string, t: string)
    ensures Contains(s, t) <==> Occurs(s, t)
  {
    assert s[0..] == s;
    if s != [] {
      ContainsExact(s[1..], t);
      assert forall i :: 0 <= i < |s| ==> s[1..][i..] == s[i + 1..];
      if i :| 0 < i <= |s| && t <= s[i..] {
        assert t <= s[1..][i - 1..];
      }
    }
  }

  /** `s.replace(t, sub)`: every occurrence, left to right, without overlap. */
  function Replace(s: string, t: string, sub: string): string
    requires t != []
  {
    if s == [] then []
    else if t <= s then sub + Replace(s[|t|..], t, sub)
    else [s[0]] + Replace(s[1..], t, sub)
  }

  /** `s.split(c)`: the pieces between the separators; never empty. */
  function Split(s: string, c: char): (r: seq<string>)
    ensures r != []
  {
    if s == [] then [[]]
    else if s[0] == c then [[]] + Split(s[1..], c)
    else var r := Split(s[1..], c); [[s[0]] + r[0]] + r[1..]
  }

  function Join(parts: seq<string>, c: char): string {
    if parts == [] then []
    else if |parts| == 1 then parts[0]
    else parts[0] + [c] + Join(parts[1..], c)
  }

  lemma {:induction false} SplitPiece(a: string, rest: string, c: char)
    requires c !in a
    ensures Split(a, c) == [a]
    ensures Split(a + [c] + rest, c) == [a] + Split(rest, c)
  {
    if a == [] {
      assert a + [c] + rest == [c] + rest;
    } else {
      SplitPiece(a[1..], rest, c);
      assert (a + [c] + rest)[1..] == a[1..] + [c] + rest;
      assert [a[0]] + a[1..] == a;
    }
  }

  lemma {:induction false} SplitJoin(parts: seq<string>, c: char)
    requires parts != [] && forall i :: 0 <= i < |parts| ==> c !in parts[i]
    ensures Split(Join(parts, c), c) == parts
  {
    if |parts| == 1 {
      SplitPiece(parts[0], [], c);
    } else {
      SplitPiece(parts[0], Join(parts[1..], c), c);
      SplitJoin(parts[1..], c);
    }
  }

  // ---------------------------------------------------------------- lines and tokens

  function StripCr(s: string): string {
    if s != [] && s[|s| - 1] == '\r' then s[..|s| - 1] else s
  }

  /** Where a character first stands. */
  function IndexOf(s: string, c: char): (i: Option<nat>)
    ensures i.Some? ==> i.value < |s| && s[i.value] == c && c !in s[..i.value]
    ensures i.None? ==> c !in s
  {
    if s == [] then None
    else if s[0] == c then Some(0)
    else
      match IndexOf(s[1..], c)
      case None => None
      case Some(i) =>
        assert s[..i + 1] == [s[0]] + s[1..][..i];
        Some(i + 1)
  }

  /** `str::lines`: pieces ended by a newline, which takes a carriage return before it along;
      no empty piece after the last newline. */
  function Lines(s: string): seq<string>
    decreases |s|
  {
    if s == [] then [] else
      match IndexOf(s, '\n')
      case None => [s]
      case Some(i) => [StripCr(s[..i])] + Lines(s[i + 1..])
  }

  /** Lines end the same way on every platform. */
  lemma LinesCrLf(a: string, rest: string)
    requires '\n' !in a && (a == "" || a[|a| - 1] != '\r')
    ensures Lines(a + "\r\n" + rest) == Lines(a + "\n" + rest) == [a] + Lines(rest)
  {
    var unix, dos := a + ['\n'] + rest, (a + ['\r']) + ['\n'] + rest;
    assert a + "\n" + rest == unix && a + "\r\n" + rest == dos;
    IndexOfFirst(a, '\n', rest);
    IndexOfFirst(a + ['\r'], '\n', rest);
    assert unix[..|a|] == a && unix[|a| + 1..] == rest;
    assert dos[..|a| + 1] == a + ['\r'] && dos[|a| + 2..] == rest;
    assert (a + ['\r'])[..|a|] == a;
  }

  /** `split_whitespace`. */
  function Tokens(s: string): seq<string>
    decreases |s|
  {
    var t := TrimStart(s);
    TrimStartShorter(s);
    if t == [] then [] else
      var n := WordLength(t);
      [t[..n]] + Tokens(t[n..])
  }

  function WordLength(s: string): (n: nat)
    ensures n <= |s| && (s != [] && !IsSpace(s[0]) ==> n > 0)
    ensures forall i :: 0 <= i < n ==> !IsSpace(s[i])
    ensures n < |s| ==> IsSpace(s[n])
  {
    if s == [] || IsSpace(s[0]) then 0 else 1 + WordLength(s[1..])
  }

  lemma {:induction false} TrimStartShorter(s: string)
    ensures |TrimStart(s)| <= |s|
    ensures TrimStart(s) != [] ==> !IsSpace(TrimStart(s)[0])
  {
    if s != [] && IsSpace(s[0]) { TrimStartShorter(s[1..]); }
  }

  /** `s.split_once(pat)`: around the first occurrence. */
  function SplitOnce(s: string, pat: string): Option<(string, string)> {
    if pat <= s then Some(([], s[|pat|..]))
    else if s == [] then None
    else
      match SplitOnce(s[1..], pat)
      case None => None
      case Some(halves) => Some(([s[0]] + halves.0, halves.1))
  }

  lemma {:induction false} SplitOnceShorter(s: string, pat: string)
    requires pat != []
    ensures SplitOnce(s, pat).Some? ==> |SplitOnce(s, pat).value.1| < |s|
  {
    if !(pat <= s) && s != [] { SplitOnceShorter(s[1..], pat); }
  }

  /** `s.split(pat)`. */
  function SplitOn(s: string, pat: string): seq<string>
    requires pat != []
    decreases |s|
  {
    SplitOnceShorter(s, pat);
    match SplitOnce(s, pat)
    case None => [s]
    case Some(halves) => [halves.0] + SplitOn(halves.1, pat)
  }

  /** The pieces with `sub` between them. */
  function Spell(parts: seq<string>, sub: string): string {
    if parts == [] then []
    else if |parts| == 1 then parts[0]
    else parts[0] + sub + Spell(parts[1..], sub)
  }

  /** What comes before the first occurrence holds none. */
  lemma {:induction false} SplitOnceExact(s: string, pat: string)
    requires pat != []
    ensures match SplitOnce(s, pat)
            case None => !Contains(s, pat)
            case Some(halves) => s == halves.0 + pat + halves.1 && !Contains(halves.0, pat)
  {
    if !(pat <= s) && s != [] { SplitOnceExact(s[1..], pat); }
  }

  /** The pieces spell the text, and none of them holds the separator. */
  lemma {:induction false} SplitOnExact(s: string, pat: string)
    requires pat != []
    ensures Spell(SplitOn(s, pat), pat) == s
    ensures forall i :: 0 <= i < |SplitOn(s, pat)| ==> !Contains(SplitOn(s, pat)[i], pat)
    ensures |SplitOn(s, pat)| >= 2 <==> Contains(s, pat)
    ensures SplitOn(s, pat) != []
    decreases |s|
  {
    SplitOnceShorter(s, pat);
    SplitOnceExact(s, pat);
    SplitOnceContains(s, pat);
    var halves := SplitOnce(s, pat);
    if halves.Some? { SplitOnExact(halves.value.1, pat); }
  }

  lemma SplitOnHead(s: string, pat: string)
    requires pat != [] && s != [] && !(pat <= s)
    ensures var tail := SplitOn(s[1..], pat);
            tail != [] && SplitOn(s, pat) == [[s[0]] + tail[0]] + tail[1..]
  {
    var halves := SplitOnce(s[1..], pat);
    assert [s[0]] + s[1..] == s;
    if halves.Some? {
      SplitOnceShorter(s[1..], pat);
      assert SplitOn(s[1..], pat)[1..] == SplitOn(halves.value.1, pat);
    }
  }

  /** Replacing is spelling the same pieces with something else between them. */
  lemma {:induction false} ReplaceSpells(s: string, pat: string, sub: string)
    requires pat != []
    ensures Replace(s, pat, sub) == Spell(SplitOn(s, pat), sub)
    decreases |s|
  {
    if pat <= s {
      ReplaceSpells(s[|pat|..], pat, sub);
    } else if s != [] {
      ReplaceSpells(s[1..], pat, sub);
      SplitOnHead(s, pat);
      hide SplitOn, Spell;
      SpellHead(s[0], SplitOn(s[1..], pat), sub);
    } else {
      SplitOnExact(s, pat);
    }
  }

  lemma SpellHead(c: char, parts: seq<string>, sub: string)
    requires parts != []
    ensures Spell([[c] + parts[0]] + parts[1..], sub) == [c] + Spell(parts, sub)
  {
    assert ([[c] + parts[0]] + parts[1..])[1..] == parts[1..];
    if |parts| > 1 {
      assert [c] + (parts[0] + sub + Spell(parts[1..], sub)) == ([c] + parts[0]) + sub + Spell(parts[1..], sub);
    }
  }

  lemma {:induction false} SpellGrows(parts: seq<string>, a: string, b: string)
    requires |a| < |b|
    ensures |Spell(parts, a)| <= |Spell(parts, b)|
    ensures |parts| >= 2 ==> |Spell(parts, a)| < |Spell(parts, b)|
  {
    if |parts| >= 2 { SpellGrows(parts[1..], a, b); }
  }

  /** What stands between two pieces can be read off. */
  lemma SpellInjective(parts: seq<string>, a: string, b: string)
    requires |parts| >= 2
    ensures Spell(parts, a) == Spell(parts, b) <==> a == b
  {
    if |a| < |b| {
      SpellGrows(parts, a, b);
    } else if |b| < |a| {
      SpellGrows(parts, b, a);
    } else {
      var n := |parts[0]|;
      assert Spell(parts, a)[n..n + |a|] == a && Spell(parts, b)[n..n + |b|] == b;
    }
  }

  function TrimStartOf(s: string, c: char): string {
    if s != [] && s[0] == c then TrimStartOf(s[1..], c) else s
  }

  function TrimEndOf(s: string, c: char): string {
    if s != [] && s[|s| - 1] == c then TrimEndOf(s[..|s| - 1], c) else s
  }

  function Decimal(n: nat): string {
    if n < 10 then [['0', '1', '2', '3', '4', '5', '6', '7', '8', '9'][n]]
    else Decimal(n / 10) + Decimal(n % 10)
  }

  // ---------------------------------------------------------------- trimming

  ghost predicate AllSpace(s: string) {
    forall i :: 0 <= i < |s| ==> IsSpace(s[i])
  }

  lemma {:induction false} TrimStartIs(a: string, t: string)
    requires AllSpace(a) && (t == [] || !IsSpace(t[0]))
    ensures TrimStart(a + t) == t
  {
    if a == [] {
      assert a + t == t;
    } else {
      assert (a + t)[1..] == a[1..] + t;
      TrimStartIs(a[1..], t);
    }
  }

  lemma {:induction false} TrimStartOfSpace(a: string)
    requires AllSpace(a)
    ensures TrimStart(a) == []
  {
    assert a + [] == a;
    TrimStartIs(a, []);
  }

  /** Any string is spaces followed by what TrimStart leaves. */
  lemma {:induction false} TrimStartSplit(s: string) returns (a: string)
    ensures AllSpace(a) && s == a + TrimStart(s)
    ensures TrimStart(s) == [] || !IsSpace(TrimStart(s)[0])
  {
    if s != [] && IsSpace(s[0]) {
      var b := TrimStartSplit(s[1..]);
      a := [s[0]] + b;
    } else {
      a := [];
    }
  }

  /** A trailing space changes nothing. */
  lemma TrimDropSpace(s: string, c: char)
    requires IsSpace(c)
    ensures Trim(s + [c]) == Trim(s)
  {
    var a := TrimStartSplit(s);
    var t := TrimStart(s);
    if t == [] {
      TrimStartOfSpace(s + [c]);
    } else {
      assert s + [c] == a + (t + [c]);
      TrimStartIs(a, t + [c]);
      assert (t + [c])[..|t|] == t;
    }
  }

  /** Nor does a leading one. */
  lemma TrimIndent(c: char, s: string)
    requires IsSpace(c)
    ensures Trim([c] + s) == Trim(s)
  {
    assert ([c] + s)[1..] == s;
  }

  lemma TrimStripCr(s: string)
    ensures Trim(StripCr(s)) == Trim(s)
  {
    if s != [] && s[|s| - 1] == '\r' {
      TrimDropSpace(s[..|s| - 1], '\r');
      assert s == s[..|s| - 1] + ['\r'];
    }
  }

  /** What does not begin or end with a space is left alone. */
  lemma TrimSolid(s: string)
    requires s != [] && !IsSpace(s[0]) && !IsSpace(s[|s| - 1])
    ensures Trim(s) == s
  {
  }

  lemma {:induction false} TrimEndKeeps(p: string, s: string)
    requires p != [] && !IsSpace(p[|p| - 1])
    ensures TrimEnd(p + s) == p + TrimEnd(s)
  {
    if s == [] {
      assert p + s == p;
    } else if IsSpace(s[|s| - 1]) {
      assert (p + s)[..|p + s| - 1] == p + s[..|s| - 1];
      TrimEndKeeps(p, s[..|s| - 1]);
    }
  }

  lemma {:induction false} TrimOfTrimEnd(s: string)
    ensures Trim(TrimEnd(s)) == Trim(s)
  {
    if s != [] && IsSpace(s[|s| - 1]) {
      TrimOfTrimEnd(s[..|s| - 1]);
      TrimDropSpace(s[..|s| - 1], s[|s| - 1]);
      assert s == s[..|s| - 1] + [s[|s| - 1]];
    }
  }

  /** Two spaces before solid text. */
  lemma TrimIndented(s: string)
    ensures Trim("  " + s) == Trim(s)
  {
    assert "  " + s == " " + (" " + s);
    TrimIndent(' ', " " + s);
    TrimIndent(' ', s);
  }

  /** A keyword and its text: the line trims to the keyword, a space, and text that trims to
      the same. */
  lemma TrimKeyword(word: string, text: string)
    requires word != [] && !IsSpace(word[0]) && !IsSpace(word[|word| - 1])
    ensures word <= Trim(word + " " + text)
    ensures Trim(Trim(word + " " + text)[|word|..]) == Trim(text)
  {
    var s := " " + text;
    assert word + " " + text == word + s;
    TrimEndKeeps(word, s);
    assert TrimStart(word + s) == word + s;
    assert Trim(word + s)[|word|..] == TrimEnd(s);
    TrimOfTrimEnd(s);
    TrimIndent(' ', text);
  }

  // ---------------------------------------------------------------- words and pieces

  lemma {:induction false} WordLengthIs(w: string, rest: string)
    requires forall i :: 0 <= i < |w| ==> !IsSpace(w[i])
    requires rest == [] || IsSpace(rest[0])
    ensures WordLength(w + rest) == |w|
  {
    if w == [] {
      assert w + rest == rest;
    } else {
      assert (w + rest)[1..] == w[1..] + rest;
      WordLengthIs(w[1..], rest);
    }
  }

  /** One space, one word, and what follows. */
  lemma TokensStep(w: string, rest: string)
    requires w != [] && forall i :: 0 <= i < |w| ==> !IsSpace(w[i])
    requires rest == [] || IsSpace(rest[0])
    ensures Tokens(" " + w + rest) == [w] + Tokens(rest)
  {
    assert " " + w + rest == " " + (w + rest);
    TrimStartIs(" ", w + rest);
    WordLengthIs(w, rest);
    assert (w + rest)[..|w|] == w && (w + rest)[|w|..] == rest;
  }

  lemma TokensNone()
    ensures Tokens("") == []
  {
  }

  lemma {:induction false} SplitOnceFirst(a: string, pat: string, b: string)
    requires pat != [] && pat[0] !in a
    ensures SplitOnce(a + pat + b, pat) == Some((a, b))
  {
    var s := a + pat + b;
    if a == [] {
      assert s == pat + b && s[|pat|..] == b;
    } else {
      assert s[0] == a[0] && s[1..] == a[1..] + pat + b;
      SplitOnceFirst(a[1..], pat, b);
      assert a[0] in a && !(pat <= s);
      assert [a[0]] + a[1..] == a;
    }
  }

  lemma {:induction false} SplitOnceNone(s: string, pat: string)
    requires pat != [] && pat[0] !in s
    ensures SplitOnce(s, pat) == None
  {
    if s != [] { SplitOnceNone(s[1..], pat); }
  }

  /** `split_once` finds a pattern exactly when the text contains it. */
  lemma {:induction false} SplitOnceContains(s: string, pat: string)
    ensures SplitOnce(s, pat).Some? <==> Contains(s, pat)
  {
    if !(pat <= s) && s != [] { SplitOnceContains(s[1..], pat); }
  }

  lemma {:induction false} IndexOfFirst(a: string, c: char, rest: string)
    requires c !in a
    ensures IndexOf(a + [c] + rest, c) == Some(|a|)
  {
    if a != [] {
      assert (a + [c] + rest)[1..] == a[1..] + [c] + rest;
      IndexOfFirst(a[1..], c, rest);
    }
  }
}
