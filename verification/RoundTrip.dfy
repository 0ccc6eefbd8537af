/** The parser reads back exactly what the importer prints. */
module RoundTrip {
  import opened Ir
  import opened IrCompile
  import opened Parser
  import opened ParserFacts
  import opened Prelude
  import opened SpecKit
  import opened Text

  // ---------------------------------------------------------------- from text back to lines

  function Stripped(ls: seq<string>): seq<string> {
    seq(|ls|, i requires 0 <= i < |ls| => StripCr(ls[i]))
  }

  lemma LinesStep(a: string, rest: string)
    requires '\n' !in a
    ensures Lines(a + ['\n'] + rest) == [StripCr(a)] + Lines(rest)
  {
    var s := a + ['\n'] + rest;
    IndexOfFirst(a, '\n', rest);
    assert s[..|a|] == a && s[|a| + 1..] == rest;
  }

  /** The first line of a text that has one. */
  lemma FirstLine(s: string) returns (first: string, rest: string)
    requires s != [] && s[|s| - 1] == '\n'
    ensures s == first + ['\n'] + rest && '\n' !in first
    ensures rest == [] || rest[|rest| - 1] == '\n'
  {
    assert s[|s| - 1] in s;
    var i := IndexOf(s, '\n').value;
    first, rest := s[..i], s[i + 1..];
  }

  lemma LineAtEnd(first: string, rest: string, a: string)
    ensures first + ['\n'] + rest + a + "\n" == first + ['\n'] + (rest + a + "\n")
  {
  }

  lemma {:induction false} LinesPush(s: string, a: string)
    requires s == [] || s[|s| - 1] == '\n'
    requires '\n' !in a
    ensures Lines(s + a + "\n") == Lines(s) + [StripCr(a)]
    decreases |s|
  {
    if s == [] {
      OneLineText(a);
      assert s + a == a;
    } else {
      hide Lines, StripCr;
      var first, rest := FirstLine(s);
      LineAtEnd(first, rest, a);
      LinesStep(first, rest);
      LinesStep(first, rest + a + "\n");
      LinesPush(rest, a);
      assert [StripCr(first)] + (Lines(rest) + [StripCr(a)]) == [StripCr(first)] + Lines(rest) + [StripCr(a)];
    }
  }

  lemma OneLineText(a: string)
    requires '\n' !in a
    ensures Lines(a + "\n") == [StripCr(a)] && Lines([]) == []
  {
    assert a + "\n" == a + ['\n'] + [];
    LinesStep(a, []);
  }

  /** Text made of lines reads back as those lines. */
  lemma {:induction false} LinesOfUnlines(ls: seq<string>)
    requires forall i :: 0 <= i < |ls| ==> '\n' !in ls[i]
    ensures Lines(Unlines(ls)) == Stripped(ls)
    decreases |ls|
  {
    if ls != [] {
      var init := ls[..|ls| - 1];
      LinesOfUnlines(init);
      EndsWithNewline(init);
      LinesPush(Unlines(init), ls[|ls| - 1]);
    }
  }

  lemma EndsWithNewline(ls: seq<string>)
    ensures Unlines(ls) == [] || Unlines(ls)[|Unlines(ls)| - 1] == '\n'
  {
  }

  lemma {:induction false} OneLineHasNoNewline(s: string)
    ensures '\n' !in OneLine(s)
  {
    if s != [] { OneLineHasNoNewline(s[1..]); }
  }

  // ---------------------------------------------------------------- the claims that survive

  /** Ids that survive: distinct single tokens, none of which contains USING, none of which is
      the modifier OPTIONAL. */
  ghost predicate WellFormed(ds: seq<Draft>) {
    && ds != []
    && (forall i :: 0 <= i < |ds| ==> IsToken(ds[i].0) && ds[i].0 != "OPTIONAL")
    && (forall i :: 0 <= i < |ds| ==> !Contains(ds[i].0, "USING"))
    && (forall i, j :: 0 <= i < j < |ds| ==> ds[i].0 != ds[j].0)
  }

  function ClaimFor(d: Draft): ClaimIr {
    ClaimIr(d.0, "claim", true, false, Trim(OneLine(d.1)))
  }

  function VerificationFor(d: Draft): VerificationIr {
    VerificationIr(d.0, "project.tests", None, None)
  }

  function Expected(intent: string, ds: seq<Draft>): Contract {
    Contract("0.1", "candidate-" + TrimEnd(intent), "software", GOAL_TEXT,
      seq(|ds|, i requires 0 <= i < |ds| => ClaimFor(ds[i])),
      seq(|ds|, i requires 0 <= i < |ds| => VerificationFor(ds[i])))
  }

  /** Parsing and compiling the printed text. */
  ghost predicate ReadsBackAs(text: string, c: Contract) {
    ParseLines(Lines(text)).Ok? && Compile(ParseLines(Lines(text)).value) == Ok(c)
  }

  // ---------------------------------------------------------------- the states along the way

  function Parsed(intent: string, ds: seq<Draft>): seq<string> {
    Stripped(CandidateLines(intent, ds))
  }

  function ClaimAt(ds: seq<Draft>, i: nat): Claim
    requires i < |ds|
  {
    Claim(ds[i].0, PlainClaim, true, false, Trim(OneLine(ds[i].1)), 6 + 2 * i)
  }

  function ClaimsTo(ds: seq<Draft>, k: nat): (cs: seq<Claim>)
    requires k <= |ds|
    ensures |cs| == k && forall i :: 0 <= i < k ==> cs[i] == ClaimAt(ds, i)
  {
    if k == 0 then [] else ClaimsTo(ds, k - 1) + [ClaimAt(ds, k - 1)]
  }

  function VerificationAt(ds: seq<Draft>, i: nat): Verification
    requires i < |ds|
  {
    Verification(ds[i].0, PROJECT_TESTS, None, 6 + 2 * |ds| + 2 * i, None)
  }

  function VerificationsTo(ds: seq<Draft>, k: nat): (vs: seq<Verification>)
    requires k <= |ds|
    ensures |vs| == k && forall i :: 0 <= i < k ==> vs[i] == VerificationAt(ds, i)
  {
    if k == 0 then [] else VerificationsTo(ds, k - 1) + [VerificationAt(ds, k - 1)]
  }

  function AfterClaims(intent: string, ds: seq<Draft>, k: nat): State
    requires k <= |ds|
  {
    State(Some("0.1"), Some("software"), Some("candidate-" + TrimEnd(intent)), GOAL_TEXT, k == 0,
          ClaimsTo(ds, k), [], None, None, 0, None, 0)
  }

  function AfterVerifies(intent: string, ds: seq<Draft>, k: nat): State
    requires k <= |ds|
  {
    AfterClaims(intent, ds, |ds|).(
      verifications := VerificationsTo(ds, k),
      lastUsing := if k == 0 then None else Some(5 + 2 * |ds| + 2 * k))
  }

  // ---------------------------------------------------------------- single lines

  /** A keyword line: what is left after the keyword trims to its text. */
  lemma Keyword(word: string, text: string)
    requires word != [] && !IsSpace(word[0]) && !IsSpace(word[|word| - 1])
    ensures var line := Trim(word + " " + text);
            word <= line && line != [] && line[0] == word[0] && Trim(line[|word|..]) == Trim(text)
  {
    TrimKeyword(word, text);
    assert Trim(word + " " + text)[0] == word[0];
  }

  lemma VersionLine(lines: seq<string>, n: nat, st: State)
    requires 1 <= n <= |lines|
    ensures OnLine(lines, n, Trim("VERSION" + " " + "0.1"), st) == Ok(st.(version := Some("0.1"), inGoal := false))
  {
    Keyword("VERSION", "0.1");
    TrimSolid("0.1");
    NotPrefix("USING", Trim("VERSION" + " " + "0.1"));
  }

  lemma DomainLine(lines: seq<string>, n: nat, st: State)
    requires 1 <= n <= |lines|
    ensures OnLine(lines, n, Trim("DOMAIN" + " " + "software"), st)
         == Ok(st.(domain := Some("software"), inGoal := false))
  {
    Keyword("DOMAIN", "software");
    TrimSolid("software");
    NotPrefix("USING", Trim("DOMAIN" + " " + "software"));
    NotPrefix("VERSION", Trim("DOMAIN" + " " + "software"));
  }

  lemma IntentText(p: string, intent: string)
    requires p == "candidate-"
    ensures Trim(p + intent) == p + TrimEnd(intent)
  {
    TrimEndKeeps(p, intent);
    assert (p + intent)[0] == p[0];
    assert TrimStart(p + intent) == p + intent;
  }

  lemma IntentLine(lines: seq<string>, n: nat, st: State, intent: string)
    requires 1 <= n <= |lines|
    ensures OnLine(lines, n, Trim("INTENT" + " " + ("candidate-" + intent)), st)
         == Ok(st.(intent := Some("candidate-" + TrimEnd(intent)), inGoal := false))
  {
    Keyword("INTENT", "candidate-" + intent);
    IntentText("candidate-", intent);
    IntentStarts(lines, n, st, Trim("INTENT" + " " + ("candidate-" + intent)));
  }

  lemma IntentStarts(lines: seq<string>, n: nat, st: State, line: string)
    requires 1 <= n <= |lines| && "INTENT" <= line
    ensures OnLine(lines, n, line, st) == Ok(st.(intent := Some(Trim(line[6..])), inGoal := false))
  {
    assert line[0] == "INTENT"[0];
    NotPrefix("USING", line);
    NotPrefix("VERSION", line);
    NotPrefix("DOMAIN", line);
  }

  lemma GoalDirective(lines: seq<string>, n: nat, st: State)
    requires 1 <= n <= |lines|
    ensures OnLine(lines, n, Trim("GOAL"), st) == Ok(st.(inGoal := true))
  {
    TrimSolid("GOAL");
  }

  lemma GoalLine(lines: seq<string>, n: nat, st: State, text: string)
    requires 1 <= n <= |lines| && st.inGoal && st.goal == ""
    requires |text| >= 2 && text[0] == 'I' && text[1] == 'm' && !IsSpace(text[|text| - 1])
    ensures OnLine(lines, n, Trim("  " + text), st) == Ok(st.(goal := text))
  {
    TrimIndented(text);
    TrimSolid(text);
    GoalIsProse(text);
  }

  /** Text that begins "Im" is no directive. */
  lemma GoalIsProse(line: string)
    requires |line| >= 2 && line[0] == 'I' && line[1] == 'm'
    ensures !StartsWithDirective(line)
    ensures !("USING" <= line) && !("VERSION" <= line) && !("DOMAIN" <= line) && !("INTENT" <= line) && line != "GOAL"
  {
    NotPrefix("USING", line);
    NotPrefix("VERSION", line);
    NotPrefix("DOMAIN", line);
    NotPrefix("GOAL", line);
    assert "INTENT"[1] == 'N';
    forall i | 0 <= i < |DIRECTIVES|
      ensures !IsWord(line, DIRECTIVES[i])
    {
      assert |DIRECTIVES[i]| >= 2 && (DIRECTIVES[i][0] != 'I' || DIRECTIVES[i][1] == 'N');
    }
  }

  lemma ClaimTokens(id: string, word: string)
    requires IsToken(id) && IsToken(word)
    ensures Tokens(" " + id + " " + word) == [id, word]
  {
    assert " " + id + " " + word == " " + id + (" " + word);
    TokensStep(id, " " + word);
    assert " " + word == " " + word + "";
    TokensStep(word, "");
    TokensNone();
  }

  lemma ClaimStart(line: string)
    requires |line| >= 6 && "CLAIM" <= line && IsSpace(line[5])
    ensures StartsWithDirective(line) && line[0] != '#'
    ensures !("USING" <= line) && !("VERSION" <= line) && !("DOMAIN" <= line) && !("INTENT" <= line) && line != "GOAL"
  {
    assert line[0] == "CLAIM"[0];
    assert IsWord(line, DIRECTIVES[4]);
    NotPrefix("USING", line);
    NotPrefix("VERSION", line);
    NotPrefix("DOMAIN", line);
    NotPrefix("INTENT", line);
    NotPrefix("GOAL", line);
  }

  lemma RequiredToken()
    ensures IsToken("REQUIRED") && "REQUIRED" != "OPTIONAL"
  {
    assert "REQUIRED"[0] != "OPTIONAL"[0];
  }

  lemma ClaimLine(lines: seq<string>, n: nat, st: State, id: string)
    requires 1 <= n <= |lines| && IsToken(id)
    ensures OnLine(lines, n, Trim(ClaimText(id)), st)
         == Ok(st.(inGoal := false, claims := st.claims + [Claim(id, PlainClaim, id != "OPTIONAL", false, "", n)]))
  {
    var line := ClaimText(id);
    RequiredToken();
    TrimSolid(line);
    assert line[5] == ' ';
    ClaimStart(line);
    assert line[5..] == " " + id + " " + "REQUIRED";
    ClaimTokens(id, "REQUIRED");
    assert [id, "REQUIRED"][1..] == ["REQUIRED"] && ["REQUIRED"][1..] == [];
    assert "OPTIONAL" in [id, "REQUIRED"] <==> id == "OPTIONAL";
  }

  lemma EnsureLine(lines: seq<string>, n: nat, st: State, text: string)
    requires 1 <= n <= |lines| && !st.inGoal && st.claims != []
    ensures OnLine(lines, n, Trim("  " + ("ENSURE" + " " + text)), st) == OnEnsure(st, text, n)
  {
    TrimIndented("ENSURE" + " " + text);
    Keyword("ENSURE", text);
    var line := Trim("ENSURE" + " " + text);
    NotPrefix("USING", line);
    NotPrefix("VERSION", line);
    NotPrefix("DOMAIN", line);
    NotPrefix("INTENT", line);
    NotPrefix("CLAIM", line);
    NotPrefix("INVARIANT", line);
    NotPrefix("GOAL", line);
  }

  lemma VerifyStart(line: string)
    requires "VERIFY" <= line
    ensures line != "" && line[0] != '#' && line != "GOAL" && line != "FORBID"
    ensures !("USING" <= line) && !("VERSION" <= line) && !("DOMAIN" <= line) && !("INTENT" <= line)
    ensures !("CLAIM" <= line) && !("INVARIANT" <= line) && !("ENSURE" <= line) && !("FORBID" <= line)
  {
    assert line[0] == "VERIFY"[0] && line[3] == "VERIFY"[3] && "VERSION"[3] == 'S';
    NotPrefix("USING", line);
    NotPrefix("DOMAIN", line);
    NotPrefix("INTENT", line);
    NotPrefix("CLAIM", line);
    NotPrefix("INVARIANT", line);
    NotPrefix("GOAL", line);
    NotPrefix("ENSURE", line);
    NotPrefix("FORBID", line);
  }

  lemma VerifyLine(lines: seq<string>, n: nat, st: State, id: string)
    requires 1 <= n <= |lines| && IsToken(id) && !st.inGoal && st.pendingForbid.None?
    ensures OnLine(lines, n, Trim(VerifyText(id)), st) == OnVerify(st, id, n)
  {
    var line := VerifyText(id);
    TrimSolid(line);
    VerifyStart(line);
    assert line[6..] == " " + id;
    TrimIndent(' ', id);
  }

  /** An id without USING waits for its USING line; one with it is cut in two on the spot. */
  lemma VerifyId(st: State, id: string, n: nat)
    requires IsToken(id) && st.pendingVerify.None?
    ensures !Contains(id, "USING") ==> OnVerify(st, id, n) == Ok(st.(pendingVerify := Some((id, n))))
    ensures Contains(id, "USING") && OnVerify(st, id, n).Ok? ==> OnVerify(st, id, n).value.pendingVerify.None?
  {
    TrimSolid(id);
    SplitOnceContains(id, "USING");
  }

  lemma UsingLine(lines: seq<string>, n: nat, st: State, ref: string)
    requires 1 <= n <= |lines| && ref != [] && !IsSpace(ref[0]) && !IsSpace(ref[|ref| - 1])
    ensures OnLine(lines, n, Trim("  " + ("USING" + " " + ref)), st) ==
            match st.pendingVerify
            case None => Err(ParseError(n, UsingWithoutVerify))
            case Some(pv) => Pushed(st.(pendingVerify := None), pv.0, ref, pv.1, n)
  {
    TrimIndented("USING" + " " + ref);
    Keyword("USING", ref);
    TrimSolid(ref);
  }

  lemma ProjectTests(id: string, vline: nat)
    requires id != ""
    ensures MakeVerification(id, PROJECT_TESTS, vline) == Some(Verification(id, PROJECT_TESTS, None, vline, None))
  {
    NotPrefix("shell", PROJECT_TESTS);
    TrimSolid(PROJECT_TESTS);
    assert '"' !in PROJECT_TESTS;
  }

  // ---------------------------------------------------------------- ACCEPT WHEN

  lemma SplitAnd(x: string, y: string)
    requires 'A' !in x && 'A' !in y
    ensures SplitOn(x + " " + ("AND" + " " + y), "AND") == [x + " ", " " + y]
  {
    assert x + " " + ("AND" + " " + y) == (x + " ") + "AND" + (" " + y);
    SplitOnceFirst(x + " ", "AND", " " + y);
    SplitOnceNone(" " + y, "AND");
  }

  lemma TwoClauses(x: string, y: string)
    requires x != [] && !IsSpace(x[0]) && !IsSpace(x[|x| - 1])
    requires y != [] && !IsSpace(y[0]) && !IsSpace(y[|y| - 1])
    ensures Clauses([x + " ", " " + y]) == [x, y]
  {
    TrimDropSpace(x, ' ');
    TrimSolid(x);
    TrimIndent(' ', y);
    TrimSolid(y);
    var p, q := x + " ", " " + y;
    assert Trim(p) == x && Trim(q) == y;
    var none: seq<string> := [];
    assert [p, q][1..] == [q] && [q][1..] == none && Clauses(none) == [];
    assert Clauses([q]) == [y];
    assert Clauses([p, q]) == [x] + Clauses([p, q][1..]);
  }

  lemma FaultOf(text: string, parts: seq<string>)
    requires Clauses(SplitOn(text, "AND")) == parts && parts != []
    ensures AcceptFault(text) == CheckClauses(parts, false)
  {
  }

  lemma AcceptedText(x: string, y: string)
    requires x == REQUIRED_CLAUSE && y == CRITICAL_CLAUSE
    ensures AcceptFault(x + " " + ("AND" + " " + y)) == None
  {
    SplitAnd(x, y);
    TwoClauses(x, y);
    BothClauses(x, y);
    FaultOf(x + " " + ("AND" + " " + y), [x, y]);
  }

  lemma BothClauses(x: string, y: string)
    requires x == REQUIRED_CLAUSE && y == CRITICAL_CLAUSE
    ensures CheckClauses([x, y], false) == None
  {
    assert x[0] != y[0];
    assert [x, y][1..] == [y] && [y][1..] == [];
    var none: seq<string> := [];
    assert CheckClauses(none, true) == None;
    assert CheckClauses([y], true) == CheckClauses([y][1..], true);
    assert CheckClauses([x, y], false) == CheckClauses([x, y][1..], true);
  }

  lemma TailTrims()
    ensures Trim(TAIL[1]) == REQUIRED_CLAUSE && Continues(TAIL[1])
    ensures Trim(TAIL[2]) == "AND" + " " + CRITICAL_CLAUSE && Continues(TAIL[2])
  {
    TrimIndented(REQUIRED_CLAUSE);
    TrimSolid(REQUIRED_CLAUSE);
    TrimIndented("AND" + " " + CRITICAL_CLAUSE);
    TrimSolid("AND" + " " + CRITICAL_CLAUSE);
    assert "AND " <= "AND" + " " + CRITICAL_CLAUSE;
    assert "required_claims" <= REQUIRED_CLAUSE;
  }

  lemma AcceptStart()
    ensures var line := "ACCEPT WHEN"; Trim(line) == line && line[11..] == "" && Trim("") == ""
    ensures var line := "ACCEPT WHEN"; line[0] != '#' && line != "GOAL" && line != "FORBID"
    ensures var line := "ACCEPT WHEN";
            !("USING" <= line) && !("VERSION" <= line) && !("DOMAIN" <= line) && !("INTENT" <= line)
            && !("CLAIM" <= line) && !("INVARIANT" <= line) && !("ENSURE" <= line) && !("FORBID" <= line)
            && !("VERIFY" <= line)
  {
    var line := "ACCEPT WHEN";
    TrimSolid(line);
    NotPrefix("USING", line);
    NotPrefix("VERSION", line);
    NotPrefix("DOMAIN", line);
    NotPrefix("INTENT", line);
    NotPrefix("CLAIM", line);
    NotPrefix("INVARIANT", line);
    NotPrefix("ENSURE", line);
    NotPrefix("FORBID", line);
    NotPrefix("VERIFY", line);
  }

  lemma Gathered(lines: seq<string>, n: nat, x: string, y: string)
    requires n + 2 == |lines| && Continues(lines[n]) && Continues(lines[n + 1])
    requires Trim(lines[n]) == x && Trim(lines[n + 1]) == y && x != ""
    ensures AcceptText(lines, n, "") == (x + " " + y, n + 2)
  {
    assert AcceptText(lines, n + 2, x + " " + y) == (x + " " + y, n + 2);
    assert AcceptText(lines, n + 1, x) == AcceptText(lines, n + 2, x + " " + y);
  }

  lemma AcceptLine(lines: seq<string>, n: nat, st: State, x: string, y: string)
    requires 1 <= n && n + 2 == |lines| && !st.inGoal && st.pendingForbid.None?
    requires x == REQUIRED_CLAUSE && y == CRITICAL_CLAUSE
    requires Trim(lines[n]) == x && Continues(lines[n])
    requires Trim(lines[n + 1]) == "AND" + " " + y && Continues(lines[n + 1])
    ensures OnLine(lines, n, Trim(TAIL[0]), st) == Ok(st.(skipUntil := n + 2))
  {
    AcceptStart();
    Gathered(lines, n, x, "AND" + " " + y);
    AcceptedText(x, y);
    AcceptEnds(lines, n, st, "ACCEPT WHEN");
  }

  lemma AcceptEnds(lines: seq<string>, n: nat, st: State, line: string)
    requires 1 <= n && n + 2 == |lines| && !st.inGoal && st.pendingForbid.None?
    requires line == "ACCEPT WHEN"
    requires AcceptText(lines, n, "").1 == n + 2 && AcceptFault(AcceptText(lines, n, "").0) == None
    ensures OnLine(lines, n, line, st) == Ok(st.(skipUntil := n + 2))
  {
    AcceptStart();
    assert OnAccept(st, lines, "", n) == Ok(st.(skipUntil := n + 2));
    assert st.(inGoal := false) == st;
  }

  // ---------------------------------------------------------------- the trace

  /** The two lines of claim `k`, and the two of its verification. */
  ghost predicate ClaimPair(ls: seq<string>, ds: seq<Draft>, k: nat)
    requires k < |ds| && |ls| == 8 + 4 * |ds|
  {
    Trim(ls[5 + 2 * k]) == Trim(ClaimText(ds[k].0)) && Trim(ls[6 + 2 * k]) == Trim(EnsureText(ds[k].1))
  }

  ghost predicate VerifyPair(ls: seq<string>, ds: seq<Draft>, k: nat)
    requires k < |ds| && |ls| == 8 + 4 * |ds|
  {
    && Trim(ls[5 + 2 * |ds| + 2 * k]) == Trim(VerifyText(ds[k].0))
    && Trim(ls[6 + 2 * |ds| + 2 * k]) == Trim(USING_LINE)
  }

  ghost predicate Layout(ls: seq<string>, intent: string, ds: seq<Draft>) {
    && |ls| == 8 + 4 * |ds|
    && (forall i :: 0 <= i < 5 ==> Trim(ls[i]) == Trim(Header(intent)[i]))
    && (forall k :: 0 <= k < |ds| ==> ClaimPair(ls, ds, k))
    && (forall k :: 0 <= k < |ds| ==> VerifyPair(ls, ds, k))
    && (forall i :: 0 <= i < 3 ==> Trim(ls[5 + 4 * |ds| + i]) == Trim(TAIL[i]))
  }

  lemma Halves(k: nat)
    ensures (2 * k) / 2 == k && (2 * k) % 2 == 0 && (2 * k + 1) / 2 == k && (2 * k + 1) % 2 == 1
  {
  }

  lemma ClaimLinesAt(ds: seq<Draft>, k: nat)
    requires k < |ds|
    ensures |ClaimLines(ds)| == |VerifyLines(ds)| == 2 * |ds|
    ensures ClaimLines(ds)[2 * k] == ClaimText(ds[k].0) && ClaimLines(ds)[2 * k + 1] == EnsureText(ds[k].1)
    ensures VerifyLines(ds)[2 * k] == VerifyText(ds[k].0) && VerifyLines(ds)[2 * k + 1] == USING_LINE
  {
    hide ClaimText, EnsureText, VerifyText;
    Halves(k);
  }

  /** Where each block of a concatenation of four lies. */
  lemma BlockAt(a: seq<string>, b: seq<string>, c: seq<string>, d: seq<string>)
    ensures var s := a + b + c + d;
      && (forall i :: 0 <= i < |a| ==> s[i] == a[i])
      && (forall i :: 0 <= i < |b| ==> s[|a| + i] == b[i])
      && (forall i :: 0 <= i < |c| ==> s[|a| + |b| + i] == c[i])
      && (forall i :: 0 <= i < |d| ==> s[|a| + |b| + |c| + i] == d[i])
  {
  }

  lemma LayoutHolds(intent: string, ds: seq<Draft>)
    ensures Layout(Parsed(intent, ds), intent, ds)
  {
    var raw, ls := CandidateLines(intent, ds), Parsed(intent, ds);
    BlockAt(Header(intent), ClaimLines(ds), VerifyLines(ds), TAIL);
    forall i | 0 <= i < |ls| ensures Trim(ls[i]) == Trim(raw[i]) { TrimStripCr(raw[i]); }
    var m := |ds|;
    assert |ls| == 8 + 4 * m;
    forall k | 0 <= k < m ensures ClaimPair(ls, ds, k) && VerifyPair(ls, ds, k) {
      PairsAt(raw, ls, intent, ds, k);
    }
    forall i | 0 <= i < 3 ensures Trim(ls[5 + 4 * m + i]) == Trim(TAIL[i]) {
      assert raw[5 + 2 * m + 2 * m + i] == TAIL[i];
    }
  }

  lemma PairsAt(raw: seq<string>, ls: seq<string>, intent: string, ds: seq<Draft>, k: nat)
    requires k < |ds| && |raw| == |ls| == 8 + 4 * |ds|
    requires forall i :: 0 <= i < |ls| ==> Trim(ls[i]) == Trim(raw[i])
    requires forall i :: 0 <= i < 2 * |ds| ==> raw[5 + i] == ClaimLines(ds)[i]
    requires forall i :: 0 <= i < 2 * |ds| ==> raw[5 + 2 * |ds| + i] == VerifyLines(ds)[i]
    ensures ClaimPair(ls, ds, k) && VerifyPair(ls, ds, k)
  {
    ClaimLinesAt(ds, k);
    assert raw[5 + 2 * k] == ClaimLines(ds)[2 * k];
    assert raw[5 + (2 * k + 1)] == ClaimLines(ds)[2 * k + 1];
    assert raw[5 + 2 * |ds| + 2 * k] == VerifyLines(ds)[2 * k];
    assert raw[5 + 2 * |ds| + (2 * k + 1)] == VerifyLines(ds)[2 * k + 1];
  }

  /** One line further, when nothing is being skipped. */
  lemma ScanStep(lines: seq<string>, n: nat, st: State, line: string)
    requires n < |lines| && Scan(lines, n) == Ok(st) && st.skipUntil <= n
    requires Trim(lines[n]) == Trim(line)
    ensures Scan(lines, n + 1) == OnLine(lines, n + 1, Trim(line), st)
  {
  }

  lemma HeaderTrace(ls: seq<string>, intent: string, ds: seq<Draft>)
    requires Layout(ls, intent, ds)
    ensures Scan(ls, 5) == Ok(AfterClaims(intent, ds, 0))
  {
    var s2 := START.(version := Some("0.1"), domain := Some("software"));
    VersionTrace(ls, intent, ds);
    ScanStep(ls, 2, s2, Header(intent)[2]);
    IntentLine(ls, 3, s2, intent);
    GoalTrace(ls, intent, ds, s2.(intent := Some("candidate-" + TrimEnd(intent))));
  }

  lemma VersionTrace(ls: seq<string>, intent: string, ds: seq<Draft>)
    requires Layout(ls, intent, ds)
    ensures Scan(ls, 2) == Ok(START.(version := Some("0.1"), domain := Some("software")))
  {
    ScanStep(ls, 0, START, Header(intent)[0]);
    VersionLine(ls, 1, START);
    var s1 := START.(version := Some("0.1"));
    ScanStep(ls, 1, s1, Header(intent)[1]);
    DomainLine(ls, 2, s1);
  }

  lemma GoalTrace(ls: seq<string>, intent: string, ds: seq<Draft>, st: State)
    requires Layout(ls, intent, ds) && Scan(ls, 3) == Ok(st) && st.skipUntil == 0 && st.goal == ""
    ensures Scan(ls, 5) == Ok(st.(inGoal := true, goal := GOAL_TEXT))
  {
    ScanStep(ls, 3, st, Header(intent)[3]);
    GoalDirective(ls, 4, st);
    ScanStep(ls, 4, st.(inGoal := true), Header(intent)[4]);
    GoalShape();
    GoalLine(ls, 5, st.(inGoal := true), GOAL_TEXT);
  }

  lemma GoalShape()
    ensures |GOAL_TEXT| >= 2 && GOAL_TEXT[0] == 'I' && GOAL_TEXT[1] == 'm'
    ensures !IsSpace(GOAL_TEXT[|GOAL_TEXT| - 1])
  {
  }

  ghost predicate TokenIds(ds: seq<Draft>) {
    forall i :: 0 <= i < |ds| ==> IsToken(ds[i].0) && ds[i].0 != "OPTIONAL"
  }

  lemma ClaimsIdle(intent: string, ds: seq<Draft>, k: nat)
    requires k <= |ds|
    ensures AfterClaims(intent, ds, k).skipUntil == 0
  {
  }

  lemma ClaimStep(ls: seq<string>, intent: string, ds: seq<Draft>, k: nat)
    requires k < |ds| && TokenIds(ds) && |ls| == 8 + 4 * |ds| && ClaimPair(ls, ds, k)
    requires Scan(ls, 5 + 2 * k) == Ok(AfterClaims(intent, ds, k))
    ensures Scan(ls, 7 + 2 * k) == Ok(AfterClaims(intent, ds, k + 1))
  {
    hide Scan, OnLine, Trim, AfterClaims, OneLine, ClaimText;
    var st, n, text := AfterClaims(intent, ds, k), 5 + 2 * k, OneLine(ds[k].1);
    ClaimsIdle(intent, ds, k);
    ScanStep(ls, n, st, ClaimText(ds[k].0));
    ClaimLine(ls, n + 1, st, ds[k].0);
    var c := Claim(ds[k].0, PlainClaim, true, false, "", n + 1);
    var mid := st.(inGoal := false, claims := st.claims + [c]);
    ScanStep(ls, n + 1, mid, EnsureText(ds[k].1));
    EnsureLine(ls, n + 2, mid, text);
    ClaimGrows(intent, ds, k);
  }

  lemma ClaimGrows(intent: string, ds: seq<Draft>, k: nat)
    requires k < |ds|
    ensures var st := AfterClaims(intent, ds, k);
            var mid := st.(inGoal := false,
                           claims := st.claims + [Claim(ds[k].0, PlainClaim, true, false, "", 6 + 2 * k)]);
            OnEnsure(mid, OneLine(ds[k].1), 7 + 2 * k) == Ok(AfterClaims(intent, ds, k + 1))
  {
    var st := AfterClaims(intent, ds, k);
    var c := Claim(ds[k].0, PlainClaim, true, false, "", 6 + 2 * k);
    assert (st.claims + [c])[k := ClaimAt(ds, k)] == st.claims + [ClaimAt(ds, k)];
  }

  lemma {:induction false} ClaimsTrace(ls: seq<string>, intent: string, ds: seq<Draft>, k: nat)
    requires k <= |ds| && TokenIds(ds) && Layout(ls, intent, ds)
    ensures Scan(ls, 5 + 2 * k) == Ok(AfterClaims(intent, ds, k))
  {
    hide Scan, AfterClaims, Layout, TokenIds, ClaimPair, VerifyPair;
    if k == 0 {
      HeaderTrace(ls, intent, ds);
    } else {
      ClaimsTrace(ls, intent, ds, k - 1);
      PairsOf(ls, intent, ds, k - 1);
      ClaimStep(ls, intent, ds, k - 1);
    }
  }

  lemma PairsOf(ls: seq<string>, intent: string, ds: seq<Draft>, k: nat)
    requires k < |ds| && Layout(ls, intent, ds)
    ensures |ls| == 8 + 4 * |ds| && ClaimPair(ls, ds, k) && VerifyPair(ls, ds, k)
  {
  }

  lemma VerifyTrace(ls: seq<string>, intent: string, ds: seq<Draft>, k: nat)
    requires k < |ds| && TokenIds(ds) && |ls| == 8 + 4 * |ds| && VerifyPair(ls, ds, k)
    requires Scan(ls, 5 + 2 * |ds| + 2 * k) == Ok(AfterVerifies(intent, ds, k))
    ensures !Contains(ds[k].0, "USING") ==> Scan(ls, 7 + 2 * |ds| + 2 * k) == Ok(AfterVerifies(intent, ds, k + 1))
    ensures Contains(ds[k].0, "USING") ==> Scan(ls, 7 + 2 * |ds| + 2 * k).Err?
  {
    hide Scan, OnLine, Trim, Contains, Pushed, AfterVerifies, OnVerify, VerifyText;
    var st, n, id := AfterVerifies(intent, ds, k), 5 + 2 * |ds| + 2 * k, ds[k].0;
    Idle(intent, ds, k);
    ScanStep(ls, n, st, VerifyText(id));
    VerifyLine(ls, n + 1, st, id);
    VerifyId(st, id, n + 1);
    var next := OnVerify(st, id, n + 1);
    if next.Ok? {
      VerifyKeepsSkip(st, id, n + 1);
      ScanStep(ls, n + 1, next.value, USING_LINE);
      ProjectTestsSolid();
      UsingLine(ls, n + 2, next.value, PROJECT_TESTS);
      if !Contains(id, "USING") {
        VerificationGrows(intent, ds, k);
      }
    } else {
      ScanStops(ls, n + 1, n + 2);
    }
  }

  lemma ProjectTestsSolid()
    ensures PROJECT_TESTS != [] && !IsSpace(PROJECT_TESTS[0]) && !IsSpace(PROJECT_TESTS[|PROJECT_TESTS| - 1])
  {
  }

  lemma VerifyKeepsSkip(st: State, id: string, n: nat)
    ensures OnVerify(st, id, n).Ok? ==> OnVerify(st, id, n).value.skipUntil == st.skipUntil
  {
  }

  lemma VerificationGrows(intent: string, ds: seq<Draft>, k: nat)
    requires k < |ds| && IsToken(ds[k].0)
    ensures var st, n := AfterVerifies(intent, ds, k), 6 + 2 * |ds| + 2 * k;
            Pushed(st, ds[k].0, PROJECT_TESTS, n, n + 1) == Ok(AfterVerifies(intent, ds, k + 1))
  {
    hide MakeVerification, ClaimsTo;
    ProjectTests(ds[k].0, 6 + 2 * |ds| + 2 * k);
  }

  lemma NoneVerified(ls: seq<string>, intent: string, ds: seq<Draft>)
    requires TokenIds(ds) && Layout(ls, intent, ds)
    ensures Scan(ls, 5 + 2 * |ds|) == Ok(AfterVerifies(intent, ds, 0))
  {
    hide Scan, Layout;
    ClaimsTrace(ls, intent, ds, |ds|);
    assert AfterVerifies(intent, ds, 0) == AfterClaims(intent, ds, |ds|);
  }

  lemma {:induction false} VerifiesTrace(ls: seq<string>, intent: string, ds: seq<Draft>, k: nat)
    requires k <= |ds| && ds != [] && TokenIds(ds) && Layout(ls, intent, ds)
    requires forall i :: 0 <= i < k ==> !Contains(ds[i].0, "USING")
    ensures Scan(ls, 5 + 2 * |ds| + 2 * k) == Ok(AfterVerifies(intent, ds, k))
  {
    hide Scan, Layout, AfterVerifies, TokenIds, ClaimPair, VerifyPair;
    if k == 0 {
      NoneVerified(ls, intent, ds);
    } else {
      VerifiesTrace(ls, intent, ds, k - 1);
      PairsOf(ls, intent, ds, k - 1);
      VerifyTrace(ls, intent, ds, k - 1);
    }
  }

  lemma TailAt(ls: seq<string>, intent: string, ds: seq<Draft>)
    requires Layout(ls, intent, ds)
    ensures |ls| == 8 + 4 * |ds|
    ensures var n := 5 + 4 * |ds|;
            Trim(ls[n]) == Trim(TAIL[0]) && Trim(ls[n + 1]) == Trim(TAIL[1]) && Trim(ls[n + 2]) == Trim(TAIL[2])
  {
    hide Trim, Header, ClaimPair, VerifyPair;
    var n := 5 + 4 * |ds|;
    assert Trim(ls[n + 0]) == Trim(TAIL[0]);
  }

  lemma Idle(intent: string, ds: seq<Draft>, k: nat)
    requires ds != [] && k <= |ds|
    ensures var st := AfterVerifies(intent, ds, k);
            !st.inGoal && st.pendingForbid.None? && st.pendingVerify.None? && st.skipUntil == 0 && st.claims != []
  {
  }

  lemma WholeTrace(ls: seq<string>, intent: string, ds: seq<Draft>)
    requires WellFormed(ds) && Layout(ls, intent, ds)
    ensures Scan(ls, |ls|) == Ok(AfterVerifies(intent, ds, |ds|).(skipUntil := |ls|))
  {
    hide Scan, Trim, Contains, AfterVerifies, Layout;
    VerifiesTrace(ls, intent, ds, |ds|);
    TailAt(ls, intent, ds);
    Idle(intent, ds, |ds|);
    AcceptTrace(ls, 5 + 4 * |ds|, AfterVerifies(intent, ds, |ds|));
  }

  lemma AcceptTrace(ls: seq<string>, n: nat, st: State)
    requires n + 3 == |ls| && Scan(ls, n) == Ok(st)
    requires !st.inGoal && st.pendingForbid.None? && st.skipUntil <= n
    requires Trim(ls[n]) == Trim(TAIL[0]) && Trim(ls[n + 1]) == Trim(TAIL[1]) && Trim(ls[n + 2]) == Trim(TAIL[2])
    ensures Scan(ls, |ls|) == Ok(st.(skipUntil := |ls|))
  {
    hide Scan, OnLine, Trim, Continues;
    ScanStep(ls, n, st, TAIL[0]);
    TailTrims();
    ContinuesSame(ls[n + 1], TAIL[1]);
    ContinuesSame(ls[n + 2], TAIL[2]);
    AcceptLine(ls, n + 1, st, REQUIRED_CLAUSE, CRITICAL_CLAUSE);
    var last := st.(skipUntil := n + 3);
    ScanSkipped(ls, n + 1, last);
    ScanSkipped(ls, n + 2, last);
  }

  lemma ScanSkipped(ls: seq<string>, n: nat, st: State)
    requires n < |ls| && Scan(ls, n) == Ok(st) && n < st.skipUntil
    ensures Scan(ls, n + 1) == Ok(st)
  {
  }

  lemma ContinuesSame(a: string, b: string)
    requires Trim(a) == Trim(b)
    ensures Continues(a) <==> Continues(b)
  {
  }

  // ---------------------------------------------------------------- the theorem

  ghost predicate NoNewlines(ls: seq<string>) {
    forall i :: 0 <= i < |ls| ==> '\n' !in ls[i]
  }

  lemma HeaderOneLine(intent: string)
    requires '\n' !in intent
    ensures NoNewlines(Header(intent))
  {
    assert '\n' !in "VERSION" + " " + "0.1";
    assert '\n' !in "DOMAIN" + " " + "software";
    IntentOneLine("INTENT", "candidate-", intent);
    GoalOneLine();
  }

  lemma IntentOneLine(word: string, p: string, intent: string)
    requires '\n' !in intent && '\n' !in word && '\n' !in p
    ensures '\n' !in word + " " + (p + intent)
  {
  }

  lemma GoalOneLine()
    ensures '\n' !in "GOAL" && '\n' !in "  " + GOAL_TEXT
  {
    assert '\n' !in GOAL_TEXT;
  }

  lemma TailOneLine()
    ensures NoNewlines(TAIL) && '\n' !in USING_LINE
  {
  }

  lemma DraftOneLine(d: Draft)
    requires IsToken(d.0)
    ensures '\n' !in ClaimText(d.0) && '\n' !in EnsureText(d.1) && '\n' !in VerifyText(d.0)
  {
    OneLineHasNoNewline(d.1);
    assert '\n' !in d.0 by { assert IsSpace('\n'); }
  }

  lemma CandidateReads(intent: string, ds: seq<Draft>)
    requires TokenIds(ds) && '\n' !in intent
    ensures Lines(Candidate(intent, ds)) == Parsed(intent, ds)
  {
    HeaderOneLine(intent);
    TailOneLine();
    forall i | 0 <= i < |ds|
      ensures '\n' !in ClaimText(ds[i].0) && '\n' !in EnsureText(ds[i].1) && '\n' !in VerifyText(ds[i].0)
    {
      DraftOneLine(ds[i]);
    }
    BlocksOneLine(Header(intent), ClaimLines(ds), VerifyLines(ds), TAIL);
    LinesOfUnlines(CandidateLines(intent, ds));
  }

  lemma BlocksOneLine(a: seq<string>, b: seq<string>, c: seq<string>, d: seq<string>)
    requires NoNewlines(a) && NoNewlines(b) && NoNewlines(c) && NoNewlines(d)
    ensures NoNewlines(a + b + c + d)
  {
  }

  lemma {:induction false} DanglingNoneIf(claims: seq<Claim>, vs: seq<Verification>)
    requires forall k :: 0 <= k < |vs| ==> Declares(claims, vs[k].claimId)
    ensures Dangling(claims, vs) == None
  {
    if vs != [] { DanglingNoneIf(claims, vs[1..]); }
  }

  function ParsedAst(intent: string, ds: seq<Draft>): Ast {
    Ast("0.1", "software", "candidate-" + TrimEnd(intent), GOAL_TEXT,
        ClaimsTo(ds, |ds|), VerificationsTo(ds, |ds|))
  }

  lemma ParsesTo(intent: string, ds: seq<Draft>)
    requires WellFormed(ds) && '\n' !in intent
    ensures ParseLines(Lines(Candidate(intent, ds))) == Ok(ParsedAst(intent, ds))
  {
    var ls := Parsed(intent, ds);
    CandidateReads(intent, ds);
    LayoutHolds(intent, ds);
    WholeTrace(ls, intent, ds);
    var claims, vs := ClaimsTo(ds, |ds|), VerificationsTo(ds, |ds|);
    forall k | 0 <= k < |vs| ensures Declares(claims, vs[k].claimId) {
      assert claims[k].id == vs[k].claimId;
    }
    DanglingNoneIf(claims, vs);
    Finishes(intent, ds, |ls|);
  }

  lemma {:induction false} Finishes(intent: string, ds: seq<Draft>, j: nat)
    requires ds != [] && Dangling(ClaimsTo(ds, |ds|), VerificationsTo(ds, |ds|)) == None
    ensures Finish(AfterVerifies(intent, ds, |ds|).(skipUntil := j)) == Ok(ParsedAst(intent, ds))
  {
  }

  lemma CompilesTo(intent: string, ds: seq<Draft>)
    requires WellFormed(ds)
    ensures Compile(ParsedAst(intent, ds)) == Ok(Expected(intent, ds))
  {
    var ast := ParsedAst(intent, ds);
    assert DistinctIds(ast.claims);
    CompilesIffDistinct(ast);
    var c := Compile(ast).value;
    assert c.claims == Expected(intent, ds).claims;
    assert c.verification == Expected(intent, ds).verification;
  }

  /** A contract that reads back has token ids, none of them OPTIONAL, all of them distinct. */
  lemma ReadIds(text: string, intent: string, ds: seq<Draft>)
    requires ReadsBackAs(text, Expected(intent, ds))
    ensures ds != [] && TokenIds(ds)
    ensures forall i, j :: 0 <= i < j < |ds| ==> ds[i].0 != ds[j].0
  {
    var lines := Lines(text);
    var ast := ParseLines(lines).value;
    ParseGuarantees(lines);
    CompilesIffDistinct(ast);
    var c := Compile(ast).value;
    forall i | 0 <= i < |ds| ensures IsToken(ds[i].0) && ds[i].0 != "OPTIONAL" && ast.claims[i].id == ds[i].0 {
      assert c.claims[i] == ClaimOf(ast.claims[i]) == ClaimFor(ds[i]);
      assert Numbered(lines, ast.claims, i);
    }
  }

  /** The least index at which something holds. */
  lemma {:induction false} FirstUsing(ds: seq<Draft>, i: nat) returns (k: nat)
    requires i < |ds| && Contains(ds[i].0, "USING")
    ensures k < |ds| && Contains(ds[k].0, "USING")
    ensures forall j :: 0 <= j < k ==> !Contains(ds[j].0, "USING")
  {
    if j :| 0 <= j < i && Contains(ds[j].0, "USING") {
      k := FirstUsing(ds, j);
    } else {
      k := i;
    }
  }

  /** An id that contains USING stops the parser. */
  lemma UsingStops(intent: string, ds: seq<Draft>, i: nat)
    requires TokenIds(ds) && '\n' !in intent && i < |ds| && Contains(ds[i].0, "USING")
    ensures ParseLines(Lines(Candidate(intent, ds))).Err?
  {
    hide Scan, Contains, AfterVerifies, Layout, Candidate, Parsed, Lines, VerifyPair, ClaimPair;
    var ls := Parsed(intent, ds);
    var k := FirstUsing(ds, i);
    CandidateReads(intent, ds);
    LayoutHolds(intent, ds);
    PairsOf(ls, intent, ds, k);
    VerifiesTrace(ls, intent, ds, k);
    VerifyTrace(ls, intent, ds, k);
    ScanStops(ls, 7 + 2 * |ds| + 2 * k, |ls|);
  }

  /** The candidate contract reads back as the extracted claims, in order, one `project.tests`
      verification each, exactly when the ids are well formed. */
  lemma ReadsBackIffWellFormed(intent: string, ds: seq<Draft>)
    requires '\n' !in intent
    ensures ReadsBackAs(Candidate(intent, ds), Expected(intent, ds)) <==> WellFormed(ds)
  {
    if WellFormed(ds) {
      ParsesTo(intent, ds);
      CompilesTo(intent, ds);
    }
    if ReadsBackAs(Candidate(intent, ds), Expected(intent, ds)) {
      ReadIds(Candidate(intent, ds), intent, ds);
      if i :| 0 <= i < |ds| && Contains(ds[i].0, "USING") {
        UsingStops(intent, ds, i);
      }
    }
  }
}
