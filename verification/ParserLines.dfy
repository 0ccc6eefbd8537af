/** What single lines of a `.uni` text amount to: the header, the goal, FORBID, the two forms of
    VERIFY, the condition; and which line an error names. */
module ParserLines {
  import opened Parser
  import opened ParserFacts
  import opened Prelude
  import opened Text

  // ---------------------------------------------------------------- errors

  lemma LineError(lines: seq<string>, n: nat, line: string, st: State)
    requires 1 <= n <= |lines| && OnLine(lines, n, line, st).Err?
    ensures OnLine(lines, n, line, st).error.line == n
  {
  }

  /** A text that does not scan stops at the line its error names: up to there it scans. */
  lemma {:induction false} ScanError(lines: seq<string>, n: nat)
    requires n <= |lines| && Scan(lines, n).Err?
    ensures var at := Scan(lines, n).error.line;
            1 <= at <= n && Scan(lines, at - 1).Ok? && Scan(lines, at) == Scan(lines, n)
  {
    hide OnLine;
    if Scan(lines, n - 1).Err? {
      ScanError(lines, n - 1);
    } else {
      LineError(lines, n, Trim(lines[n - 1]), Scan(lines, n - 1).value);
    }
  }

  ghost predicate Misses(st: State, why: Why) {
    || (why == MissingVersion && st.version.None?)
    || (why == MissingDomain && st.domain.None?)
    || (why == MissingIntent && st.intent.None?)
    || (why == NoClaims && st.claims == [])
  }

  /** Every parse error names the line at which scanning stops, or no line for what is missing
      altogether, or the line of a VERIFY whose claim is nowhere declared. */
  lemma ErrorLine(lines: seq<string>)
    requires ParseLines(lines).Err?
    ensures var e := ParseLines(lines).error;
      if Scan(lines, |lines|).Err?
      then 1 <= e.line <= |lines| && Scan(lines, e.line - 1).Ok? && Scan(lines, e.line) == Err(e)
      else var st := Scan(lines, |lines|).value;
           || (e.line == 0 && Misses(st, e.why))
           || (e.why.UnknownClaim? && !Declares(st.claims, e.why.claim)
               && exists v :: v in st.verifications && v.claimId == e.why.claim && v.line == e.line)
  {
    hide Scan;
    if Scan(lines, |lines|).Err? {
      ScanError(lines, |lines|);
    } else {
      DanglingIn(Scan(lines, |lines|).value.claims, Scan(lines, |lines|).value.verifications);
    }
  }

  lemma {:induction false} DanglingIn(claims: seq<Claim>, vs: seq<Verification>)
    ensures Dangling(claims, vs).Some? ==>
              Dangling(claims, vs).value in vs && !Declares(claims, Dangling(claims, vs).value.claimId)
  {
    if vs != [] && Declares(claims, vs[0].claimId) {
      DanglingIn(claims, vs[1..]);
      assert forall v :: v in vs[1..] ==> v in vs;
    }
  }

  // ---------------------------------------------------------------- header

  /** The last of the first `n` lines that begins with a word; 0 when none does. */
  ghost function LastWith(lines: seq<string>, n: nat, word: string): (at: nat)
    requires n <= |lines|
    ensures at <= n && (at > 0 ==> word <= At(lines, at))
    ensures forall k :: at < k <= n ==> !(word <= At(lines, k))
  {
    if n == 0 then 0 else if word <= At(lines, n) then n else LastWith(lines, n - 1, word)
  }

  ghost function TextAfter(lines: seq<string>, n: nat, word: string): Option<string>
    requires n <= |lines|
  {
    var at := LastWith(lines, n, word);
    if at == 0 then None else Some(Trim(At(lines, at)[|word|..]))
  }

  ghost predicate HeaderIs(st: State, version: Option<string>, domain: Option<string>, intent: Option<string>) {
    st.version == version && st.domain == domain && st.intent == intent
  }

  lemma HeaderLine(lines: seq<string>, n: nat, line: string, st: State)
    requires 1 <= n <= |lines| && OnLine(lines, n, line, st).Ok?
    ensures HeaderIs(OnLine(lines, n, line, st).value,
                     if "VERSION" <= line then Some(Trim(line[7..])) else st.version,
                     if "DOMAIN" <= line then Some(Trim(line[6..])) else st.domain,
                     if "INTENT" <= line then Some(Trim(line[6..])) else st.intent)
  {
    if "USING" <= line { assert line[0] == 'U'; }
    if "VERSION" <= line { assert line[0] == 'V'; }
    if "DOMAIN" <= line { assert line[0] == 'D'; }
    if "INTENT" <= line { assert line[0] == 'I'; }
    BodyHeader(lines, n, line, st.(inGoal := false));
    hide OnBody, OnUsing;
    UsingHeader(line, n, st);
  }

  ghost predicate KeepsHeader(st: State, next: Next) {
    next.Ok? ==> HeaderIs(next.value, st.version, st.domain, st.intent)
  }

  lemma BodyHeader(lines: seq<string>, n: nat, line: string, st: State)
    requires 1 <= n <= |lines|
    ensures KeepsHeader(st, OnBody(lines, n, line, st))
  {
    ClaimsHeader(n, line, st);
    RestHeader(lines, n, line, st);
    hide OnClaim, OnInvariant, OnEnsure, OnVerify, OnAccept, OnRequire;
  }

  lemma ClaimsHeader(n: nat, line: string, st: State)
    ensures |line| >= 5 ==> KeepsHeader(st, OnClaim(st, line[5..], n))
    ensures |line| >= 9 ==> KeepsHeader(st, OnInvariant(st, line[9..], n))
    ensures |line| >= 6 ==> KeepsHeader(st, OnEnsure(st, line[6..], n))
  {
  }

  lemma RestHeader(lines: seq<string>, n: nat, line: string, st: State)
    requires 1 <= n <= |lines|
    ensures |line| >= 6 ==> KeepsHeader(st, OnVerify(st, line[6..], n))
    ensures |line| >= 11 ==> KeepsHeader(st, OnAccept(st, lines, line[11..], n))
    ensures |line| >= 7 ==> KeepsHeader(st, OnRequire(st, lines, line[7..], n))
  {
  }

  lemma UsingHeader(line: string, n: nat, st: State)
    ensures "USING" <= line && OnUsing(st, line[5..], n).Ok? ==>
              HeaderIs(OnUsing(st, line[5..], n).value, st.version, st.domain, st.intent)
  {
  }

  lemma SkippedHeader(lines: seq<string>, n: nat)
    requires 1 <= n <= |lines| && Continues(lines[n - 1])
    ensures !("VERSION" <= At(lines, n)) && !("DOMAIN" <= At(lines, n)) && !("INTENT" <= At(lines, n))
  {
    var line := At(lines, n);
    assert line[0] == 'r' || line[0] == 'c' || line[0] == 'A';
    NotPrefix("VERSION", line);
    NotPrefix("DOMAIN", line);
    NotPrefix("INTENT", line);
  }

  /** The header says what its last VERSION, DOMAIN and INTENT lines say. */
  lemma {:induction false} ScanHeader(lines: seq<string>, n: nat)
    requires n <= |lines| && Scan(lines, n).Ok?
    ensures HeaderIs(Scan(lines, n).value, TextAfter(lines, n, "VERSION"), TextAfter(lines, n, "DOMAIN"),
                     TextAfter(lines, n, "INTENT"))
  {
    if n > 0 {
      hide OnLine;
      ScanHeader(lines, n - 1);
      ScanSkips(lines, n - 1);
      var st := Scan(lines, n - 1).value;
      if n - 1 < st.skipUntil { SkippedHeader(lines, n); } else { HeaderLine(lines, n, At(lines, n), st); }
    }
  }

  lemma HeaderExact(lines: seq<string>)
    requires ParseLines(lines).Ok?
    ensures var ast := ParseLines(lines).value;
      && TextAfter(lines, |lines|, "VERSION") == Some(ast.version)
      && TextAfter(lines, |lines|, "DOMAIN") == Some(ast.domain)
      && TextAfter(lines, |lines|, "INTENT") == Some(ast.intent)
  {
    hide Scan, TextAfter;
    ScanHeader(lines, |lines|);
  }

  // ---------------------------------------------------------------- FORBID

  /** A line that is handed to the directives below the header. */
  ghost predicate Body(line: string, inGoal: bool) {
    && line != "" && line[0] != '#' && line != "GOAL"
    && !("USING" <= line) && !("VERSION" <= line) && !("DOMAIN" <= line) && !("INTENT" <= line)
    && (inGoal ==> StartsWithDirective(line))
  }

  lemma ForbidIsBody(line: string, inGoal: bool)
    requires "FORBID" <= line && (inGoal ==> IsWord(line, "FORBID"))
    ensures Body(line, inGoal) && !("CLAIM" <= line) && !("INVARIANT" <= line) && !("ENSURE" <= line)
  {
    assert DIRECTIVES[8] == "FORBID" && line[0] == 'F';
    NotPrefix("USING", line);
    NotPrefix("VERSION", line);
    NotPrefix("DOMAIN", line);
    NotPrefix("INTENT", line);
    NotPrefix("CLAIM", line);
    NotPrefix("INVARIANT", line);
    NotPrefix("ENSURE", line);
  }

  lemma NotSkipped(lines: seq<string>, n: nat)
    requires 1 <= n <= |lines| && Scan(lines, n - 1).Ok? && "FORBID" <= At(lines, n)
    ensures n - 1 >= Scan(lines, n - 1).value.skipUntil
  {
    ScanSkips(lines, n - 1);
    var line := At(lines, n);
    NotPrefix("required_claims", line);
    NotPrefix("critical_failures", line);
    NotPrefix("AND ", line);
  }

  /** The claim a FORBID makes: the next number, critical and required, with the forbidden text. */
  ghost predicate Forbade(st: State, next: State, text: string, line: nat) {
    && next.claims == st.claims
         + [Claim("forbid-" + Decimal(st.forbidCount + 1), Invariant, true, true, "FORBID " + text, line)]
    && next.verifications == st.verifications && next.pendingForbid == None
  }

  /** FORBID with its text on the same line. */
  lemma ForbidLine(lines: seq<string>, n: nat)
    requires 1 <= n <= |lines| && Scan(lines, n - 1).Ok? && Scan(lines, n - 1).value.pendingForbid.None?
    requires "FORBID" <= At(lines, n) && At(lines, n) != "FORBID"
    requires Scan(lines, n - 1).value.inGoal ==> IsWord(At(lines, n), "FORBID")
    ensures Scan(lines, n).Ok? && Forbade(Scan(lines, n - 1).value, Scan(lines, n).value, Trim(At(lines, n)[6..]), n)
  {
    ForbidIsBody(At(lines, n), Scan(lines, n - 1).value.inGoal);
    NotSkipped(lines, n);
    hide StartsWithDirective;
  }

  /** FORBID on a line of its own waits for text. */
  lemma BareForbid(lines: seq<string>, n: nat)
    requires 1 <= n <= |lines| && Scan(lines, n - 1).Ok? && At(lines, n) == "FORBID"
    ensures Scan(lines, n) == Ok(Scan(lines, n - 1).value.(inGoal := false, pendingForbid := Some(n)))
  {
    assert IsWord(At(lines, n), "FORBID");
    ForbidIsBody(At(lines, n), Scan(lines, n - 1).value.inGoal);
    NotSkipped(lines, n);
    hide StartsWithDirective;
  }

  /** Blank lines and comments leave a waiting FORBID as it is. */
  lemma {:induction false} StillWaiting(lines: seq<string>, n: nat, m: nat, st: State)
    requires n <= m <= |lines| && Scan(lines, n) == Ok(st) && !st.inGoal && st.skipUntil <= n && AllGaps(lines, n, m)
    ensures Scan(lines, m) == Ok(st)
  {
    if n < m {
      StillWaiting(lines, n, m - 1, st);
      GapLine(lines, m, st);
    }
  }

  lemma GapLine(lines: seq<string>, n: nat, st: State)
    requires 1 <= n <= |lines| && !st.inGoal
    requires Trim(lines[n - 1]) == "" || Trim(lines[n - 1])[0] == '#'
    ensures OnLine(lines, n, Trim(lines[n - 1]), st) == Ok(st)
  {
  }

  /** A bare FORBID takes the next line of text, whatever directive below FORBID that line looks
      like, and stands where FORBID stood. */
  lemma ForbidTakes(lines: seq<string>, n: nat, m: nat)
    requires 1 <= n < m <= |lines| && Scan(lines, n - 1).Ok? && At(lines, n) == "FORBID"
    requires AllGaps(lines, n, m - 1) && Body(At(lines, m), false)
    requires !("CLAIM" <= At(lines, m)) && !("INVARIANT" <= At(lines, m)) && !("ENSURE" <= At(lines, m))
    requires !("FORBID" <= At(lines, m))
    ensures Scan(lines, m).Ok? && Forbade(Scan(lines, n - 1).value, Scan(lines, m).value, At(lines, m), n)
  {
    BareForbid(lines, n);
    NotSkipped(lines, n);
    hide Scan, OnLine, At, Body, AllGaps;
    var st := Scan(lines, n).value;
    StillWaiting(lines, n, m - 1, st);
    ScanNext(lines, m - 1, st);
    TakesText(lines, m, At(lines, m), st);
    AtIs(lines, m);
  }

  lemma AtIs(lines: seq<string>, n: nat)
    requires 1 <= n <= |lines|
    ensures At(lines, n) == Trim(lines[n - 1])
  {
  }

  lemma TakesText(lines: seq<string>, n: nat, line: string, st: State)
    requires 1 <= n <= |lines| && st.pendingForbid.Some? && !st.inGoal && Body(line, false)
    requires !("CLAIM" <= line) && !("INVARIANT" <= line) && !("ENSURE" <= line) && !("FORBID" <= line)
    ensures OnLine(lines, n, line, st) == Ok(OnForbid(st.(pendingForbid := None), line, st.pendingForbid.value))
  {
    assert line != "FORBID";
    hide OnForbid, StartsWithDirective, OnUsing;
  }

  // ---------------------------------------------------------------- the goal

  /** Line `n` is goal text. */
  ghost predicate Prose(lines: seq<string>, n: nat)
    requires 1 <= n <= |lines|
  {
    && Scan(lines, n - 1).Ok? && Scan(lines, n - 1).value.inGoal && n - 1 >= Scan(lines, n - 1).value.skipUntil
    && var line := At(lines, n);
       && line != "" && line[0] != '#' && line != "GOAL" && !StartsWithDirective(line)
       && !("USING" <= line) && !("VERSION" <= line) && !("DOMAIN" <= line) && !("INTENT" <= line)
  }

  /** A directive ends the goal, wherever it stands. */
  lemma DirectiveIsNoProse(lines: seq<string>, n: nat, word: string)
    requires 1 <= n <= |lines| && IsWord(At(lines, n), word)
    requires word in {"VERSION", "DOMAIN", "INTENT", "GOAL", "CLAIM", "INVARIANT", "ENSURE", "FORBID", "VERIFY",
                      "REQUIRE", "ACCEPT", "REJECT", "ESCALATE"}
    ensures !Prose(lines, n)
  {
    assert exists i :: 0 <= i < |DIRECTIVES| && DIRECTIVES[i] == word by {
      assert DIRECTIVES[0] == "VERSION" && DIRECTIVES[1] == "DOMAIN" && DIRECTIVES[2] == "INTENT"
          && DIRECTIVES[3] == "GOAL" && DIRECTIVES[4] == "CLAIM" && DIRECTIVES[5] == "REQUIRE"
          && DIRECTIVES[6] == "ENSURE" && DIRECTIVES[7] == "INVARIANT" && DIRECTIVES[8] == "FORBID"
          && DIRECTIVES[9] == "VERIFY" && DIRECTIVES[10] == "ACCEPT" && DIRECTIVES[11] == "REJECT"
          && DIRECTIVES[12] == "ESCALATE";
    }
  }

  /** What leaves the goal open. */
  ghost predicate KeepsGoal(line: string) {
    || "USING" <= line || line == "GOAL"
    || (line != "" && (line[0] == '#'
          || !(StartsWithDirective(line) || "VERSION" <= line || "DOMAIN" <= line || "INTENT" <= line)))
  }

  ghost predicate OpenGoal(lines: seq<string>, n: nat, g: nat) {
    1 <= g <= n <= |lines| && At(lines, g) == "GOAL" && forall k :: g < k <= n ==> KeepsGoal(At(lines, k))
  }

  ghost predicate GoalOpen(lines: seq<string>, n: nat) {
    exists g: nat :: OpenGoal(lines, n, g)
  }

  lemma InGoalLine(lines: seq<string>, n: nat, line: string, st: State)
    requires 1 <= n <= |lines| && OnLine(lines, n, line, st).Ok?
    ensures OnLine(lines, n, line, st).value.inGoal <==> line == "GOAL" || (st.inGoal && KeepsGoal(line))
    ensures OnLine(lines, n, line, st).value.inGoal ==>
              OnLine(lines, n, line, st).value.skipUntil == st.skipUntil
  {
    BodyLeavesGoal(lines, n, line, st.(inGoal := false));
    if "USING" <= line && st.pendingVerify.Some? { UsingLeavesGoal(line, n, st); }
    hide OnBody, StartsWithDirective, OnUsing;
  }

  lemma UsingLeavesGoal(line: string, n: nat, st: State)
    requires "USING" <= line && OnUsing(st, line[5..], n).Ok?
    ensures OnUsing(st, line[5..], n).value.inGoal == st.inGoal
    ensures OnUsing(st, line[5..], n).value.skipUntil == st.skipUntil
  {
  }

  lemma BodyLeavesGoal(lines: seq<string>, n: nat, line: string, st: State)
    requires 1 <= n <= |lines|
    ensures OnBody(lines, n, line, st).Ok? ==> OnBody(lines, n, line, st).value.inGoal == st.inGoal
  {
  }

  lemma OpenGrows(lines: seq<string>, n: nat)
    requires 1 <= n <= |lines|
    ensures GoalOpen(lines, n) <==>
              At(lines, n) == "GOAL" || (KeepsGoal(At(lines, n)) && GoalOpen(lines, n - 1))
  {
    hide At, KeepsGoal;
    if g: nat :| OpenGoal(lines, n, g) {
      assert g < n ==> OpenGoal(lines, n - 1, g);
    }
    if GoalOpen(lines, n - 1) {
      var g: nat :| OpenGoal(lines, n - 1, g);
      assert KeepsGoal(At(lines, n)) ==> OpenGoal(lines, n, g);
    }
    assert At(lines, n) == "GOAL" ==> OpenGoal(lines, n, n);
  }

  lemma SkippedIsNoGoal(lines: seq<string>, n: nat)
    requires 1 <= n <= |lines| && Continues(lines[n - 1])
    ensures At(lines, n) != "GOAL"
  {
    var line := At(lines, n);
    assert line[0] == 'r' || line[0] == 'c' || line[0] == 'A';
  }

  /** Text is read as goal exactly below a GOAL line with neither a blank line nor a directive
      since, USING apart. */
  lemma {:induction false} InGoalExact(lines: seq<string>, n: nat)
    requires n <= |lines| && Scan(lines, n).Ok?
    ensures Scan(lines, n).value.inGoal <==> GoalOpen(lines, n)
    ensures Scan(lines, n).value.inGoal ==> Scan(lines, n).value.skipUntil <= n
  {
    hide OnLine, GoalOpen, KeepsGoal;
    if n > 0 {
      ScanPrefix(lines, n - 1, n);
      var st := Scan(lines, n - 1).value;
      InGoalExact(lines, n - 1);
      OpenGrows(lines, n);
      if n - 1 < st.skipUntil {
        ScanSkips(lines, n - 1);
        SkippedIsNoGoal(lines, n);
      } else {
        InGoalLine(lines, n, At(lines, n), st);
      }
    } else {
      NoGoalYet(lines);
    }
  }

  lemma NoGoalYet(lines: seq<string>)
    ensures !GoalOpen(lines, 0)
    ensures Scan(lines, 0) == Ok(START)
  {
  }

  ghost function ProseLines(lines: seq<string>, n: nat): seq<string>
    requires n <= |lines|
  {
    if n == 0 then [] else ProseLines(lines, n - 1) + if Prose(lines, n) then [At(lines, n)] else []
  }

  lemma {:induction false} SpellPush(parts: seq<string>, more: string)
    ensures Spell(parts + [more], " ") == if parts == [] then more else Spell(parts, " ") + " " + more
  {
    if |parts| >= 2 {
      SpellPush(parts[1..], more);
      assert (parts + [more])[1..] == parts[1..] + [more];
      var tail := Spell(parts[1..], " ");
      assert parts[0] + " " + (tail + " " + more) == parts[0] + " " + tail + " " + more;
    } else if |parts| == 1 {
      assert (parts + [more])[1..] == [more];
    }
  }

  lemma GoalLine(lines: seq<string>, n: nat, st: State)
    requires 1 <= n <= |lines| && Scan(lines, n - 1) == Ok(st) && Scan(lines, n).Ok?
    ensures Scan(lines, n).value.goal == if Prose(lines, n) then Glue(st.goal, At(lines, n)) else st.goal
  {
    BodyGoal(lines, n, At(lines, n), st.(inGoal := false));
    hide OnBody, StartsWithDirective, Glue;
  }

  lemma BodyGoal(lines: seq<string>, n: nat, line: string, st: State)
    requires 1 <= n <= |lines|
    ensures OnBody(lines, n, line, st).Ok? ==> OnBody(lines, n, line, st).value.goal == st.goal
  {
  }

  /** The goal is its lines of prose, in order, with a space between them. */
  lemma {:induction false} GoalExact(lines: seq<string>, n: nat)
    requires n <= |lines| && Scan(lines, n).Ok?
    ensures Scan(lines, n).value.goal == Spell(ProseLines(lines, n), " ")
    ensures ProseLines(lines, n) == [] || Spell(ProseLines(lines, n), " ") != ""
  {
    if n > 0 {
      ScanPrefix(lines, n - 1, n);
      GoalExact(lines, n - 1);
      GoalLine(lines, n, Scan(lines, n - 1).value);
      SpellPush(ProseLines(lines, n - 1), At(lines, n));
      assert ProseLines(lines, n - 1) + [] == ProseLines(lines, n - 1);
      hide Scan, OnLine;
    }
  }
}
