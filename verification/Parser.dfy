/** The `.uni` line parser. */
module Parser {
  import opened Prelude
  import opened Text

  datatype ClaimKind = PlainClaim | Invariant

  datatype Claim = Claim(id: string, kind: ClaimKind, required: bool, critical: bool, ensure: string, line: nat)

  datatype Verification = Verification(
    claimId: string,
    verifierRef: string,
    inlineShell: Option<string>,
    line: nat,
    requirement: Option<string>)

  datatype Ast = Ast(
    version: string,
    domain: string,
    intent: string,
    goal: string,
    claims: seq<Claim>,
    verifications: seq<Verification>)

  datatype Why =
    | UsingWithoutVerify
    | NeedsId
    | UnknownModifier(m: string)
    | EnsureWithoutClaim
    | NeedsClaimAndVerifier
    | NoCondition
    | DuplicateClause
    | UnsupportedClause(clause: string)
    | MissingRequiredClause
    | Reserved
    | NeedsExpression
    | UsingExpected
    | NotAfterUsing
    | DuplicateRequire
    | UnknownDirective
    | MissingVersion
    | MissingDomain
    | MissingIntent
    | NoClaims
    | UnknownClaim(claim: string)

  datatype ParseError = ParseError(line: nat, why: Why)

  const DIRECTIVES := [
    "VERSION", "DOMAIN", "INTENT", "GOAL", "CLAIM", "REQUIRE", "ENSURE", "INVARIANT", "FORBID",
    "VERIFY", "ACCEPT", "REJECT", "ESCALATE"]

  predicate IsWord(line: string, d: string) {
    d <= line && (|line| == |d| || IsSpace(line[|d|]))
  }

  predicate StartsWithDirective(line: string) {
    exists i :: 0 <= i < |DIRECTIVES| && IsWord(line, DIRECTIVES[i])
  }

  /** The first token that is no allowed modifier. */
  function BadModifier(modifiers: seq<string>, allowed: set<string>): Option<string> {
    if modifiers == [] then None
    else if modifiers[0] in allowed then BadModifier(modifiers[1..], allowed)
    else Some(modifiers[0])
  }

  method ValidateModifiers(modifiers: seq<string>, allowed: set<string>) returns (bad: Option<string>)
    ensures bad == BadModifier(modifiers, allowed)
  {
    for i := 0 to |modifiers|
      invariant BadModifier(modifiers, allowed) == BadModifier(modifiers[i..], allowed)
    {
      if modifiers[i] !in allowed { return Some(modifiers[i]); }
    }
    return None;
  }

  // ---------------------------------------------------------------- ACCEPT WHEN

  const REQUIRED_CLAUSE := "required_claims == VERIFIED"
  const CRITICAL_CLAUSE := "critical_failures == 0"

  function Clauses(parts: seq<string>): seq<string> {
    if parts == [] then []
    else if Blank(parts[0]) then Clauses(parts[1..])
    else [Trim(parts[0])] + Clauses(parts[1..])
  }

  function CheckClauses(parts: seq<string>, seen: bool): Option<Why> {
    if parts == [] then (if seen then None else Some(MissingRequiredClause))
    else if parts[0] == REQUIRED_CLAUSE then
      if seen then Some(DuplicateClause) else CheckClauses(parts[1..], true)
    else if parts[0] == CRITICAL_CLAUSE then CheckClauses(parts[1..], seen)
    else Some(UnsupportedClause(parts[0]))
  }

  function AcceptFault(text: string): Option<Why> {
    var parts := Clauses(SplitOn(text, "AND"));
    if parts == [] then Some(NoCondition) else CheckClauses(parts, false)
  }

  method ValidateAcceptCondition(text: string) returns (fault: Option<Why>)
    ensures fault == AcceptFault(text)
  {
    var parts := Clauses(SplitOn(text, "AND"));
    if parts == [] { return Some(NoCondition); }
    var seen := false;
    for i := 0 to |parts|
      invariant CheckClauses(parts, false) == CheckClauses(parts[i..], seen)
    {
      if parts[i] == REQUIRED_CLAUSE {
        if seen { return Some(DuplicateClause); }
        seen := true;
      } else if parts[i] != CRITICAL_CLAUSE {
        return Some(UnsupportedClause(parts[i]));
      }
    }
    return if seen then None else Some(MissingRequiredClause);
  }

  predicate Continues(raw: string) {
    var nx := Trim(raw);
    "required_claims" <= nx || "critical_failures" <= nx || "AND " <= nx || nx == "AND"
  }

  function Glue(text: string, more: string): string {
    if text == "" then more else text + " " + more
  }

  /** The condition text gathered by lookahead, and the first line after it. */
  function AcceptText(lines: seq<string>, j: nat, text: string): (string, nat)
    requires j <= |lines|
    decreases |lines| - j
  {
    if j < |lines| && Continues(lines[j]) then AcceptText(lines, j + 1, Glue(text, Trim(lines[j]))) else (text, j)
  }

  // ---------------------------------------------------------------- VERIFY / USING

  function MakeVerification(claimId: string, using: string, vline: nat): Option<Verification> {
    var rest := if "shell" <= using then using[5..] else [];
    var isShell := "shell" <= using && (rest == [] || IsSpace(rest[0]));
    var quote := IndexOf(using, '"');
    var verifierRef :=
      if isShell then "shell" else if quote.Some? then Trim(using[..quote.value]) else Trim(using);
    var inlineShell :=
      if isShell then Some(TrimEndOf(TrimStartOf(Trim(rest), '"'), '"'))
      else if quote.Some? then Some(TrimEndOf(using[quote.value + 1..], '"')) else None;
    if claimId == "" || verifierRef == "" then None
    else Some(Verification(claimId, verifierRef, inlineShell, vline, None))
  }

  // ---------------------------------------------------------------- the line loop

  datatype State = State(
    version: Option<string>,
    domain: Option<string>,
    intent: Option<string>,
    goal: string,
    inGoal: bool,
    claims: seq<Claim>,
    verifications: seq<Verification>,
    pendingVerify: Option<(string, nat)>,
    pendingForbid: Option<nat>,
    forbidCount: nat,
    lastUsing: Option<nat>,
    skipUntil: nat)

  const START := State(None, None, None, "", false, [], [], None, None, 0, None, 0)

  type Next = Result<State, ParseError>

  predicate IsGap(raw: string) {
    Blank(raw) || Trim(raw)[0] == '#'
  }

  function Pushed(st: State, claimId: string, using: string, vline: nat, n: nat): Next {
    match MakeVerification(claimId, using, vline)
    case None => Err(ParseError(n, NeedsClaimAndVerifier))
    case Some(v) => Ok(st.(verifications := st.verifications + [v], lastUsing := Some(n)))
  }

  function OnUsing(st: State, rest: string, n: nat): Next {
    match st.pendingVerify
    case None => Err(ParseError(n, UsingWithoutVerify))
    case Some(pv) => Pushed(st.(pendingVerify := None), pv.0, Trim(rest), pv.1, n)
  }

  function OnClaim(st: State, rest: string, n: nat): Next {
    var parts := Tokens(rest);
    if parts == [] then Err(ParseError(n, NeedsId))
    else
      match BadModifier(parts[1..], {"REQUIRED", "OPTIONAL"})
      case Some(m) => Err(ParseError(n, UnknownModifier(m)))
      case None =>
        Ok(st.(claims := st.claims + [Claim(parts[0], PlainClaim, "OPTIONAL" !in parts, false, "", n)]))
  }

  function OnInvariant(st: State, rest: string, n: nat): Next {
    var parts := Tokens(rest);
    if parts == [] then Err(ParseError(n, NeedsId))
    else
      match BadModifier(parts[1..], {"CRITICAL"})
      case Some(m) => Err(ParseError(n, UnknownModifier(m)))
      case None => Ok(st.(claims := st.claims + [Claim(parts[0], Invariant, true, "CRITICAL" in parts, "", n)]))
  }

  function OnEnsure(st: State, rest: string, n: nat): Next {
    if st.claims == [] then Err(ParseError(n, EnsureWithoutClaim))
    else
      var last := |st.claims| - 1;
      Ok(st.(claims := st.claims[last := st.claims[last].(ensure := Trim(rest))]))
  }

  function ForbidClaim(count: nat, expr: string, line: nat): Claim {
    Claim("forbid-" + Decimal(count), Invariant, true, true, "FORBID " + expr, line)
  }

  function OnForbid(st: State, expr: string, line: nat): State {
    st.(forbidCount := st.forbidCount + 1, claims := st.claims + [ForbidClaim(st.forbidCount + 1, expr, line)])
  }

  function OnVerify(st: State, rest: string, n: nat): Next {
    var parts := Trim(rest);
    match SplitOnce(parts, "USING")
    case Some(halves) => Pushed(st, Trim(halves.0), Trim(halves.1), n, n)
    case None =>
      if parts == "" then Err(ParseError(n, NeedsId)) else Ok(st.(pendingVerify := Some((parts, n))))
  }

  function OnAccept(st: State, lines: seq<string>, rest: string, n: nat): Next
    requires n <= |lines|
  {
    var (text, j) := AcceptText(lines, n, Trim(rest));
    match AcceptFault(text)
    case Some(why) => Err(ParseError(n, why))
    case None => Ok(st.(skipUntil := j))
  }

  predicate OnlyGaps(lines: seq<string>, from: nat, to: nat)
    requires to <= |lines|
  {
    forall k :: from <= k < to ==> IsGap(lines[k])
  }

  function OnRequire(st: State, lines: seq<string>, rest: string, n: nat): Next
    requires 1 <= n <= |lines|
  {
    var expr := Trim(rest);
    if expr == "" then Err(ParseError(n, NeedsExpression))
    else if st.pendingVerify.Some? then Err(ParseError(n, UsingExpected))
    else if st.lastUsing.None? || !OnlyGaps(lines, st.lastUsing.value, n - 1) || st.verifications == []
    then Err(ParseError(n, NotAfterUsing))
    else
      var last := |st.verifications| - 1;
      if st.verifications[last].requirement.Some? then Err(ParseError(n, DuplicateRequire))
      else Ok(st.(verifications := st.verifications[last := st.verifications[last].(requirement := Some(expr))]))
  }

  /** Directives below the header, in the order the loop tries them. */
  function OnBody(lines: seq<string>, n: nat, line: string, st: State): Next
    requires 1 <= n <= |lines|
  {
    if "CLAIM" <= line then OnClaim(st, line[5..], n)
    else if "INVARIANT" <= line then OnInvariant(st, line[9..], n)
    else if "ENSURE" <= line then OnEnsure(st, line[6..], n)
    else if "FORBID" <= line && line != "FORBID" then Ok(OnForbid(st, Trim(line[6..]), n))
    else if line == "FORBID" then Ok(st.(pendingForbid := Some(n)))
    else if st.pendingForbid.Some? then Ok(OnForbid(st.(pendingForbid := None), line, st.pendingForbid.value))
    else if "VERIFY" <= line then OnVerify(st, line[6..], n)
    else if "ACCEPT WHEN" <= line then OnAccept(st, lines, line[11..], n)
    else if "REJECT WHEN" <= line || "ESCALATE WHEN" <= line then Err(ParseError(n, Reserved))
    else if "REQUIRE" <= line then OnRequire(st, lines, line[7..], n)
    else Err(ParseError(n, UnknownDirective))
  }

  /** Line number `n`, trimmed. */
  function OnLine(lines: seq<string>, n: nat, line: string, st: State): Next
    requires 1 <= n <= |lines|
  {
    if "USING" <= line then OnUsing(st, line[5..], n)
    else if line == "" then Ok(st.(inGoal := false))
    else if line[0] == '#' then Ok(st)
    else if "VERSION" <= line then Ok(st.(version := Some(Trim(line[7..])), inGoal := false))
    else if "DOMAIN" <= line then Ok(st.(domain := Some(Trim(line[6..])), inGoal := false))
    else if "INTENT" <= line then Ok(st.(intent := Some(Trim(line[6..])), inGoal := false))
    else if line == "GOAL" then Ok(st.(inGoal := true))
    else if st.inGoal && !StartsWithDirective(line) then Ok(st.(goal := Glue(st.goal, line)))
    else OnBody(lines, n, line, st.(inGoal := false))
  }

  /** The state after the first `n` lines. */
  function Scan(lines: seq<string>, n: nat): Next
    requires n <= |lines|
  {
    if n == 0 then Ok(START) else
    match Scan(lines, n - 1)
    case Err(e) => Err(e)
    case Ok(st) => if n - 1 < st.skipUntil then Ok(st) else OnLine(lines, n, Trim(lines[n - 1]), st)
  }

  predicate Declares(claims: seq<Claim>, id: string) {
    exists i :: 0 <= i < |claims| && claims[i].id == id
  }

  /** The first verification whose claim is not declared. */
  function Dangling(claims: seq<Claim>, vs: seq<Verification>): Option<Verification> {
    if vs == [] then None
    else if Declares(claims, vs[0].claimId) then Dangling(claims, vs[1..])
    else Some(vs[0])
  }

  function Finish(st: State): Result<Ast, ParseError> {
    if st.version.None? then Err(ParseError(0, MissingVersion))
    else if st.domain.None? then Err(ParseError(0, MissingDomain))
    else if st.intent.None? then Err(ParseError(0, MissingIntent))
    else if st.claims == [] then Err(ParseError(0, NoClaims))
    else
      match Dangling(st.claims, st.verifications)
      case Some(v) => Err(ParseError(v.line, UnknownClaim(v.claimId)))
      case None =>
        Ok(Ast(st.version.value, st.domain.value, st.intent.value, st.goal, st.claims, st.verifications))
  }

  function ParseLines(lines: seq<string>): Result<Ast, ParseError> {
    match Scan(lines, |lines|)
    case Err(e) => Err(e)
    case Ok(st) => Finish(st)
  }

  lemma {:induction false} ScanStops(lines: seq<string>, n: nat, m: nat)
    requires n <= m <= |lines| && Scan(lines, n).Err?
    ensures Scan(lines, m) == Scan(lines, n)
    decreases m
  {
    if n < m { ScanStops(lines, n, m - 1); }
  }

  lemma ScanNone(lines: seq<string>)
    ensures Scan(lines, 0) == Ok(START)
  {
  }

  lemma ScanNext(lines: seq<string>, n: nat, st: State)
    requires n < |lines| && Scan(lines, n) == Ok(st)
    ensures Scan(lines, n + 1) == if n < st.skipUntil then Ok(st) else OnLine(lines, n + 1, Trim(lines[n]), st)
  {
  }

  // ---------------------------------------------------------------- the loop itself

  method Parse(source: string) returns (r: Result<Ast, ParseError>)
    ensures r == ParseLines(Lines(source))
  {
    hide Scan, OnLine, Finish, Trim, Lines;
    var lines := Lines(source);
    var st := START;
    ScanNone(lines);
    for idx := 0 to |lines|
      invariant Scan(lines, idx) == Ok(st)
    {
      ScanNext(lines, idx, st);
      if idx < st.skipUntil { continue; }
      var next := ReadLine(lines, idx, st);
      if next.Err? {
        ScanStops(lines, idx + 1, |lines|);
        return Err(next.error);
      }
      st := next.value;
    }
    r := Conclude(st);
  }

  method Conclude(st: State) returns (r: Result<Ast, ParseError>)
    ensures r == Finish(st)
  {
    if st.version.None? { return Err(ParseError(0, MissingVersion)); }
    if st.domain.None? { return Err(ParseError(0, MissingDomain)); }
    if st.intent.None? { return Err(ParseError(0, MissingIntent)); }
    if st.claims == [] { return Err(ParseError(0, NoClaims)); }
    for i := 0 to |st.verifications|
      invariant Dangling(st.claims, st.verifications) == Dangling(st.claims, st.verifications[i..])
    {
      var v := st.verifications[i];
      if !Declares(st.claims, v.claimId) { return Err(ParseError(v.line, UnknownClaim(v.claimId))); }
    }
    return Ok(Ast(st.version.value, st.domain.value, st.intent.value, st.goal, st.claims, st.verifications));
  }

  /** One turn of the loop: its mutable variables are the fields of the state. */
  method ReadLine(lines: seq<string>, idx: nat, before: State) returns (next: Next)
    requires idx < |lines|
    ensures next == OnLine(lines, idx + 1, Trim(lines[idx]), before)
  {
    var st := before;
    var n := idx + 1;
    var line := Trim(lines[idx]);
    if "USING" <= line {
      if st.pendingVerify.None? { return Err(ParseError(n, UsingWithoutVerify)); }
      var (claimId, vline) := st.pendingVerify.value;
      st := st.(pendingVerify := None);
      return Pushed(st, claimId, Trim(line[5..]), vline, n);
    }
    if line == "" || line[0] == '#' {
      if st.inGoal && line == "" { st := st.(inGoal := false); }
      return Ok(st);
    }
    if "VERSION" <= line {
      return Ok(st.(version := Some(Trim(line[7..])), inGoal := false));
    }
    if "DOMAIN" <= line {
      return Ok(st.(domain := Some(Trim(line[6..])), inGoal := false));
    }
    if "INTENT" <= line {
      return Ok(st.(intent := Some(Trim(line[6..])), inGoal := false));
    }
    if line == "GOAL" {
      return Ok(st.(inGoal := true));
    }
    if st.inGoal {
      if StartsWithDirective(line) {
        st := st.(inGoal := false);
      } else {
        assert "" + line == line;
        if st.goal != "" { st := st.(goal := st.goal + " "); }
        return Ok(st.(goal := st.goal + line));
      }
    }
    next := ReadBody(lines, n, line, st);
  }

  method ReadBody(lines: seq<string>, n: nat, line: string, before: State) returns (next: Next)
    requires 1 <= n <= |lines|
    ensures next == OnBody(lines, n, line, before)
  {
    hide OnClaim, OnInvariant, OnVerify, OnAccept, OnRequire, Trim;
    var st := before;
    if "CLAIM" <= line {
      next := ReadClaim(st, line[5..], n);
      return;
    }
    if "INVARIANT" <= line {
      next := ReadInvariant(st, line[9..], n);
      return;
    }
    if "ENSURE" <= line {
      if st.claims == [] { return Err(ParseError(n, EnsureWithoutClaim)); }
      var last := |st.claims| - 1;
      return Ok(st.(claims := st.claims[last := st.claims[last].(ensure := Trim(line[6..]))]));
    }
    if "FORBID" <= line && line != "FORBID" {
      st := st.(forbidCount := st.forbidCount + 1);
      return Ok(st.(claims := st.claims + [ForbidClaim(st.forbidCount, Trim(line[6..]), n)]));
    }
    if line == "FORBID" {
      return Ok(st.(pendingForbid := Some(n)));
    }
    if st.pendingForbid.Some? {
      var vline := st.pendingForbid.value;
      st := st.(pendingForbid := None, forbidCount := st.forbidCount + 1);
      return Ok(st.(claims := st.claims + [ForbidClaim(st.forbidCount, line, vline)]));
    }
    if "VERIFY" <= line {
      return OnVerify(st, line[6..], n);
    }
    if "ACCEPT WHEN" <= line {
      next := ReadAccept(lines, n, line[11..], st);
      return;
    }
    if "REJECT WHEN" <= line || "ESCALATE WHEN" <= line {
      return Err(ParseError(n, Reserved));
    }
    if "REQUIRE" <= line {
      next := ReadRequire(lines, n, line[7..], st);
      return;
    }
    return Err(ParseError(n, UnknownDirective));
  }

  /** ACCEPT WHEN: the lookahead loop. */
  method ReadClaim(st: State, rest: string, n: nat) returns (next: Next)
    ensures next == OnClaim(st, rest, n)
  {
    var parts := Tokens(rest);
    if parts == [] { return Err(ParseError(n, NeedsId)); }
    var bad := ValidateModifiers(parts[1..], {"REQUIRED", "OPTIONAL"});
    if bad.Some? { return Err(ParseError(n, UnknownModifier(bad.value))); }
    return Ok(st.(claims := st.claims + [Claim(parts[0], PlainClaim, "OPTIONAL" !in parts, false, "", n)]));
  }

  method ReadInvariant(st: State, rest: string, n: nat) returns (next: Next)
    ensures next == OnInvariant(st, rest, n)
  {
    var parts := Tokens(rest);
    if parts == [] { return Err(ParseError(n, NeedsId)); }
    var bad := ValidateModifiers(parts[1..], {"CRITICAL"});
    if bad.Some? { return Err(ParseError(n, UnknownModifier(bad.value))); }
    return Ok(st.(claims := st.claims + [Claim(parts[0], Invariant, true, "CRITICAL" in parts, "", n)]));
  }

  method ReadAccept(lines: seq<string>, n: nat, rest: string, st: State) returns (next: Next)
    requires n <= |lines|
    ensures next == OnAccept(st, lines, rest, n)
  {
    hide Trim, Continues, AcceptFault;
    var text, j := Trim(rest), n;
    while j < |lines| && Continues(lines[j])
      invariant n <= j <= |lines|
      invariant AcceptText(lines, n, Trim(rest)) == AcceptText(lines, j, text)
    {
      var more := Trim(lines[j]);
      ghost var glued := Glue(text, more);
      assert "" + more == more;
      if text != "" { text := text + " "; }
      text := text + more;
      assert text == glued;
      j := j + 1;
    }
    var fault := ValidateAcceptCondition(text);
    if fault.Some? { return Err(ParseError(n, fault.value)); }
    return Ok(st.(skipUntil := j));
  }

  /** REQUIRE: the back-check over the lines since USING. */
  method ReadRequire(lines: seq<string>, n: nat, rest: string, st: State) returns (next: Next)
    requires 1 <= n <= |lines|
    ensures next == OnRequire(st, lines, rest, n)
  {
    var expr := Trim(rest);
    if expr == "" { return Err(ParseError(n, NeedsExpression)); }
    if st.pendingVerify.Some? { return Err(ParseError(n, UsingExpected)); }
    if st.lastUsing.None? { return Err(ParseError(n, NotAfterUsing)); }
    var k := st.lastUsing.value;
    while k < n - 1
      invariant OnlyGaps(lines, st.lastUsing.value, n - 1) <==> OnlyGaps(lines, k, n - 1)
    {
      if !IsGap(lines[k]) { return Err(ParseError(n, NotAfterUsing)); }
      k := k + 1;
    }
    if st.verifications == [] { return Err(ParseError(n, NotAfterUsing)); }
    var last := |st.verifications| - 1;
    if st.verifications[last].requirement.Some? { return Err(ParseError(n, DuplicateRequire)); }
    return Ok(st.(verifications := st.verifications[last := st.verifications[last].(requirement := Some(expr))]));
  }
}
