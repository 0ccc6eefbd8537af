/** Inserting a CLAIM line into a contract leaves the ids of its FORBID claims alone. */
module ParserInsert {
  import opened Parser
  import opened ParserFacts
  import opened Text

  /** The ids of the claims that FORBID lines made, in order. */
  ghost function ForbidIds(lines: seq<string>, claims: seq<Claim>): seq<string> {
    if claims == [] then [] else
      var c := claims[|claims| - 1];
      ForbidIds(lines, claims[..|claims| - 1]) + if FromForbid(lines, c) then [c.id] else []
  }

  /** forbid-1, forbid-2, and so on. */
  function Counted(n: nat): seq<string> {
    if n == 0 then [] else Counted(n - 1) + ["forbid-" + Decimal(n)]
  }

  ghost predicate AllNumbered(lines: seq<string>, claims: seq<Claim>) {
    forall i :: 0 <= i < |claims| ==> Numbered(lines, claims, i)
  }

  lemma {:induction false} IdsAreCounted(lines: seq<string>, claims: seq<Claim>)
    requires AllNumbered(lines, claims)
    ensures ForbidIds(lines, claims) == Counted(Forbids(lines, claims))
  {
    hide AllNumbered, FromForbid;
    if claims != [] {
      var init, c := claims[..|claims| - 1], claims[|claims| - 1];
      NumberedBefore(lines, claims);
      IdsAreCounted(lines, init);
      if !FromForbid(lines, c) {
        assert ForbidIds(lines, init) + [] == ForbidIds(lines, init);
      }
    }
  }

  lemma NumberedBefore(lines: seq<string>, claims: seq<Claim>)
    requires AllNumbered(lines, claims) && claims != []
    ensures AllNumbered(lines, claims[..|claims| - 1])
    ensures var init, c := claims[..|claims| - 1], claims[|claims| - 1];
            FromForbid(lines, c) ==> c.id == "forbid-" + Decimal(Forbids(lines, init) + 1)
  {
    hide FromForbid, Forbids;
    var init := claims[..|claims| - 1];
    forall i | 0 <= i < |init| ensures Numbered(lines, init, i) {
      NumberedInit(lines, claims, i);
    }
    assert Numbered(lines, claims, |claims| - 1);
  }

  lemma NumberedInit(lines: seq<string>, claims: seq<Claim>, i: nat)
    requires i < |claims| - 1 && Numbered(lines, claims, i)
    ensures Numbered(lines, claims[..|claims| - 1], i)
  {
    assert claims[..|claims| - 1][..i] == claims[..i];
  }

  // ---------------------------------------------------------------- the text with one more line

  function Inserted(lines: seq<string>, k: nat, extra: string): (r: seq<string>)
    requires k <= |lines|
    ensures |r| == |lines| + 1
    ensures forall i :: 0 <= i < k ==> r[i] == lines[i]
    ensures r[k] == extra
    ensures forall i :: k <= i < |lines| ==> r[i + 1] == lines[i]
  {
    lines[..k] + [extra] + lines[k..]
  }

  /** The parser stands in the body after `k` lines: not in the goal, nothing to skip. */
  ghost predicate InBody(lines: seq<string>, k: nat) {
    k <= |lines| && Scan(lines, k).Ok? && !Scan(lines, k).value.inGoal && Scan(lines, k).value.skipUntil <= k
  }

  ghost predicate IsClaimLine(extra: string) {
    "CLAIM" <= Trim(extra)
  }

  // ---------------------------------------------------------------- before the insertion

  /** Lines are skipped forward only. */
  lemma {:induction false} SkipsForward(lines: seq<string>, n: nat, m: nat)
    requires n <= m <= |lines| && Scan(lines, m).Ok?
    ensures Scan(lines, n).Ok? && Scan(lines, n).value.skipUntil <= Scan(lines, m).value.skipUntil
    decreases m
  {
    if n < m {
      ScanPrefix(lines, m - 1, m);
      SkipsForward(lines, n, m - 1);
      StepSkips(lines, m);
    }
  }

  lemma StepSkips(lines: seq<string>, m: nat)
    requires 1 <= m <= |lines| && Scan(lines, m).Ok? && Scan(lines, m - 1).Ok?
    ensures Scan(lines, m - 1).value.skipUntil <= Scan(lines, m).value.skipUntil
  {
    var st := Scan(lines, m - 1).value;
    if m - 1 >= st.skipUntil { LineSkipsOn(lines, m, Trim(lines[m - 1]), st); }
  }

  /** Only an acceptance condition moves the mark, to where its lookahead ended. */
  lemma LineSkipsOn(lines: seq<string>, n: nat, line: string, st: State)
    requires 1 <= n <= |lines|
    ensures var next := OnLine(lines, n, line, st);
            next.Ok? ==>
              || next.value.skipUntil == st.skipUntil
              || (next.value.skipUntil >= n && "ACCEPT WHEN" <= line
                  && next.value.skipUntil == AcceptText(lines, n, Trim(line[11..])).1)
  {
    hide OnBody, OnUsing, AcceptText;
    LineCasesSkip(lines, n, line, st);
    BodyCases(lines, n, line, st.(inGoal := false));
    if "ACCEPT WHEN" <= line { AcceptTextSkips(lines, n, Trim(line[11..])); }
  }

  lemma LineCasesSkip(lines: seq<string>, n: nat, line: string, st: State)
    requires 1 <= n <= |lines|
    ensures var next := OnLine(lines, n, line, st);
            next.Err? || next.value.skipUntil == st.skipUntil || next == OnBody(lines, n, line, st.(inGoal := false))
  {
    hide OnBody;
  }

  /** A lookahead that ended by line `k` ends there too when a CLAIM line follows. */
  lemma {:induction false} SameLookahead(lines: seq<string>, k: nat, extra: string, j: nat, text: string)
    requires j <= k <= |lines| && IsClaimLine(extra) && AcceptText(lines, j, text).1 <= k
    ensures AcceptText(Inserted(lines, k, extra), j, text) == AcceptText(lines, j, text)
    decreases k - j
  {
    hide Continues, Trim;
    var other := Inserted(lines, k, extra);
    if j < k {
      if Continues(lines[j]) { SameLookahead(lines, k, extra, j + 1, Glue(text, Trim(lines[j]))); }
    } else {
      AcceptTextSkips(lines, j, text);
      StopsAtClaim(extra);
      if j < |lines| && Continues(lines[j]) { AcceptTextSkips(lines, j + 1, Glue(text, Trim(lines[j]))); }
    }
  }

  lemma StopsAtClaim(extra: string)
    requires IsClaimLine(extra)
    ensures !Continues(extra)
  {
    var line := Trim(extra);
    NotPrefix("required_claims", line);
    Excludes(line, "CLAIM", "critical_failures", 0);
    NotPrefix("AND ", line);
    assert line[0] == 'C';
  }

  /** A line well before the insertion does the same in both texts. */
  lemma SameLine(lines: seq<string>, k: nat, extra: string, n: nat, line: string, st: State)
    requires 1 <= n <= k <= |lines| && IsClaimLine(extra)
    requires OnLine(lines, n, line, st).Ok? && OnLine(lines, n, line, st).value.skipUntil <= k
    ensures OnLine(Inserted(lines, k, extra), n, line, st) == OnLine(lines, n, line, st)
  {
    var other := Inserted(lines, k, extra);
    if "ACCEPT WHEN" <= line {
      var text := Trim(line[11..]);
      if AcceptText(lines, n, text).1 <= k { SameLookahead(lines, k, extra, n, text); }
    }
    SameBody(lines, other, k, n, line, st.(inGoal := false));
    hide OnBody, OnUsing, AcceptText;
  }

  lemma SameBody(lines: seq<string>, other: seq<string>, k: nat, n: nat, line: string, st: State)
    requires 1 <= n <= |lines| && 1 <= n <= |other|
    requires forall i :: 0 <= i < n - 1 ==> other[i] == lines[i]
    requires "ACCEPT WHEN" <= line && AcceptText(lines, n, Trim(line[11..])).1 <= k ==>
               AcceptText(other, n, Trim(line[11..])) == AcceptText(lines, n, Trim(line[11..]))
    ensures OnBody(lines, n, line, st).Ok? && OnBody(lines, n, line, st).value.skipUntil <= k ==>
              OnBody(other, n, line, st) == OnBody(lines, n, line, st)
  {
    hide OnClaim, OnInvariant, OnEnsure, OnForbid, OnVerify, AcceptText, OnlyGaps;
    if st.lastUsing.Some? { SameGaps(lines, other, st.lastUsing.value, n - 1); }
  }

  lemma SameGaps(lines: seq<string>, other: seq<string>, from: nat, to: nat)
    requires to <= |lines| && to <= |other| && forall i :: 0 <= i < to ==> other[i] == lines[i]
    ensures OnlyGaps(other, from, to) <==> OnlyGaps(lines, from, to)
  {
  }

  lemma {:induction false} SamePrefix(lines: seq<string>, k: nat, extra: string, m: nat)
    requires InBody(lines, k) && IsClaimLine(extra) && m <= k
    ensures Scan(Inserted(lines, k, extra), m) == Scan(lines, m)
  {
    if m > 0 {
      hide OnLine;
      SamePrefix(lines, k, extra, m - 1);
      SkipsForward(lines, m - 1, k);
      SkipsForward(lines, m, k);
      var st := Scan(lines, m - 1).value;
      if m - 1 >= st.skipUntil { SameLine(lines, k, extra, m, Trim(lines[m - 1]), st); }
    }
  }

  // ---------------------------------------------------------------- after the insertion

  /** The part of the state that decides how many FORBID claims there will be. */
  datatype Core = Core(forbids: nat, pending: bool, inGoal: bool, skip: nat)

  function CoreOf(st: State): Core {
    Core(st.forbidCount, st.pendingForbid.Some?, st.inGoal, st.skipUntil)
  }

  function NextCore(c: Core, line: string, end: nat): Core {
    if "USING" <= line then c
    else if line == "" then c.(inGoal := false)
    else if line[0] == '#' then c
    else if "VERSION" <= line || "DOMAIN" <= line || "INTENT" <= line then c.(inGoal := false)
    else if line == "GOAL" then c.(inGoal := true)
    else if c.inGoal && !StartsWithDirective(line) then c
    else BodyCore(c.(inGoal := false), line, end)
  }

  function BodyCore(c: Core, line: string, end: nat): Core {
    if "CLAIM" <= line || "INVARIANT" <= line || "ENSURE" <= line then c
    else if "FORBID" <= line && line != "FORBID" then c.(forbids := c.forbids + 1)
    else if line == "FORBID" then c.(pending := true)
    else if c.pending then c.(forbids := c.forbids + 1, pending := false)
    else if "VERIFY" <= line then c
    else if "ACCEPT WHEN" <= line then c.(skip := end)
    else c
  }

  function LookaheadEnd(lines: seq<string>, n: nat, line: string): nat
    requires n <= |lines|
  {
    if "ACCEPT WHEN" <= line then AcceptText(lines, n, Trim(line[11..])).1 else 0
  }

  lemma CoreStep(lines: seq<string>, n: nat, line: string, st: State)
    requires 1 <= n <= |lines| && OnLine(lines, n, line, st).Ok?
    ensures CoreOf(OnLine(lines, n, line, st).value) == NextCore(CoreOf(st), line, LookaheadEnd(lines, n, line))
  {
    hide AcceptText;
    BodyCoreStep(lines, n, line, st.(inGoal := false));
    hide OnBody, BodyCore;
  }

  lemma BodyCoreStep(lines: seq<string>, n: nat, line: string, st: State)
    requires 1 <= n <= |lines|
    ensures OnBody(lines, n, line, st).Ok? ==>
              CoreOf(OnBody(lines, n, line, st).value) == BodyCore(CoreOf(st), line, LookaheadEnd(lines, n, line))
  {
    hide AcceptText, StartsWithDirective, OnClaim, OnInvariant, OnEnsure, OnVerify, OnRequire;
    if "CLAIM" <= line { ClaimKeeps(st, line[5..], n); }
    if "INVARIANT" <= line { InvariantKeeps(st, line[9..], n); }
    if "ENSURE" <= line { EnsureKeeps(st, line[6..], n); }
    if "VERIFY" <= line { VerifyKeeps(st, line[6..], n); }
    if "REQUIRE" <= line { RequireKeeps(st, lines, line[7..], n); }
  }

  ghost predicate KeepsCore(st: State, next: Next) {
    next.Ok? ==> CoreOf(next.value) == CoreOf(st)
  }

  lemma ClaimKeeps(st: State, rest: string, n: nat)
    ensures KeepsCore(st, OnClaim(st, rest, n))
  {
  }

  lemma InvariantKeeps(st: State, rest: string, n: nat)
    ensures KeepsCore(st, OnInvariant(st, rest, n))
  {
  }

  lemma EnsureKeeps(st: State, rest: string, n: nat)
    ensures KeepsCore(st, OnEnsure(st, rest, n))
  {
  }

  lemma VerifyKeeps(st: State, rest: string, n: nat)
    ensures KeepsCore(st, OnVerify(st, rest, n))
  {
  }

  lemma RequireKeeps(st: State, lines: seq<string>, rest: string, n: nat)
    requires 1 <= n <= |lines|
    ensures KeepsCore(st, OnRequire(st, lines, rest, n))
  {
  }

  lemma {:induction false} LookaheadShifts(lines: seq<string>, k: nat, extra: string, j: nat, text: string)
    requires k <= j <= |lines|
    ensures AcceptText(Inserted(lines, k, extra), j + 1, text)
         == (AcceptText(lines, j, text).0, AcceptText(lines, j, text).1 + 1)
    decreases |lines| - j
  {
    if j < |lines| && Continues(lines[j]) {
      LookaheadShifts(lines, k, extra, j + 1, Glue(text, Trim(lines[j])));
    }
  }

  /** One line later in the other text. */
  ghost predicate Shifted(k: nat, c: Core, d: Core) {
    && d.forbids == c.forbids && d.pending == c.pending && d.inGoal == c.inGoal
    && (if c.skip <= k then d.skip <= k else d.skip == c.skip + 1)
  }

  lemma CoreShifts(k: nat, c: Core, d: Core, line: string, end: nat)
    requires Shifted(k, c, d) && ("ACCEPT WHEN" <= line ==> end > k)
    ensures Shifted(k, NextCore(c, line, end), NextCore(d, line, if "ACCEPT WHEN" <= line then end + 1 else 0))
  {
    hide StartsWithDirective;
  }

  lemma {:induction false} ScansShift(lines: seq<string>, k: nat, extra: string, m: nat)
    requires InBody(lines, k) && IsClaimLine(extra) && k <= m <= |lines|
    requires Scan(lines, m).Ok? && Scan(Inserted(lines, k, extra), m + 1).Ok?
    ensures Shifted(k, CoreOf(Scan(lines, m).value), CoreOf(Scan(Inserted(lines, k, extra), m + 1).value))
    decreases m
  {
    hide OnLine, NextCore;
    var other := Inserted(lines, k, extra);
    if m == k {
      var st := Scan(lines, k).value;
      SamePrefix(lines, k, extra, k);
      CoreStep(other, k + 1, Trim(extra), st);
      ClaimCore(CoreOf(st), Trim(extra), LookaheadEnd(other, k + 1, Trim(extra)));
    } else {
      ScanPrefix(lines, m - 1, m);
      ScanPrefix(other, m, m + 1);
      ScansShift(lines, k, extra, m - 1);
      ShiftStep(lines, k, extra, m);
    }
  }

  lemma ClaimCore(c: Core, line: string, end: nat)
    requires "CLAIM" <= line && !c.inGoal
    ensures NextCore(c, line, end) == c
  {
    assert line[0] == 'C';
    NotPrefix("USING", line);
    NotPrefix("VERSION", line);
    NotPrefix("DOMAIN", line);
    NotPrefix("INTENT", line);
    NotPrefix("GOAL", line);
  }

  lemma ShiftStep(lines: seq<string>, k: nat, extra: string, m: nat)
    requires k < m <= |lines|
    requires Scan(lines, m).Ok? && Scan(Inserted(lines, k, extra), m + 1).Ok?
    requires Scan(lines, m - 1).Ok? && Scan(Inserted(lines, k, extra), m).Ok?
    requires Shifted(k, CoreOf(Scan(lines, m - 1).value), CoreOf(Scan(Inserted(lines, k, extra), m).value))
    ensures Shifted(k, CoreOf(Scan(lines, m).value), CoreOf(Scan(Inserted(lines, k, extra), m + 1).value))
  {
    hide OnLine, NextCore, AcceptText;
    var other, line := Inserted(lines, k, extra), Trim(lines[m - 1]);
    var st, st' := Scan(lines, m - 1).value, Scan(other, m).value;
    assert other[m] == lines[m - 1];
    if m - 1 >= st.skipUntil {
      CoreStep(lines, m, line, st);
      CoreStep(other, m + 1, line, st');
      if "ACCEPT WHEN" <= line {
        LookaheadShifts(lines, k, extra, m, Trim(line[11..]));
        AcceptTextSkips(lines, m, Trim(line[11..]));
      }
      CoreShifts(k, CoreOf(st), CoreOf(st'), line, LookaheadEnd(lines, m, line));
    }
  }

  // ---------------------------------------------------------------- the ids

  /** Inserting a CLAIM line anywhere in the body leaves the id of every FORBID claim unchanged. */
  lemma InsertedClaimKeepsForbidIds(lines: seq<string>, k: nat, extra: string)
    requires InBody(lines, k) && IsClaimLine(extra)
    requires ParseLines(lines).Ok? && ParseLines(Inserted(lines, k, extra)).Ok?
    ensures var other := Inserted(lines, k, extra);
            ForbidIds(lines, ParseLines(lines).value.claims) == ForbidIds(other, ParseLines(other).value.claims)
  {
    hide Scan, ParseLines, IsClaimLine, ForbidIds;
    var other := Inserted(lines, k, extra);
    ParsedForbids(lines);
    ParsedForbids(other);
    ScansShift(lines, k, extra, |lines|);
  }

  lemma ParsedForbids(lines: seq<string>)
    requires ParseLines(lines).Ok?
    ensures Scan(lines, |lines|).Ok?
    ensures ForbidIds(lines, ParseLines(lines).value.claims) == Counted(Scan(lines, |lines|).value.forbidCount)
  {
    hide Scan, ParseLines, Numbered, ForbidIds, Counted;
    ParsedClaims(lines);
    ScanClaims(lines, |lines|);
    IdsAreCounted(lines, Scan(lines, |lines|).value.claims);
  }

  lemma ParsedClaims(lines: seq<string>)
    requires ParseLines(lines).Ok?
    ensures Scan(lines, |lines|).Ok? && ParseLines(lines).value.claims == Scan(lines, |lines|).value.claims
  {
    hide Scan, Dangling;
  }
}
