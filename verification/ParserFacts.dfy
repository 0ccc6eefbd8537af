/** What every successful parse guarantees, whatever the text. */
module ParserFacts {
  import opened Parser
  import opened Prelude
  import opened Text

  /** Line `n` (from 1), trimmed. */
  function At(lines: seq<string>, n: nat): string
    requires 1 <= n <= |lines|
  {
    Trim(lines[n - 1])
  }

  ghost predicate FromForbid(lines: seq<string>, c: Claim) {
    1 <= c.line <= |lines| && "FORBID" <= At(lines, c.line)
  }

  ghost predicate Declared(lines: seq<string>, c: Claim) {
    1 <= c.line <= |lines| && ("CLAIM" <= At(lines, c.line) || "INVARIANT" <= At(lines, c.line))
  }

  ghost function Forbids(lines: seq<string>, claims: seq<Claim>): nat {
    if claims == [] then 0
    else Forbids(lines, claims[..|claims| - 1]) + if FromForbid(lines, claims[|claims| - 1]) then 1 else 0
  }

  ghost predicate IsToken(s: string) {
    s != "" && forall i :: 0 <= i < |s| ==> !IsSpace(s[i])
  }

  /** The claim at index `i` stands on a declaring line, and the k-th FORBID is `forbid-k`. */
  ghost predicate Numbered(lines: seq<string>, claims: seq<Claim>, i: nat)
    requires i < |claims|
  {
    && IsToken(claims[i].id)
    && (FromForbid(lines, claims[i]) || Declared(lines, claims[i]))
    && (claims[i].kind.PlainClaim? && claims[i].id == "OPTIONAL" ==> !claims[i].required)
    && (FromForbid(lines, claims[i]) ==>
          && claims[i].id == "forbid-" + Decimal(Forbids(lines, claims[..i]) + 1)
          && claims[i].critical && claims[i].required)
  }

  ghost predicate ClaimsSound(lines: seq<string>, st: State) {
    && (forall i :: 0 <= i < |st.claims| ==> Numbered(lines, st.claims, i))
    && st.forbidCount == Forbids(lines, st.claims)
    && (st.pendingForbid.Some? ==>
          1 <= st.pendingForbid.value <= |lines| && At(lines, st.pendingForbid.value) == "FORBID")
  }

  lemma {:induction false} DecimalToken(n: nat)
    ensures IsToken(Decimal(n))
  {
    if n >= 10 {
      DecimalToken(n / 10);
      DecimalToken(n % 10);
    }
  }

  lemma TokensAreTokens(s: string)
    ensures Tokens(s) != [] ==> IsToken(Tokens(s)[0])
  {
    TrimStartShorter(s);
  }

  /** A claim appended. */
  lemma AppendSound(lines: seq<string>, st: State, c: Claim, count: nat)
    requires ClaimsSound(lines, st) && IsToken(c.id)
    requires FromForbid(lines, c) || Declared(lines, c)
    requires c.kind.PlainClaim? && c.id == "OPTIONAL" ==> !c.required
    requires FromForbid(lines, c) ==> c.critical && c.required && c.id == "forbid-" + Decimal(st.forbidCount + 1)
    requires count == st.forbidCount + (if FromForbid(lines, c) then 1 else 0)
    ensures ClaimsSound(lines, st.(claims := st.claims + [c], forbidCount := count))
  {
    var cs := st.claims + [c];
    assert cs[..|st.claims|] == st.claims;
    forall i | 0 <= i < |cs| ensures Numbered(lines, cs, i) {
      if i < |st.claims| {
        assert Numbered(lines, st.claims, i);
        assert cs[..i] == st.claims[..i];
      }
    }
  }

  lemma EnsureSound(lines: seq<string>, st: State, text: string)
    requires ClaimsSound(lines, st) && st.claims != []
    ensures ClaimsSound(lines, st.(claims := st.claims[|st.claims| - 1 := st.claims[|st.claims| - 1].(ensure := text)]))
  {
    var last := |st.claims| - 1;
    var cs := st.claims[last := st.claims[last].(ensure := text)];
    assert cs[..last] == st.claims[..last];
    forall i | 0 <= i < |cs| ensures Numbered(lines, cs, i) {
      assert Numbered(lines, st.claims, i);
      assert cs[..i] == st.claims[..i];
    }
  }

  lemma ForbidTokens(count: nat)
    ensures IsToken("forbid-" + Decimal(count))
  {
    DecimalToken(count);
    assert forall i :: 0 <= i < 7 ==> !IsSpace("forbid-"[i]);
  }

  /** Prefixes that disagree somewhere exclude one another. */
  lemma Excludes(line: string, p: string, q: string, i: nat)
    requires p <= line && i < |p| && i < |q| && p[i] != q[i]
    ensures !(q <= line)
  {
  }

  lemma ClaimLineSound(lines: seq<string>, n: nat, st: State)
    requires 1 <= n <= |lines| && ClaimsSound(lines, st) && "CLAIM" <= At(lines, n)
    ensures var next := OnClaim(st, At(lines, n)[5..], n); next.Ok? ==> ClaimsSound(lines, next.value)
  {
    var parts := Tokens(At(lines, n)[5..]);
    Excludes(At(lines, n), "CLAIM", "FORBID", 0);
    TokensAreTokens(At(lines, n)[5..]);
    if parts != [] {
      AppendSound(lines, st, Claim(parts[0], PlainClaim, "OPTIONAL" !in parts, false, "", n), st.forbidCount);
    }
  }

  lemma InvariantLineSound(lines: seq<string>, n: nat, st: State)
    requires 1 <= n <= |lines| && ClaimsSound(lines, st) && "INVARIANT" <= At(lines, n)
    ensures var next := OnInvariant(st, At(lines, n)[9..], n); next.Ok? ==> ClaimsSound(lines, next.value)
  {
    var parts := Tokens(At(lines, n)[9..]);
    Excludes(At(lines, n), "INVARIANT", "FORBID", 0);
    TokensAreTokens(At(lines, n)[9..]);
    if parts != [] {
      AppendSound(lines, st, Claim(parts[0], Invariant, true, "CRITICAL" in parts, "", n), st.forbidCount);
    }
  }

  lemma ForbidSound(lines: seq<string>, st: State, expr: string, line: nat)
    requires ClaimsSound(lines, st) && 1 <= line <= |lines| && "FORBID" <= At(lines, line)
    ensures ClaimsSound(lines, OnForbid(st, expr, line))
  {
    ForbidTokens(st.forbidCount + 1);
    AppendSound(lines, st, ForbidClaim(st.forbidCount + 1, expr, line), st.forbidCount + 1);
  }

  /** Nothing about the claims changes, except that a bare FORBID may now be pending. */
  ghost predicate KeepsClaims(lines: seq<string>, st: State, next: Next) {
    next.Ok? ==>
      && next.value.claims == st.claims && next.value.forbidCount == st.forbidCount
      && next.value.pendingForbid == st.pendingForbid
  }

  lemma TailKeepsClaims(lines: seq<string>, n: nat, st: State, line: string)
    requires 1 <= n <= |lines|
    ensures |line| >= 6 ==> KeepsClaims(lines, st, OnVerify(st, line[6..], n))
    ensures |line| >= 11 ==> KeepsClaims(lines, st, OnAccept(st, lines, line[11..], n))
    ensures |line| >= 7 ==> KeepsClaims(lines, st, OnRequire(st, lines, line[7..], n))
  {
  }

  lemma BodySound(lines: seq<string>, n: nat, st: State)
    requires 1 <= n <= |lines| && ClaimsSound(lines, st)
    ensures OnBody(lines, n, At(lines, n), st).Ok? ==> ClaimsSound(lines, OnBody(lines, n, At(lines, n), st).value)
  {
    var line := At(lines, n);
    if "CLAIM" <= line {
      ClaimLineSound(lines, n, st);
    } else if "INVARIANT" <= line {
      InvariantLineSound(lines, n, st);
    } else if "ENSURE" <= line {
      if st.claims != [] { EnsureSound(lines, st, Trim(line[6..])); }
    } else if "FORBID" <= line && line != "FORBID" {
      ForbidSound(lines, st, Trim(line[6..]), n);
    } else if line == "FORBID" {
    } else if st.pendingForbid.Some? {
      ForbidSound(lines, st.(pendingForbid := None), line, st.pendingForbid.value);
    } else {
      TailKeepsClaims(lines, n, st, line);
      var next := OnBody(lines, n, line, st);
      assert KeepsClaims(lines, st, next);
      if next.Ok? { SoundFrame(lines, st, next.value); }
    }
  }

  lemma SoundFrame(lines: seq<string>, st: State, st': State)
    requires ClaimsSound(lines, st) && KeepsClaims(lines, st, Ok(st'))
    ensures ClaimsSound(lines, st')
  {
  }

  /** What a line above the body may change. */
  lemma LineClaims(lines: seq<string>, n: nat, st: State)
    requires 1 <= n <= |lines|
    ensures var next := OnLine(lines, n, At(lines, n), st);
            KeepsClaims(lines, st, next) || next == OnBody(lines, n, At(lines, n), st.(inGoal := false))
  {
  }

  lemma {:induction false} ScanClaims(lines: seq<string>, n: nat)
    requires n <= |lines| && Scan(lines, n).Ok?
    ensures ClaimsSound(lines, Scan(lines, n).value)
  {
    if n > 0 {
      ScanClaims(lines, n - 1);
      var st := Scan(lines, n - 1).value;
      if n - 1 >= st.skipUntil {
        LineClaims(lines, n, st);
        var next := OnLine(lines, n, At(lines, n), st);
        if KeepsClaims(lines, st, next) {
          SoundFrame(lines, st, next.value);
        } else {
          SoundFrame(lines, st, st.(inGoal := false));
          BodySound(lines, n, st.(inGoal := false));
        }
      }
    }
  }

  // ---------------------------------------------------------------- requirements

  /** The line on which each verification was completed, by a USING of its own or on the
      VERIFY line. */
  ghost function Completed(lines: seq<string>, n: nat): seq<nat>
    requires n <= |lines| && Scan(lines, n).Ok?
  {
    if n == 0 then [] else
      Completed(lines, n - 1)
      + if |Scan(lines, n).value.verifications| > |Scan(lines, n - 1).value.verifications| then [n] else []
  }

  /** A line that begins with REQUIRE is read as one: no FORBID waits for its text, and it is not
      goal prose. */
  ghost predicate Taken(lines: seq<string>, q: nat)
    requires 1 <= q <= |lines|
  {
    && Scan(lines, q - 1).Ok? && Scan(lines, q - 1).value.pendingForbid.None?
    && (Scan(lines, q - 1).value.inGoal ==> IsWord(At(lines, q), "REQUIRE"))
  }

  /** Line `q` requires `r` of the verification completed on line `u`. */
  ghost predicate Attached(lines: seq<string>, u: nat, q: nat, r: string) {
    && 1 <= u < q <= |lines|
    && "REQUIRE" <= At(lines, q) && Taken(lines, q) && r == Trim(At(lines, q)[7..])
    && AllGaps(lines, u, q - 1)
  }

  /** From line `from + 1` to line `to` there is nothing but blank lines and comments. */
  ghost predicate AllGaps(lines: seq<string>, from: nat, to: nat)
    requires to <= |lines|
  {
    forall k :: from <= k < to ==> Trim(lines[k]) == "" || Trim(lines[k])[0] == '#'
  }

  ghost predicate RequiredBy(lines: seq<string>, u: nat, n: nat, r: string) {
    exists q: nat :: q <= n && Attached(lines, u, q, r)
  }

  /** After `n` lines: the verification was completed on line `u`, and carries a requirement exactly
      when a REQUIRE line is attached to it. */
  ghost predicate RequirementHere(lines: seq<string>, u: nat, n: nat, v: Verification) {
    && 1 <= u <= n <= |lines|
    && ("USING" <= At(lines, u) || "VERIFY" <= At(lines, u))
    && forall r :: v.requirement == Some(r) <==> RequiredBy(lines, u, n, r)
  }

  ghost predicate VerificationsSound(lines: seq<string>, us: seq<nat>, n: nat, st: State) {
    && |us| == |st.verifications|
    && st.lastUsing == (if us == [] then None else Some(us[|us| - 1]))
    && (forall j, k :: 0 <= j < k < |us| ==> us[j] < us[k])
    && forall k :: 0 <= k < |us| ==> RequirementHere(lines, us[k], n, st.verifications[k])
  }

  /** A line that is no REQUIRE, or not read as one, requires nothing. */
  lemma NoneAttached(lines: seq<string>, u: nat, n: nat, v: Verification)
    requires 1 <= n <= |lines| && RequirementHere(lines, u, n - 1, v)
    requires !("REQUIRE" <= At(lines, n) && Taken(lines, n))
    ensures RequirementHere(lines, u, n, v)
  {
    hide At, Taken, AllGaps;
    forall r ensures RequiredBy(lines, u, n, r) <==> RequiredBy(lines, u, n - 1, r) {
      assert !Attached(lines, u, n, r);
    }
  }

  lemma NewlyCompleted(lines: seq<string>, n: nat, v: Verification)
    requires 1 <= n <= |lines| && v.requirement.None?
    requires "USING" <= At(lines, n) || "VERIFY" <= At(lines, n)
    ensures RequirementHere(lines, n, n, v)
  {
    hide At, Taken, AllGaps;
  }

  lemma PushedSound(lines: seq<string>, us: seq<nat>, st: State, claimId: string, using: string, vline: nat, n: nat)
    requires 1 <= n <= |lines| && VerificationsSound(lines, us, n - 1, st)
    requires "USING" <= At(lines, n) || "VERIFY" <= At(lines, n)
    requires !("REQUIRE" <= At(lines, n))
    ensures var next := Pushed(st, claimId, using, vline, n);
            next.Ok? ==>
              VerificationsSound(lines, us + [n], n, next.value) && |next.value.verifications| == |st.verifications| + 1
  {
    hide At, Taken, RequirementHere, MakeVerification;
    var next := Pushed(st, claimId, using, vline, n);
    if next.Ok? {
      var vs := next.value.verifications;
      forall k | 0 <= k < |vs| ensures RequirementHere(lines, (us + [n])[k], n, vs[k]) {
        if k < |us| {
          NoneAttached(lines, us[k], n, vs[k]);
        } else {
          FreshlyMade(claimId, using, vline);
          NewlyCompleted(lines, n, vs[k]);
        }
      }
      forall k | 0 <= k < |us| ensures us[k] < n { CompletedBefore(lines, us[k], n - 1, st.verifications[k]); }
    }
  }

  lemma FreshlyMade(claimId: string, using: string, vline: nat)
    ensures MakeVerification(claimId, using, vline).Some? ==>
              MakeVerification(claimId, using, vline).value.requirement.None?
  {
  }

  lemma CompletedBefore(lines: seq<string>, u: nat, n: nat, v: Verification)
    requires RequirementHere(lines, u, n, v)
    ensures 1 <= u <= n && ("USING" <= At(lines, u) || "VERIFY" <= At(lines, u))
  {
  }

  /** Nothing is attached across a line that completes a verification. */
  lemma NotAcross(lines: seq<string>, u: nat, u': nat, q: nat, r: string)
    requires u < u' < q <= |lines| && ("USING" <= At(lines, u') || "VERIFY" <= At(lines, u'))
    ensures !Attached(lines, u, q, r)
  {
    NoGap(lines, u');
  }

  lemma NoGap(lines: seq<string>, u: nat)
    requires 1 <= u <= |lines| && ("USING" <= At(lines, u) || "VERIFY" <= At(lines, u))
    ensures Trim(lines[u - 1]) != "" && Trim(lines[u - 1])[0] != '#'
  {
    assert At(lines, u)[0] == 'U' || At(lines, u)[0] == 'V';
  }

  /** A REQUIRE line read as one gives its text to the verification just completed. */
  lemma RequireSound(lines: seq<string>, us: seq<nat>, st: State, n: nat)
    requires 1 <= n <= |lines| && VerificationsSound(lines, us, n - 1, st)
    requires "REQUIRE" <= At(lines, n) && Taken(lines, n)
    ensures var next := OnRequire(st, lines, At(lines, n)[7..], n);
            next.Ok? ==>
              VerificationsSound(lines, us, n, next.value) && |next.value.verifications| == |st.verifications|
  {
    hide At, Taken, RequirementHere;
    var next := OnRequire(st, lines, At(lines, n)[7..], n);
    if next.Ok? {
      var last, vs := |us| - 1, next.value.verifications;
      forall k | 0 <= k < |us| ensures RequirementHere(lines, us[k], n, vs[k]) {
        CompletedBefore(lines, us[k], n - 1, st.verifications[k]);
        if k < last {
          CompletedBefore(lines, us[k + 1], n - 1, st.verifications[k + 1]);
          OthersStay(lines, us[k], us[k + 1], n, vs[k]);
        } else {
          LastGains(lines, us[last], n, st.verifications[last]);
        }
      }
    }
  }

  /** When a REQUIRE is taken: it has text, the VERIFY above it is complete and has no requirement
      yet, and nothing but blank lines and comments stands between. */
  lemma RequireExact(lines: seq<string>, st: State, rest: string, n: nat)
    requires 1 <= n <= |lines|
    ensures OnRequire(st, lines, rest, n).Ok? <==>
              && Trim(rest) != "" && st.pendingVerify.None? && st.lastUsing.Some?
              && AllGaps(lines, st.lastUsing.value, n - 1)
              && st.verifications != [] && st.verifications[|st.verifications| - 1].requirement.None?
  {
    hide Trim;
    assert AllGaps(lines, st.lastUsing.GetOr(0), n - 1) <==> OnlyGaps(lines, st.lastUsing.GetOr(0), n - 1) by {
      GapsAre(lines, st.lastUsing.GetOr(0), n - 1);
    }
    hide AllGaps, OnlyGaps;
  }

  lemma GapsAre(lines: seq<string>, from: nat, to: nat)
    requires to <= |lines|
    ensures AllGaps(lines, from, to) <==> OnlyGaps(lines, from, to)
  {
    hide Trim;
  }

  lemma OthersStay(lines: seq<string>, u: nat, u': nat, n: nat, v: Verification)
    requires 1 <= n <= |lines| && RequirementHere(lines, u, n - 1, v)
    requires u < u' < n && ("USING" <= At(lines, u') || "VERIFY" <= At(lines, u'))
    ensures RequirementHere(lines, u, n, v)
  {
    hide At, Taken, AllGaps;
    forall r ensures RequiredBy(lines, u, n, r) <==> RequiredBy(lines, u, n - 1, r) {
      NotAcross(lines, u, u', n, r);
    }
  }

  lemma LastGains(lines: seq<string>, u: nat, n: nat, v: Verification)
    requires 1 <= n <= |lines| && RequirementHere(lines, u, n - 1, v) && v.requirement.None?
    requires "REQUIRE" <= At(lines, n) && Taken(lines, n) && AllGaps(lines, u, n - 1)
    ensures RequirementHere(lines, u, n, v.(requirement := Some(Trim(At(lines, n)[7..]))))
  {
    hide At, Taken, AllGaps;
    var text := Trim(At(lines, n)[7..]);
    assert Attached(lines, u, n, text);
    forall r ensures RequiredBy(lines, u, n, r) <==> r == text {
      assert !RequiredBy(lines, u, n - 1, r);
    }
  }

  /** The completed lines grow with the verifications. */
  ghost predicate Carried(lines: seq<string>, us: seq<nat>, st: State, next: Next, n: nat) {
    next.Ok? ==> VerificationsSound(lines,
      if |next.value.verifications| > |st.verifications| then us + [n] else us, n, next.value)
  }

  lemma BodyCases(lines: seq<string>, n: nat, line: string, st: State)
    requires 1 <= n <= |lines|
    ensures var next := OnBody(lines, n, line, st);
      next.Err?
      || (next.value.verifications == st.verifications && next.value.lastUsing == st.lastUsing)
      || ("VERIFY" <= line && next == OnVerify(st, line[6..], n))
      || ("REQUIRE" <= line && st.pendingForbid.None? && next == OnRequire(st, lines, line[7..], n))
    ensures var next := OnBody(lines, n, line, st);
      next.Err? || next.value.skipUntil == st.skipUntil
      || ("ACCEPT WHEN" <= line && next == OnAccept(st, lines, line[11..], n))
  {
  }

  lemma VerifyCarried(lines: seq<string>, us: seq<nat>, st: State, n: nat)
    requires 1 <= n <= |lines| && VerificationsSound(lines, us, n - 1, st) && "VERIFY" <= At(lines, n)
    ensures Carried(lines, us, st, OnVerify(st, At(lines, n)[6..], n), n)
  {
    hide VerificationsSound;
    Excludes(At(lines, n), "VERIFY", "REQUIRE", 0);
    var halves := SplitOnce(Trim(At(lines, n)[6..]), "USING");
    if halves.Some? {
      PushedSound(lines, us, st, Trim(halves.value.0), Trim(halves.value.1), n, n);
    } else {
      UntouchedCarried(lines, us, st, st.(pendingVerify := Some((Trim(At(lines, n)[6..]), n))), n);
    }
  }

  lemma UsingCarried(lines: seq<string>, us: seq<nat>, st: State, n: nat)
    requires 1 <= n <= |lines| && VerificationsSound(lines, us, n - 1, st) && "USING" <= At(lines, n)
    ensures Carried(lines, us, st, OnUsing(st, At(lines, n)[5..], n), n)
  {
    Excludes(At(lines, n), "USING", "REQUIRE", 0);
    if st.pendingVerify.Some? {
      PushedSound(lines, us, st.(pendingVerify := None), st.pendingVerify.value.0, Trim(At(lines, n)[5..]),
                  st.pendingVerify.value.1, n);
    }
  }

  lemma UntouchedCarried(lines: seq<string>, us: seq<nat>, st: State, st': State, n: nat)
    requires 1 <= n <= |lines| && VerificationsSound(lines, us, n - 1, st)
    requires !("REQUIRE" <= At(lines, n) && Taken(lines, n))
    requires st'.verifications == st.verifications && st'.lastUsing == st.lastUsing
    ensures Carried(lines, us, st, Ok(st'), n)
  {
    hide At, Taken, RequirementHere;
    forall k | 0 <= k < |us| ensures RequirementHere(lines, us[k], n, st'.verifications[k]) {
      NoneAttached(lines, us[k], n, st.verifications[k]);
    }
  }

  /** What the header directives may change. */
  lemma LineCases(lines: seq<string>, n: nat, line: string, st: State)
    requires 1 <= n <= |lines|
    ensures var next := OnLine(lines, n, line, st);
      || ("USING" <= line && next == OnUsing(st, line[5..], n))
      || (next.Ok? && next.value.verifications == st.verifications && next.value.lastUsing == st.lastUsing)
      || ((st.inGoal ==> StartsWithDirective(line)) && next == OnBody(lines, n, line, st.(inGoal := false)))
  {
    hide OnBody, OnUsing;
  }

  /** Of the directives, only REQUIRE itself begins with REQUIRE. */
  lemma RequireWord(line: string)
    requires "REQUIRE" <= line
    ensures StartsWithDirective(line) <==> IsWord(line, "REQUIRE")
    ensures line[0] == 'R' && line[2] == 'Q'
  {
    assert DIRECTIVES[5] == "REQUIRE";
    forall i | 0 <= i < |DIRECTIVES| && i != 5 ensures !IsWord(line, DIRECTIVES[i]) {
      assert |DIRECTIVES[i]| >= 3 && (DIRECTIVES[i][0] != 'R' || DIRECTIVES[i][2] == 'J');
    }
  }

  /** What happens to a line that begins with REQUIRE. */
  lemma RequireLine(lines: seq<string>, n: nat, st: State)
    requires 1 <= n <= |lines| && "REQUIRE" <= At(lines, n)
    ensures st.pendingForbid.None? && (st.inGoal ==> IsWord(At(lines, n), "REQUIRE")) ==>
              OnLine(lines, n, At(lines, n), st) == OnRequire(st.(inGoal := false), lines, At(lines, n)[7..], n)
  {
    var line := At(lines, n);
    RequireWord(line);
    NotPrefix("USING", line);
    NotPrefix("VERSION", line);
    NotPrefix("DOMAIN", line);
    NotPrefix("INTENT", line);
    NotPrefix("CLAIM", line);
    NotPrefix("INVARIANT", line);
    NotPrefix("ENSURE", line);
    NotPrefix("FORBID", line);
    NotPrefix("VERIFY", line);
    NotPrefix("ACCEPT WHEN", line);
    Excludes(line, "REQUIRE", "REJECT WHEN", 2);
    NotPrefix("ESCALATE WHEN", line);
    assert line != "GOAL" && line != "FORBID";
    hide OnRequire, StartsWithDirective;
  }

  lemma NotPrefix(p: string, line: string)
    requires p != "" && line != "" && p[0] != line[0]
    ensures !(p <= line)
  {
  }

  lemma LineSound(lines: seq<string>, us: seq<nat>, n: nat)
    requires 1 <= n <= |lines| && Scan(lines, n - 1).Ok?
    requires VerificationsSound(lines, us, n - 1, Scan(lines, n - 1).value)
    ensures var st := Scan(lines, n - 1).value; Carried(lines, us, st, OnLine(lines, n, At(lines, n), st), n)
  {
    var st, line := Scan(lines, n - 1).value, At(lines, n);
    if "REQUIRE" <= line && Taken(lines, n) {
      RequireLine(lines, n, st);
      hide OnLine, OnRequire, At, RequirementHere, Taken, Scan;
      RequireSound(lines, us, st.(inGoal := false), n);
    } else {
      hide OnLine, At, RequirementHere, Taken;
      OtherLineSound(lines, us, n, st);
    }
  }

  /** Lines that are not read as a REQUIRE. */
  lemma OtherLineSound(lines: seq<string>, us: seq<nat>, n: nat, st: State)
    requires 1 <= n <= |lines| && Scan(lines, n - 1) == Ok(st) && VerificationsSound(lines, us, n - 1, st)
    requires !("REQUIRE" <= At(lines, n) && Taken(lines, n))
    ensures Carried(lines, us, st, OnLine(lines, n, At(lines, n), st), n)
  {
    var line := At(lines, n);
    var next := OnLine(lines, n, line, st);
    LineCases(lines, n, line, st);
    BodyCases(lines, n, line, st.(inGoal := false));
    if "REQUIRE" <= line { RequireWord(line); }
    if "USING" <= line {
      hide OnUsing, VerificationsSound;
      UsingCarried(lines, us, st, n);
    } else if next.Ok? {
      hide OnVerify, OnRequire, OnBody, VerificationsSound;
      if next.value.verifications == st.verifications && next.value.lastUsing == st.lastUsing {
        UntouchedCarried(lines, us, st, next.value, n);
      } else {
        VerifyCarried(lines, us, st.(inGoal := false), n);
      }
    }
  }

  lemma RequireStops(raw: string)
    requires "REQUIRE" <= Trim(raw)
    ensures !Continues(raw)
  {
    var line := Trim(raw);
    NotPrefix("required_claims", line);
    NotPrefix("critical_failures", line);
    NotPrefix("AND ", line);
    assert line != "AND";
  }

  /** Skipped lines are condition lines. */
  lemma SkippedSound(lines: seq<string>, us: seq<nat>, n: nat)
    requires 1 <= n <= |lines| && Scan(lines, n - 1).Ok? && n - 1 < Scan(lines, n - 1).value.skipUntil
    requires VerificationsSound(lines, us, n - 1, Scan(lines, n - 1).value)
    ensures Carried(lines, us, Scan(lines, n - 1).value, Scan(lines, n - 1), n)
  {
    var line := At(lines, n);
    ScanSkips(lines, n - 1);
    if "REQUIRE" <= line { RequireStops(lines[n - 1]); }
    hide Scan, Taken;
    UntouchedCarried(lines, us, Scan(lines, n - 1).value, Scan(lines, n - 1).value, n);
  }

  lemma {:induction false} ScanVerifications(lines: seq<string>, n: nat)
    requires n <= |lines| && Scan(lines, n).Ok?
    ensures VerificationsSound(lines, Completed(lines, n), n, Scan(lines, n).value)
  {
    hide OnLine, VerificationsSound, Completed, Scan, Carried;
    if n > 0 {
      ScanPrefix(lines, n - 1, n);
      ScanNext(lines, n - 1, Scan(lines, n - 1).value);
      CompletedNext(lines, n);
      ScanVerifications(lines, n - 1);
      var us, st := Completed(lines, n - 1), Scan(lines, n - 1).value;
      if n - 1 < st.skipUntil { SkippedSound(lines, us, n); } else { LineSound(lines, us, n); }
      CarriedOn(lines, us, st, Scan(lines, n), n);
    } else {
      ScanNone(lines);
      NoneCompleted(lines);
      NoneSound(lines);
    }
  }

  lemma CompletedNext(lines: seq<string>, n: nat)
    requires 0 < n <= |lines| && Scan(lines, n - 1).Ok? && Scan(lines, n).Ok?
    ensures var was, cur := |Scan(lines, n - 1).value.verifications|, |Scan(lines, n).value.verifications|;
            Completed(lines, n) == (if cur > was then Completed(lines, n - 1) + [n] else Completed(lines, n - 1))
  {
    hide OnLine;
  }

  lemma NoneCompleted(lines: seq<string>)
    requires Scan(lines, 0).Ok?
    ensures Completed(lines, 0) == []
  {
  }

  lemma CarriedOn(lines: seq<string>, us: seq<nat>, st: State, next: Next, n: nat)
    requires Carried(lines, us, st, next, n) && next.Ok?
    ensures VerificationsSound(lines,
      if |next.value.verifications| > |st.verifications| then us + [n] else us, n, next.value)
  {
  }

  lemma NoneSound(lines: seq<string>)
    ensures VerificationsSound(lines, [], 0, START)
  {
  }

  // ---------------------------------------------------------------- reserved directives

  ghost predicate IsReserved(line: string) {
    "REJECT WHEN" <= line || "ESCALATE WHEN" <= line
  }

  lemma {:induction false} AcceptTextSkips(lines: seq<string>, j: nat, text: string)
    requires j <= |lines|
    ensures j <= AcceptText(lines, j, text).1 <= |lines|
    ensures forall k :: j <= k < AcceptText(lines, j, text).1 ==> Continues(lines[k])
    decreases |lines| - j
  {
    if j < |lines| && Continues(lines[j]) { AcceptTextSkips(lines, j + 1, Glue(text, Trim(lines[j]))); }
  }

  ghost predicate Skips(lines: seq<string>, n: nat, st: State) {
    st.skipUntil <= |lines| && forall k :: n <= k < st.skipUntil ==> Continues(lines[k])
  }

  lemma LineSkips(lines: seq<string>, n: nat, st: State)
    requires 1 <= n <= |lines| && Skips(lines, n - 1, st)
    ensures var next := OnLine(lines, n, At(lines, n), st); next.Ok? ==> Skips(lines, n, next.value)
  {
    var line := At(lines, n);
    var next := OnLine(lines, n, line, st);
    BodyCases(lines, n, line, st.(inGoal := false));
    if next.Ok? && next.value.skipUntil != st.skipUntil {
      AcceptTextSkips(lines, n, Trim(line[11..]));
    }
  }

  /** Only condition lines are ever skipped. */
  lemma {:induction false} ScanSkips(lines: seq<string>, n: nat)
    requires n <= |lines| && Scan(lines, n).Ok?
    ensures Skips(lines, n, Scan(lines, n).value)
  {
    if n > 0 {
      ScanSkips(lines, n - 1);
      LineSkips(lines, n, Scan(lines, n - 1).value);
    }
  }

  lemma ReservedStandsOut(line: string)
    requires IsReserved(line)
    ensures line[0] != 'U' && line[0] != '#' && line[0] != 'V' && line[0] != 'D' && line[0] != 'I' && line[0] != 'G'
    ensures line[0] != 'C' && line[0] != 'F' && line[0] != 'A' && line[0] != 'r' && line[0] != 'c'
    ensures !("ENSURE" <= line) && StartsWithDirective(line)
  {
    if "REJECT WHEN" <= line {
      assert line[0] == "REJECT WHEN"[0] && line[6] == "REJECT WHEN"[6];
      assert IsWord(line, DIRECTIVES[11]);
    } else {
      assert line[0] == "ESCALATE WHEN"[0] && line[1] == "ESCALATE WHEN"[1] && line[8] == "ESCALATE WHEN"[8];
      assert IsWord(line, DIRECTIVES[12]);
    }
  }

  /** A reserved line is an error unless a bare FORBID was pending, which then swallows it. */
  lemma ReservedLine(lines: seq<string>, n: nat)
    requires 1 <= n <= |lines| && Scan(lines, n).Ok? && IsReserved(At(lines, n))
    ensures Scan(lines, n - 1).Ok? && Scan(lines, n - 1).value.pendingForbid.Some?
    ensures var st := Scan(lines, n - 1).value;
            Scan(lines, n).value.claims
              == st.claims + [ForbidClaim(st.forbidCount + 1, At(lines, n), st.pendingForbid.value)]
  {
    var line := At(lines, n);
    ReservedStandsOut(line);
    ScanSkips(lines, n - 1);
    NotPrefix("USING", line);
    NotPrefix("VERSION", line);
    NotPrefix("DOMAIN", line);
    NotPrefix("INTENT", line);
    NotPrefix("CLAIM", line);
    NotPrefix("INVARIANT", line);
    NotPrefix("FORBID", line);
    NotPrefix("VERIFY", line);
    NotPrefix("ACCEPT WHEN", line);
    NotPrefix("required_claims", line);
    NotPrefix("critical_failures", line);
    NotPrefix("AND ", line);
    assert line != "GOAL" && line != "FORBID" && line != "AND";
  }

  lemma {:induction false} DanglingNone(claims: seq<Claim>, vs: seq<Verification>)
    requires Dangling(claims, vs).None?
    ensures forall k :: 0 <= k < |vs| ==> Declares(claims, vs[k].claimId)
  {
    if vs != [] { DanglingNone(claims, vs[1..]); }
  }

  lemma {:induction false} ScanPrefix(lines: seq<string>, n: nat, m: nat)
    requires n <= m <= |lines| && Scan(lines, m).Ok?
    ensures Scan(lines, n).Ok?
    decreases m
  {
    if n < m { ScanPrefix(lines, n, m - 1); }
  }

  /** Every successful parse: FORBID claims are numbered in the order they were created,
      whatever stands between them; every claim id is one whitespace-free token; each
      verification carries a requirement exactly when a REQUIRE line stands just below it; every verification
      names a declared claim; and a reserved line occurred only under a pending FORBID. */
  lemma ParseGuarantees(lines: seq<string>)
    requires ParseLines(lines).Ok?
    ensures var ast := ParseLines(lines).value;
      && (forall i :: 0 <= i < |ast.claims| ==> Numbered(lines, ast.claims, i))
      && |Completed(lines, |lines|)| == |ast.verifications|
      && (forall k :: 0 <= k < |ast.verifications| ==>
            RequirementHere(lines, Completed(lines, |lines|)[k], |lines|, ast.verifications[k]))
      && (forall k :: 0 <= k < |ast.verifications| ==>
            exists i :: 0 <= i < |ast.claims| && ast.claims[i].id == ast.verifications[k].claimId)
      && (forall n :: 1 <= n <= |lines| && IsReserved(At(lines, n)) ==>
            Scan(lines, n - 1).Ok? && Scan(lines, n - 1).value.pendingForbid.Some?)
  {
    var st := Scan(lines, |lines|).value;
    ScanClaims(lines, |lines|);
    ScanVerifications(lines, |lines|);
    DanglingNone(st.claims, st.verifications);
    forall n | 1 <= n <= |lines| && IsReserved(At(lines, n))
      ensures Scan(lines, n - 1).Ok? && Scan(lines, n - 1).value.pendingForbid.Some?
    {
      ScanPrefix(lines, n, |lines|);
      ReservedLine(lines, n);
    }
  }

  /** The id of a FORBID claim depends only on how many FORBID claims were created before it. */
  lemma ForbidIdsIgnoreClaims(lines: seq<string>, other: seq<string>, i: nat, j: nat)
    requires ParseLines(lines).Ok? && ParseLines(other).Ok?
    requires i < |ParseLines(lines).value.claims| && j < |ParseLines(other).value.claims|
    requires FromForbid(lines, ParseLines(lines).value.claims[i])
    requires FromForbid(other, ParseLines(other).value.claims[j])
    requires Forbids(lines, ParseLines(lines).value.claims[..i]) == Forbids(other, ParseLines(other).value.claims[..j])
    ensures ParseLines(lines).value.claims[i].id == ParseLines(other).value.claims[j].id
  {
    ParseGuarantees(lines);
    ParseGuarantees(other);
    assert Numbered(lines, ParseLines(lines).value.claims, i);
    assert Numbered(other, ParseLines(other).value.claims, j);
  }

  // ---------------------------------------------------------------- conditions and modifiers

  /** The modifier reported is the first that is not allowed; none is when all are. */
  lemma {:induction false} BadModifierExact(modifiers: seq<string>, allowed: set<string>)
    ensures BadModifier(modifiers, allowed).None? <==> forall m :: m in modifiers ==> m in allowed
    ensures BadModifier(modifiers, allowed).Some? ==>
              exists i :: 0 <= i < |modifiers| && modifiers[i] == BadModifier(modifiers, allowed).value
                && modifiers[i] !in allowed && forall j :: 0 <= j < i ==> modifiers[j] in allowed
  {
    if modifiers != [] && modifiers[0] !in allowed {
      assert modifiers[0] in modifiers;
    } else if modifiers != [] {
      BadModifierExact(modifiers[1..], allowed);
      assert modifiers == [modifiers[0]] + modifiers[1..];
      if BadModifier(modifiers, allowed).Some? {
        var i :| 0 <= i < |modifiers[1..]| && modifiers[1..][i] == BadModifier(modifiers, allowed).value
                 && modifiers[1..][i] !in allowed && forall j :: 0 <= j < i ==> modifiers[1..][j] in allowed;
        assert modifiers[i + 1] == modifiers[1..][i];
        assert forall j :: 1 <= j < i + 1 ==> modifiers[j] == modifiers[1..][j - 1];
      }
    }
  }

  ghost function RequiredClauses(parts: seq<string>): nat {
    if parts == [] then 0 else (if parts[0] == REQUIRED_CLAUSE then 1 else 0) + RequiredClauses(parts[1..])
  }

  predicate KnownClause(p: string) {
    p == REQUIRED_CLAUSE || p == CRITICAL_CLAUSE
  }

  ghost predicate AllKnown(parts: seq<string>) {
    forall p :: p in parts ==> KnownClause(p)
  }

  lemma AllKnownStep(parts: seq<string>)
    requires parts != []
    ensures AllKnown(parts) <==> KnownClause(parts[0]) && AllKnown(parts[1..])
  {
    assert parts == [parts[0]] + parts[1..];
  }

  lemma {:induction false} CheckClausesExact(parts: seq<string>, seen: bool)
    ensures CheckClauses(parts, seen).None? <==> AllKnown(parts) && RequiredClauses(parts) == (if seen then 0 else 1)
  {
    if parts != [] {
      assert REQUIRED_CLAUSE[0] != CRITICAL_CLAUSE[0];
      AllKnownStep(parts);
      CheckClausesExact(parts[1..], true);
      CheckClausesExact(parts[1..], seen);
    }
  }

  /** An acceptance condition is taken exactly when its clauses, cut at AND, are the two known
      ones only, the required one exactly once. */
  lemma AcceptExact(text: string)
    ensures var parts := Clauses(SplitOn(text, "AND"));
            AcceptFault(text).None? <==>
              (forall p :: p in parts ==> p == REQUIRED_CLAUSE || p == CRITICAL_CLAUSE) && RequiredClauses(parts) == 1
  {
    CheckClausesExact(Clauses(SplitOn(text, "AND")), false);
  }

  /** Which words make a claim optional or an invariant critical: any word after the keyword,
      the id included; every other word has to be a known modifier. */
  lemma ClaimFlags(st: State, rest: string, n: nat)
    ensures var parts := Tokens(rest);
      && (OnClaim(st, rest, n).Ok? <==>
            parts != [] && forall m :: m in parts[1..] ==> m == "REQUIRED" || m == "OPTIONAL")
      && (OnInvariant(st, rest, n).Ok? <==> parts != [] && forall m :: m in parts[1..] ==> m == "CRITICAL")
      && (OnClaim(st, rest, n).Ok? ==>
            var c := OnClaim(st, rest, n).value.claims[|st.claims|];
            !c.critical && (c.required <==> c.id != "OPTIONAL" && "OPTIONAL" !in parts[1..]))
      && (OnInvariant(st, rest, n).Ok? ==>
            var c := OnInvariant(st, rest, n).value.claims[|st.claims|];
            c.required && (c.critical <==> c.id == "CRITICAL" || parts[1..] != []))
  {
    var parts := Tokens(rest);
    if parts != [] {
      BadModifierExact(parts[1..], {"REQUIRED", "OPTIONAL"});
      BadModifierExact(parts[1..], {"CRITICAL"});
      assert parts == [parts[0]] + parts[1..];
      if parts[1..] != [] { assert parts[1..][0] in parts[1..]; }
    }
  }
}
