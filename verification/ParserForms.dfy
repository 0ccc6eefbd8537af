/** The forms a verification and an acceptance condition may be written in, and what they mean. */
module ParserForms {
  import opened Parser
  import opened Prelude
  import opened Text

  // ---------------------------------------------------------------- naming the verifier

  ghost predicate Quotable(cmd: string) {
    cmd == "" || (cmd[0] != '"' && cmd[|cmd| - 1] != '"')
  }

  lemma {:induction false} QuotesEnd(s: string, c: char)
    requires s == [] || s[|s| - 1] != c
    ensures TrimEndOf(s + [c], c) == s
  {
    assert (s + [c])[..|s|] == s;
  }

  lemma {:induction false} TrimEndOfShorter(s: string, c: char)
    ensures |TrimEndOf(s, c)| <= |s|
    ensures TrimEndOf(s, c) == [] || TrimEndOf(s, c)[|TrimEndOf(s, c)| - 1] != c
  {
    if s != [] && s[|s| - 1] == c { TrimEndOfShorter(s[..|s| - 1], c); }
  }

  lemma {:induction false} TrimStartOfShorter(s: string, c: char)
    ensures |TrimStartOf(s, c)| <= |s|
    ensures TrimStartOf(s, c) == [] || TrimStartOf(s, c)[0] != c
  {
    if s != [] && s[0] == c { TrimStartOfShorter(s[1..], c); }
  }

  /** Quotes come off an inline command that has none at its ends, and off no other. */
  lemma Unquoted(cmd: string)
    ensures TrimEndOf(TrimStartOf("\"" + cmd + "\"", '"'), '"') == cmd <==> Quotable(cmd)
  {
    var q := "\"" + cmd + "\"";
    assert q[1..] == cmd + "\"";
    if cmd == "" {
      assert q[1..] == ['"'] && q[1..][1..] == [];
      assert TrimStartOf(q[1..], '"') == TrimStartOf([], '"') == [];
    } else if cmd[0] != '"' {
      if cmd[|cmd| - 1] != '"' {
        QuotesEnd(cmd, '"');
      } else {
        TrimEndOfShorter(cmd + "\"", '"');
      }
    } else {
      assert q[1..][1..] == cmd[1..] + "\"";
      TrimStartOfShorter(cmd[1..] + "\"", '"');
      TrimEndOfShorter(TrimStartOf(cmd[1..] + "\"", '"'), '"');
      StartIsNotQuote(TrimStartOf(cmd[1..] + "\"", '"'), cmd);
    }
  }

  lemma StartIsNotQuote(s: string, cmd: string)
    requires cmd != "" && cmd[0] == '"' && (s == [] || s[0] != '"')
    ensures TrimEndOf(s, '"') != cmd
  {
    TrimEndOfPrefix(s, '"');
  }

  lemma {:induction false} TrimEndOfPrefix(s: string, c: char)
    ensures TrimEndOf(s, c) <= s
  {
    if s != [] && s[|s| - 1] == c { TrimEndOfPrefix(s[..|s| - 1], c); }
  }

  /** `USING shell "<command>"` runs the command that was written, exactly when it neither begins
      nor ends with a quote. */
  lemma ShellForm(id: string, cmd: string, vline: nat)
    requires id != ""
    ensures var v := Verification(id, "shell", Some(cmd), vline, None);
            MakeVerification(id, "shell \"" + cmd + "\"", vline) == Some(v) <==> Quotable(cmd)
  {
    var using := "shell \"" + cmd + "\"";
    var q := "\"" + cmd + "\"";
    assert using == "shell" + (" " + q) && using[5..] == " " + q;
    TrimIndent(' ', q);
    TrimSolid(q);
    Unquoted(cmd);
  }

  /** Without a quote, and not as the word `shell`, the whole text names the verifier: `shellcheck`
      is a name like any other. */
  lemma PlainForm(id: string, ref: string, vline: nat)
    requires id != "" && '"' !in ref && !IsWord(ref, "shell")
    ensures MakeVerification(id, ref, vline) ==
              if Trim(ref) == "" then None else Some(Verification(id, Trim(ref), None, vline, None))
  {
  }

  /** `USING <name> "<command>"` carries the command along. */
  lemma QuotedForm(id: string, ref: string, cmd: string, vline: nat)
    requires id != "" && ref != "" && Trim(ref) == ref && '"' !in ref && !IsWord(ref, "shell")
    ensures MakeVerification(id, ref + " \"" + cmd + "\"", vline) == Some(Verification(id, ref, Some(cmd), vline, None))
       <==> cmd == "" || cmd[|cmd| - 1] != '"'
  {
    QuotedPieces(ref, cmd);
    hide Trim, IndexOf;
    TrimDropSpace(ref, ' ');
    if cmd == "" || cmd[|cmd| - 1] != '"' { QuotesEnd(cmd, '"'); } else { TrimEndOfShorter(cmd + "\"", '"'); }
  }

  lemma QuotedPieces(ref: string, cmd: string)
    requires ref != "" && '"' !in ref && !IsWord(ref, "shell")
    ensures var using := ref + " \"" + cmd + "\"";
      && !IsWord(using, "shell") && IndexOf(using, '"') == Some(|ref| + 1)
      && using[..|ref| + 1] == ref + [' '] && using[|ref| + 2..] == cmd + "\""
  {
    var using := ref + " \"" + cmd + "\"";
    assert using == (ref + " ") + ['"'] + (cmd + "\"");
    IndexOfFirst(ref + " ", '"', cmd + "\"");
    NotShellWord(ref, " \"" + cmd + "\"");
    assert using == ref + (" \"" + cmd + "\"");
  }

  lemma NotShellWord(ref: string, rest: string)
    requires ref != "" && !IsWord(ref, "shell") && rest != "" && IsSpace(rest[0])
    ensures !IsWord(ref + rest, "shell")
  {
    var s := ref + rest;
    if |ref| < 5 {
      assert s[|ref|] == rest[0] && !IsSpace("shell"[|ref|]);
    } else {
      assert s[..5] == ref[..5];
      assert |ref| > 5 ==> s[5] == ref[5];
    }
  }

  /** No id is no verification. */
  lemma NoId(using: string, vline: nat)
    ensures MakeVerification("", using, vline) == None
  {
  }

  // ---------------------------------------------------------------- one line or two

  lemma {:induction false} SplitOnceAt(a: string, pat: string, b: string)
    requires pat != [] && forall i :: 0 <= i < |a| ==> !(pat <= (a + pat + b)[i..])
    ensures SplitOnce(a + pat + b, pat) == Some((a, b))
  {
    var s := a + pat + b;
    assert s[0..] == s;
    if a == [] {
      assert s == pat + b && s[|pat|..] == b;
    } else {
      assert s[1..] == a[1..] + pat + b;
      forall i | 0 <= i < |a[1..]| ensures !(pat <= (a[1..] + pat + b)[i..]) { assert s[1..][i..] == s[i + 1..]; }
      SplitOnceAt(a[1..], pat, b);
      assert [a[0]] + a[1..] == a;
    }
  }

  lemma FirstUsing(id: string, ref: string)
    requires !Contains(id, "USING")
    ensures SplitOnce(id + " " + "USING" + (" " + ref), "USING") == Some((id + " ", " " + ref))
  {
    var s := id + " " + "USING" + (" " + ref);
    forall i | 0 <= i < |id + " "| ensures !("USING" <= s[i..]) {
      if i + 5 <= |id| {
        ContainsExact(id, "USING");
        assert !("USING" <= id[i..]);
        assert s[i..][..5] == id[i..][..5];
      } else {
        assert s[i..][|id| - i] == ' ' && 0 <= |id| - i < 5;
        assert "USING"[|id| - i] != ' ';
      }
    }
    SplitOnceAt(id + " ", "USING", " " + ref);
  }

  predicate Solid(s: string) {
    s != "" && !IsSpace(s[0]) && !IsSpace(s[|s| - 1])
  }

  /** VERIFY with USING on the same line and on the next line make the same verification, or the
      same refusal. */
  lemma OneLineOrTwo(st: State, id: string, ref: string, n: nat, m: nat)
    requires Solid(id) && Solid(ref) && !Contains(id, "USING")
    ensures var two := OnVerify(st, " " + id, n);
            two.Ok? && two.value == st.(pendingVerify := Some((id, n)))
    ensures var one := OnVerify(st, " " + id + " " + "USING" + (" " + ref), n);
            var two := OnUsing(OnVerify(st, " " + id, n).value, " " + ref, m);
            if MakeVerification(id, ref, n).Some?
            then one.Ok? && two.Ok? && one.value.verifications == two.value.verifications
                 && one.value.verifications == st.verifications + [MakeVerification(id, ref, n).value]
            else one == Err(ParseError(n, NeedsClaimAndVerifier)) && two == Err(ParseError(m, NeedsClaimAndVerifier))
  {
    hide MakeVerification;
    TrimIndent(' ', id);
    TrimSolid(id);
    TrimIndent(' ', ref);
    TrimSolid(ref);
    SplitOnceContains(id, "USING");
    var line := id + " " + "USING" + (" " + ref);
    assert " " + id + " " + "USING" + (" " + ref) == " " + line;
    TrimIndent(' ', line);
    TrimSolid(line);
    FirstUsing(id, ref);
    TrimDropSpace(id, ' ');
  }

  // ---------------------------------------------------------------- conditions

  /** The lines from `j` up to `end`, trimmed. */
  function Trimmed(lines: seq<string>, j: nat, end: nat): seq<string>
    requires j <= end <= |lines|
    decreases end - j
  {
    if j == end then [] else [Trim(lines[j])] + Trimmed(lines, j + 1, end)
  }

  lemma SpellCons(a: string, parts: seq<string>, sub: string)
    requires parts != []
    ensures Spell([a] + parts, sub) == a + sub + Spell(parts, sub)
  {
    assert ([a] + parts)[1..] == parts;
  }

  lemma SpellJoined(a: string, b: string, rest: seq<string>)
    ensures Spell([a, b] + rest, " ") == Spell([a + " " + b] + rest, " ")
  {
    assert [a, b] + rest == [a] + ([b] + rest);
    SpellCons(a, [b] + rest, " ");
    if rest != [] {
      SpellCons(b, rest, " ");
      SpellCons(a + " " + b, rest, " ");
      assert a + " " + (b + " " + Spell(rest, " ")) == a + " " + b + " " + Spell(rest, " ");
    } else {
      assert [b] + rest == [b] && [a + " " + b] + rest == [a + " " + b];
    }
  }

  /** The condition is what stands after ACCEPT WHEN and every condition line below it, up to the
      first line that is none, with a space between them. */
  lemma {:induction false} AcceptTextExact(lines: seq<string>, j: nat, text: string)
    requires j <= |lines|
    ensures var (all, end) := AcceptText(lines, j, text);
      && j <= end <= |lines| && (forall k :: j <= k < end ==> Continues(lines[k]))
      && (end < |lines| ==> !Continues(lines[end]))
      && all == Spell((if text == "" then [] else [text]) + Trimmed(lines, j, end), " ")
    decreases |lines| - j
  {
    var end := AcceptText(lines, j, text).1;
    if j < |lines| && Continues(lines[j]) {
      var more := Trim(lines[j]);
      AcceptTextExact(lines, j + 1, Glue(text, more));
      ContinuesSolid(lines[j]);
      var rest := Trimmed(lines, j + 1, end);
      if text == "" {
        assert [] + ([more] + rest) == [more] + rest;
      } else {
        SpellJoined(text, more, rest);
        assert [text] + ([more] + rest) == [text, more] + rest;
      }
    } else {
      assert [text] + [] == [text];
    }
  }

  lemma ContinuesSolid(raw: string)
    requires Continues(raw)
    ensures Trim(raw) != ""
  {
  }

  /** Clauses are the pieces that are not blank, trimmed, each as often as it stands there. */
  lemma {:induction false} ClausesConcat(a: seq<string>, b: seq<string>)
    ensures Clauses(a + b) == Clauses(a) + Clauses(b)
  {
    if a == [] {
      assert a + b == b;
    } else {
      assert (a + b)[1..] == a[1..] + b;
      ClausesConcat(a[1..], b);
    }
  }

  lemma ClausesOne(p: string)
    ensures Clauses([p]) == if Trim(p) == "" then [] else [Trim(p)]
  {
  }
}
