/** The candidate contract that `import-speckit` prints, and its way back through the parser. */
module SpecKit {
  import opened Parser

  /** An extracted claim: its id and its text. */
  type Draft = (string, string)

  const GOAL_TEXT := "Imported from Spec Kit (candidate " + ['\U{2014}'] + " review required)."

  function OneLine(s: string): string {
    if s == [] then [] else [if s[0] == '\n' then ' ' else s[0]] + OneLine(s[1..])
  }

  function Header(intent: string): seq<string> {
    ["VERSION" + " " + "0.1", "DOMAIN" + " " + "software", "INTENT" + " " + ("candidate-" + intent), "GOAL",
     "  " + GOAL_TEXT]
  }

  function ClaimText(id: string): string {
    "CLAIM" + " " + id + " " + "REQUIRED"
  }

  function EnsureText(ensure: string): string {
    "  " + ("ENSURE" + " " + OneLine(ensure))
  }

  function VerifyText(id: string): string {
    "VERIFY" + " " + id
  }

  const PROJECT_TESTS := "project.tests"
  const USING_LINE := "  " + ("USING" + " " + PROJECT_TESTS)

  function ClaimLines(ds: seq<Draft>): seq<string> {
    seq(2 * |ds|, i requires 0 <= i < 2 * |ds| =>
      if i % 2 == 0 then ClaimText(ds[i / 2].0) else EnsureText(ds[i / 2].1))
  }

  function VerifyLines(ds: seq<Draft>): seq<string> {
    seq(2 * |ds|, i requires 0 <= i < 2 * |ds| =>
      if i % 2 == 0 then VerifyText(ds[i / 2].0) else USING_LINE)
  }

  const TAIL := ["ACCEPT WHEN", "  " + REQUIRED_CLAUSE, "  " + ("AND" + " " + CRITICAL_CLAUSE)]

  function CandidateLines(intent: string, ds: seq<Draft>): seq<string> {
    Header(intent) + ClaimLines(ds) + VerifyLines(ds) + TAIL
  }

  /** Each line with its newline. */
  function Unlines(ls: seq<string>): string {
    if ls == [] then [] else Unlines(ls[..|ls| - 1]) + ls[|ls| - 1] + "\n"
  }

  function Candidate(intent: string, ds: seq<Draft>): string {
    Unlines(CandidateLines(intent, ds))
  }

  lemma {:induction false} UnlinesConcat(a: seq<string>, b: seq<string>)
    ensures Unlines(a + b) == Unlines(a) + Unlines(b)
    decreases |b|
  {
    if b == [] {
      assert a + b == a;
    } else {
      assert (a + b)[..|a + b| - 1] == a + b[..|b| - 1];
      UnlinesConcat(a, b[..|b| - 1]);
    }
  }

  lemma UnlinesOne(a: string)
    ensures Unlines([a]) == a + "\n"
  {
    assert [a][..0] == [];
  }

  lemma UnlinesTwo(a: string, b: string)
    ensures Unlines([a, b]) == a + "\n" + b + "\n"
  {
    UnlinesOne(a);
    assert [a, b][..1] == [a];
  }

  lemma ClaimLinesStep(ds: seq<Draft>, i: nat)
    requires i < |ds|
    ensures ClaimLines(ds[..i + 1])
         == ClaimLines(ds[..i]) + [ClaimText(ds[i].0), EnsureText(ds[i].1)]
  {
  }

  lemma VerifyLinesStep(ds: seq<Draft>, i: nat)
    requires i < |ds|
    ensures VerifyLines(ds[..i + 1]) == VerifyLines(ds[..i]) + [VerifyText(ds[i].0), USING_LINE]
  {
  }

  /** The emitter: header, two loops pushing text, tail. */
  method Emit(intent: string, ds: seq<Draft>) returns (dsl: string)
    ensures dsl == Candidate(intent, ds)
  {
    dsl := HeaderText(intent);
    HeaderUnlines(intent);
    dsl := EmitClaims(dsl, ds);
    UnlinesConcat(Header(intent), ClaimLines(ds));
    dsl := EmitVerifies(dsl, ds);
    UnlinesConcat(Header(intent) + ClaimLines(ds), VerifyLines(ds));
    dsl := dsl + (TAIL[0] + "\n" + TAIL[1] + "\n" + TAIL[2] + "\n");
    TailUnlines();
    UnlinesConcat(Header(intent) + ClaimLines(ds) + VerifyLines(ds), TAIL);
  }

  method EmitClaims(before: string, ds: seq<Draft>) returns (dsl: string)
    ensures dsl == before + Unlines(ClaimLines(ds))
  {
    dsl := before;
    assert before + Unlines(ClaimLines(ds[..0])) == before;
    for i := 0 to |ds|
      invariant dsl == before + Unlines(ClaimLines(ds[..i]))
    {
      var text := ClaimText(ds[i].0) + "\n" + EnsureText(ds[i].1) + "\n";
      ClaimLinesStep(ds, i);
      PushTwo(before, ClaimLines(ds[..i]), ClaimText(ds[i].0), EnsureText(ds[i].1));
      dsl := dsl + text;
    }
    assert ds[..|ds|] == ds;
  }

  method EmitVerifies(before: string, ds: seq<Draft>) returns (dsl: string)
    ensures dsl == before + Unlines(VerifyLines(ds))
  {
    dsl := before;
    assert before + Unlines(VerifyLines(ds[..0])) == before;
    for i := 0 to |ds|
      invariant dsl == before + Unlines(VerifyLines(ds[..i]))
    {
      var text := VerifyText(ds[i].0) + "\n" + USING_LINE + "\n";
      VerifyLinesStep(ds, i);
      PushTwo(before, VerifyLines(ds[..i]), VerifyText(ds[i].0), USING_LINE);
      dsl := dsl + text;
    }
    assert ds[..|ds|] == ds;
  }

  lemma PushTwo(before: string, done: seq<string>, a: string, b: string)
    ensures before + Unlines(done + [a, b]) == before + Unlines(done) + (a + "\n" + b + "\n")
  {
    UnlinesConcat(done, [a, b]);
    UnlinesTwo(a, b);
  }

  function HeaderText(intent: string): string {
    var h := Header(intent);
    h[0] + "\n" + h[1] + "\n" + (h[2] + "\n" + h[3] + "\n") + (h[4] + "\n")
  }

  lemma HeaderUnlines(intent: string)
    ensures Unlines(Header(intent)) == HeaderText(intent)
  {
    var h := Header(intent);
    assert h == [h[0], h[1]] + [h[2], h[3]] + [h[4]];
    UnlinesTwo(h[0], h[1]);
    UnlinesTwo(h[2], h[3]);
    UnlinesOne(h[4]);
    UnlinesConcat([h[0], h[1]], [h[2], h[3]]);
    UnlinesConcat([h[0], h[1]] + [h[2], h[3]], [h[4]]);
  }

  lemma TailUnlines()
    ensures Unlines(TAIL) == TAIL[0] + "\n" + TAIL[1] + "\n" + TAIL[2] + "\n"
  {
    var t := TAIL;
    assert t == [t[0], t[1]] + [t[2]];
    UnlinesTwo(t[0], t[1]);
    UnlinesOne(t[2]);
    UnlinesConcat([t[0], t[1]], [t[2]]);
  }
}
