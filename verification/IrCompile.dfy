/** From the parsed contract to the IR: ids must be unique, order is kept. */
module IrCompile {
  import opened Ir
  import opened Parser
  import opened Prelude

  datatype Duplicate = Duplicate(line: nat, id: string, firstLine: nat)

  function FirstWith(claims: seq<Claim>, id: string): Option<Claim> {
    if claims == [] then None else if claims[0].id == id then Some(claims[0]) else FirstWith(claims[1..], id)
  }

  /** The first claim, from index `i` on, whose id an earlier one already has. */
  function DuplicateFrom(claims: seq<Claim>, i: nat): Option<Duplicate>
    requires i <= |claims|
    decreases |claims| - i
  {
    if i == |claims| then None
    else
      match FirstWith(claims[..i], claims[i].id)
      case Some(first) => Some(Duplicate(claims[i].line, claims[i].id, first.line))
      case None => DuplicateFrom(claims, i + 1)
  }

  function ClaimOf(k: Claim): ClaimIr {
    ClaimIr(k.id, if k.kind.PlainClaim? then "claim" else "invariant", k.required, k.critical, k.ensure)
  }

  function VerificationOf(v: Verification): VerificationIr {
    VerificationIr(v.claimId, v.verifierRef, v.inlineShell, v.requirement)
  }

  function Compile(ast: Ast): Result<Contract, Duplicate> {
    match DuplicateFrom(ast.claims, 0)
    case Some(d) => Err(d)
    case None =>
      Ok(Contract(
        ast.version, ast.intent, ast.domain, ast.goal,
        seq(|ast.claims|, i requires 0 <= i < |ast.claims| => ClaimOf(ast.claims[i])),
        seq(|ast.verifications|, i requires 0 <= i < |ast.verifications| => VerificationOf(ast.verifications[i]))))
  }

  ghost predicate DistinctIds(claims: seq<Claim>) {
    forall i, j :: 0 <= i < j < |claims| ==> claims[i].id != claims[j].id
  }

  lemma {:induction false} FirstWithExact(claims: seq<Claim>, id: string)
    ensures FirstWith(claims, id).Some? <==> exists k :: 0 <= k < |claims| && claims[k].id == id
  {
    if claims != [] && claims[0].id != id {
      FirstWithExact(claims[1..], id);
      if k :| 0 <= k < |claims| && claims[k].id == id {
        assert claims[1..][k - 1].id == id;
      }
    }
  }

  lemma {:induction false} DuplicateFromExact(claims: seq<Claim>, i: nat)
    requires i <= |claims|
    ensures DuplicateFrom(claims, i).None? <==>
              forall j, k :: 0 <= k < j < |claims| && i <= j ==> claims[k].id != claims[j].id
    decreases |claims| - i
  {
    if i < |claims| {
      FirstWithExact(claims[..i], claims[i].id);
      DuplicateFromExact(claims, i + 1);
    }
  }

  /** Compilation succeeds exactly when no two claims share an id. */
  lemma CompilesIffDistinct(ast: Ast)
    ensures Compile(ast).Ok? <==> DistinctIds(ast.claims)
  {
    DuplicateFromExact(ast.claims, 0);
  }

  // ---------------------------------------------------------------- what is carried over

  predicate SameClaim(k: Claim, c: ClaimIr) {
    && c.id == k.id && c.required == k.required && c.critical == k.critical && c.ensure == k.ensure
    && (c.kind == "claim" <==> k.kind.PlainClaim?) && (c.kind == "invariant" <==> k.kind.Invariant?)
  }

  predicate SameVerification(v: Verification, w: VerificationIr) {
    && w.claimId == v.claimId && w.verifierRef == v.verifierRef
    && w.inlineShell == v.inlineShell && w.requirement == v.requirement
  }

  /** A contract has all of its source in it but the line numbers, in the order of the source. */
  lemma CompileKeeps(ast: Ast)
    requires Compile(ast).Ok?
    ensures var c := Compile(ast).value;
      && c.uniVersion == ast.version && c.intent == ast.intent && c.domain == ast.domain && c.goal == ast.goal
      && |c.claims| == |ast.claims| && |c.verification| == |ast.verifications|
      && (forall i :: 0 <= i < |c.claims| ==> SameClaim(ast.claims[i], c.claims[i]))
      && (forall i :: 0 <= i < |c.verification| ==> SameVerification(ast.verifications[i], c.verification[i]))
  {
    assert "claim"[0] != "invariant"[0];
  }

  /** The error names the first claim whose id an earlier one has, and the first that has it. */
  lemma DuplicateExact(ast: Ast) returns (i: nat, first: nat)
    requires Compile(ast).Err?
    ensures var d := Compile(ast).error;
      && first < i < |ast.claims| && ast.claims[first].id == ast.claims[i].id == d.id
      && d.line == ast.claims[i].line && d.firstLine == ast.claims[first].line
      && DistinctIds(ast.claims[..i]) && forall k :: 0 <= k < first ==> ast.claims[k].id != d.id
  {
    i, first := DuplicateAt(ast.claims, 0);
  }

  lemma {:induction false} DuplicateAt(claims: seq<Claim>, from: nat) returns (i: nat, first: nat)
    requires from <= |claims| && DuplicateFrom(claims, from).Some? && DistinctIds(claims[..from])
    ensures var d := DuplicateFrom(claims, from).value;
      && first < i < |claims| && claims[first].id == claims[i].id == d.id
      && d.line == claims[i].line && d.firstLine == claims[first].line
      && DistinctIds(claims[..i]) && forall k :: 0 <= k < first ==> claims[k].id != d.id
    decreases |claims| - from
  {
    FirstWithExact(claims[..from], claims[from].id);
    if FirstWith(claims[..from], claims[from].id).Some? {
      i := from;
      first := FirstAt(claims[..from], claims[from].id);
    } else {
      i, first := DuplicateAt(claims, from + 1);
    }
  }

  lemma {:induction false} FirstAt(claims: seq<Claim>, id: string) returns (k: nat)
    requires FirstWith(claims, id).Some?
    ensures k < |claims| && claims[k] == FirstWith(claims, id).value && claims[k].id == id
    ensures forall j :: 0 <= j < k ==> claims[j].id != id
  {
    if claims[0].id == id {
      k := 0;
    } else {
      k := FirstAt(claims[1..], id);
      k := k + 1;
    }
  }
}
