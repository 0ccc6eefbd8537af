/** Trusted verifier specs, their resolution, and the run that turns one into evidence. */
module Verifier {
  import opened Digests
  import opened EvidenceStore
  import opened Ordered
  import opened Prelude
  import opened Text
  import opened Watch

  datatype VerifierSpec = VerifierSpec(
    kind: string,
    run: string,
    expects: string,
    expectsNot: string,
    files: seq<string>,
    expectSha256: map<string, Digest>,
    timeout: nat,
    maxAgeHours: nat)

  type Registry = map<string, VerifierSpec>

  datatype Workspace = Workspace(commit: string, dirty: bool, root: Tree)

  /** Operating system and architecture, joined by a dash: never empty. */
  type Platform = p: string | p != "" witness "linux-x86_64"

  /** What a process leaves: its exit code, its output, and the workspace afterwards. */
  datatype Execution = Execution(exitCode: int, output: string, after: Workspace)

  /** A shell command seen as a function of what it runs in; None when it cannot be started. */
  type Shell = (string, nat, Workspace, string, int) -> Option<Execution>

  datatype RunError =
    | NoContract
    | NoBinding(claim: string)
    | Rebound(claim: string)
    | NoSelector(claim: string)
    | UnauthorizedSelector
    | ShellWithoutCommand
    | UntrustedCommand
    | UnknownVerifier(verifierRef: string)
    | OverrideRefused(verifierRef: string)
    | UnknownKind(kind: string)
    | CannotStart

  const SELECTOR_TOKEN := "{{selector}}"

  predicate IsSelectorTemplate(spec: VerifierSpec) {
    spec.kind == "shell" && Contains(spec.run, SELECTOR_TOKEN)
  }

  function WithSelector(spec: VerifierSpec, selector: Option<string>): Result<VerifierSpec, RunError> {
    if !IsSelectorTemplate(spec) then Ok(spec)
    else if selector.None? || Blank(selector.value) then Err(UnauthorizedSelector)
    else Ok(spec.(run := Replace(spec.run, SELECTOR_TOKEN, selector.value)))
  }

  /** The command of a template is pieces with the token between them, and what runs is the same
      pieces with the selector between them; any other spec is left alone, and a template without
      a selector is refused. */
  lemma SelectorSpelled(spec: VerifierSpec, selector: Option<string>)
    ensures !IsSelectorTemplate(spec) ==> WithSelector(spec, selector) == Ok(spec)
    ensures IsSelectorTemplate(spec) ==> (WithSelector(spec, selector).Ok? <==> !Blank(selector.GetOr("")))
    ensures IsSelectorTemplate(spec) && WithSelector(spec, selector).Ok? ==>
              exists parts: seq<string> ::
                && |parts| >= 2 && (forall i :: 0 <= i < |parts| ==> !Contains(parts[i], SELECTOR_TOKEN))
                && spec.run == Spell(parts, SELECTOR_TOKEN)
                && WithSelector(spec, selector) == Ok(spec.(run := Spell(parts, selector.GetOr(""))))
  {
    SplitOnExact(spec.run, SELECTOR_TOKEN);
    if selector.Some? { ReplaceSpells(spec.run, SELECTOR_TOKEN, selector.value); }
    assert Blank("");
  }

  /** Two selectors of one template run different commands, and so never share a proof. */
  lemma SelectorsTellApart(verifierRef: string, spec: VerifierSpec, actor: string, a: string, b: string)
    requires IsSelectorTemplate(spec)
    requires WithSelector(spec, Some(a)).Ok? && WithSelector(spec, Some(b)).Ok?
    ensures var x, y := WithSelector(spec, Some(a)).value, WithSelector(spec, Some(b)).value;
      && (x.run == y.run <==> a == b)
      && (SpecFingerprint(verifierRef, x, actor) == SpecFingerprint(verifierRef, y, actor) <==> a == b)
  {
    SplitOnExact(spec.run, SELECTOR_TOKEN);
    ReplaceSpells(spec.run, SELECTOR_TOKEN, a);
    ReplaceSpells(spec.run, SELECTOR_TOKEN, b);
    SpellInjective(SplitOn(spec.run, SELECTOR_TOKEN), a, b);
  }

  const DEFAULT_TIMEOUT_SECS := 300

  function ShellSpec(run: string): VerifierSpec {
    VerifierSpec("shell", run, "", "", [], map[], DEFAULT_TIMEOUT_SECS, 0)
  }

  function ResolveCommand(verifierRef: string, inline: Option<string>, registry: Registry)
    : Result<VerifierSpec, RunError>
  {
    if verifierRef == "shell" then
      if inline.None? then Err(ShellWithoutCommand)
      else if registry == map[] then Ok(ShellSpec(inline.value))
      else if exists k :: k in registry && registry[k].kind == "shell" && registry[k].run == inline.value
      then Ok(ShellSpec(inline.value))
      else Err(UntrustedCommand)
    else if verifierRef !in registry then Err(UnknownVerifier(verifierRef))
    else if inline.Some? && (registry[verifierRef].kind != "shell" || inline.value != registry[verifierRef].run)
    then Err(OverrideRefused(verifierRef))
    else Ok(registry[verifierRef])
  }

  function SpecFingerprint(verifierRef: string, spec: VerifierSpec, actor: string): Fingerprint {
    OfSpec(verifierRef, spec.run, spec.expects, spec.expectsNot, spec.files, actor)
  }

  // ---------------------------------------------------------------- the two adapters

  /** Reading a workspace-relative path. */
  function ReadAt(d: Node, path: Path): Option<string>
    decreases |path|
  {
    if path == [] || d.File? then None
    else
      match Child(d.entries, path[0])
      case None => None
      case Some(e) => if |path| == 1 then (if e.File? then e.bytes else None) else ReadAt(e, path[1..])
  }

  function Child(es: seq<Node>, name: string): Option<Node> {
    if es == [] then None else if es[0].name == name then Some(es[0]) else Child(es[1..], name)
  }

  predicate PathMatches(spec: VerifierSpec, root: Node, rel: string)
    requires rel in spec.expectSha256
  {
    var bytes := ReadAt(root, Split(rel, '/'));
    bytes.Some? && OfText(bytes.value) == spec.expectSha256[rel]
  }

  predicate AllMatch(spec: VerifierSpec, root: Node) {
    forall rel :: rel in spec.expectSha256 ==> PathMatches(spec, root, rel)
  }

  function FileHashLine(spec: VerifierSpec, root: Node, rel: string): string
    requires rel in spec.expectSha256
  {
    rel + if ReadAt(root, Split(rel, '/')).None? then ": MISSING"
          else if PathMatches(spec, root, rel) then ": MATCH" else ": MISMATCH"
  }

  function FileHashOutput(spec: VerifierSpec, root: Node, rels: seq<string>): seq<string>
    requires forall i :: 0 <= i < |rels| ==> rels[i] in spec.expectSha256
  {
    seq(|rels|, i requires 0 <= i < |rels| => FileHashLine(spec, root, rels[i]))
  }

  function ExpectedPaths(spec: VerifierSpec): (rels: seq<string>)
    ensures forall i :: 0 <= i < |rels| ==> rels[i] in spec.expectSha256
  {
    ListingExact(spec.expectSha256.Keys);
    assert forall i :: 0 <= i < |Listing(spec.expectSha256.Keys)| ==>
      Listing(spec.expectSha256.Keys)[i] in Listing(spec.expectSha256.Keys);
    Listing(spec.expectSha256.Keys)
  }

  /** Every expected path, in key order: any mismatch or missing file fails the whole. */
  method FileHashRun(spec: VerifierSpec, root: Node) returns (ok: bool, lines: seq<string>)
    ensures ok <==> AllMatch(spec, root)
    ensures lines == FileHashOutput(spec, root, ExpectedPaths(spec))
  {
    ok, lines := true, [];
    var rels := ExpectedPaths(spec);
    for i := 0 to |rels|
      invariant ok <==> forall k :: 0 <= k < i ==> PathMatches(spec, root, rels[k])
      invariant |lines| == i && forall k :: 0 <= k < i ==> lines[k] == FileHashLine(spec, root, rels[k])
    {
      var rel := rels[i];
      var bytes := ReadAt(root, Split(rel, '/'));
      match bytes {
        case Some(b) =>
          var same := OfText(b) == spec.expectSha256[rel];
          ok := ok && same;
          lines := lines + [rel + if same then ": MATCH" else ": MISMATCH"];
        case None =>
          ok := false;
          lines := lines + [rel + ": MISSING"];
      }
    }
    ListingExact(spec.expectSha256.Keys);
    assert forall rel :: rel in spec.expectSha256 ==> rel in rels;
  }

  // ---------------------------------------------------------------- running a spec

  /** What a run observes before anything is bound to it. */
  datatype Observation = Observation(exitCode: int, output: string, after: Workspace)

  function Observe(shell: Shell, spec: VerifierSpec, ws: Workspace, platform: string, now: int)
    : Result<Observation, RunError>
  {
    if spec.kind == "shell" then
      match shell(spec.run, spec.timeout, ws, platform, now)
      case None => Err(CannotStart)
      case Some(x) => Ok(Observation(x.exitCode, x.output, x.after))
    else if spec.kind == "file-hash" then
      Ok(Observation(if AllMatch(spec, ws.root) then 0 else 1,
                     Join(FileHashOutput(spec, ws.root, ExpectedPaths(spec)), '\n'), ws))
    else Err(UnknownKind(spec.kind))
  }

  /** What is observed: a shell command is started as it is written, in the workspace as it is, and
      leaves what it leaves; a `file-hash` check starts nothing and changes nothing, and exits 0
      exactly when each expected file has its digest; there is no third kind. */
  lemma ObserveExact(shell: Shell, spec: VerifierSpec, ws: Workspace, platform: string, now: int)
    ensures Observe(shell, spec, ws, platform, now).Ok? <==>
              || (spec.kind == "shell" && shell(spec.run, spec.timeout, ws, platform, now).Some?)
              || spec.kind == "file-hash"
    ensures spec.kind == "shell" && Observe(shell, spec, ws, platform, now).Ok? ==>
              var x, o := shell(spec.run, spec.timeout, ws, platform, now).value,
                          Observe(shell, spec, ws, platform, now).value;
              o.exitCode == x.exitCode && o.output == x.output && o.after == x.after
    ensures spec.kind == "file-hash" ==>
              var o := Observe(shell, spec, ws, platform, now).value;
              && o.after == ws
              && (o.exitCode == 0 <==>
                  forall rel :: rel in spec.expectSha256 ==>
                    ReadAt(ws.root, Split(rel, '/')).Some?
                    && OfText(ReadAt(ws.root, Split(rel, '/')).value) == spec.expectSha256[rel])
    ensures Observe(shell, spec, ws, platform, now).Err? ==>
              Observe(shell, spec, ws, platform, now).error
                == if spec.kind == "shell" then CannotStart else UnknownKind(spec.kind)
  {
    hide Join, FileHashOutput, ReadAt, WellNamed, Listable;
  }

  /** Valid: exit code 0, the declared subject observed, the expectations on the output met. */
  predicate Passes(spec: VerifierSpec, o: Observation) {
    && o.exitCode == 0
    && (spec.files == [] || SubjectHash(spec.files, o.after.root).Some?)
    && (spec.expects == "" || Contains(o.output, spec.expects))
    && (spec.expectsNot == "" || !Contains(o.output, spec.expectsNot))
  }

  function ExpiryOf(spec: VerifierSpec, now: int): Option<int> {
    if spec.maxAgeHours > 0 then Some(now + spec.maxAgeHours * 3600) else None
  }

  function EvidenceOf(claimId: string, verifierRef: string, spec: VerifierSpec, o: Observation,
                      now: int, actor: string, executor: string): Evidence
  {
    Evidence(claimId, o.exitCode, o.after.commit, o.after.dirty,
             if Passes(spec, o) then Valid else Invalid,
             SubjectHash(spec.files, o.after.root).GetOr(Empty),
             FileHashes(spec.files, o.after.root),
             SpecFingerprint(verifierRef, spec, actor),
             Empty, Empty, "", actor, executor, Empty, ExpiryOf(spec, now))
  }

  method RunSpec(shell: Shell, claimId: string, verifierRef: string, spec: VerifierSpec, ws: Workspace,
                 platform: string, now: int, actor: string, executor: string)
    returns (r: Result<(Evidence, Workspace), RunError>)
    ensures match Observe(shell, spec, ws, platform, now)
            case Err(e) => r == Err(e)
            case Ok(o) => r == Ok((EvidenceOf(claimId, verifierRef, spec, o, now, actor, executor), o.after))
  {
    hide SubjectHash, FileHashes, WellNamed, Listable, AllMatch, FileHashOutput, Join, Contains, SpecFingerprint;
    var exitCode, output, after;
    if spec.kind == "shell" {
      var x := shell(spec.run, spec.timeout, ws, platform, now);
      if x.None? { return Err(CannotStart); }
      exitCode, output, after := x.value.exitCode, x.value.output, x.value.after;
    } else if spec.kind == "file-hash" {
      var ok, lines := FileHashRun(spec, ws.root);
      exitCode, output, after := if ok then 0 else 1, Join(lines, '\n'), ws;
    } else {
      return Err(UnknownKind(spec.kind));
    }
    var ev := Evidence(claimId, exitCode, after.commit, after.dirty, if exitCode == 0 then Valid else Invalid,
                       Empty, map[], SpecFingerprint(verifierRef, spec, actor),
                       Empty, Empty, "", actor, executor, Empty, None);
    var files := ArtifactHashes(spec.files, after.root);
    var subject := ArtifactHash(spec.files, after.root);
    SubjectHashNotEmpty(spec.files, after.root);
    ev := ev.(artifactFiles := files, artifactHash := subject.GetOr(Empty));
    if spec.maxAgeHours > 0 {
      ev := ev.(expiresAt := Some(now + spec.maxAgeHours * 3600));
    }
    if spec.files != [] && ev.artifactHash == Empty {
      ev := ev.(state := Invalid);
    }
    if spec.expects != "" && !Contains(output, spec.expects) {
      ev := ev.(state := Invalid);
    }
    if spec.expectsNot != "" && Contains(output, spec.expectsNot) {
      ev := ev.(state := Invalid);
    }
    return Ok((ev, after));
  }

  /** A proof is Valid exactly when the run exited 0, the subject was observed where files are
      declared, the expected text stands in the output and the forbidden text does not. */
  lemma ValidExact(claimId: string, verifierRef: string, spec: VerifierSpec, o: Observation,
                   now: int, actor: string, executor: string)
    ensures EvidenceOf(claimId, verifierRef, spec, o, now, actor, executor).state == Valid <==>
              && o.exitCode == 0
              && (spec.files == [] || SubjectHash(spec.files, o.after.root).Some?)
              && (spec.expects != "" ==> Occurs(o.output, spec.expects))
              && (spec.expectsNot != "" ==> !Occurs(o.output, spec.expectsNot))
  {
    ContainsExact(o.output, spec.expects);
    ContainsExact(o.output, spec.expectsNot);
  }

  /** The lines of a `file-hash` check name every expected path once, in key order, and say which
      of them hold: the check passes exactly when each line says so. */
  lemma FileHashLinesExact(spec: VerifierSpec, root: Node)
    ensures var rels, lines := ExpectedPaths(spec), FileHashOutput(spec, root, ExpectedPaths(spec));
      && |lines| == |rels| && Increasing(rels) && (forall rel :: rel in rels <==> rel in spec.expectSha256)
      && (forall i :: 0 <= i < |rels| ==>
            var bytes := ReadAt(root, Split(rels[i], '/'));
            && (lines[i] == rels[i] + ": MATCH" <==>
                bytes.Some? && OfText(bytes.value) == spec.expectSha256[rels[i]])
            && (lines[i] == rels[i] + ": MISSING" <==> bytes.None?))
      && (AllMatch(spec, root) <==> forall i :: 0 <= i < |rels| ==> lines[i] == rels[i] + ": MATCH")
  {
    var rels, lines := ExpectedPaths(spec), FileHashOutput(spec, root, ExpectedPaths(spec));
    ListingExact(spec.expectSha256.Keys);
    assert ": MATCH"[3] == 'A' && ": MISSING"[3] == 'I' && ": MISMATCH"[3] == 'I';
    assert ": MISSING"[5] == 'S' && ": MISMATCH"[5] == 'M';
    forall i | 0 <= i < |rels|
      ensures lines[i] == rels[i] + ": MATCH" <==> PathMatches(spec, root, rels[i])
      ensures lines[i] == rels[i] + ": MISSING" <==> ReadAt(root, Split(rels[i], '/')).None?
    {
      var rel := rels[i];
      assert lines[i][|rel| + 3] == if PathMatches(spec, root, rel) then 'A' else 'I';
    }
    forall rel | rel in spec.expectSha256
      ensures exists i :: 0 <= i < |rels| && rels[i] == rel
    {
      assert rel in rels;
    }
  }

  /** A Valid proof exited 0, and one that declares files has a subject digest. */
  lemma ValidMeans(claimId: string, verifierRef: string, spec: VerifierSpec, o: Observation,
                   now: int, actor: string, executor: string)
    ensures var ev := EvidenceOf(claimId, verifierRef, spec, o, now, actor, executor);
            ev.state == Valid ==> ev.exitCode == 0 && (spec.files != [] ==> ev.artifactHash != Empty)
  {
    SubjectHashNotEmpty(spec.files, o.after.root);
  }

  lemma SubjectHashNotEmpty(globs: seq<string>, root: Node)
    ensures SubjectHash(globs, root).Some? ==> SubjectHash(globs, root).value != Empty
    ensures globs == [] ==> SubjectHash(globs, root).None?
  {
  }
}
