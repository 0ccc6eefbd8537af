/** What an authorization lets run: the gate of a verification, the command behind it, the proof. */
module GateFacts {
  import opened Bindings
  import opened Digests
  import opened EvidenceStore
  import opened Ir
  import opened Lint
  import opened Prelude
  import opened Text
  import opened Verifier
  import opened VerifyRun
  import opened Watch

  // ---------------------------------------------------------------- the gate

  ghost predicate NeedsBinding(reg: Registry, v: VerificationIr) {
    v.requirement.Some? || TemplateRef(reg, v.verifierRef)
  }

  /** A binding for this verifier and requirement and, for a template, with a selector. */
  ghost predicate Authorizes(reg: Registry, b: Binding, v: VerificationIr) {
    && b.verifierRef == v.verifierRef && b.requirement == v.requirement.GetOr("")
    && (TemplateRef(reg, v.verifierRef) ==> !Blank(b.selector.GetOr("")))
  }

  /** The registered command with the selector in its holes. */
  ghost predicate Spelled(template: VerifierSpec, selector: string, spec: VerifierSpec) {
    exists parts: seq<string> ::
      && |parts| >= 2 && (forall i :: 0 <= i < |parts| ==> !Contains(parts[i], SELECTOR_TOKEN))
      && template.run == Spell(parts, SELECTOR_TOKEN) && spec == template.(run := Spell(parts, selector))
  }

  /** The gate opens exactly when no binding is needed or the one of the claim authorizes just this;
      behind it stands the registered spec, with the authorized selector if it is a template. */
  lemma GateExact(reg: Registry, bindings: Bound, v: VerificationIr)
    ensures Gate(reg, bindings, v).Ok? <==>
              (NeedsBinding(reg, v) ==> v.claimId in bindings && Authorizes(reg, bindings[v.claimId], v))
    ensures Gate(reg, bindings, v).Ok? ==>
              var n := Gate(reg, bindings, v).value;
              && n.v == v
              && n.bindingHash == (if NeedsBinding(reg, v) then Some(bindings[v.claimId].hash) else None)
              && (v.verifierRef !in reg ==> n.spec == None)
              && (v.verifierRef in reg && !TemplateRef(reg, v.verifierRef) ==> n.spec == Some(reg[v.verifierRef]))
              && (TemplateRef(reg, v.verifierRef) ==>
                    n.spec.Some? && Spelled(reg[v.verifierRef], bindings[v.claimId].selector.GetOr(""), n.spec.value))
    ensures Gate(reg, bindings, v).Err? ==>
              Gate(reg, bindings, v).error ==
                if v.claimId !in bindings then NoBinding(v.claimId)
                else if bindings[v.claimId].verifierRef == v.verifierRef
                     && bindings[v.claimId].requirement == v.requirement.GetOr("")
                then NoSelector(v.claimId) else Rebound(v.claimId)
  {
    hide WithSelector, IsSelectorTemplate;
    if v.verifierRef in reg {
      SelectorSpelled(reg[v.verifierRef], None);
      if v.claimId in bindings { SelectorSpelled(reg[v.verifierRef], bindings[v.claimId].selector); }
    }
  }

  /** The gate looks at no binding but that of the claim. */
  lemma GateLocal(reg: Registry, a: Bound, b: Bound, v: VerificationIr)
    requires v.claimId in a <==> v.claimId in b
    requires v.claimId in a ==> a[v.claimId] == b[v.claimId]
    ensures Gate(reg, a, v) == Gate(reg, b, v)
  {
  }

  /** Authorizing an entry opens the gate exactly to what the entry names, with its selector; the
      other claims notice nothing. */
  lemma AuthorizedPasses(reg: Registry, bound: Bound, claim: string, e: Entry, v: VerificationIr)
    requires NeedsBinding(reg, v)
    ensures v.claimId != claim ==> Gate(reg, bound[claim := Stamp(claim, e)], v) == Gate(reg, bound, v)
    ensures v.claimId == claim ==>
              (Gate(reg, bound[claim := Stamp(claim, e)], v).Ok? <==>
                 && e.verifierRef == v.verifierRef && e.requirement == v.requirement.GetOr("")
                 && (TemplateRef(reg, v.verifierRef) ==> !Blank(e.selector.GetOr(""))))
    ensures v.claimId == claim && TemplateRef(reg, v.verifierRef)
            && Gate(reg, bound[claim := Stamp(claim, e)], v).Ok? ==>
              var n := Gate(reg, bound[claim := Stamp(claim, e)], v).value;
              n.spec.Some? && Spelled(reg[v.verifierRef], e.selector.GetOr(""), n.spec.value)
  {
    hide Gate, Spelled;
    GateExact(reg, bound[claim := Stamp(claim, e)], v);
    if v.claimId != claim { GateLocal(reg, bound[claim := Stamp(claim, e)], bound, v); }
  }

  /** Authorizing a whole file is authorizing each of its entries, for its own claim. */
  lemma FileAuthorizes(reg: Registry, bound: Bound, incoming: map<string, Entry>, v: VerificationIr)
    ensures Gate(reg, Overlaid(bound, incoming, incoming.Keys), v) ==
              if v.claimId in incoming then Gate(reg, bound[v.claimId := Stamp(v.claimId, incoming[v.claimId])], v)
              else Gate(reg, bound, v)
  {
    hide Gate;
    if v.claimId in incoming {
      GateLocal(reg, Overlaid(bound, incoming, incoming.Keys),
                bound[v.claimId := Stamp(v.claimId, incoming[v.claimId])], v);
    } else {
      GateLocal(reg, Overlaid(bound, incoming, incoming.Keys), bound, v);
    }
  }

  /** The reviewed file decides for the claims it mentions, the legacy files for the rest. */
  lemma ReviewedDecides(reg: Registry, reviewed: Bound, legacy: Bound, v: VerificationIr)
    ensures Gate(reg, LoadAll(reviewed, legacy), v) ==
              Gate(reg, if v.claimId in reviewed then reviewed else legacy, v)
  {
    hide Gate;
    GateLocal(reg, LoadAll(reviewed, legacy), if v.claimId in reviewed then reviewed else legacy, v);
  }

  // ---------------------------------------------------------------- what is executed

  /** A command the registry stands behind: as registered, or with the authorized selector. */
  ghost predicate Backed(reg: Registry, bindings: Bound, claim: string, command: string) {
    exists k :: k in reg && reg[k].kind == "shell" &&
      (command == reg[k].run
       || (claim in bindings && Spelled(reg[k], bindings[claim].selector.GetOr(""), reg[k].(run := command))))
  }

  /** What a run executes for a verification: a name in the registry means its spec; any other
      name is `shell` with an inline command, run as it is written and expecting nothing. With a
      registry, no command runs that it does not stand behind. */
  lemma OnlyBackedRuns(reg: Registry, bindings: Bound, v: VerificationIr)
    requires Admitted(reg, bindings, v)
    ensures var n := Gate(reg, bindings, v).value;
            var spec := SpecOf(reg, n).value;
      && (v.verifierRef in reg ==> n.spec == Some(spec))
      && (v.verifierRef !in reg ==>
            && v.verifierRef == "shell" && v.inlineShell == Some(spec.run)
            && spec.kind == "shell" && spec.expects == spec.expectsNot == "" && spec.files == [])
      && (reg != map[] && spec.kind == "shell" ==> Backed(reg, bindings, v.claimId, spec.run))
  {
    GateExact(reg, bindings, v);
    hide Gate, Spelled;
    var n := Gate(reg, bindings, v).value;
    var spec := SpecOf(reg, n).value;
    if v.verifierRef in reg {
      if TemplateRef(reg, v.verifierRef) {
        SpelledAs(reg[v.verifierRef], bindings[v.claimId].selector.GetOr(""), spec);
      }
    } else if reg != map[] {
      var k :| k in reg && reg[k].kind == "shell" && reg[k].run == v.inlineShell.value;
      assert spec.run == reg[k].run;
    }
  }

  lemma SpelledAs(template: VerifierSpec, selector: string, spec: VerifierSpec)
    requires Spelled(template, selector, spec)
    ensures template.(run := spec.run) == spec
  {
  }

  /** Naming a command: which references resolve, and to what. */
  lemma ResolveExact(verifierRef: string, inline: Option<string>, reg: Registry)
    ensures ResolveCommand(verifierRef, inline, reg).Ok? <==>
              if verifierRef == "shell" then inline.Some? && (reg != map[] ==> Registered(reg, inline.value))
              else verifierRef in reg
                   && (inline.Some? ==> reg[verifierRef].kind == "shell" && reg[verifierRef].run == inline.value)
    ensures ResolveCommand(verifierRef, inline, reg).Ok? ==>
              var spec := ResolveCommand(verifierRef, inline, reg).value;
              && (inline.Some? ==> spec.kind == "shell" && spec.run == inline.value)
              && (verifierRef != "shell" ==> spec == reg[verifierRef])
  {
    if verifierRef == "shell" && inline.Some? && reg != map[] && Registered(reg, inline.value) {
      var k :| k in reg && reg[k].kind == "shell" && reg[k].run == inline.value;
      assert ResolveCommand(verifierRef, inline, reg).Ok?;
    }
  }

  // ---------------------------------------------------------------- what is proved

  /** The proof a run saves tells where and under what it was made. It is Stale exactly when the
      verifier moved the commit or the dirty flag; otherwise Valid exactly when the run exited 0 and
      met every expectation. */
  lemma ProofExact(shell: Shell, reg: Registry, w: World, ws: Workspace, n: Need)
    requires RunOne(shell, reg, w, ws, n).Ok?
    ensures var spec := SpecOf(reg, n).value;
            var o := Observe(shell, spec, ws, w.platform, w.now).value;
            var (ev, after) := RunOne(shell, reg, w, ws, n).value;
      && after == o.after && ev.exitCode == o.exitCode && ev.claimId == n.v.claimId
      && ev.commitSha == after.commit && ev.workspaceDirty == after.dirty
      && ev.artifactHash == SubjectHash(spec.files, after.root).GetOr(Empty)
      && ev.artifactFiles == FileHashes(spec.files, after.root)
      && ev.actor == w.actor && ev.executor == w.executor && ev.platform == w.platform
      && ev.registryHash == OfText(w.registryText) && ev.contractHash == OfText(w.contractText)
      && ev.bindingHash == n.bindingHash.GetOr(Empty)
      && (ev.state == Stale <==> after.commit != w.ws.commit || after.dirty != w.ws.dirty)
      && (ev.state == Valid <==>
            && after.commit == w.ws.commit && after.dirty == w.ws.dirty && o.exitCode == 0
            && (spec.files == [] || SubjectHash(spec.files, after.root).Some?)
            && (spec.expects != "" ==> Occurs(o.output, spec.expects))
            && (spec.expectsNot != "" ==> !Occurs(o.output, spec.expectsNot)))
  {
    hide Observe, SpecOf, Passes, SubjectHash, FileHashes, Occurs;
    var spec := SpecOf(reg, n).value;
    ValidExact(n.v.claimId, n.v.verifierRef, spec, Observe(shell, spec, ws, w.platform, w.now).value,
               w.now, w.actor, w.executor);
  }
}
