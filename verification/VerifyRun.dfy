/** `uni verify`: gate, cache probe, re-runs, decision, drift record, persistence. */
module VerifyRun {
  import opened Bindings
  import opened Decisions
  import opened Digests
  import opened EvidenceStore
  import opened Ir
  import opened Prelude
  import opened Text
  import opened Verifier
  import opened Watch

  /** The foreign parts: parsing the registry, loading a contract, starting a process. */
  datatype Tool = Tool(
    registryOf: string -> Registry,
    contractOf: string -> Option<Contract>,
    shell: Shell)

  /** Everything a run sees besides what it persisted before. */
  datatype World = World(
    ws: Workspace,
    registryText: string,
    contractText: string,
    bindings: Bound,
    policies: seq<Option<PolicyTable>>,
    platform: Platform,
    now: int,
    actor: string,
    executor: string)

  /** Every binding of this world was written by an act of binding. */
  ghost predicate Sane(w: World) {
    Stamped(w.bindings)
  }

  datatype Event =
    | IntentVerified(intent: string)
    | RegistryChanged
    | EvidenceReused(claim: string)
    | EvidenceStale(claim: string, reasons: seq<StaleReason>)
    | EvidenceRun(claim: string)
    | DecisionIssued(decision: Decision)

  type Drift = map<string, seq<StaleReason>>

  /** What `.uni` holds between runs. */
  datatype Disk = Disk(
    evidence: Store,
    drift: Drift,
    journal: seq<Event>,
    last: Option<DecisionResult>,
    registryHash: Digest,
    registrySnapshot: string)

  datatype Outcome = Aborted(error: RunError) | Decided(result: DecisionResult)

  // ---------------------------------------------------------------- the gate

  /** One verification past the gate: its binding and its resolved spec. */
  datatype Need = Need(v: VerificationIr, bindingHash: Option<Digest>, spec: Option<VerifierSpec>)

  function RequireBinding(bindings: Bound, v: VerificationIr, isTemplate: bool)
    : Result<(Option<Digest>, Option<string>), RunError>
  {
    if !isTemplate && v.requirement.None? then Ok((None, None))
    else if v.claimId !in bindings then Err(NoBinding(v.claimId))
    else
      var b := bindings[v.claimId];
      if b.verifierRef == v.verifierRef && b.requirement == v.requirement.GetOr("") then
        if isTemplate && Blank(b.selector.GetOr("")) then Err(NoSelector(v.claimId))
        else Ok((Some(b.hash), b.selector))
      else Err(Rebound(v.claimId))
  }

  predicate TemplateRef(reg: Registry, verifierRef: string) {
    verifierRef in reg && IsSelectorTemplate(reg[verifierRef])
  }

  function Gate(reg: Registry, bindings: Bound, v: VerificationIr): Result<Need, RunError> {
    match RequireBinding(bindings, v, TemplateRef(reg, v.verifierRef))
    case Err(e) => Err(e)
    case Ok(res) =>
      if v.verifierRef !in reg then Ok(Need(v, res.0, None))
      else
        match WithSelector(reg[v.verifierRef], res.1)
        case Err(e) => Err(e)
        case Ok(spec) => Ok(Need(v, res.0, Some(spec)))
  }

  function ContextOf(w: World, n: Need): Context {
    Context(
      (match n.spec
       case Some(spec) => SpecFingerprint(n.v.verifierRef, spec, w.actor)
       case None => Inline(n.v.verifierRef, w.actor)),
      w.ws.commit, w.ws.dirty,
      (match n.spec case Some(spec) => SubjectHash(spec.files, w.ws.root) case None => None),
      (match n.spec case Some(spec) => FileHashes(spec.files, w.ws.root) case None => map[]),
      OfText(w.registryText), OfText(w.contractText), w.platform, n.bindingHash)
  }

  // ---------------------------------------------------------------- probing the cache

  datatype Probe = Probe(
    stored: seq<Evidence>,
    needs: seq<Need>,
    staleIds: seq<string>,
    staleReasons: Drift,
    journal: seq<Event>)

  const NOTHING := Probe([], [], [], map[], [])

  function ProbeOne(w: World, store: Store, p: Probe, n: Need): Probe {
    var claim := n.v.claimId;
    match Lookup(store, claim, ContextOf(w, n), w.now)
    case Hit(ev) =>
      p.(stored := p.stored + [ev.(executor := w.executor)], journal := p.journal + [EvidenceReused(claim)])
    case StaleProof(reasons) =>
      p.(needs := p.needs + [n], staleIds := p.staleIds + [claim],
         staleReasons := p.staleReasons[claim := reasons],
         journal := p.journal + [EvidenceStale(claim, reasons)])
    case Miss =>
      p.(needs := p.needs + [n])
  }

  function ProbeAll(reg: Registry, w: World, store: Store, vs: seq<VerificationIr>): Result<Probe, RunError> {
    if vs == [] then Ok(NOTHING) else
    match ProbeAll(reg, w, store, vs[..|vs| - 1])
    case Err(e) => Err(e)
    case Ok(p) =>
      match Gate(reg, w.bindings, vs[|vs| - 1])
      case Err(e) => Err(e)
      case Ok(n) => Ok(ProbeOne(w, store, p, n))
  }

  // ---------------------------------------------------------------- running what is missing

  function SpecOf(reg: Registry, n: Need): Result<VerifierSpec, RunError> {
    match n.spec
    case Some(spec) => Ok(spec)
    case None => ResolveCommand(n.v.verifierRef, n.v.inlineShell, reg)
  }

  /** The dimensions of the context written onto new evidence; a verifier that moved the
      workspace leaves its own proof stale. */
  function Bind(w: World, n: Need, ev: Evidence): Evidence {
    ev.(registryHash := OfText(w.registryText), contractHash := OfText(w.contractText),
        platform := w.platform, bindingHash := n.bindingHash.GetOr(Empty),
        state := if IsStale(ev, w.ws.commit, w.ws.dirty) then Stale else ev.state)
  }

  function RunOne(shell: Shell, reg: Registry, w: World, ws: Workspace, n: Need)
    : Result<(Evidence, Workspace), RunError>
  {
    match SpecOf(reg, n)
    case Err(e) => Err(e)
    case Ok(spec) =>
      match Observe(shell, spec, ws, w.platform, w.now)
      case Err(e) => Err(e)
      case Ok(o) =>
        Ok((Bind(w, n, EvidenceOf(n.v.claimId, n.v.verifierRef, spec, o, w.now, w.actor, w.executor)), o.after))
  }

  /** The verifiers in order, each in the workspace the one before it left. */
  function RunAll(shell: Shell, reg: Registry, w: World, needs: seq<Need>)
    : Result<(seq<Evidence>, Workspace), RunError>
  {
    if needs == [] then Ok(([], w.ws)) else
    match RunAll(shell, reg, w, needs[..|needs| - 1])
    case Err(e) => Err(e)
    case Ok(sofar) =>
      match RunOne(shell, reg, w, sofar.1, needs[|needs| - 1])
      case Err(e) => Err(e)
      case Ok(one) => Ok((sofar.0 + [one.0], one.1))
  }

  // ---------------------------------------------------------------- what is kept

  function ValidClaims(claims: seq<ClaimResult>): set<string> {
    if claims == [] then {} else
      ValidClaims(claims[..|claims| - 1])
      + if claims[|claims| - 1].state == Valid then {claims[|claims| - 1].claimId} else {}
  }

  /** A claim that went stale keeps its reasons until it is proved again. */
  function DriftAfter(drift: Drift, stale: Drift, valid: set<string>): Drift {
    (drift + stale) - valid
  }

  function Saved(store: Store, made: seq<Evidence>): Store {
    if made == [] then store else
      var ev := made[|made| - 1];
      Saved(store, made[..|made| - 1])[(ev.claimId, ev.fingerprint) := ev]
  }

  function Ran(needs: seq<Need>): seq<Event> {
    if needs == [] then [] else Ran(needs[..|needs| - 1]) + [EvidenceRun(needs[|needs| - 1].v.claimId)]
  }

  function Opening(w: World, c: Contract, d: Disk): seq<Event> {
    [IntentVerified(c.intent)]
    + if d.registryHash != Empty && d.registryHash != OfText(w.registryText) then [RegistryChanged] else []
  }

  function Report(w: World, c: Contract, d: Disk, p: Probe, r: DecisionResult): seq<Event> {
    Opening(w, c, d) + p.journal + Ran(p.needs) + [DecisionIssued(r.decision)]
  }

  /** What a run that reached its decision leaves behind. */
  function Persisted(w: World, c: Contract, d: Disk, p: Probe, made: seq<Evidence>, r: DecisionResult): Disk {
    Disk(Saved(d.evidence, made),
         DriftAfter(d.drift, p.staleReasons, ValidClaims(r.claims)),
         d.journal + Report(w, c, d, p, r),
         Some(r),
         OfText(w.registryText),
         w.registryText)
  }

  /** One whole run. A run that aborts leaves everything as it was. */
  function Verify(tool: Tool, w: World, d: Disk): (Outcome, Disk) {
    match tool.contractOf(w.contractText)
    case None => (Aborted(NoContract), d)
    case Some(c) =>
      var reg := tool.registryOf(w.registryText);
      match ProbeAll(reg, w, d.evidence, c.verification)
      case Err(e) => (Aborted(e), d)
      case Ok(p) =>
        match RunAll(tool.shell, reg, w, p.needs)
        case Err(e) => (Aborted(e), d)
        case Ok(ran) =>
          var r := Final(c.claims, p.stored + ran.0, Merged(w.policies), p.staleIds);
          (Decided(r), Persisted(w, c, d, p, ran.0, r))
  }

  // ---------------------------------------------------------------- the command

  class DotUni {
    var evidence: Store
    var drift: Drift
    var journal: seq<Event>
    var last: Option<DecisionResult>
    var registryHash: Digest
    var registrySnapshot: string

    constructor ()
      ensures View() == Disk(map[], map[], [], None, Empty, "")
    {
      evidence, drift, journal, last, registryHash, registrySnapshot := map[], map[], [], None, Empty, "";
    }

    function View(): Disk
      reads this
    {
      Disk(evidence, drift, journal, last, registryHash, registrySnapshot)
    }

    method CmdVerify(tool: Tool, w: World) returns (outcome: Outcome)
      modifies this
      ensures (outcome, View()) == Verify(tool, w, old(View()))
    {
      var contract := tool.contractOf(w.contractText);
      if contract.None? { return Aborted(NoContract); }
      var c := contract.value;
      var reg := tool.registryOf(w.registryText);
      var events := [IntentVerified(c.intent)];
      if registryHash != Empty && registryHash != OfText(w.registryText) {
        events := events + [RegistryChanged];
      }
      assert events == Opening(w, c, View());
      var probed := ProbeCache(reg, w, c.verification);
      if probed.Err? { return Aborted(probed.error); }
      var p := probed.value;
      var ran := RunNeeded(tool.shell, reg, w, p.needs);
      if ran.Err? { return Aborted(ran.error); }
      var (made, runs) := ran.value;
      var policy := LoadPolicies(w.policies);
      var result := Decide(c.claims, p.stored + made, policy, p.staleIds);
      RecordDrift(p.staleReasons, result);
      Persist(made, events + p.journal + runs + [DecisionIssued(result.decision)], result, w.registryText);
      return Decided(result);
    }

    /** 1) Try persisted evidence first. */
    method ProbeCache(reg: Registry, w: World, vs: seq<VerificationIr>) returns (r: Result<Probe, RunError>)
      ensures r == ProbeAll(reg, w, evidence, vs)
    {
      var p := NOTHING;
      for i := 0 to |vs|
        invariant ProbeAll(reg, w, evidence, vs[..i]) == Ok(p)
      {
        var v := vs[i];
        assert vs[..i + 1][..i] == vs[..i] && vs[..i + 1][i] == v;
        var isTemplate := v.verifierRef in reg && IsSelectorTemplate(reg[v.verifierRef]);
        var resolution := RequireBinding(w.bindings, v, isTemplate);
        if resolution.Err? {
          ProbeStops(reg, w, evidence, vs, i + 1);
          return Err(resolution.error);
        }
        var spec: Option<VerifierSpec> := None;
        if v.verifierRef in reg {
          var resolved := WithSelector(reg[v.verifierRef], resolution.value.1);
          if resolved.Err? {
            ProbeStops(reg, w, evidence, vs, i + 1);
            return Err(resolved.error);
          }
          spec := Some(resolved.value);
        }
        var n := Need(v, resolution.value.0, spec);
        p := Consult(w, p, n);
      }
      assert vs[..|vs|] == vs;
      return Ok(p);
    }

    /** One verification against the cache. */
    method Consult(w: World, p: Probe, n: Need) returns (q: Probe)
      ensures q == ProbeOne(w, evidence, p, n)
    {
      var stored, needs, staleIds, staleReasons, events := p.stored, p.needs, p.staleIds, p.staleReasons, p.journal;
      var claim := n.v.claimId;
      var outcome := LoadValidForClaim(evidence, claim, ContextOf(w, n), w.now);
      match outcome {
        case Hit(ev) =>
          events := events + [EvidenceReused(claim)];
          stored := stored + [ev.(executor := w.executor)];
        case StaleProof(reasons) =>
          staleReasons := staleReasons[claim := reasons];
          events := events + [EvidenceStale(claim, reasons)];
          staleIds := staleIds + [claim];
          needs := needs + [n];
        case Miss =>
          needs := needs + [n];
      }
      return Probe(stored, needs, staleIds, staleReasons, events);
    }

    /** 2) Re-run only what is missing, stale or invalid. */
    method RunNeeded(shell: Shell, reg: Registry, w: World, needs: seq<Need>)
      returns (r: Result<(seq<Evidence>, seq<Event>), RunError>)
      ensures match RunAll(shell, reg, w, needs)
              case Err(e) => r == Err(e)
              case Ok(ran) => r == Ok((ran.0, Ran(needs)))
    {
      var made: seq<Evidence>, events: seq<Event>, ws := [], [], w.ws;
      for i := 0 to |needs|
        invariant RunAll(shell, reg, w, needs[..i]) == Ok((made, ws))
        invariant events == Ran(needs[..i])
      {
        var n := needs[i];
        assert needs[..i + 1][..i] == needs[..i] && needs[..i + 1][i] == n;
        var ran := RunNeed(shell, reg, w, ws, n);
        if ran.Err? {
          RunStops(shell, reg, w, needs, i + 1);
          return Err(ran.error);
        }
        events := events + [EvidenceRun(n.v.claimId)];
        made, ws := made + [ran.value.0], ran.value.1;
      }
      assert needs[..|needs|] == needs;
      return Ok((made, events));
    }

    method RunNeed(shell: Shell, reg: Registry, w: World, ws: Workspace, n: Need)
      returns (r: Result<(Evidence, Workspace), RunError>)
      ensures r == RunOne(shell, reg, w, ws, n)
    {
      var spec := SpecOf(reg, n);
      if spec.Err? { return Err(spec.error); }
      var ran := RunSpec(shell, n.v.claimId, n.v.verifierRef, spec.value, ws, w.platform, w.now, w.actor, w.executor);
      if ran.Err? { return Err(ran.error); }
      var ev := ran.value.0;
      ev := ev.(registryHash := OfText(w.registryText), contractHash := OfText(w.contractText),
                platform := w.platform, bindingHash := n.bindingHash.GetOr(Empty));
      if IsStale(ev, w.ws.commit, w.ws.dirty) { ev := ev.(state := Stale); }
      return Ok((ev, ran.value.1));
    }

    method Decide(claims: seq<ClaimIr>, stored: seq<Evidence>, policy: Policy, staleIds: seq<string>)
      returns (result: DecisionResult)
      ensures result == Final(claims, stored, policy, staleIds)
    {
      result := EvaluateIntent(claims, stored);
      result := ApplyPolicy(result, policy);
      if policy.escalateOnStale && result.decision != Accepted {
        if exists id :: id in staleIds && !(exists c :: c in result.claims && c.claimId == id && c.state == Valid) {
          result := result.(decision := Escalated);
        }
      }
    }

    /** The durable drift record. */
    method RecordDrift(staleReasons: Drift, result: DecisionResult)
      modifies `drift
      ensures drift == DriftAfter(old(drift), staleReasons, ValidClaims(result.claims))
    {
      drift := drift + staleReasons;
      ghost var all := drift;
      assert all - {} == all;
      for i := 0 to |result.claims|
        invariant drift == all - ValidClaims(result.claims[..i])
      {
        assert result.claims[..i + 1][..i] == result.claims[..i];
        if result.claims[i].state == Valid {
          drift := drift - {result.claims[i].claimId};
        }
        assert all - ValidClaims(result.claims[..i + 1]) == drift;
      }
      assert result.claims[..|result.claims|] == result.claims;
    }

    /** 3) The persist phase. */
    method Persist(made: seq<Evidence>, events: seq<Event>, result: DecisionResult, registryText: string)
      modifies `evidence, `journal, `last, `registryHash, `registrySnapshot
      ensures evidence == Saved(old(evidence), made)
      ensures journal == old(journal) + events
      ensures last == Some(result) && registryHash == OfText(registryText) && registrySnapshot == registryText
    {
      for i := 0 to |made|
        invariant evidence == Saved(old(evidence), made[..i]) && journal == old(journal)
      {
        assert made[..i + 1][..i] == made[..i];
        evidence := evidence[(made[i].claimId, made[i].fingerprint) := made[i]];
      }
      assert made[..|made|] == made;
      journal := journal + events;
      last := Some(result);
      registryHash := OfText(registryText);
      registrySnapshot := registryText;
    }
  }

  lemma {:induction false} ProbeStops(reg: Registry, w: World, store: Store, vs: seq<VerificationIr>, n: nat)
    requires n <= |vs| && ProbeAll(reg, w, store, vs[..n]).Err?
    ensures ProbeAll(reg, w, store, vs) == ProbeAll(reg, w, store, vs[..n])
    decreases |vs|
  {
    if n == |vs| {
      assert vs[..n] == vs;
    } else {
      assert vs[..|vs| - 1][..n] == vs[..n];
      ProbeStops(reg, w, store, vs[..|vs| - 1], n);
    }
  }

  lemma {:induction false} RunStops(shell: Shell, reg: Registry, w: World, needs: seq<Need>, n: nat)
    requires n <= |needs| && RunAll(shell, reg, w, needs[..n]).Err?
    ensures RunAll(shell, reg, w, needs) == RunAll(shell, reg, w, needs[..n])
    decreases |needs|
  {
    if n == |needs| {
      assert needs[..n] == needs;
    } else {
      assert needs[..|needs| - 1][..n] == needs[..n];
      RunStops(shell, reg, w, needs[..|needs| - 1], n);
    }
  }
}
