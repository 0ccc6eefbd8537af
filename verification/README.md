# Verified model of uni

uni turns "is this change done?" into a decision over evidence: a contract names claims, verifiers
prove them, proofs are cached with the context they were gathered in, and a truth table with a policy
above it decides. This project models that machinery in Dafny and proves what it promises, together
with two ledger programs from its study of coding agents.

| part | files |
|---|---|
| the verification run: gate, cache, re-runs, decision, drift record | `VerifyRun`, `RunFacts`, `GateFacts`, `EvidenceStore`, `Verifier`, `Bindings`, `Decisions` |
| reuse against re-running, over whole histories | `Reuse`, `ReuseLimits`, `FileHashCover`, `DriftRecord`, `DriftRace` |
| the watched subject: globs, traversal, named drift | `Glob`, `Watch`, `SubjectDrift` |
| the `.uni` parser, the compiler, and the importer that prints for them | `Parser`, `ParserFacts`, `ParserLines`, `ParserForms`, `ParserInsert`, `IrCompile`, `SpecKit`, `RoundTrip` |
| the two ledgers | `OwnerLedger`, `Settlement` |
| evidence bundles | `Bundle`, `BundleFacts`, `BundleExport`, `BundleRoundTrip`, `BundleReport` |
| the rotating journal | `Journal`, `JournalFacts`, `JournalOrder` |
| lint against the gate | `Lint`, `LintFacts` |
| the persist phase of concurrent processes | `Persist` |
| shared vocabulary | `Prelude`, `Ordered`, `Text`, `Digests`, `Ir` |

Loops and in-place updates are methods and classes, each proved equal to a specification function;
the properties are lemmas about those functions. `dafny verify dfyconfig.toml` checks everything.

## Reading the model

- sha256 is symbolic: a digest is its preimage, so different inputs have different digests. Fingerprints
  and binding hashes are the tuples they join. Bundles take their hash functions as parameters, and only
  `BundleFacts.EditIsSeen` asks for injectivity.
- A world is what one run sees: workspace (commit, dirty flag, file tree with unique names and listable
  directories), registry text, contract text, bindings, policy tables, platform, clock, actor. Histories are
  arbitrary sequences of worlds, so edits, commits, rebinds, registry changes and elapsed time are all just the
  next world.
- Parsing the registry, loading a contract and starting a process are parameters (`Tool`). A process is a
  function of command, timeout, workspace, platform and time; it may change the workspace.
- Integers that the ledgers keep in an i64 are checked at every addition and subtraction; an overflow ends
  the run (`Overflow`), as a build with overflow checks does.
- The journal model measures a line by its characters, which stand for bytes.
- In `Persist` every file operation of every process is one step, and any step of any process may come next.

## Where the code and its promises part

- A proof saved as Stale is later returned as a hit, because only Invalid is turned into a miss. It happens
  exactly with commands that move the commit or the dirty flag: `ReuseLimits.StaleHandedBackExact`.
- The cache is exact only for verifiers whose results it can tell apart: `ReuseLimits.ReuseExactIffRepeats`, and
  for those that leave the workspace alone `ReuseLimits.ReuseExactIffCovered`. For a `file-hash` check that can pass
  this means that all its expected files are watched: `FileHashCover.FileHashReuseExact`.
- A binding written by hand without its hash is admitted by the gate, and a proof made under it does not notice
  a rebinding: `Reuse.RebindUnseenExact`.
- `artifact_hash` enters `evidence` directories and depends on enumeration order, `artifact_hashes` does
  neither, so a subject can change with no file named. The directory matters exactly for patterns that reach
  below one (`SubjectDrift.AlwaysNamedExact`), the order always (`SubjectDrift.DigestsExact`).
- `stale.json` is read, edited and written outside the lock: concurrent edits are lost unless each process reads
  after the write before its own: `DriftRace.NothingLostIffSequential`.
- A claim whose id is the word OPTIONAL is read as optional, since the modifier is looked for among all
  words of the line: the last condition of `RoundTrip.ReadsBackIffWellFormed`.
- An invariant whose id is the word CRITICAL is critical for the same reason: `ParserFacts.ClaimFlags`.
- An inline command that begins or ends with a quote loses it, and another command runs: `ParserForms.ShellForm`.
- `reject_on_invalid = false` leaves a rejection standing when no claim is shown Invalid, which happens to a
  critical claim whose first proof is Stale and a later one Invalid: `Decisions.PolicyExact`.
- A verified ratio below the minimum is documented to reject regardless; an unrenewed stale claim turns that
  rejection into an escalation: `Decisions.RatioYieldsToStale`, `ReuseLimits.BelowMinimumEscalates`.
- A rotation whose archive does not sort after all present breaks the journal: two rotations in one second lose
  a segment (`JournalOrder.SameSecondRun`), a clock set back loses the order (`JournalOrder.ClockSetBack`); the
  exact condition is `JournalOrder.RotationExact`, over whole runs `JournalOrder.RunSuffixExact`.
- Lint is silent about unknown verifiers while the registry is empty, and about inline commands that no
  run would trust: `Lint.FaultyExact`, `LintFacts.EmptyRegistryOverlooked`.
- The kind of a bundle record is outside its hash, and the number of records outside that of the header: which
  relabellings go unseen, and which drops, `BundleFacts.RelabelExact`, `BundleFacts.DropExact`.
- A write that fails between the registry hash and its snapshot leaves them apart until a later process
  completes, and a fresh `.uni` holds neither: `Persist.BaselineExact`.

## Model

| member | source | states |
|---|---|---|
| Reuse.ReuseRefinesRerun | crates/uni-cli/src/cmd/verify.rs:297-488 | after any history of worlds and runs from an empty store, a run ends like the same run with an empty cache: same error, Accepted exactly when it is, and the same decision and claims unless `escalate_on_stale` is on; for verifiers that leave the workspace alone and whose verdict is fixed by what the cache compares |
| Reuse.HitExact | crates/uni-evidence/src/lib.rs:431-520 | over stores reached under bindings that all have a hash, and one VERIFY per claim, a Valid hit is exactly a stored Valid proof that agrees with the current context on commit, dirty flag, watched content, registry, contract, platform and binding and is unexpired, including the dimensions the loader skips when the stored hash is empty |
| Reuse.HitExactAnyhow | crates/uni-evidence/src/lib.rs:431-520 | whatever the bindings: a Valid hit is exactly a stored Valid proof that agrees in every dimension but the binding, and whose binding hash, if it carries one, is the current one |
| Reuse.RebindUnseenExact | crates/uni-evidence/src/lib.rs:499-505 | all else agreeing, a rebinding to another hash leaves a proof current exactly when the binding it was made under had no hash |
| Reuse.HistoryReachable | crates/uni-cli/src/cmd/verify.rs:430-463 | every store any history leaves satisfies the store invariant: each proof was made by a run of its verifier, under the key of its own fingerprint, and under hashed or stamped bindings where those of the history were |
| Reuse.CurrentExact | crates/uni-evidence/src/lib.rs:443-519 | for a Valid proof the comparisons skipped on an empty stored field lose nothing but the binding |
| Reuse.CurrentAgrees | crates/uni-evidence/src/lib.rs:443-519 | nor the binding, when it had a hash |
| Reuse.HitWouldPass | crates/uni-cli/src/cmd/verify.rs:347-361 | what a hit stands for: a covered verifier run now would give a Valid proof with exit code 0 |
| Reuse.HitHasPassingRun | crates/uni-cli/src/cmd/verify.rs:336-361 | behind every hit stands a run that passed, in a world with the same registry, contract, platform, actor, commit, dirty flag, watched content and binding, and not longer ago than the verifier allows |
| Reuse.ProbeAgrees | crates/uni-cli/src/cmd/verify.rs:297-404 | the probed run and the run of everything end in the same error or hold proofs of the same claims with the same states |
| ReuseLimits.ReuseExactIffRepeats | crates/uni-evidence/src/lib.rs:431-520 | in a repository of one claim, for any verifier, also one that moves the workspace: reuse is exact over all histories if and only if every Valid or Stale result is left again by a run in any workspace that looks like the one left behind, inside the window |
| ReuseLimits.ReuseExactIffCovered | crates/uni-evidence/src/lib.rs:431-520 | in a repository of one claim, for a verifier that leaves the workspace alone, or is no command: reuse is exact over all histories if and only if commit, dirty flag, watched content, platform and age fix its verdict |
| ReuseLimits.UncoveredIsReused | crates/uni-evidence/src/lib.rs:431-520 | a verifier that is not covered has a history after which a run is Accepted and the re-run is not |
| ReuseLimits.StaleHandedBackExact | crates/uni-evidence/src/lib.rs:516-519 | in a repository of one claim, some history leaves a Stale proof that a later run takes for a hit if and only if the verifier is a command that somewhere leaves another commit or dirty flag, whatever its exit code |
| ReuseLimits.StaleSavedIsReused | crates/uni-cli/src/cmd/verify.rs:460-463 | a run that falls short of evidence on such a hit where a re-run accepts |
| ReuseLimits.BelowMinimumEscalates | crates/uni-cli/src/cmd/verify.rs:469-488 | a run whose verified ratio is below the minimum and which ends Escalated, not Rejected |
| FileHashCover.UnwatchedFileHash | crates/uni-verify/src/lib.rs:491-531 | a `file-hash` check that passes anywhere, over an expected file that no declared pattern matches or that lies below a skipped directory, is not covered, whatever the patterns and expectations: rewriting that file goes unnoticed |
| FileHashCover.FileHashExact | crates/uni-verify/src/lib.rs:491-531 | a `file-hash` check is covered if and only if every expected file is watched, matched by a declared pattern and below no skipped directory, or the check can never pass |
| FileHashCover.FileHashReuseExact | crates/uni-verify/src/lib.rs:491-531 | so reuse of such a check is exact over all histories under the very same condition, whatever other commands do |
| FileHashCover.WatchedChecksAreCovered | crates/uni-cli/src/cmd/verify.rs:297-404 | a contract whose registered verifiers are all `file-hash` checks over watched files meets the hypothesis of `Reuse.ReuseRefinesRerun` |
| FileHashCover.UnwatchedUnseen | crates/uni-verify/src/lib.rs:248-309 | rewriting a file that is not watched leaves the subject hash as it was, in any tree |
| FileHashCover.UnlistableUnseen | crates/uni-verify/src/lib.rs:223-244 | a file below a directory that cannot be listed is read by a `file-hash` check and met by no traversal |
| DriftRecord.DriftIsTemporal | crates/uni-cli/src/cmd/verify.rs:496-511 | a claim is on record exactly when some run found it stale and no run from that one on proved it; the reasons are those of its latest stale run |
| DriftRecord.DiskDrift | crates/uni-cli/src/cmd/verify.rs:496-511 | the file on disk after any history is that record of the runs that saved |
| DriftRecord.HistoryDrift | crates/uni-cli/src/cmd/verify.rs:496-511 | both facts together, for whole histories of worlds |
| RunFacts.ValidClaimsExact | crates/uni-cli/src/cmd/verify.rs:505-508 | the claims a run takes off the record are those it shows Valid |
| DriftRace.ChainSurvives | crates/uni-cli/src/cmd/verify.rs:496-511 | in every interleaving of processes that read, edit and write `stale.json` outside the lock, the file is the record of one chain of writes, each over the result of the one before; a claim is on record exactly when some write of the chain found it stale and none of the chain since proved it |
| DriftRace.NothingLostIffSequential | crates/uni-cli/src/cmd/verify.rs:496-511 | no write is lost if and only if each process read the file after the write before its own |
| DriftRace.LostUpdate | crates/uni-cli/src/cmd/verify.rs:496-511 | two processes that read before either writes: the edits of the first are gone |
| VerifyRun.DotUni.CmdVerify | crates/uni-cli/src/cmd/verify.rs:149-567 | the whole command, in place: outcome and new `.uni` state are those of `Verify`; an aborted run changes nothing |
| VerifyRun.DotUni.ProbeCache | crates/uni-cli/src/cmd/verify.rs:297-404 | the first loop: gate, selector, context, and Hit, Stale or Miss for each verification, or the first error |
| VerifyRun.DotUni.RunNeeded | crates/uni-cli/src/cmd/verify.rs:430-464 | the second loop: one fresh proof and one journal event per verification that needs it, or the first error |
| VerifyRun.DotUni.RecordDrift | crates/uni-cli/src/cmd/verify.rs:496-511 | stale claims are added with their reasons, proved ones removed, all others stay |
| VerifyRun.DotUni.Persist | crates/uni-cli/src/cmd/verify.rs:553-567 | each proof under its key, the journal extended by this run and nothing else, last decision and registry baseline replaced |
| RunFacts.ProbeExact | crates/uni-cli/src/cmd/verify.rs:346-404 | every verification hits or is needed; the proofs kept are exactly the hits under the current executor, the needs exactly the rest, the stale claims exactly those whose proof drifted, with their reasons |
| RunFacts.DriftNamedInRun | crates/uni-cli/src/cmd/verify.rs:327-364 | the paths a run reports for a drifted subject are exactly those whose files differ between the workspace the proof was made in and the one now, by the same spec |
| RunFacts.ProbeFails | crates/uni-cli/src/cmd/verify.rs:297-322 | a probe that stops gives the error of the first verification the gate refuses |
| RunFacts.RunAllExact | crates/uni-cli/src/cmd/verify.rs:432-464 | the re-runs end with given proofs and workspace exactly when a chain of single runs leads there, each in the workspace the one before it left |
| RunFacts.RunAllFails | crates/uni-cli/src/cmd/verify.rs:432-452 | re-runs that stop give the error of the first verifier that fails, in the workspace it met |
| RunFacts.JournalTells | crates/uni-cli/src/cmd/verify.rs:240-549 | the lines a run appends: the intent first, the decision last, a registry change exactly when the baseline differs, a reuse or a staleness exactly for the verifications that hit or drifted, a run exactly for those that needed one |
| RunFacts.LastRunLeaves | crates/uni-cli/src/cmd/verify.rs:553-567 | over any history: registry baseline and last decision are those of the last run that decided, or untouched when none did |
| RunFacts.RegistryChangeTold | crates/uni-cli/src/cmd/verify.rs:281-296 | over any history: a run reports a registry change exactly when the last run that decided saw another registry text |
| EvidenceStore.LoadValidForClaim | crates/uni-evidence/src/lib.rs:431-520 | the loader with its loops over dimensions and files computes `Lookup`: Miss, Hit, or Stale with the reasons in order |
| EvidenceStore.NameDrift | crates/uni-evidence/src/lib.rs:456-480 | the three lists of the per-file diff are the sorted listings of changed, added and removed paths |
| EvidenceStore.NamedDriftExact | crates/uni-evidence/src/lib.rs:456-480 | the lists are sorted, hold exactly the changed, added and removed paths, and are all empty only when nothing differs |
| EvidenceStore.NoReasonsIffCurrent | crates/uni-evidence/src/lib.rs:443-519 | no reason is given exactly when the proof is current in each dimension the loader compares |
| EvidenceStore.ReasonsExact | crates/uni-evidence/src/lib.rs:443-515 | the reasons of a stale proof are exactly those that hold, each once and in the order of the loader, and each tells what was from what is |
| EvidenceStore.LookupExact | crates/uni-evidence/src/lib.rs:431-520 | a hit hands back the stored proof itself, current and not Invalid; Stale is answered exactly for a stored proof that has drifted, Invalid or not; no file, no hit |
| SubjectDrift.DriftIsNamed | crates/uni-evidence/src/lib.rs:456-480 | for trees with no watched file below an `evidence` directory, readable matches and one enumeration order: SubjectChanged is reported exactly when a watched file differs, and its lists are sorted, disjoint, not all empty, and together exactly the paths whose content differs |
| SubjectDrift.DigestsExact | crates/uni-verify/src/lib.rs:248-309 | with no watched file below an `evidence` directory, the subject hash stands still exactly when every per-file hash does and the watched paths are met in the same order; whatever the order and whatever is readable |
| SubjectDrift.AlwaysNamedExact | crates/uni-verify/src/lib.rs:221-275 | the two hashes agree over all well-named, readable trees of one enumeration order if and only if no declared pattern matches a path below an `evidence` directory that the subject hash enters |
| SubjectDrift.DigestsAgree | crates/uni-verify/src/lib.rs:248-309 | with readable files and one order, two trees have the same subject hash exactly when they have the same per-file hashes |
| SubjectDrift.SkipsAgree | crates/uni-verify/src/lib.rs:221-275 | the two traversals meet the same files but for those below an `evidence` directory |
| SubjectDrift.SkippedNames | crates/uni-verify/src/lib.rs:221-275 | the traversals meet every file but those below `target`, `.git` and `.uni`, and the per-file one none below `evidence` |
| SubjectDrift.EvidenceDirUnnamed | crates/uni-verify/src/lib.rs:275-275 | wherever a pattern reaches such a path, content there moves the subject hash and is named nowhere |
| SubjectDrift.ReorderedUnnamed | crates/uni-verify/src/lib.rs:275-308 | an instance of the order condition: two files met in another order move the subject hash and are named nowhere |
| Bindings.BindingFile.Authorize | crates/uni-evidence/src/binding.rs:149-172 | one claim is bound, stamped with the hash of what it authorizes; all others stay |
| Bindings.BindingFile.AuthorizeFromFile | crates/uni-evidence/src/binding.rs:178-211 | every entry of the reviewed file is stamped over what was there; an empty file is refused and changes nothing |
| Bindings.OverlaidStamped | crates/uni-evidence/src/binding.rs:178-211 | a bulk authorization leaves every binding stamped |
| Bindings.RebindChangesHash | crates/uni-evidence/src/binding.rs:23-37 | two entries of a claim share a hash exactly when they authorize the same verifier, requirement and selector, an absent selector counting as empty |
| Bindings.LoadAllStamped | crates/uni-evidence/src/binding.rs:116-136 | the reviewed file wins over legacy files, and stamped inputs give stamped bindings |
| GateFacts.GateExact | crates/uni-cli/src/cmd/verify.rs:96-147 | the gate opens exactly when no binding is needed or that of the claim names this verifier and requirement, with a selector for a template; behind it stands the registered spec with just that selector spelled in; which error otherwise |
| GateFacts.AuthorizedPasses | crates/uni-evidence/src/binding.rs:149-172 | authorizing an entry opens the gate of its claim exactly to what the entry names, with its selector in the command, and leaves every other claim as it was |
| GateFacts.FileAuthorizes | crates/uni-evidence/src/binding.rs:178-211 | authorizing a file is authorizing each of its entries for its own claim |
| GateFacts.ReviewedDecides | crates/uni-evidence/src/binding.rs:116-136 | at the gate the reviewed file decides for the claims it mentions, the legacy files for the rest |
| GateFacts.OnlyBackedRuns | crates/uni-verify/src/lib.rs:150-185 | what an admitted verification executes: the registered spec of that name, or the inline command as written; with a registry, no command it does not stand behind, up to the authorized selector |
| GateFacts.ResolveExact | crates/uni-verify/src/lib.rs:150-185 | which references resolve to a command, and that an inline text is only ever the text that runs |
| GateFacts.ProofExact | crates/uni-cli/src/cmd/verify.rs:442-463 | the proof a run saves records where and under what it was made; it is Stale exactly when the verifier moved commit or dirty flag, else Valid exactly when the run exited 0, saw its subject and met both output expectations |
| Verifier.SelectorSpelled | crates/uni-verify/src/lib.rs:366-379 | a template is pieces with the token between them and what runs is the same pieces with the selector between them; other specs are left alone; a template without a selector is refused |
| Verifier.SelectorsTellApart | crates/uni-verify/src/lib.rs:366-390 | two selectors of one template give one command, and one fingerprint, only when they are the same |
| Verifier.ObserveExact | crates/uni-verify/src/lib.rs:466-544 | a shell command is started as written and leaves what it leaves; a `file-hash` check starts nothing, changes nothing and exits 0 exactly when every expected file has its digest; any other kind is an error |
| Verifier.RunSpec | crates/uni-verify/src/lib.rs:392-441 | one run makes the proof of its observation: state, exit code, subject, fingerprint and expiry |
| Verifier.FileHashRun | crates/uni-verify/src/lib.rs:491-531 | the loop passes exactly when every expected path has its expected digest, with one line per path |
| Verifier.FileHashLinesExact | crates/uni-verify/src/lib.rs:491-531 | one line for each expected path, in key order, telling match from mismatch from missing; the check passes exactly when every line is a match |
| Verifier.ValidMeans | crates/uni-verify/src/lib.rs:412-439 | a Valid proof exited 0, and one that declares files has a non-empty subject hash |
| Verifier.ValidExact | crates/uni-verify/src/lib.rs:412-439 | a proof is Valid exactly when the run exited 0, the subject was observed where files are declared, the expected text occurs in the output and the forbidden text does not |
| Watch.ArtifactHashes | crates/uni-verify/src/lib.rs:193-246 | the worklist loop terminates and computes the per-file hashes |
| Watch.ArtifactHash | crates/uni-verify/src/lib.rs:248-309 | the worklist loop terminates and computes the subject hash of the matches in the order met |
| Watch.WalkExact | crates/uni-verify/src/lib.rs:223-244 | from any worklist, exactly the files under its directories are visited |
| Watch.VisitedExact | crates/uni-verify/src/lib.rs:193-246 | a traversal visits exactly the files with no skipped directory above them |
| Watch.VisitedOnce | crates/uni-verify/src/lib.rs:193-246 | no file is visited twice |
| Watch.MatchedFiles | crates/uni-verify/src/lib.rs:248-309 | the collected files are exactly the visited ones that match some pattern, each once |
| Watch.FileHashesExact | crates/uni-verify/src/lib.rs:193-246 | one entry for each readable matching file outside the skipped directories, with the digest of its content, and no other entry |
| Watch.SubjectHashPresent | crates/uni-verify/src/lib.rs:248-309 | there is a subject hash exactly when some file outside the skipped directories matches |
| Glob.MatchesIffReading | crates/uni-verify/src/lib.rs:203-219 | a path matches exactly when replacing each `**` by some run of segments and each `*` by one segment spells it |
| Glob.MatchesConcat | crates/uni-verify/src/lib.rs:203-219 | p followed by q matches r exactly when r splits into a part for p and a part for q |
| Glob.CollapseStars | crates/uni-verify/src/lib.rs:203-219 | two adjacent `**` match what one does |
| Glob.LiteralMatches | crates/uni-verify/src/lib.rs:203-219 | a pattern without stars matches only itself |
| Decisions.EvaluateIntent | crates/uni-decision/src/lib.rs:323-402 | the counting loop, with its two counters, computes `Evaluate` |
| Decisions.DecisionTable | crates/uni-decision/src/lib.rs:323-402 | when Valid implies exit code 0: Rejected iff some critical claim has an Invalid and no Valid proof; Accepted iff every required or critical claim has a Valid proof; never Escalated |
| Decisions.ClaimDecided | crates/uni-decision/src/lib.rs:329-381 | what one claim adds to the counters depends only on which states its proofs have |
| Decisions.OrderIrrelevant | crates/uni-decision/src/lib.rs:323-402 | lists with the same proofs, in any order and any number, decide the same |
| Decisions.PermutationIrrelevant | crates/uni-decision/src/lib.rs:323-402 | a permutation of the evidence never changes the decision |
| Decisions.ValidNeverLowers | crates/uni-decision/src/lib.rs:323-402 | one more Valid proof anywhere never lowers the decision |
| Decisions.OrderDecidesWithoutExitCodes | crates/uni-decision/src/lib.rs:323-402 | without the exit-code guarantee the first Valid proof wins, so order matters |
| Decisions.ApplyPolicy | crates/uni-decision/src/lib.rs:139-182 | the overwriting steps compute `UnderPolicy` |
| Decisions.LoadPolicies | crates/uni-decision/src/lib.rs:204-243 | the fold over the sorted files computes `Merged` |
| Decisions.MergedExact | crates/uni-decision/src/lib.rs:204-243 | the merged minimum is the largest set, escalations are on when any file turns them on, the last file to set `reject_on_invalid` wins |
| Decisions.FinalAccepts | crates/uni-cli/src/cmd/verify.rs:469-488 | the final decision is Accepted exactly when the truth table accepts and the verified ratio meets the merged minimum |
| Decisions.RatioYieldsToStale | crates/uni-decision/src/lib.rs:139-154 | a ratio below the minimum rejects whatever the table says, except exactly when `escalate_on_stale` is on and a stale claim was not renewed: then the run escalates |
| Decisions.NoPolicyIsTheTable | crates/uni-decision/src/lib.rs:204-243 | with no policy file the truth table has the last word |
| Decisions.PolicyExact | crates/uni-cli/src/cmd/verify.rs:469-488 | the last word of a run under any policy, from the presence of proofs alone: the ratio, then staleness, then what the two other switches make of a rejection and of a lack of proof |
| Decisions.SwitchesExact | crates/uni-decision/src/lib.rs:139-182 | with no Stale proof and no minimum ratio: a critical failure rejects, or escalates when `reject_on_invalid` is off; a lack of proof asks for evidence, or escalates when `escalate_on_missing` is on; otherwise Accepted |
| Decisions.BelowExact | crates/uni-decision/src/lib.rs:139-154 | the ratio is missed exactly when fewer claims than that share hold a Valid proof |
| Decisions.ShownExact | crates/uni-decision/src/lib.rs:329-381 | each claim is shown with its own flags: Valid with a Valid proof, Stale when its first proof is Stale and none is Valid, else Invalid |
| Decisions.AcceptanceOnlyNarrows | crates/uni-decision/src/lib.rs:204-243 | one more policy file anywhere in the stack never turns an outcome into Accepted |
| Parser.Parse | crates/uni-parser/src/lib.rs:188-478 | the line loop with its lookahead and skips computes `ParseLines`, errors included |
| Parser.ReadAccept | crates/uni-parser/src/lib.rs:381-403 | the lookahead gathers the condition, which is then checked |
| Parser.ReadRequire | crates/uni-parser/src/lib.rs:414-451 | a requirement is attached only below a completed verification with nothing but gaps between |
| Parser.Conclude | crates/uni-parser/src/lib.rs:454-478 | the header must be complete, there must be a claim, and every verification must name one |
| Parser.ValidateModifiers | crates/uni-parser/src/lib.rs:80-108 | the first modifier that is not allowed is reported |
| Parser.ValidateAcceptCondition | crates/uni-parser/src/lib.rs:112-148 | which condition texts are refused, and why |
| ParserFacts.ParseGuarantees | crates/uni-parser/src/lib.rs:188-478 | in every successful parse: FORBID claims are numbered in creation order, every id is one token, a verification carries a requirement if and only if a REQUIRE line stands below its completion with only blank lines and comments between, every VERIFY names a claim, and reserved lines occurred only under a pending FORBID |
| ParserFacts.ForbidIdsIgnoreClaims | crates/uni-parser/src/lib.rs:329-358 | the id of a FORBID claim depends only on how many FORBID claims came before it |
| ParserInsert.InsertedClaimKeepsForbidIds | crates/uni-parser/src/lib.rs:213-358 | inserting a CLAIM line anywhere in the body of a contract leaves the ids of its FORBID claims unchanged |
| ParserFacts.ScanClaims | crates/uni-parser/src/lib.rs:274-358 | the claim invariant after every prefix of the text |
| ParserFacts.ScanVerifications | crates/uni-parser/src/lib.rs:359-451 | the verification invariant after every prefix: the line each was completed on, in order, and its requirement if and only if a REQUIRE line is attached to it |
| ParserFacts.RequireExact | crates/uni-parser/src/lib.rs:414-451 | when a REQUIRE is taken: it has text, the verification above it is complete and has no requirement yet, and only blank lines and comments stand between |
| ParserFacts.RequireLine | crates/uni-parser/src/lib.rs:258-451 | a line that begins with REQUIRE reaches the REQUIRE directive unless a FORBID waits for text or it is goal prose |
| ParserLines.ErrorLine | crates/uni-parser/src/lib.rs:188-478 | every parse error names the line at which scanning stops, the text above it scanning; or no line for what is missing altogether; or the line of a VERIFY whose claim is nowhere declared |
| ParserLines.HeaderExact | crates/uni-parser/src/lib.rs:239-253 | version, domain and intent are those of the last such lines of the text |
| ParserLines.GoalExact | crates/uni-parser/src/lib.rs:254-273 | the goal is its lines of prose in order, with a space between them |
| ParserLines.InGoalExact | crates/uni-parser/src/lib.rs:219-273 | a line is read inside the goal exactly when a GOAL line stands above it with neither a blank line nor a directive between, USING apart |
| ParserLines.DirectiveIsNoProse | crates/uni-parser/src/lib.rs:258-273 | a line that begins with any directive word is never goal text |
| ParserLines.ForbidLine | crates/uni-parser/src/lib.rs:329-342 | FORBID with text makes the next numbered claim, critical and required, with that text |
| ParserLines.ForbidTakes | crates/uni-parser/src/lib.rs:343-358 | a bare FORBID takes the next line of text, whatever lower directive it looks like, across blank lines and comments, and stands on its own line |
| ParserForms.ShellForm | crates/uni-parser/src/lib.rs:150-186 | an inline `shell` command runs as it was written exactly when it neither begins nor ends with a quote |
| ParserForms.QuotedForm | crates/uni-parser/src/lib.rs:150-186 | a named verifier with a quoted command carries both, exactly when the command does not end with a quote |
| ParserForms.PlainForm | crates/uni-parser/src/lib.rs:150-186 | any other text names the verifier, and a name that merely begins with `shell` is a name |
| ParserForms.OneLineOrTwo | crates/uni-parser/src/lib.rs:359-380 | VERIFY with USING on the same line and on the next make the same verification, or the same refusal |
| ParserForms.AcceptTextExact | crates/uni-parser/src/lib.rs:381-400 | the condition is what stands after ACCEPT WHEN and every condition line below it, up to the first line that is none |
| ParserForms.ClausesConcat | crates/uni-parser/src/lib.rs:112-117 | clauses are the pieces between AND that are not blank, trimmed, in order and as often as they stand there |
| ParserFacts.ReservedLine | crates/uni-parser/src/lib.rs:346-413 | a reserved line that does not fail became the text of the pending FORBID |
| ParserFacts.AcceptExact | crates/uni-parser/src/lib.rs:112-148 | a condition is taken exactly when its clauses, cut at AND, are the two known ones only, the required one exactly once |
| ParserFacts.BadModifierExact | crates/uni-parser/src/lib.rs:80-108 | no modifier is reported exactly when all are allowed; else the first that is not |
| ParserFacts.ClaimFlags | crates/uni-parser/src/lib.rs:274-316 | which lines declare a claim or an invariant, and exactly when it is optional or critical: any word of the line counts, the id included |
| IrCompile.CompilesIffDistinct | crates/uni-ir/src/lib.rs:46-60 | compilation succeeds exactly when no two claims share an id |
| IrCompile.CompileKeeps | crates/uni-ir/src/lib.rs:61-97 | a compiled contract has everything of its source but the line numbers, in the order of the source |
| IrCompile.DuplicateExact | crates/uni-ir/src/lib.rs:52-60 | the error names the first claim whose id an earlier one has, and the first that has it |
| SpecKit.Emit | crates/uni-cli/src/cmd/speckit.rs:104-116 | header, two loops and tail print exactly the lines of the candidate contract |
| SpecKit.EmitClaims | crates/uni-cli/src/cmd/speckit.rs:107-112 | the first loop prints two lines per claim |
| SpecKit.EmitVerifies | crates/uni-cli/src/cmd/speckit.rs:113-115 | the second loop prints two lines per claim |
| RoundTrip.ReadsBackIffWellFormed | crates/uni-cli/src/cmd/speckit.rs:104-116 | the printed candidate parses and compiles to exactly the extracted claims in order (ensures trimmed, all required, none critical) with one `project.tests` verification each, if and only if the ids are distinct single tokens that neither contain USING nor are the word OPTIONAL |
| RoundTrip.WholeTrace | crates/uni-parser/src/lib.rs:213-453 | the parser state after each block of the printed lines, up to the end |
| RoundTrip.CompilesTo | crates/uni-ir/src/lib.rs:62-97 | order-preserving translation of the parsed candidate |
| RoundTrip.ReadIds | crates/uni-parser/src/lib.rs:274-298 | a candidate that reads back has distinct token ids, none of them OPTIONAL |
| RoundTrip.UsingStops | crates/uni-parser/src/lib.rs:359-380 | an id that contains USING makes the parse fail |
| OwnerLedger.Ledger.Open | experiments/study-50/tasks/t12-derived-index/base/src/ledger.rs:27-38 | the three maps after an opening, or unchanged with the reason |
| OwnerLedger.Ledger.Apply | experiments/study-50/tasks/t12-derived-index/base/src/ledger.rs:66-92 | the maps after one entry, or unchanged with the reason |
| OwnerLedger.Ledger.ApplyAtomic | experiments/study-50/diffs/t12-derived-index__openrouter-inclusionai-ling-3-0-flash-fin-free.patch:11-18 | all entries on a clone that is then swapped in, or nothing at all |
| OwnerLedger.Ledger.ApplyProjected | experiments/study-50/diffs/t12-derived-index__careless.patch:8-18 | the projection first, then entry by entry: the same result as the clone wherever nothing overflows; where the sequence would overflow, a batch the projection refuses is refused unchanged and any other stops at the overflow |
| OwnerLedger.Ledger.Decide | experiments/study-50/diffs/t12-derived-index__plausible.patch:14-31 | the projection loop, nothing in the ledger moves |
| OwnerLedger.OpenConsistent | experiments/study-50/tasks/t12-derived-index/base/src/ledger.rs:27-38 | an opening keeps the index equal to the recomputed sums and adds exactly its amount to the total |
| OwnerLedger.ApplyConsistent | experiments/study-50/tasks/t12-derived-index/base/src/ledger.rs:81-92 | an entry keeps the index, the owners, non-negative balances and the total |
| OwnerLedger.ApplyAllConsistent | experiments/study-50/diffs/t12-derived-index__openrouter-inclusionai-ling-3-0-flash-fin-free.patch:11-18 | so does a whole batch |
| OwnerLedger.OpenExact | experiments/study-50/tasks/t12-derived-index/base/src/ledger.rs:27-38 | an opening is accepted exactly for a new account and an amount that is not negative, and raises the total of its owner alone |
| OwnerLedger.ApplyExact | experiments/study-50/tasks/t12-derived-index/base/src/ledger.rs:66-92 | an entry is accepted exactly when it moves a positive amount that is there between two known accounts; the payer is down by it, the payee up, all others stay; which refusal otherwise |
| OwnerLedger.BatchExact | experiments/study-50/diffs/t12-derived-index__openrouter-inclusionai-ling-3-0-flash-fin-free.patch:11-18 | a batch is accepted exactly when every entry finds its money once those before it are netted; otherwise the reason is that of the first that does not |
| OwnerLedger.BatchNets | experiments/study-50/diffs/t12-derived-index__openrouter-inclusionai-ling-3-0-flash-fin-free.patch:11-18 | an accepted batch gives every account what it is credited less what it is debited |
| OwnerLedger.ProjectionDecides | experiments/study-50/diffs/t12-derived-index__plausible.patch:14-31 | the projection accepts a batch exactly when applying its entries in sequence never fails, with the same balances and the same refusal |
| OwnerLedger.AcceptedPrefix | experiments/study-50/diffs/t12-derived-index__openrouter-inclusionai-ling-3-0-flash-fin-free.patch:13-15 | every prefix of an accepted batch is accepted |
| OwnerLedger.NoOverflow | experiments/study-50/tasks/t12-derived-index/base/src/ledger.rs:81-92 | while the total fits an i64 no batch overflows |
| OwnerLedger.RunConsistent | experiments/study-50/tasks/t12-derived-index/base/src/ledger.rs:27-92 | over any run: the index equals the per-owner sums recomputed from the accounts, balances are non-negative, and the total is what the accepted openings brought in |
| OwnerLedger.RunNeverOverflows | experiments/study-50/tasks/t12-derived-index/base/src/ledger.rs:27-92 | when all money offered fits an i64 no run overflows, neither in a balance nor in the index |
| Settlement.FeeProductFits | experiments/study-50/diffs/t11-fee-conservation.patch:29-31 | the i128 product of any i64 and any u64 never overflows, so that error branch is dead |
| Settlement.FeeIsFloor | experiments/study-50/diffs/t11-fee-conservation.patch:29-39 | the fee is the floor of amount * bps / 10000; exactly when it exceeds an i64, and exactly when it exceeds the amount |
| Settlement.SettleWithFeeExact | experiments/study-50/diffs/t11-fee-conservation.patch:17-51 | the conditions under which a fee settlement goes through, in both directions, and its whole effect; the total is unchanged |
| Settlement.HoldSound | experiments/study-50/tasks/t11-fee-conservation/base/src/settlement.rs:31-59 | a hold keeps every balance non-negative and the total |
| Settlement.HoldExact | experiments/study-50/tasks/t11-fee-conservation/base/src/settlement.rs:31-59 | a hold goes through exactly when both accounts exist, the amount is positive and the payer has it; the payer is down by it, the payee up, and the record names both under the next id; which refusal otherwise |
| Settlement.SettleExact | experiments/study-50/tasks/t11-fee-conservation/base/src/settlement.rs:62-73 | a plain settlement goes through exactly once for each hold and only marks it |
| Settlement.OpenExact | experiments/study-50/tasks/t11-fee-conservation/base/src/ledger.rs:17-26 | an account is opened exactly when it is new and its amount is not negative, and the total grows by that amount |
| Settlement.PerformAccounted | experiments/study-50/tasks/t11-fee-conservation/base/src/settlement.rs:31-73 | each operation, refused ones included, keeps the accounting |
| Settlement.RunAccounted | experiments/study-50/tasks/t11-fee-conservation/base/src/settlement.rs:31-73 | over any run the total is the sum of the openings, no balance is negative, and each hold pays at most one fee, the exact floor |
| Settlement.RunNeverOverflows | experiments/study-50/tasks/t11-fee-conservation/base/src/ledger.rs:17-48 | when the money offered fits an i64 and ids do not run out, nothing overflows |
| Settlement.Ledger.Open | experiments/study-50/tasks/t11-fee-conservation/base/src/ledger.rs:17-26 | a new account with its amount, or unchanged with the reason |
| Settlement.Ledger.Credit | experiments/study-50/tasks/t11-fee-conservation/base/src/ledger.rs:42-44 | exactly one balance goes up |
| Settlement.Ledger.Debit | experiments/study-50/tasks/t11-fee-conservation/base/src/ledger.rs:46-48 | exactly one balance goes down |
| Settlement.Desk.Place | experiments/study-50/tasks/t11-fee-conservation/base/src/settlement.rs:31-59 | the whole new state of a hold, or unchanged with the reason |
| Settlement.Desk.Settle | experiments/study-50/tasks/t11-fee-conservation/base/src/settlement.rs:62-73 | one flag is set, or nothing changes |
| Settlement.Desk.SettleWithFee | experiments/study-50/diffs/t11-fee-conservation.patch:17-51 | the whole new state of a fee settlement, or unchanged with the reason |
| Bundle.Verify | crates/uni-cli/src/bundle.rs:201-362 | header checks, the loop over records and the closing checks compute `Verified` |
| Bundle.ReadRecords | crates/uni-cli/src/bundle.rs:248-329 | the loop stops at the first malformed record or undecodable evidence, else accumulates every record |
| Bundle.Conclude | crates/uni-cli/src/bundle.rs:331-361 | count, binding, decision and unknown-claim errors, in order, and the coverage counts |
| BundleExport.Export | crates/uni-cli/src/bundle.rs:38-189 | the sealed records in order, and a header that counts and hashes them |
| BundleFacts.VerifiedExact | crates/uni-cli/src/bundle.rs:242-361 | no integrity error exactly when the header and every record are intact and counted; no cross-check error exactly when every requirement has a binding, every decision claim evidence, and all evidence belongs to the contract, the registry and a claim of the contract |
| BundleFacts.OrderIrrelevant | crates/uni-cli/src/bundle.rs:248-361 | permuting the records below the header changes neither readability, nor whether either error list is empty, nor the counts |
| BundleFacts.CountsExact | crates/uni-cli/src/bundle.rs:355-361 | the coverage counts are the sizes of the claim set and of its intersection with the evidence |
| BundleFacts.EditExact | crates/uni-cli/src/bundle.rs:248-361 | replacing any one record of a bundle without integrity errors goes unseen exactly when the new record reads, carries the hash of its own body, and as a contract or registry has the text the header speaks of |
| BundleFacts.DropExact | crates/uni-cli/src/bundle.rs:155-165 | dropping a record goes unseen exactly when the count in the header is lowered with it, since the hash of the header leaves the count out |
| BundleFacts.EditIsSeen | crates/uni-cli/src/bundle.rs:254-261 | a record whose body was edited under the same hash gives an integrity error |
| BundleFacts.RelabelExact | crates/uni-cli/src/bundle.rs:26-33 | the kind is outside the hash: relabelling a record goes unseen exactly when its body fits the new kind; always for a binding, a decision or an unknown kind |
| BundleReport.IntegrityExact | crates/uni-cli/src/bundle.rs:242-336 | a report lists exactly the integrity errors that hold, each of its kind: header, sealed bodies, the two texts, the count |
| BundleReport.CrossExact | crates/uni-cli/src/bundle.rs:279-354 | a report lists exactly the cross-check errors that hold, each with the claim it is about |
| BundleReport.ReadErrorExact | crates/uni-cli/src/bundle.rs:201-329 | a bundle with a readable header that cannot be read stops at its first line that does not parse or is evidence that does not read, and says which |
| BundleReport.ReadHeaderExact | crates/uni-cli/src/bundle.rs:201-241 | a header is read exactly from a record of that kind and version, field by field |
| BundleReport.SealExact | crates/uni-cli/src/bundle.rs:155-165 | the hash of the header covers version, intent, registry and contract, and no more |
| BundleRoundTrip.ExportVerifies | crates/uni-cli/src/bundle.rs:38-189 | verifying a bundle just exported reads back its header and reports no integrity error; no cross-check error exactly when the store it came from is coherent |
| BundleRoundTrip.CoherentExact | crates/uni-cli/src/bundle.rs:92-138 | coherence of the exported records is coherence of the store |
| BundleReport.RecordsExact | crates/uni-cli/src/bundle.rs:38-143 | an export holds contract, registry, every readable policy file of the two kinds, every proof of a claim of the contract, every binding of a requirement, the decision of this intent and the journal, and nothing else |
| BundleReport.ExportedHeader | crates/uni-cli/src/bundle.rs:145-155 | the header of an export names intent and both texts and counts its records |
| BundleReport.TextsTold | crates/uni-cli/src/bundle.rs:60-74 | contract and registry travel with their text and the hash that the header has |
| BundleReport.IrJsonInjective | crates/uni-cli/src/bundle.rs:60-69 | the contract in the bundle is told from any other |
| Journal.Directory.Append | crates/uni-cli/src/events.rs:113-131 | rotate, then the events at the end of the live file, one by one |
| Journal.Directory.RotateIfNeeded | crates/uni-cli/src/events.rs:37-53 | past the cap the live file becomes an archive and old archives go; otherwise nothing changes |
| Journal.Directory.PruneArchives | crates/uni-cli/src/events.rs:71-89 | exactly the oldest archives beyond the newest few are deleted |
| Journal.Directory.ReadAllIncludingArchives | crates/uni-cli/src/events.rs:147-175 | the events of the archives in name order, then of the live file; lines that do not parse are passed over |
| Journal.ParsedExact | crates/uni-cli/src/events.rs:133-175 | reading gives one event for each line that holds one, in order, and nothing else |
| JournalFacts.JournalKeepsSuffix | crates/uni-cli/src/events.rs:113-154 | over any run in which each rotation names its archive after every archive present: what is read back is the newest segments of everything appended, a contiguous suffix in order, nothing lost before the fourth rotation, at most three archives, the live file no larger than the cap plus the last batch |
| JournalFacts.ClockedAscends | crates/uni-cli/src/events.rs:48-50 | strictly increasing stamps from rotation to rotation are enough for that |
| JournalOrder.RotationExact | crates/uni-cli/src/events.rs:37-53 | one rotation, with all lines told apart: the directory goes on holding the newest segments if and only if the new archive is named after all present; what is read back is still a suffix if and only if that holds or the name is that of the only archive |
| JournalOrder.RunExact | crates/uni-cli/src/events.rs:113-131 | over any run of appends: the newest segments are held after every append if and only if every rotation names its archive after all present |
| JournalOrder.RunSuffixExact | crates/uni-cli/src/events.rs:113-154 | over any run of appends, with all lines told apart: what is read back is a contiguous suffix of everything appended, after every append, if and only if every rotation names its archive after all present or takes the name of the only one |
| JournalOrder.ClockSetBack | crates/uni-cli/src/events.rs:48-50 | two rotations in different seconds with the clock set back between them: the history is read back out of order |
| JournalOrder.SameSecondRun | crates/uni-cli/src/events.rs:48-50 | two rotations in one second: the segment between them is lost from the middle of the history |
| JournalFacts.RunHolds | crates/uni-cli/src/events.rs:37-131 | the directory refines the list of segments: the last live, those before it archived in order |
| JournalFacts.NamesSortLikeStamps | crates/uni-cli/src/events.rs:49-67 | archive names of equally long time stamps sort like the stamps, and are never the live file |
| JournalFacts.ArchiveNameExact | crates/uni-cli/src/events.rs:58-67 | a file is an archive exactly when some time stamp names it, so the live file never is |
| JournalFacts.SizeIsText | crates/uni-cli/src/events.rs:37-47 | the size held against the cap is that of the text, newlines included |
| JournalFacts.BystandersStay | crates/uni-cli/src/events.rs:58-89 | no file beside the journal and its archives is ever touched |
| JournalFacts.SameSecondLosesASegment | crates/uni-cli/src/events.rs:48-50 | from any state, a rotation onto the name of the newest archive overwrites it: exactly that segment is lost |
| Lint.CmdLint | crates/uni-cli/src/cmd/contract.rs:5-168 | the finding loops in order, and failure on errors only |
| Lint.FaultyExact | crates/uni-cli/src/cmd/contract.rs:40-132 | a verification is faulty in the eyes of the three blocking rules exactly when a run would abort on it, the overlooked cases apart |
| LintFacts.BlamedExact | crates/uni-cli/src/cmd/contract.rs:40-132 | a claim has a blocking finding exactly when one of its verifications is faulty, also where the selector rule silences the requirement rule |
| LintFacts.PreflightExact | crates/uni-cli/src/cmd/contract.rs:29-132 | no blocking finding exactly when every verification gets past the gate with a command to run or fails in one of the overlooked ways |
| LintFacts.PreflightAgrees | crates/uni-cli/src/cmd/contract.rs:29-132 | with a registry and no `shell` reference: no finding means every verification is admitted, and each one that is not has a finding against its claim |
| LintFacts.GateDecidesProbe | crates/uni-cli/src/cmd/verify.rs:297-322 | the probing loop of a run ends normally exactly when every verification passes the gate |
| LintFacts.FailsIffUncovered | crates/uni-cli/src/cmd/contract.rs:29-38 | lint fails exactly when some claim has no VERIFY |
| LintFacts.DuplicatesExact | crates/uni-cli/src/cmd/contract.rs:54-72 | no duplicate finding exactly when no two verifications share claim, verifier and inline command |
| LintFacts.EmptyRegistryOverlooked | crates/uni-cli/src/cmd/contract.rs:40-53 | with an empty registry lint finds nothing against a reference no run can resolve |
| Persist.MutualExclusion | crates/uni-evidence/src/lib.rs:195-229 | in every interleaving at most one process is in the persist phase, and the lock file exists exactly while one is |
| Persist.Serializable | crates/uni-cli/src/cmd/verify.rs:553-567 | in every interleaving the files are those of the persist phases run one after another, in the order the lock was taken |
| Persist.FinishedIsSettled | crates/uni-cli/src/cmd/verify.rs:553-567 | a finished phase is one atomic update of evidence, journal, decision and baseline |
| Persist.JournalContiguous | crates/uni-cli/src/cmd/verify.rs:561-561 | in every reachable state the journal lines of a process stand together, in order, and nowhere else |
| Persist.BaselineExact | crates/uni-cli/src/cmd/verify.rs:565-566 | in every reachable state with the lock free, whatever the start: the stored registry hash is the hash of the stored snapshot exactly when the last process that wrote the hash also wrote its snapshot, or failed in between writing the registry already stored, or when nobody wrote the hash and the two agreed at the start |
| Persist.BaselineAgrees | crates/uni-cli/src/cmd/verify.rs:565-566 | with the lock free and no process failed exactly between the two writes, the two agree if and only if some process has finished or they agreed at the start |
| Persist.StepKeeps | crates/uni-evidence/src/lib.rs:195-229 | every step of every process keeps the protocol invariant |

## Left out

- Process spawning, output capture, timeouts, git, OPA: parameters of the model, or absent.
- JWT verification, actor and assurance labels, `policy_hash`, timestamps, durations, excerpts, reason and detail texts: recorded, never decided on.
- TOML and JSON text: values are modelled, canonical print and parse are taken as inverse; evidence serialization is a parameter of the bundle model.
- Joining of texts before hashing: subject hashes are of the list of matches, not of its print.
- Truncation of fingerprints and binding hashes, and field values that contain the separator: two tuples are never confused in the model.
- Names that contain a path separator, and directory symlinks: trees are finite and names are clean.
- Reuse.ReuseRefinesRerun: does not model workspaces with a directory that cannot be listed, because the traversal does not see below one and a `file-hash` check does (`FileHashCover.UnlistableUnseen`); the traversal lemmas of `Watch` include them.
- `min_verified_ratio` is a real; a value that is no number, or not a float, is a parse matter.
- Wrap-around of ledger arithmetic in a build without overflow checks.
- Verifier.FileHashRun: does not model the shortened digest in each output line, because digests are symbolic; lines carry path and verdict.
- The clock is read once per run; the original reads it for each proof.
- VerifyRun.DotUni.CmdVerify: does not model a failing save or a lock that is never obtained, so a run that stops after `stale.json` was written is outside it; `Persist` and `DriftRace` have those steps.
- Persist.MutualExclusion: does not model the reaping of a stale lock or a crashed holder, because the check and the removal there are not atomic and exclusion does not survive them.
- Persist.JournalContiguous: does not model a rotation inside the append, nor the `ExecutionRun` event that `uni run` appends outside the lock, because lines there carry the process and archives are the matter of `Journal`.
- Journal.Directory.PruneArchives: does not model a delete that fails; the original goes on and keeps the file.
- RoundTrip.ReadsBackIffWellFormed: does not model an import directory whose name holds a newline, because such a name breaks the header line itself.
- Whether a command pins a test name: a parameter of the lint model, because that rule is an advisory heuristic over names.
- The extraction of claims from Spec Kit text, `brief`, `explain`, `report`, `doctor`, template listing, OTLP: presentation.
- The rest of the study: its runner, its analysis, and its other small programs; the sorted listing `snapshot` of the ledger.
