# Verification of Reelier's guarantees

Reelier records an agent's tool calls, compiles them into replayable skills, guards writes with
hash-bound approvals and keeps a ledger of what ran.  This project models the parts of it whose
guarantees span many branches, many processes or many runs, and proves them in Dafny:

* the approval ceremony (`Approve`, `ApproveLoop`, `ApproveTheorems`, `ApproveOutcomes`), with hashes and MACs as
  symbolic tuples of what they bind;
* the keystore's locked read-modify-write (`Keystore`, `KeystoreTheorems`, `KeystoreRuns`) and the
  checkpointed initializer (`Initializer`, `InitializerTheorems`, `InitializerOutcomes`,
  `InitializerFailures`), as interleaved file-system steps of any number of processes that may fail or
  die anywhere;
* the trace compiler, its bind lines and what replaying its output gives back (`Paths`, `Binds`, `Compile`,
  `CompileTheorems`, `Replay`);
* canonical JSON, its key order, printer and an independent reader, and the seven commitments made over it
  (`CanonicalJson`, `CanonicalOrder`, `CanonicalPrint`, `JsonReader`, `Commitments`, `CommitmentText`), with
  SHA-256 and HMAC taken to be injective;
* the bracket scanner against the grammar of RFC 8259 (`Scanner`, `JsonText`);
* argument provenance, batch, live and over a trace (`Provenance`, `LiveProvenance`,
  `ProvenanceTrace`, `TraceTheorems`);
* run-shape statistics over exact reals (`RobustStats`, `RunShape`);
* deferred attestations and the upload cursor over whole sequences of runs (`Ledger`,
  `LedgerTheorems`, `Push`);
* the policy parser, its key detector, both loaders and rule evaluation (`PolicyText`, `Policy`);
* projections of observations and artifacts (`Projection`).

`dafny verify dfyconfig.toml` checks everything.  `Wrappers` and `Sequences` hold stock definitions.

Code that works by changing things in place is modelled that way: classes for the approval session and
its steps, the live index, the run ledger and the pusher; methods with loops for the rest; each is
proved equal to a specification function, and the theorems are about that function.  The two file-system
protocols are state machines, because what matters in them is what other processes do between two steps.

## Where the code and its promises part

Some promises hold under a condition only.  Each lemma named here as exact gives the condition, for all
inputs or runs and in both directions; the others are concrete cases.

* Keystore: an update is lost when the store was parked as `.bak` and the second rename then fails, since
  the lock is freed while no store file exists (exact: `LosesExactly`, `StoreExactly`,
  `CommittedEntrySurvives`; `LostUpdateHappens`).  A lock file that was created and could not be written is
  nobody's and never goes away (`OwnerlessForEver`); one whose unlink failed stays with a process that has
  ended, and a failed unlink is ignored (exact: `EndedHoldsNoLock`).
* Initializer: artifacts can be left without a state file and without a lock, by a failing write of the first
  state file without any kill (`FailedWriteStrands`) or by a second kill (`SecondKillStrands`); then every
  later run refuses (`StuckForEver`).  What a fresh run meets in each state is exact in `FreshRunExactly`, and
  what the next run meets after a failure at each stage in `NextRunExactly`.  Recovery that cannot remove a
  temp file ends the same way (`LeftTempIsRefused`).
* Replay: a recovered argument that was a number comes back as a string, and a result member named `today`
  collides with the reserved date (exact: `ReplayTrace`, `ReplayCall`, `ParsesExactly`;
  `NumberComesBackAsText`, `TodayIsTheDate`).  A result key that is no word makes a bind that does not parse,
  finds nothing, or binds another value (exact: `HitExactly`, `SpellableExactly`; `DashIsNoBind`,
  `DottedKeyIsLost`, `DottedKeyReadsAnother`).
* Approval: a placeholder whose name every object inherits counts as supplied (exact: `FillExactly`;
  `InheritedNeedsNoVar`).
* Canonical JSON: `[undefined]` and `[null]` have one text (exact: `CanonicalExactly`;
  `UndefinedItemIsNull`), and a `__proto__` member is dropped, so commitments made without the guard do not
  see it (`ProtoVanishes`).
* Trace analysis: masking also drops `__proto__` members, so such a body passes a guard that would have
  refused it (`ProtoBodyVanishes`).
* Ledger: a deadline that does not parse never elapses, so its attestation can stay unresolved for ever
  (exact: `PassClearsExactly`; `UnreadableWaitsForever`).
* Upload: `--all` can move the cursor back (exact: `AllRewindsExactly`; `RewindSendsAgain`).
* Policy: `__proto__:` is accepted silently where any other unknown key is an error (exact:
  `KnownKeysExactly`; `ProtoIsAccepted`); a rule reported as unmatched may still fire through its endpoint
  (`ReportedMayFire`).

## Model

| member | source | states |
|---|---|---|
| `Approve.FillExactly` | src/runner.ts:571-612 | the fill throws if and only if the template holds, however deep, a malformed date hole, a computed date out of range, or a name that no `--var` supplies and no object inherits |
| `Approve.MissingFillFails` | src/cli.ts:2247-2254 | so a probe with a missing placeholder is never dispatched |
| `Approve.InheritedNeedsNoVar` | src/cli.ts:2251 | but the test for a missing name sees inherited ones: `{{toString}}` counts as supplied with no `--var` and fills to `undefined` |
| `Approve.FilledTwice` | src/runner.ts:571-612 | filled at two instants from the same variables a template comes out the same if and only if each of its computed dates does |
| `ApproveLoop.Session.BindStep` | src/cli.ts:2281-2331 | keystore entry before any change to the step: a failed write leaves the step untouched, a successful one stamps the whole binding (deadline carried or new) and the hash of the completed fields |
| `ApproveLoop.Session.ProcessStep` | src/cli.ts:2403-2928 | one loop iteration over a step in place: its new `expect` and `approve`, exactly one counter raised, or an exception, as the declarative ceremony decides |
| `ApproveLoop.Session.ReVerifyStep` | src/cli.ts:2510-2730 | re-verification of a bound step: unavailable, unchanged, moved, re-stamped or re-bound, with the probe args compared before any probe runs |
| `ApproveLoop.Session.BindFresh` | src/cli.ts:2732-2928 | first bind: structural reasons, probe, consent, keystore failure and the offer to approve without binding |
| `ApproveLoop.Session.OfferUnbound` | src/cli.ts:2871-2880 | only an explicit yes gives up the binding, and then the step is approved for the fields without it |
| `ApproveLoop.ApproveSteps` | src/cli.ts:2403-2928 | the loop over all steps of a session, each a distinct object, equals the step-by-step specification, and an exception stops it where it happens |
| `ApproveTheorems.StepNoSilentDowngrade` | src/cli.ts:2443-2498 | a step loses its binding only by `--drop-expect` with consent or an interactive yes, never under `--all --probe`, and never with placeholders in its probe args |
| `ApproveTheorems.StepBoundCommits` | src/cli.ts:2887-2928 | a state-bound approval always rests on a probe that ran with every hole filled, on a non-empty observation, and on a fresh key that reached the keystore; the commitment covers exactly what was observed and, if parameterized, the filled args; the probe was sent with the literal args, or with the committed ones if and only if no computed date in them moved in between |
| `ApproveTheorems.FreshSendsCommitted` | src/cli.ts:2752-2835 | a first bind admits no computed date, so what it commits is always what it sent |
| `ApproveTheorems.StepMovedWorldNeedsConsent` | src/cli.ts:2660-2729 | when the observed state differs from the committed one, only `--rebind` or an interactive yes re-binds |
| `ApproveTheorems.StepKeepsDeadline` | src/cli.ts:2046-2068 | without `--expires` a step that keeps a binding keeps its deadline verbatim |
| `ApproveTheorems.NoSilentDowngrade` | src/cli.ts:2403-2928 | over every flag set, step list and sequence of outside answers: a binding that is gone at the end was given up by an explicit consent, on a probe without placeholders |
| `ApproveTheorems.AllProbeEndsStateBound` | src/cli.ts:2836-2913 | under `--all --probe` every step the run changed ends bound to this run's observation and approved for it |
| `ApproveTheorems.ChangedStepsAreApproved` | src/cli.ts:2281-2331 | every step the run changed is approved for exactly the fields it ends with; every changed binding commits this run's probe; deadlines survive a run without `--expires` |
| `ApproveTheorems.NothingApprovedNothingChanged` | src/cli.ts:2934-2960 | a run that approved nothing changed no step, so not writing the file loses nothing |
| `ApproveTheorems.Accounting` | src/cli.ts:2962-2972 | exactly one of the seven outcome counters rises per step, state-bound never exceeds approved, and the exit code is 0 exactly when no step degraded |
| `ApproveTheorems.PlainAllTwice` | src/cli.ts:2466-2498 | repeating a plain `approve --all` approves nothing and changes nothing |
| `ApproveOutcomes.PlainOutcome` | src/cli.ts:2443-2498 | without `--probe`, from step, flags and answer alone: when a step ends as changed binding, unchanged, approved without binding, or skipped, each exactly |
| `ApproveOutcomes.ReVerifyNeeds` | src/cli.ts:2502-2592 | re-verification is unavailable exactly if nothing throws and there is no key, no non-empty observation, other probe args without `--rebind`, or a status code asked of an MCP tool; it throws exactly over args no `--var` can complete |
| `ApproveOutcomes.ReVerifyOutcome` | src/cli.ts:2593-2730 | with a commitment and an observation to compare: unchanged exactly if MAC and probe args are the committed ones and no other deadline is asked for, moved exactly if the MAC differs under `--all` without `--rebind`, and exactly when it is skipped, not stored, or bound anew |
| `ApproveOutcomes.FreshBindThrows` | src/cli.ts:2752-2767 | a first bind throws exactly over a malformed date hole in args that are otherwise fillable, and not where another structural reason is found first |
| `ApproveOutcomes.UnbindableOutcome` | src/cli.ts:2738-2880 | a step that cannot be bound is unchanged exactly if it is approved as it stands; every other outcome has its exact condition on flags, placeholders and answer |
| `ApproveOutcomes.BindableOutcome` | src/cli.ts:2819-2928 | a bindable step is bound exactly if the probe answered, the observation was agreed to and the key was stored; every other outcome has its exact condition |
| `ApproveOutcomes.ProbeNotConsulted` | src/cli.ts:2538-2580 | where no probe is due (other probe args than the committed ones without `--rebind`, no key, not bindable), nothing the ceremony decides depends on what a probe would have answered |
| `ApproveOutcomes.DeadlineExactly` | src/cli.ts:2046-2068 | the deadline of every new binding: observation plus `--expires`, else the old one verbatim, else none |
| `ApproveOutcomes.CountersExactly` | src/cli.ts:2962-2971 | each printed counter is the number of steps of the run that ended so |
| `ApproveOutcomes.ReVerifyExit` | src/cli.ts:2502-2972 | `--all --probe` over steps that are bound and current exits with 0 if and only if every step could be compared, each moved one was re-bound by `--rebind`, and every new binding reached the keystore |
| `ApproveOutcomes.CleanExitMeansCommitted` | src/cli.ts:2502-2972 | if any run exits with 0, every step it re-verified ends with a commitment to what this run observed, the old one or a new one, unless the operator saw the change and declined |
| `Keystore.StepKeepsInv` | src/expect-mac.ts:516-668 | every step of every process, whatever works, fails or dies (a lock file created and then not written included), keeps the joint invariant of store, lock, temp and `.bak` files |
| `KeystoreTheorems.StoreExactly` | src/expect-mac.ts:587-668 | for every interleaving, failure and crash: while nobody holds the lock, the store file is what was committed since the last loss, one mutation at a time in lock order, from the initial store if there was no loss and from nothing if there was one |
| `KeystoreTheorems.NoLostUpdate` | src/expect-mac.ts:587-668 | so without a loss it is all committed mutations applied one at a time in lock order |
| `KeystoreTheorems.LosesExactly` | src/expect-mac.ts:632-668 | in every reachable state a step loses the store if and only if it is a second rename that fails after the store was parked; a step commits if and only if it is a rename that works; no other step changes the history |
| `KeystoreTheorems.LostUpdateHappens` | src/expect-mac.ts:640-668 | a concrete run in which it does not: rename refused, store parked, second rename failed, lock freed, a key gone that no mutation removed |
| `KeystoreTheorems.AlwaysRecoverable` | src/expect-mac.ts:640-668 | at every instant the last committed store is whole in the store file or a `.bak`; lost stores still stand in their `.bak`; during the fallback the new store is whole in the temp file |
| `KeystoreTheorems.LocksAreOwned` | src/expect-mac.ts:587-640 | at most one process is inside, and a lock is only removed by the process that took it |
| `KeystoreTheorems.CommittedEntrySurvives` | src/expect-mac.ts:550-586 | a writer that reported success, whose entry later commits leave alone, finds it in the store while nobody holds the lock if and only if no loss came after its commit |
| `KeystoreTheorems.WriterLeaves` | src/expect-mac.ts:550-559 | a writer leaves an entry alone exactly if its key is another one |
| `KeystoreTheorems.RemoverLeaves` | src/expect-mac.ts:561-585 | a remover leaves an entry alone exactly if it does not list the key or the entry was minted at or after the scan began |
| `KeystoreTheorems.OwnerlessForEver` | src/expect-mac.ts:520-522 | a lock file whose create succeeded and whose write failed shuts every process out for good: no later move changes the store |
| `KeystoreTheorems.AcquisitionStops` | src/expect-mac.ts:587-622 | after `retries` + 1 attempts a live process has the lock or has given up |
| `KeystoreRuns.EndedHoldsNoLock` | src/expect-mac.ts:624-667 | in every reachable state a process that has ended, however it ended, still holds the lock if and only if its own unlink failed |
| `KeystoreRuns.GivesUpExactly` | src/expect-mac.ts:602-622 | in every reachable state of a waiting process: it gets in exactly if it finds the lock free, gives up as locked out exactly at its last attempt, and fails exactly on another error at its last attempt or on the fourth such error |
| `KeystoreRuns.EveryRunEnds` | src/expect-mac.ts:587-668 | whatever fails and whoever else runs, a process ends or dies within `retries` + 9 moves of its own |
| `KeystoreRuns.LoneRunCommits` | src/expect-mac.ts:602-667 | from any state with the lock free a fresh process that runs alone and whose calls work commits: the store is its mutation of the store before, the lock is free, everything else is as it was |
| `KeystoreRuns.LoneRunParks` | src/expect-mac.ts:635-667 | and just so when the rename over the old store is refused: the old store is parked, the second rename works, the `.bak` is dropped |
| `KeystoreRuns.LoneRunFails` | src/expect-mac.ts:624-667 | a call that fails before the store is replaced, whichever it is, ends the lone run as failed with the lock free and store and `.bak` files as they were; a finished temp copy stays |
| `Initializer.ReachableInv` | src/initialization.ts:645-692 | for any number of initializers killed anywhere (but not while owning a written `.recovery`): the joint invariant of locks, disk and each process's memory |
| `Initializer.InspectionFinds` | src/initialization.ts:326-355 | on a consistent disk an inspection that is not refused returns the whole completed list and the artifacts it lists |
| `InitializerTheorems.LiveHolderIsAlone` | src/initialization.ts:379-447 | at most one live process is between taking the lock and its release, and temp-file cleanup never runs beside a live holder |
| `InitializerTheorems.DiskIsConsistent` | src/initialization.ts:599-692 | after any kill the completed list is a prefix of the plan, each listed artifact has its recorded digest and was built from the ones before it, and any returned report is the one the artifacts determine |
| `InitializerTheorems.CompletedNeverChanges` | src/initialization.ts:599-630 | a completed artifact is never changed or dropped by any later move of any process |
| `InitializerTheorems.RefusedExactly` | src/initialization.ts:326-355 | inspection refuses exactly when temp files or `.recovery` stand in the way, or artifacts stand without a state file in a run that did not recover a lock |
| `InitializerTheorems.RecoversFromKill` | src/initialization.ts:412-447 | from every state left by a kill after the pid was written, a fresh run that is alone and whose dependencies succeed is not refused, resumes at the first missing checkpoint, changes nothing completed and returns the report of the artifacts on disk |
| `InitializerTheorems.BuildsTheRest` | src/initialization.ts:599-692 | the loop builds each missing checkpoint, artifact before state, up to a complete plan and a released lock |
| `InitializerOutcomes.FreshRunExactly` | src/initialization.ts:645-692 | in every reachable state a fresh run that is alone is busy exactly if `.recovery` exists or the lock is not known to be dead, refused exactly if no lock stands but temp files do or artifacts without a state file, and in every other case completes the plan |
| `InitializerOutcomes.StuckForEver` | src/initialization.ts:326-355 | from a refused state with no live run under way, every later interleaving and kill changes no file, and every run that ends is refused |
| `InitializerOutcomes.FailedWriteStrands` | src/initialization.ts:672-691 | a concrete run without a kill into that state: the first state file cannot be written, the lock is released all the same |
| `InitializerOutcomes.SecondKillStrands` | src/initialization.ts:412-447 | a concrete run with two kills into that state: one before the first state file, one right after the dead lock was dropped |
| `InitializerOutcomes.TwoHolders` | src/initialization.ts:416-446 | were a run to die owning its written `.recovery`, two later runs may both end up holding the lock: the run is given, so the one assumption on kills is needed |
| `InitializerFailures.EndedOwnsNoLock` | src/initialization.ts:645-691 | in every reachable state a live process that has ended owns a written lock exactly if its own unlink broke, and an unwritten one exactly if the write of its pid did |
| `InitializerFailures.FailedRunReleases` | src/initialization.ts:672-691 | from every reachable state in which a fresh run builds anything, a break at any stage of any checkpoint ends it as failed with the lock given back, no temp file, the list grown by the checkpoints built, and the artifact at hand on disk only if it was published |
| `InitializerFailures.NextRunExactly` | src/initialization.ts:645-692 | after such a failure the next run that is alone is refused if and only if the first artifact stands and nothing was ever listed; else it completes the plan |
| `InitializerFailures.FailedRecoveryIsRepeated` | src/initialization.ts:412-447 | a dead lock that cannot be removed: the run fails, takes its `.recovery` back, and the next one recovers and completes |
| `InitializerFailures.LeftTempIsRefused` | src/initialization.ts:435-447 | a temp file that recovery cannot remove is left without a lock, and its own run is refused over it |
| `Paths.SplitJoin` | src/assert.ts:63-72 | splitting a dot-path at its dots gives back the segments it was joined from, for dot-free keys |
| `Paths.ResolveDotPath` | src/assert.ts:63-72 | the loop that follows a dot-path computes the recursive meaning of its segments: array indices, an array's `length` and missing steps included |
| `Paths.LeavesResolve` | src/compile.ts:82-117 | every flattened leaf resolves, under its own keys, to its own value, whatever the keys are |
| `Paths.SetAtSubst` | src/compile.ts:119-135 | setting one path in an already substituted value is the substitution extended by that path: other leaves are unchanged |
| `Compile.SanitizeIdentifier` | src/compile.ts:361-365 | the result is a valid identifier, and a valid identifier is left alone |
| `Compile.FreshName` | src/compile.ts:497-505 | the loop ends with the base itself if it is free, else with the first free number from 2 on appended |
| `Compile.NameFor` | src/compile.ts:490-519 | a source path gets one name for good; names stay pairwise distinct and every promised name is bound by a bind line of its step |
| `Compile.FindSource` | src/compile.ts:474-488 | the match is the most recent earlier result that holds the value, at its first leaf; none only if no earlier result holds it |
| `Compile.CompileArgs` | src/compile.ts:467-530 | one call: the compiled args are the recorded ones with holes exactly at the candidate leaves an earlier result holds |
| `Compile.CompileCalls` | src/compile.ts:450-530 | the whole trace: every step's args are so compiled under one registry, in which every bind line reads a scalar out of its step's recorded result |
| `Compile.OneBindPerName` | src/compile.ts:450-530 | each hole is bound by exactly one bind line of the whole skill, on a strictly earlier step, and evaluating that line on the recorded result gives the value recorded at the hole |
| `Compile.NameIsReserved` | src/compile.ts:490-505 | a new name is the reserved `today` if and only if the source path ends in `today` and the name was still free |
| `CompileTheorems.HolesExactly` | src/compile.ts:97-117 | over every compiled trace: a path of a call's args is a hole if and only if it is not the root, a string of at least four units or a number printed in at least four characters was recorded there, and an earlier result holds that value below its root |
| `CompileTheorems.LeavesExactly` | src/compile.ts:467-530 | and the compiled args have the same paths as the recorded ones, each hole at its own and every other leaf as recorded |
| `CompileTheorems.SourceExactly` | src/compile.ts:474-506 | each hole carries the name of one source: the most recent earlier result that holds the value, at the first leaf in document order where it does |
| `CompileTheorems.NamesSpelled` | src/compile.ts:494-501 | a source is named after its last segment, an array element after its list and index, and a name that would begin with a digit gets a prefix |
| `Binds.HitExactly` | src/assert.ts:221-232 | the bind made from a leaf of any result is no bind line if and only if some key on the leaf's path holds a character other than word characters and dots; it gives the leaf if no key holds a dot and the first is not empty; and otherwise it reads along other keys than the leaf's |
| `Binds.SpellableExactly` | src/compile.ts:82-95 | by the keys alone: a leaf's bind gives the leaf in every result that has one there if and only if those keys are spellable |
| `Binds.DashIsNoBind` | src/assert.ts:225 | a key such as `foo-bar` makes a bind that does not parse |
| `Binds.DottedKeyIsLost` | src/compile.ts:82-95 | a key with a dot makes a bind that finds nothing |
| `Binds.DottedKeyReadsAnother` | src/compile.ts:82-95 | or, where the dotted path leads elsewhere, silently binds another leaf's value |
| `Replay.ReplayExactly` | src/runner.ts:571-612 | filling the compiled args gives the recorded args back if and only if every recovered value is a string and every name that is reserved stands for that very date |
| `Replay.ReplayCall` | src/runner.ts:571-612 | for every recorded trace and its compilation: filled with what the bind lines of the earlier steps read out of the recorded results, a call's args are the recorded ones if and only if no number among them was seen before and each hole that became `today` stands for that date |
| `Replay.ReplayTrace` | src/compile.ts:450-530 | the whole skill parses and replays every call as recorded, whatever the date, if and only if no bound path ends in `today` and no number was reused |
| `Replay.ParsesExactly` | src/skill.ts:225-233 | the parser refuses the compiled skill for a reserved bind name if and only if some bound path ends in `today` |
| `Replay.NumberComesBackAsText` | src/runner.ts:598-600 | a reused number comes back as a string, in every compilation of the trace |
| `Replay.TodayIsTheDate` | src/skill.ts:665-676 | a reused member `today` is refused at parse time, and its fill would put the date of the run |
| `CanonicalJson.KeyOrder` | src/canonical-json.ts:20-37 | own-key order (index keys first, then code units) is a strict total order |
| `CanonicalJson.SortValue` | src/canonical-json.ts:7-40 | the recursive rebuild computes the canonical form: members sorted, undefined ones and `__proto__` dropped, array order kept |
| `CanonicalJson.NormalMembersCorrect` | src/canonical-json.ts:20-37 | the rebuilt members are sorted and are exactly the carried ones with canonical values |
| `CanonicalJson.NormalExactly` | src/canonical-json.ts:7-40 | canonical forms are equal exactly when the values are, up to key order and dropped members |
| `CanonicalOrder.KeyLessExactly` | src/canonical-json.ts:19-37 | the order of own keys on the keys themselves: printed numbers below 2^32 - 1 first and by value, then the other keys, where the first is a proper prefix of the second or has the smaller code unit at the first difference |
| `CanonicalOrder.MembersAscend` | src/canonical-json.ts:19-37 | every two members of every canonical object stand in that order, whatever order they were written in |
| `CanonicalPrint.QuoteDecodes` | src/canonical-json.ts:42-54 | the printed string, with its escapes, surrogate pairs and closing quote, determines the string and where it ends |
| `CanonicalPrint.PrintDecodes` | src/canonical-json.ts:42-54 | the printer is uniquely decodable: two printed values followed by anything that may follow a value are equal only if the values are |
| `CanonicalPrint.CanonicalExactly` | src/canonical-json.ts:42-54 | equal canonical text (or both throwing) if and only if equal up to key order and members that are undefined or named `__proto__` |
| `CanonicalPrint.GuardedExactly` | src/expect-mac.ts:365-381 | for values the `__proto__` guard accepts: equal text if and only if equal up to key order and undefined members |
| `JsonReader.CanonicalReads` | src/canonical-json.ts:42-54 | round trip: a reader written from RFC 8259, escapes and `\u` sequences included, reads the canonical text of a value back as its canonical form, to the last unit |
| `JsonReader.EscapeChosen` | src/canonical-json.ts:42-54 | of all texts a reader takes for a code unit the printer uses the shortest, with small hexadecimal digits, and spells out only half surrogate pairs beyond need, as `JSON.stringify` does |
| `Commitments.TagInjective` | src/expect-mac.ts:75-91 | tagged scalars are equal exactly when type and value are: no string forges a number's or boolean's tag |
| `Commitments.FieldsExactly` | src/expect-mac.ts:107-127 | tagged projections are the same exactly when they hold the same fields with equal values and types |
| `Commitments.KindsDiffer` | src/artifact.ts:178-192 | no two of the seven commitment kinds have a common input, whatever the values: some member is always in one and never in the other |
| `Commitments.CommitExactly` | src/approval.ts:64-134 | two commitments of any of the seven kinds are equal if and only if of one kind, to the same tool, args, attest, expect, emit or fields, and under the same key when keyed |
| `Commitments.ProtoVanishes` | src/expect-mac.ts:344-391 | without the guard a `__proto__` argument is invisible to a commitment (the idempotency key does not see it); the probe-args commitment refuses it |
| `Commitments.RefusesExactly` | src/expect-mac.ts:64-127 | the commitment functions throw exactly on a state binding without a probe, a blank name, a member or field `__proto__`, and a key that is not 32 bytes or all zero |
| `CommitmentText.InputSpelled` | src/approval.ts:64-125 | what each of the seven commitments is computed over, spelled out: exactly these members, under these names, with these type tags, in this order, and nothing for what is absent; and the text reads back as that object |
| `Scanner.FindOpener` | src/llm.ts:84-91 | the first loop finds the first `{` or `[`, or the end of the text |
| `Scanner.ExtractFirstJson` | src/llm.ts:80-120 | the scan with its stack and string flags computes the character-by-character specification, malformed nesting included |
| `Scanner.ExtractsNested` | src/llm.ts:80-120 | any text well nested outside strings is returned whole, after any bracket-free prefix and before any suffix |
| `Scanner.ExtractExactly` | src/llm.ts:80-120 | a text is returned if and only if it is well nested and preceded by no opening bracket |
| `Scanner.NoNestedPrefix` | src/llm.ts:80-120 | no proper prefix of a well-nested text is well nested |
| `JsonText.ExtractsJson` | src/llm.ts:80-120 | every object or array text of the RFC 8259 grammar, white space and escapes included, is returned exactly |
| `Provenance.BuildSourceIndex` | src/provenance.ts:210-249 | the two passes build the index in which the first source to claim a digest keeps it and an exact claim beats every normalized one; it throws exactly on a `__proto__` key |
| `Provenance.FormsExactly` | src/provenance.ts:173-197 | the normal forms of a text are exactly: the text between its surrounding space, its composed form, the text with capitals A to Z made small, each only if different, the number and the truth value it spells; nothing else has any |
| `Provenance.LeafSpelled` | src/provenance.ts:141-157 | coordinates read as documented: `args.items[0].sku` |
| `Provenance.ResolvesOverSources` | src/provenance.ts:251-296 | resolving arguments over the built index is resolving them over the sources: hit, else authored only without gaps, else unresolved with every reason |
| `LiveProvenance.LiveProvenanceIndex.AddGap` | src/provenance.ts:324-326 | adds a gap and nothing else |
| `LiveProvenance.LiveProvenanceIndex.AddSource` | src/provenance.ts:328-347 | the leaves offered are held in order up to the capacity, never more; beyond it the index is saturated; a `__proto__` value changes nothing |
| `LiveProvenance.LiveProvenanceIndex.Resolve` | src/provenance.ts:349-371 | answers from the held leaves, with every gap and the cap as reasons |
| `LiveProvenance.LiveIsBatch` | src/provenance.ts:283-372 | up to its capacity the live index gives the batch answer: state, tier, coordinate and reasons |
| `LiveProvenance.LiveWithinBatch` | src/provenance.ts:296-372 | beyond it nothing is called authored, exact matches are the batch ones, and everything grounded is grounded in the batch |
| `LiveProvenance.ExactIsFirst` | src/provenance.ts:229-240 | an exact coordinate is that of the first leaf that holds the value or prints as it, and there is none exactly when no leaf does |
| `LiveProvenance.AuthoredExactly` | src/provenance.ts:272-296 | authored if and only if the corpus has no gap and no leaf anywhere matches exactly or in one normalization hop on either side |
| `ProvenanceTrace.RedactedExactly` | src/provenance-trace.ts:39-43 | redacted is exactly what holds the marker, a left guillemet and the word `redacted`, anywhere |
| `ProvenanceTrace.MaskRedacted` | src/provenance-trace.ts:89-106 | the walk rebuilds the value with redacted leaves nulled and tells whether there was one |
| `ProvenanceTrace.MaskKeepsLeaves` | src/provenance-trace.ts:89-106 | the leaves of a masked value are the unredacted leaves with the same paths in the same order |
| `ProvenanceTrace.MaskGuards` | src/provenance-trace.ts:89-106 | a masked value always passes the `__proto__` guard |
| `ProvenanceTrace.ProtoBodyVanishes` | src/provenance-trace.ts:89-106 | so a body's `__proto__` member is neither indexed, nor refused, nor reported as a gap |
| `ProvenanceTrace.AnalyzeTrace` | src/provenance-trace.ts:134-215 | the loop over records reports, for each call that went out, its recorded rows or the rows resolved against the results before it, with the counts; it throws exactly when one of those calls does |
| `TraceTheorems.GroundedExactly` | src/provenance-trace.ts:178-190 | a computed row is grounded if and only if its argument is not redacted and a leaf of an earlier source matches |
| `TraceTheorems.GroundedInThePast` | src/provenance-trace.ts:119-125 | every grounded row matches a leaf of a usable result that came back before the call |
| `TraceTheorems.Causal` | src/provenance-trace.ts:119-125 | traces equal up to a call, and in whether it went out, resolve it alike, whatever comes later |
| `TraceTheorems.EarlierResultKeepsGrounded` | src/provenance-trace.ts:134-215 | inserting an earlier result never takes a grounding away |
| `TraceTheorems.StateExactly` | src/provenance-trace.ts:134-215 | every row of a computed call, by the records before it: grounded if and only if its argument is not redacted and a usable earlier result holds a match; authored if and only if it is not redacted, none matches, and every usable earlier result was held whole; and redacted always unresolved |
| `TraceTheorems.AuthoredIsEarned` | src/provenance-trace.ts:196-212 | after a masked or unaddressable usable result no row is authored |
| `TraceTheorems.UnusableChangesNothing` | src/provenance-trace.ts:104-114 | a failed, denied or dry-run result, wherever it stands, changes no row: only what came back as an answer is a source |
| `TraceTheorems.ReportedExactly` | src/provenance-trace.ts:148-154 | a call is left out of the report exactly if the first result under its number was denied or a dry run |
| `TraceTheorems.TallyTotal` | src/provenance-trace.ts:191 | each resolved leaf is counted in exactly one state |
| `RobustStats.MedianHalves` | src/priors.ts:144-149 | at least half of the sample is at most, and at least half at least, the median |
| `RobustStats.Breakdown` | src/priors.ts:29-37 | with fewer than half of the values replaced by anything, the median stays between two untouched values |
| `RobustStats.HalfBreaks` | src/priors.ts:29-37 | the bound is tight for every sample: half of the values, rounded up, can be replaced so that the median lies beyond all of them, as far as wanted |
| `RobustStats.HalfWithinMad` | src/priors.ts:151-161 | at least half of the sample lies within one MAD of the median |
| `RobustStats.MajorityHasNoSpread` | src/priors.ts:173-200 | if more than half of the window equals c, the median is c and the MAD is 0 |
| `RobustStats.DeviatesExactly` | src/priors.ts:201-209 | a value deviates if and only if it is more than three MADs outside the window's range (on the high side only for a running measurement), so never a value the window holds |
| `RobustStats.MajorityRule` | src/priors.ts:173-209 | with a majority value the rule is exactly: outside everything the window did |
| `RunShape.ComputeRunShape` | src/priors.ts:321-403 | the report: usable runs, the window of at most 20, the three-run floor, one signal per metric, gap and silence signals, the three-valued skill change, and whether the subject is the very last record |
| `RunShape.PushSignals` | src/priors.ts:350-385 | the loops push one signal per metric and the interval signals, dropping intervals that cannot be measured |
| `RunShape.InsertedChangesNothing` | src/priors.ts:321-336 | a mock run inserted anywhere changes only whether the subject is the newest record; a deferred follow-up changes nothing |
| `RunShape.NewestExactly` | src/priors.ts:329-336 | the subject is the last execution that is not a mock run, and is reported as the newest record exactly when the last execution is not one |
| `RunShape.FlaggedIsNew` | src/priors.ts:178-185 | a flagged metric has a value no run of the window had |
| `RunShape.SkillChangedExactly` | src/priors.ts:389-393 | the skill counts as changed exactly if the last two real runs name theirs and the names differ, and is unknown exactly if one of them does not |
| `RunShape.WindowExactly` | src/priors.ts:330-352 | the latest real run is compared exactly if there are 3 real runs before it, with the up to 20 right before it, each counter with the same counter of those |
| `RunShape.GapsExactly` | src/priors.ts:355-367 | the gaps of the window are exactly the times between neighbouring starts that both parse and do not run back: an interval is dropped, never clamped |
| `RunShape.TimedExactly` | src/priors.ts:355-387 | the last gap and the silence since are reported exactly if they can be measured and 3 gaps of the window can, over those gaps, and of the silence only a length beyond their range deviates |
| `Ledger.SelectUnresolved` | src/defer.ts:100-128 | the two passes with their answered and seen sets give the first attestation of each pending key that has no answer, in order |
| `Ledger.RunLedger.Resolve` | src/cli.ts:1474-1599 | a pass appends at most one record, of exactly the intact attestations that were observed or are overdue; the exit code tells refusals; every early exit leaves the ledger alone |
| `LedgerTheorems.UnresolvedExactly` | src/defer.ts:76-128 | unresolved are the pending keys without an answer, each once |
| `LedgerTheorems.ResolvedSubtracts` | src/defer.ts:76-128 | appending answers takes exactly the answered keys out, order kept |
| `LedgerTheorems.ExecutedExtends` | src/defer.ts:76-128 | appending an execution keeps what was unresolved and adds its new keys after it |
| `LedgerTheorems.PassLeaves` | src/defer.ts:151-201 | after a pass exactly those are left that were refused or neither observed nor overdue |
| `LedgerTheorems.PassClearsExactly` | src/cli.ts:1514-1599 | a pass clears the ledger if and only if every unresolved attestation is intact and was observed or has a readable deadline that passed |
| `LedgerTheorems.UnreadableWaitsForever` | src/defer.ts:151-161 | a deadline that does not parse, with a probe that sees nothing, stays unresolved whatever the time |
| `LedgerTheorems.PassTwice` | src/cli.ts:1583-1599 | the same pass again writes nothing |
| `LedgerTheorems.PassTells` | src/defer.ts:151-201 | each step a pass writes answers an unresolved attestation of an intact step, with that attestation's deadline, as partial exactly if a declared field was seen and as absent exactly if none was and the deadline had passed |
| `LedgerTheorems.PassExits` | src/cli.ts:1514-1599 | a pass exits with 0 if and only if nothing was unresolved or it could run and refused nothing; an attestation whose step is no longer approved as dispatched stays unresolved and the exit code is 1 |
| `LedgerTheorems.Grows` | src/cli.ts:1596-1597 | the ledger only grows |
| `LedgerTheorems.AnsweredOnce` | src/defer.ts:100-128 | over every sequence of executions and passes each pending dispatch is unresolved or answered exactly once, nothing else is answered, and no answer is exact |
| `Push.Pusher.Push` | src/push.ts:616-830 | one push: what reaches the cloud, the new cursor, the audit list and the result, for every option; a refusal sends and stores nothing |
| `Push.Pusher.SendAll` | src/push.ts:757-800 | the loop sends up to and including the first record that may be retried and counts what it consumed |
| `Push.SendsInOrder` | src/push.ts:757-800 | a push consumes consecutive records and stops short only at one that may be retried |
| `Push.CodesDecide` | src/push.ts:574-603 | a record is consumed if and only if it and all before it were answered 202, 400 or 413, and goes to the audit list if and only if its own answer was one of the last two: a 401, any other code and a network error stop the push |
| `Push.MockSendsNothing` | src/push.ts:639-653 | a batch with a mock run in it sends nothing, not even the skill, and stores nothing |
| `Push.EachOnce` | src/push.ts:633-814 | over every sequence of pushes without `--all`: each record below the cursor was accepted or rejected exactly once and none above it; the audit list is strictly increasing and holds exactly the rejected ones |
| `Push.RunAccounted` | src/push.ts:633-814 | the cursor never goes back, and the consumed records are 0, 1, 2, … in order |
| `Push.RetriesAtCursor` | src/push.ts:796-803 | the first record after an aborted push is the one that stopped it |
| `Push.AllRewindsExactly` | src/push.ts:635-637 | a push with `--all` moves the cursor back if and only if it stops, or the file ends, before the old cursor |
| `Push.RewindSendsAgain` | src/push.ts:796-803 | a concrete one: the network stops it at once, the cursor is back at the start, and the next push sends every record again |
| `PolicyText.StripComment` | src/policy.ts:77-92 | the loop cuts at the first `#` outside quotes |
| `PolicyText.ParseYamlSubset` | src/policy.ts:115-192 | the line loop with its open list and current item computes the fold over lines, every syntax error included |
| `PolicyText.DetectStateGateKey` | src/policy.ts:336-348 | true exactly when some uncommented line starts with the key, blanks and a colon |
| `PolicyText.ParsedHasGate` | src/policy.ts:324-348 | for every text that parses, the detector sees the key exactly when the parser defined it |
| `PolicyText.ParsedKeys` | src/policy.ts:115-192 | a text that parses defines exactly the keys at the margin of its lines, `__proto__` excepted, and each such line has a key |
| `Policy.KnownKeysExactly` | src/policy.ts:201-224 | in a text that parses no key is reported as unknown if and only if every key at the margin is known or `__proto__` |
| `Policy.AcceptedKeys` | src/policy.ts:216-317 | in every text that is accepted strictly each line at the margin has a key, known or `__proto__` |
| `Policy.ProtoIsAccepted` | src/policy.ts:140-156 | and one with `__proto__` is accepted, as an empty policy |
| `Policy.ValidatePolicyObject` | src/policy.ts:216-317 | accepts exactly the objects with known keys, version 1, gate `refuse`, lists of valid rules, and returns those rules in order |
| `Policy.RuleAsWritten` | src/policy.ts:240-290 | a rule asks for the tool, endpoint and exception its item names, each under its own key, and for nothing where the text is empty |
| `Policy.GateAgrees` | src/policy.ts:428-441 | in every text that parses strictly the gate is on exactly when the detector sees the key, so the branch marked unreachable is |
| `Policy.ResolveStateGateForRun` | src/policy.ts:388-462 | the run path: first existing file, unreadable, malformed with and without the key, opted in, or none |
| `Policy.OptInNeverOff` | src/policy.ts:357-372 | a deciding file that declares the gate is never resolved to off, and a warning means malformed without the key |
| `Policy.FirstFileDecides` | src/policy.ts:388-462 | the project file decides whenever it exists, whatever the global one says; the global one decides else, just as it would in its place; without either nothing is denied and nothing warned of |
| `Policy.LoadPolicyForWrap` | src/policy.ts:753-817 | the wrap path: the same deciding file, its policy or the deny-nothing one |
| `Policy.LoadersAgree` | src/policy.ts:715-817 | whatever the two files read as, both paths report the same status, digest and source |
| `Policy.EvaluatePolicy` | src/policy.ts:560-594 | the two loops compute the first applicable deny rule, else the first dry-run rule, else allow |
| `Policy.Precedence` | src/policy.ts:536-594 | deny if and only if some deny rule applies, dry-run if and only if none does and some dry-run rule matches |
| `Policy.DecidedByFirst` | src/policy.ts:536-594 | a call is denied by a rule if and only if it is the first whose tool glob matches the call or whose endpoint glob matches one of its hosts, rules that `--allow-writes` lifts left out |
| `Policy.FindUnmatchedToolRules` | src/policy.ts:890-904 | reports, in order, every tool glob that matches no available tool |
| `Policy.DeadRulesAreDead` | src/policy.ts:867-904 | deleting every reported rule without an endpoint changes no verdict on an available tool |
| `Policy.ReportedMayFire` | src/policy.ts:890-904 | a reported rule with an endpoint may still decide |
| `Projection.KeyDecides` | src/expect-mac.ts:218-227 | two entries reported under one key find the same |
| `Projection.ProjectObservationTyped` | src/expect-mac.ts:168-199 | projects exactly the keys whose entries are present, with their typed values |
| `Projection.BodyFindingExactly` | src/expect-mac.ts:168-199 | a body entry is found with a value exactly if that very scalar stands in the body under its field |
| `Projection.BodyMissExactly` | src/expect-mac.ts:252-285 | a body entry is missing exactly if the body parsed and has no such member, and nothing is established exactly without a body or over a member that is no scalar |
| `Projection.HeaderFindingExactly` | src/expect-mac.ts:287-304 | a header entry is missing exactly if no header has its name in any case; the first of exactly that name decides, else the first in any case, and an empty one establishes nothing |
| `Projection.ProjectionMisses` | src/expect-mac.ts:252-285 | absent are exactly the keys missing from a usable namespace, unprojectable those about which nothing is established |
| `Projection.Observe` | src/expect-mac.ts:168-285 | the two loops together put every declared key in exactly one of projected, absent and unprojectable; `status.code` is always projected |
| `Projection.AssertArtifactProjection` | src/artifact.ts:90-110 | accepts exactly the non-empty lists of at most 32 distinct, well-formed `args.` entries |
| `Projection.ProjectArtifact` | src/artifact.ts:129-151 | emits exactly the declared entries whose argument is a scalar, with its value; throws exactly on an invalid list or a `__proto__` key |
| `Projection.PartitionArtifact` | src/artifact.ts:167-178 | the resolved half is what is emitted, the other half what is not, both in declared order |
| `Projection.HalvesPartition` | src/artifact.ts:153-178 | the halves are order-preserving, disjoint and together the declared list |

## Left out

- Network, process and terminal code, and all console text: only outcomes enter, as inputs of the model.
- SHA-256, HMAC, Ed25519 and key generation: commitments are compared by what they are computed over.
- Floating point: numbers are their printed form in JSON, and exact reals in the statistics.  NaN and the
  infinities, which print as null, are not values of the model.
- Regular expressions beyond the fixed line shapes: `evalAssert`'s own patterns, and the glob engine of
  the policy, whose results are functions the evaluation is proved for whatever they are.
- ApproveLoop.Session.ProcessStep: the commitment functions' own refusals (a blank tool name, a
  `__proto__` key) do not occur as outcomes; the manifest and changelog writes after the loop are not modelled.
- ApproveLoop.ApproveSteps: a concurrent prune of the keystore during an interactive session is not
  modelled, since the skill file is written only at its end.
- Keystore.StepKeepsInv: nobody but the modelled processes deletes lock files, and the content of a temp
  file is torn or whole, not a byte range.
- InitializerTheorems.RecoversFromKill: pids are not reused, reading a lock and probing its owner is one
  step, each inspection is one step, and no process dies while it owns a written `.recovery`.  The source
  removes such a file of a dead process, as the model's `ClearRecovery` does; `InitializerOutcomes.TwoHolders`
  shows why the invariants need the assumption.
- Compile.CompileCalls: argument keys that are empty, hold a dot or are `__proto__`, for which `setAtPath`
  writes beside the leaf; a reused leaf whose bind cannot read it back (what that bind does instead is exact
  in `Binds.HitExactly`) or ends in `__proto__`, a name that cannot be assigned; the presence asserts, open
  questions and date lints that accompany a step.
- Binds.HitExactly: a path that runs into a property every object or array inherits, such as `constructor`,
  whose value is no JSON.
- Replay.ReplayExactly: arguments that themselves contained `{{name}}` when recorded are excluded; a name that
  is bound by nothing makes the fill throw, which compiled args never do.
- CanonicalJson.SortValue: BigInts, functions and symbols, which the wire format has not; the loop runs
  over the members in list order and relies on the engine's key order, not on the source's prior sort.
- Provenance.BuildSourceIndex: the error for an unknown source kind, since kinds are a closed type; Unicode
  normalization and number spelling are functions of the host.
- ProvenanceTrace.AnalyzeTrace: finding the one parseable text block of a tool result; a body is its
  addressable value or undefined.
- RunShape.ComputeRunShape: deriving the counters from a record's steps.
- Ledger.RunLedger.Resolve: manifest comparison, keystore reading and the fill of probe args, each a yes or
  no of the world; two passes at once.
- Push.Pusher.Push: signatures, timestamps, attestation and cost riding along with a record.
- Policy.ValidatePolicyObject: the texts and number of errors; whether there is one is modelled.
- Login, discovery, inventories, rendering, scaffolding, cost, footprints and the other small modules:
  branching over shapes without an invariant of their own.
