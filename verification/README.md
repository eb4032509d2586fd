# PeopleBot protocols, modelled and proved

PeopleBot coordinates agents through Git: every durable change is a compare-and-swap on one or several refs,
a process may die between any two of its steps, and other processes may move in between. This project models
those protocols and proves what they keep over whole runs. `dafny verify dfyconfig.toml` checks it.

## How the models are built

The commit graph, the refs, the remote and the locks are values; a commit is its own content (tree, parents,
record), so object IDs are injective. Every write of a ref meets a fault that is chosen freely: done, refused,
stalled before the commit, or *raised although it landed*.

Each protocol has a specification function that yields the list of all durable points one call passes through,
together with its result. A crash at any step leaves exactly one element of that list behind, so an invariant
over the list is an invariant under crashes. Where the repository changes state step by step (a tick, the
development loop, a recovery, a collection, a publication), a class with those fields and methods performs the
steps and is proved to produce exactly that list; the properties are then proved about the lists and about
arbitrary sequences of calls, faults and interference. Parsers and selections are methods with loops, proved
against recursive functions, which are in turn proved inverse to a printer or equal to a declarative condition.

What an operation answers is proved apart from how it is computed: for every report, the `…Reports` modules say
exactly when it is given, in terms of what the call met and of the durable state it leaves.

| part | modules |
|---|---|
| ref transactions | `Refs` (vocabulary in `Common`) |
| work cycle and reader reconciliation | `Inbox`, `WorkCycle`, `WorkCycleRuns`, `WorkCycleOrder`, `WorkCycleInbox`, `WorkCycleReports` |
| development workflow | `Development`, `DevelopmentRuns`, `DevelopmentReports` |
| memory recovery | `Recovery`, `RecoveryRuns`, `RecoveryLineage`, `RecoveryReports` |
| memory checkpoints, their validation and publication | `MemoryTree`, `Memory`, `MemoryAgreement`, `Lineage`, `Checkpoints`, `Synchronization`, `SynchronizationReports` |
| usage collection | `Usage`, `UsageRuns`, `UsageEvents` |
| append-only messaging | `Messaging`, `MessagingRuns`, `MessagingReports` |
| admission and execution provenance | `Admission`, `Provenance`, `ProvenanceCall` |
| context selection | `Manifest`, `ManifestReports` |
| framed parsers | `Framing`, `GitRecords`, `FramingReports` |
| bounded capture of a child process | `Capture`, `CaptureReports` |

## What the code does not do

The models follow the code. Where an expected property is false of it, a lemma gives the failing input or the
exact condition under which it holds.

- A checkpoint with the items `a` and `memory/a` is stored but can never be published: the validator's
  uniqueness test compares item paths with Git paths. Writer and validator agree exactly when no item path is
  the Git path of an item sorted before it (`MemoryAgreement.WriterMeetsValidator`).
- Authorizing the baseline itself as expected remote State works only if the baseline is a valid checkpoint
  (`Lineage.SavedIsPublishable`).
- A development task whose ID has more than 114 characters is imported and can never start
  (`DevelopmentRuns.FirstReservationFits`).
- A claim left by a dead tick, a permitted stop, and an unresolved task whose message was read from a peer's
  repository cannot be reconciled: the reader is stopped for good (`WorkCycleRuns.UnclosableIsForever`,
  `WorkCycleRuns.ForeignTaskIsStuck`). A blocked reader whose record can be read back can be freed
  exactly if its barrier says UNRESOLVED for a message of the local repository (`WorkCycleRuns.FreedIffClosable`).
- `work_invoked` is true also if the routed handler is not registered (`WorkCycleRuns.WorkInvokedOverstates`).
- A usage collection that dies inside a ledger line makes every later one fail (`UsageRuns.TornLedgerIsForever`);
  if only the newline is missing, they fail from the first event on that the ledger lacks, and complete until
  then (`UsageRuns.NextEventTears`).
- A message stored but not pushed blocks its publisher; publishing the tip by itself repairs it
  (`MessagingRuns.BehindIsStuck`, `MessagingRuns.PublishingTheTipRepairs`). With everything working a new message
  is published exactly when both ends are level (`MessagingRuns.PublishesIffLevel`). Sending an older message again
  reports FAILED though it is published (`MessagingRuns.OnlyTheTipVerifiesAgain`). The 257th message makes a
  history unreadable (`MessagingRuns.FullHistoryTakesOneMore`).
- A recovery that reports a timeout or a failed persistence of its publication may have moved the canonical
  ref: it has exactly if the failure was raised after the commit landed (`RecoveryRuns.UnverifiedYetMoved`).
  After any other unverified report it has not (`RecoveryRuns.UnverifiedMovedNothing`).
- A run result may name a retained admission whose lock is free, after a close that failed behind a successful
  unlock (`ProvenanceCall.ReportedButFree`); `owns_admission` of that handle tells. A task that ends by another
  exception, such as a keyboard interrupt, with a failed unlock leaves the lock held and nobody told
  (`ProvenanceCall.KeptButUnreported`). `ProvenanceCall.RetentionIsExact` says that these are all the cases.
- Reconciliation of a memory publication reports FAILED for a State that is published and has been built on
  (`Synchronization.ReconciliationTells`).
- A rename shown only in the worktree column of a status record is misread or refused
  (`GitRecords.WorktreeRenameMisread`); every other record is read rightly (`GitRecords.RecordRoundTripIff`).
- A rejected attempt uses its execution ID up (`Provenance.SpentIdentityNeverRuns`): with the Instance
  free, and locks and Git working, a call enters its task exactly if its identities have at most 256
  characters, no record exists for its identity, and its starting State belongs to the evidence store and
  resolves there (`Provenance.LaunchedExactly`).
- Context requests are counted before repetitions are dropped, so repeating requests can have them refused
  (`Manifest.OrderAndRepetitionDoNotMatter`).

## Model

| member | source | states |
|---|---|---|
| Refs.RefStore.UpdateRefs | peoplebot/provenance.py:420-605 | The ref transaction: entries are checked, all prepared, then committed or aborted; outcome and refs afterwards are exactly those of the transaction function, for every fault. |
| Refs.TransactionIsAtomic | peoplebot/provenance.py:420-605 | All-or-nothing: either no ref changed, or every named ref held its expected value and now holds its target and no other ref moved; a reported commit means the second, every report but a timeout means the first. |
| Refs.ConflictIsExact | peoplebot/provenance.py:527-550 | A working Git reports a conflict if and only if some named ref differs from its expected value. |
| Refs.OutcomeTells | peoplebot/provenance.py:420-605 | Committed if and only if the input is well formed, every ref is direct and as expected, and nothing goes wrong; what each refusal, timeout and failed persistence says about input, refs and Git. |
| Refs.CasIsTransact | peoplebot/provenance.py:389-418 | The single-ref write is the one-entry transaction, and touches no other ref. |
| Inbox.SortSorts | peoplebot/work_cycle.py:1046-1052 | The candidate order is total by (created_at, message_id) and a permutation of the candidates. |
| Inbox.SortCommutesWithUnhandled | peoplebot/work_cycle.py:1015-1052 | Leaving out handled messages before or after sorting gives the same queue. |
| Inbox.FirstsAreDistinct | peoplebot/work_cycle.py:1015-1052 | The queue of first occurrences has distinct message IDs, all of them received. |
| Inbox.RemainderAfter | peoplebot/work_cycle.py:1015-1052 | With the first k distinct messages handled, what is left starts with the next one, and is empty exactly at the end, also when an ID comes from several sources. |
| WorkCycle.Cycle.Save | peoplebot/work_cycle.py:336-381 | One guarded write of reader progress: the ref moves only from the expected commit, and may have moved although an error was raised. |
| WorkCycle.Cycle.Survey | peoplebot/work_cycle.py:964-1002 | The barrier records in order and the number of completed or failed ones. |
| WorkCycle.Cycle.Collect | peoplebot/work_cycle.py:1018-1028 | The addressed task and stop messages of one source that are not handled yet, in order. |
| WorkCycle.Cycle.ReadSources | peoplebot/work_cycle.py:1015-1028 | Source by source, cursors of the non-empty ones and unhandled candidates; the first unreadable source ends the reading. |
| WorkCycle.Cycle.RunTick | peoplebot/work_cycle.py:911-1180 | One owned tick: status and every durable point it passes through are those of the tick function, branch by branch. |
| WorkCycle.Cycle.RunClaimed | peoplebot/work_cycle.py:1072-1180 | From the claim on: nothing is dispatched unless the claim was reported durable. |
| WorkCycle.Cycle.RunDispatch | peoplebot/work_cycle.py:1052-1092 | The local decision or one handler call, an exception becoming an unresolved result. |
| WorkCycle.Cycle.RunFinish | peoplebot/work_cycle.py:1100-1180 | Memory checkpoint, reply, final record on top of the claim; anything short of a verified reply is recorded as unresolved. |
| WorkCycle.Cycle.RunReconciliation | peoplebot/work_cycle.py:716-828 | Reader reconciliation, with its refusal of States outside the local repository and its busy, stopped, repeated, conflicting, changed and rejected outcomes. |
| WorkCycleRuns.TickGood | peoplebot/work_cycle.py:911-1180 | Every world inside a tick keeps the record invariant and what came before; a tick raises only if its times are out of order, two sources name one ref or the reply record is refused, never because of the 256-record bounds. |
| WorkCycleRuns.ReconcileGood | peoplebot/work_cycle.py:716-828 | Every world inside a reconciliation keeps the invariant; the record it writes is never refused, and success puts it into durable history. |
| WorkCycleRuns.HandlerCalledAtMostOnce | peoplebot/work_cycle.py:1072-1092 | Over all runs with deaths between any two steps and writes that raise but land: no message ID reaches a handler twice, and each call happens while the durable record of its message says CLAIMED. |
| WorkCycleRuns.CompletedMeansDelivered | peoplebot/work_cycle.py:1100-1180 | A durable COMPLETED record means its handler ran and its reply was verified. |
| WorkCycleRuns.RecordStaysBounded | peoplebot/work_cycle.py:153-179 | Over all runs at most one task is a barrier and it is last; tasks and reconciliations stay within 256; no task is reconciled twice. |
| WorkCycleRuns.HistoryOnlyGrows | peoplebot/work_cycle.py:668-688 | Handled messages, settled records and reconciliation history only accumulate. |
| WorkCycleRuns.BarrierStopsTick | peoplebot/work_cycle.py:964-996 | With a durable CLAIMED, UNRESOLVED or STOPPED record a tick calls nothing and changes nothing. |
| WorkCycleRuns.UnclosableIsForever | peoplebot/work_cycle.py:725-806 | A claim left by a dead tick, a permitted stop, and an unresolved task whose message was read from another repository can never be cleared: no later tick or reconciliation changes anything. |
| WorkCycleRuns.ReconciliationIsExact | peoplebot/work_cycle.py:725-822 | With everything working a reconciliation goes through if and only if its ID is new, it names the present progress, its unresolved task is the last record, and the States of progress and message are in the local repository; no barrier is left afterwards. |
| WorkCycleRuns.FreedIffClosable | peoplebot/work_cycle.py:725-822 | A blocked reader can be freed by some valid reconciliation if and only if its barrier says UNRESOLVED and its message was read from the local repository. |
| WorkCycleRuns.ForeignTaskIsStuck | peoplebot/work_cycle.py:725-729 | The failing input: after one ordinary tick that leaves its task unresolved, the reader can be freed if and only if the source of that message is in the local repository. |
| WorkCycleRuns.ReconciliationIsRepeatable | peoplebot/work_cycle.py:752-784 | Repeating an applied reconciliation after any later ticks and reconciliations is acknowledged and changes nothing. |
| WorkCycleRuns.WorkInvokedOverstates | peoplebot/work_cycle.py:1163-1180 | The status flag work_invoked differs from whether a handler was called exactly when the route names an unregistered handler. |
| WorkCycleOrder.NextInQueue | peoplebot/work_cycle.py:1046-1083 | An undisturbed tick claims exactly the next message of the queue and settles it behind the earlier records. |
| WorkCycleOrder.TicksFollowTheQueue | peoplebot/work_cycle.py:998-1080 | The n-th tick claims the n-th distinct addressed message in (created_at, message_id) order, for exactly as many ticks as there are messages or the policy allows; every later tick reports exhausted or idle. |
| WorkCycleInbox.ReceivedExactly | peoplebot/work_cycle.py:1015-1028 | What a reader receives is exactly the tasks and stops addressed to its environment in some readable source; replies never. |
| WorkCycleInbox.SortIsStable | peoplebot/work_cycle.py:1046-1052 | Of messages with equal creation time and ID the one met first stays first, so the State of the earlier source is claimed. |
| WorkCycleInbox.QueueHoldsTheSent | peoplebot/work_cycle.py:1015-1052 | The queue is sorted, holds only what some source sent to the reader, and for every message sent one of its ID that is no younger. |
| WorkCycleInbox.CursorsTell | peoplebot/work_cycle.py:1029-1071 | An undisturbed tick with room left ends with a record whose cursors are exactly the tips of its sources, one for each source that has one, in source order. |
| WorkCycleReports.TickOutcome | peoplebot/work_cycle.py:1052-1180 | From a durable claim to the final record: which handler is called, the disposition, the States and the flags that are recorded and reported. UNRESOLVED if and only if the handler raised or said so, the memory of its result was lost, or the reply is not verified; the reader is then blocked, as after a stop, and not otherwise. |
| WorkCycleReports.RaisingHandlerBlocks | peoplebot/work_cycle.py:1083-1089 | A handler that raises leaves the reader blocked with a durable UNRESOLVED record, whatever memory and reply do. |
| WorkCycleReports.LostClaimReports | peoplebot/work_cycle.py:1072-1096 | A claim whose write is reported failed calls no handler and is reported as a failed persistence; it is durable exactly if it landed. |
| WorkCycleReports.HaltReports | peoplebot/work_cycle.py:929-1013 | Stop file, busy Instance, each kind of barrier and an exhausted budget are reported exactly when they hold; a barrier with its States; nothing changes. |
| WorkCycleReports.ReconciliationReports | peoplebot/work_cycle.py:725-806 | Each refused reconciliation is refused exactly for its reason, and changes nothing. |
| WorkCycleReports.ReconciledTells | peoplebot/work_cycle.py:786-828 | A reported reconciliation is durable on top of the prior State: the prior task marked failed, this reconciliation appended, nothing else changed. |
| Development.Workflow.RunHandler | peoplebot/development.py:2225-2559 | The handler call: result and every durable point and runner call are those of the workflow function. |
| Development.Workflow.RunImport | peoplebot/development.py:2259-2273 | A fresh task is bound to its digest and authority and recorded once. |
| Development.Workflow.RunResume | peoplebot/development.py:2274-2303 | An existing record: binding mismatch, terminal stages, stages left reserved and the elapsed-time stop. |
| Development.Workflow.RunLoop | peoplebot/development.py:2305-2559 | The unbounded loop, proved to terminate by a decreasing measure, against the recursive meaning of the loop. |
| Development.Workflow.RunPass | peoplebot/development.py:2305-2559 | One pass: implementation unless a candidate is ready, then one review. |
| Development.Workflow.RunReservation | peoplebot/development.py:2315-2342 | Budget check, reservation and its durable write come before the launch. |
| Development.Workflow.RunImplementer | peoplebot/development.py:2343-2424 | The launch of the reserved implementer and the record of its result, with all its stops. |
| Development.Workflow.RunReviewer | peoplebot/development.py:2426-2559 | The launch of the reserved reviewer: accepted, findings, correction or stop. |
| Development.Workflow.RunExport | peoplebot/development.py:3208-3229 | The export step: EXPORTED from ACCEPTED only, any other stage kept. |
| DevelopmentRuns.LoopGood | peoplebot/development.py:2305-2559 | From any loop head every world of the loop keeps the invariant, and neither budget stop nor missing findings is reported. |
| DevelopmentRuns.HandleGood | peoplebot/development.py:2225-2559 | The same for a whole handler call from any reachable record. |
| DevelopmentRuns.AccountingIsExact | peoplebot/development.py:2305-2559 | At every durable point of every run the stage fixes the number of reservations (0, 2c+1 or 2c+2 for c corrections used), every finished invocation has one report, and neither exceeds the budget. |
| DevelopmentRuns.BudgetStopsAreUnreachable | peoplebot/development.py:2315-2350 | No call ends in invocation_budget_exhausted, in correction.findings_unavailable or in the candidate assertion; completion is reported only for a durable ACCEPTED or EXPORTED record. |
| DevelopmentRuns.OneLaunchPerReservation | peoplebot/development.py:849-875 | Every launch is reserved first and no reservation is launched twice, also inside calls that die; all but at most the last reservation are launched, in order. |
| DevelopmentRuns.RunOnlyExtends | peoplebot/development.py:849-875 | The call log and the durable reservations only extend, and a terminal stage is left at most by export. |
| DevelopmentRuns.AcceptedMeansReviewed | peoplebot/development.py:2464-2545 | A durable ACCEPTED or EXPORTED record means the last reviewer answered no_findings for exactly the durable candidate, which the implementer before it produced. |
| DevelopmentRuns.ExportFollowsAcceptance | peoplebot/development.py:3208-3229 | EXPORTED is entered only from ACCEPTED, in one durable step that keeps the candidate. |
| DevelopmentRuns.CorrectionsBuildOnTheCandidate | peoplebot/development.py:2343-2380 | The first implementer starts from the base commit, each later one from the candidate that was faulted, and each reviewer sees the candidate just produced. |
| DevelopmentReports.HandleOutcome | peoplebot/development.py:2305-2559 | An undisturbed call ends as its first round that asks for no further correction, or has none left, says: accepted, findings, failed for a clean stop or an ordinary reviewer failure, unresolved otherwise; with its outcome, candidate, evidence and findings on record, and the flag of started processes. |
| DevelopmentReports.AcceptedExactly | peoplebot/development.py:2457-2552 | An undisturbed task is accepted, durably and in the result, if and only if some review within the correction budget finds nothing and every earlier one had findings. |
| DevelopmentReports.ImportTells | peoplebot/development.py:2259-2273 | The first record of a task names the task and its authority, and nothing else yet. |
| DevelopmentReports.HandleRefusals | peoplebot/development.py:2226-2282 | Why a call is turned away before its record is used, each answer exactly for its reason. |
| DevelopmentReports.ResumeReports | peoplebot/development.py:2274-2294 | A terminal or still reserved record is only reported: completed exactly for ACCEPTED or EXPORTED, failed exactly for FINDINGS or FAILED. |
| DevelopmentReports.ElapsedReports | peoplebot/development.py:2295-2336 | A stop for want of time before the start, an implementation or a review is recorded and reported failed, and reported unresolved if it cannot be written. |
| DevelopmentReports.LostReservationReports | peoplebot/development.py:2334-2342 | A reservation whose write fails launches nothing and is reported unresolved. |
| DevelopmentReports.ImplementerReports | peoplebot/development.py:2343-2424 | No time at the launch raises and changes nothing; a candidate that cannot be recorded ends unresolved; without a candidate the call ends as the implementer said, recorded or not. |
| DevelopmentReports.ReviewerReports | peoplebot/development.py:2426-2559 | A review without an answer ends as its run says, recorded or not; an answer that cannot be recorded ends unresolved; correctable findings with no time left end failed before the correction. |
| DevelopmentReports.ExportReports | peoplebot/development.py:3208-3229 | The export step is reported done exactly if a record exists and this reply is already exported or the write succeeds; the record then holds the reply and is EXPORTED if and only if its candidate was accepted. |
| DevelopmentRuns.ReservedIsForever | peoplebot/development.py:2283-2286 | An invocation in flight when its process died is never launched again: apart from the reply it names, the record stays as it is. |
| DevelopmentRuns.OverlongTaskNeverStarts | peoplebot/development.py:694-740 | A task ID of more than 114 characters is imported but never reserves or calls anything. |
| DevelopmentRuns.FirstReservationFits | peoplebot/development.py:2323-2342 | With time left, starting an imported task raises for its identifier if and only if the ID has more than 114 characters. |
| Recovery.RefsApart | peoplebot/synchronization.py:1002-1021 | Owner, quarantine and canonical refs are three refs, and two operations share one only if they share their identity. |
| Recovery.Recoverer.OpenOperation | peoplebot/synchronization.py:1146-1216 | Claim or resume: the first transaction, and every refusal before it. |
| Recovery.Recoverer.FetchAndQuarantine | peoplebot/synchronization.py:1217-1310 | Fetch and the quarantine transaction, with their failed and uncertain reports. |
| Recovery.Recoverer.PublishAndClean | peoplebot/synchronization.py:1311-1428 | Lineage and ancestry objections, the publication and the cleanup transaction. |
| Recovery.Recoverer.RecoverInstanceMemory | peoplebot/synchronization.py:1124-1428 | The whole recovery: result and every ref change, others' included, are those of the recovery function. |
| RecoveryRuns.RecoveryIsGuarded | peoplebot/synchronization.py:1124-1428 | Under any interference every own change is one of four guarded transactions; the canonical ref moves only from exactly the expected value to the recovered State while marker and quarantine are in place; REMOTE_VERIFIED only after that move. |
| RecoveryRuns.OnlyPublicationMovesCanonical | peoplebot/synchronization.py:1337-1368 | Nobody but the publication step and outsiders moves the canonical ref. |
| RecoveryRuns.UnverifiedMovedNothing | peoplebot/synchronization.py:1341-1380 | Unless REMOTE_VERIFIED, a timeout or a failed persistence is reported, the recovery itself moved no canonical ref. |
| RecoveryRuns.UnverifiedYetMoved | peoplebot/synchronization.py:1341-1380 | A first attempt whose publication transaction alone fails is never verified, and has moved the canonical ref all the same if and only if the failure was raised after the commit landed; its report is then a timeout or a failed persistence. |
| RecoveryRuns.InterruptedStates | peoplebot/synchronization.py:1146-1428 | Over any run of attempts dying anywhere, each operation is untouched, claimed, or claimed and quarantined: never a quarantine without its owner marker. |
| RecoveryRuns.InterruptedStages | peoplebot/synchronization.py:1146-1428 | With nobody else at the Instance the canonical ref is as it was at the start or at the recovered State, and moves only while owner and quarantine are both there: before and after publication are told apart. |
| RecoveryRuns.ResumeCompletes | peoplebot/synchronization.py:1146-1216 | A resumed recovery without interference completes if and only if it finds its own marker, its own or no quarantine, and the canonical ref at the value it expects; both recovery refs are then gone. |
| RecoveryRuns.FirstAttemptCompletes | peoplebot/synchronization.py:1146-1216 | A first attempt completes if and only if neither recovery ref exists and the canonical ref is as expected. |
| RecoveryRuns.FirstAttemptPreservesClaim | peoplebot/synchronization.py:1160-1180 | Without the explicit continuation a claimed operation is refused and no ref changes. |
| RecoveryRuns.CrashThenResume | peoplebot/synchronization.py:1146-1428 | A first attempt dies anywhere under any faults: either no recovery ref is left, or the resumed request expecting the present canonical value completes the recovery. |
| RecoveryReports.RetentionTells | peoplebot/synchronization.py:1078-1093 | With nobody else about, a report that says whether recovery refs are retained is right about the refs it leaves; it says nothing only if a ref could not be inspected, and a symbolic ref counts as retained. |
| RecoveryReports.FetchReports | peoplebot/synchronization.py:1217-1275 | A fetch that breaks off or is refused is reported uncertain, one that does not bring the State failed, each with its reason, and the claim still stands. |
| RecoveryReports.ObjectionReports | peoplebot/synchronization.py:1311-1340 | A quarantined operation that meets an objection fails for the first that holds in the order of the tests, and every ref stays as it was. |
| RecoveryReports.RefusalReports | peoplebot/synchronization.py:1132-1216 | Remote mismatch, foreign owner and quarantine conflict are raised exactly when they hold, before any ref is changed. |
| RecoveryReports.LateQuarantineIsRetained | peoplebot/synchronization.py:1181-1216 | A quarantine that others put up right behind the claim is reported failed and retained, and it is there. |
| RecoveryLineage.PublicationIsApproved | peoplebot/synchronization.py:1311-1340 | No recovery reaches its publication step unless lineage, binding, ancestry and branch tests all passed. |
| RecoveryLineage.RecoveredIsValidated | peoplebot/synchronization.py:1311-1368 | With those tests being the ones of the lineage model: whatever the recovery itself puts on the canonical ref has an accepted lineage, every commit above the baseline is a validated checkpoint, and the replaced State is a valid ancestor. |
| RecoveryLineage.VerifiedIsValidated | peoplebot/synchronization.py:1318-1428 | REMOTE_VERIFIED is reported only for a State with an accepted lineage that descends from the expected local State. |
| MemoryTree.BuildTree | peoplebot/memory.py:198-213 | Entries are inserted one by one into the nested tree; this succeeds if and only if no path equals or leads through another. |
| MemoryTree.BuilderIsExact | peoplebot/memory.py:198-228 | The builder succeeds exactly on sets of paths of which none is a component-wise prefix of another. |
| MemoryTree.FlattenedIsEntries | peoplebot/memory.py:198-228 | Reading the built tree back gives exactly the entries put in. |
| MemoryTree.BuildIgnoresOrder | peoplebot/memory.py:198-228 | The same entries in any order give the same tree. |
| MemoryTree.JoinedParts | peoplebot/memory.py:201-205 | Splitting a path at its separators loses nothing. |
| MemoryTree.PartsUnder | peoplebot/memory.py:85-100 | A path put under a directory is that directory followed by its own parts. |
| Memory.CheckOrder | peoplebot/synchronization.py:462-612 | The sorted-and-unique test as one pass over neighbours: accepted exactly for strictly increasing paths. |
| Memory.CheckItems | peoplebot/synchronization.py:462-612 | The item loop: every item by itself, the uniqueness test as it is coded, and the sum of the sizes. |
| Memory.ValidateTree | peoplebot/synchronization.py:462-612 | The validator accepts exactly the trees that satisfy its tests and equal the tree rebuilt from their own metadata. |
| MemoryAgreement.ValidTreeIsDeclared | peoplebot/synchronization.py:462-612 | An accepted commit holds its metadata record and the declared items under memory/ with the declared objects, and nothing else. |
| MemoryAgreement.SameTree | peoplebot/memory.py:230-256 | Writer and validator insert in different orders and get the same tree. |
| MemoryAgreement.WriterSucceeds | peoplebot/memory.py:278-340 | The writer stores a checkpoint if and only if its metadata is short enough and no item path is a directory of another. |
| MemoryAgreement.WriterMeetsValidator | peoplebot/synchronization.py:462-612 | The validator accepts a stored checkpoint if and only if no item path is the Git path of an item sorted before it. |
| MemoryAgreement.UnpublishableCheckpoint | peoplebot/synchronization.py:517-560 | The failing input: items "a" and "memory/a" are committed and can never be published. |
| MemoryAgreement.AcceptedExactly | peoplebot/synchronization.py:462-612 | The exact image: a commit tree passes validation if and only if the writer stores it for some well-formed request in which no item path is the Git path of an item sorted before it. |
| Lineage.CheckChain | peoplebot/synchronization.py:681-703 | The commit loop accepts exactly single-parent chains of valid checkpoints on the baseline, and tells which fault came first. |
| Lineage.CheckRemote | peoplebot/synchronization.py:704-711 | The expected remote State must lie in the lineage or be the baseline, and itself be a valid checkpoint. |
| Lineage.ValidateLineage | peoplebot/synchronization.py:642-711 | The lineage test with the condition of each refusal. |
| Lineage.AcceptedIsTheChain | peoplebot/synchronization.py:642-711 | An accepted list ends at the published State, is the whole history difference, one chain on the baseline, and every commit in it was validated. |
| Lineage.LineageIsExact | peoplebot/synchronization.py:642-711 | Accepted if and only if a single-parent chain of at most the maximum number of valid checkpoints leads from baseline to State and the expected remote State is absent or a valid one of them; that chain is the list. |
| Lineage.SavedIsPublishable | peoplebot/synchronization.py:642-711 | What the writer saved one after the other can be published exactly when it is not too long, no checkpoint has the path clash, and the expected remote State is absent, one of them, or a baseline that is itself valid. |
| Checkpoints.MemoryStore.Save | peoplebot/memory.py:278-375 | One checkpoint: unchanged, stored, refused or lost, with the ref moved only from the expected State. |
| Checkpoints.RefStandsOnItsCheckpoints | peoplebot/memory.py:278-375 | Whatever is saved, refused, raised or lost, the memory ref stands on an unbroken chain of this writer's checkpoints. |
| Checkpoints.EarlierStatesStay | peoplebot/memory.py:278-375 | Each value of the memory ref has every earlier one as an ancestor. |
| Checkpoints.SaveReports | peoplebot/memory.py:278-375 | A save is reported done exactly if the checkpoint can be stored, the ref is where the request expects it and the write succeeds; the ref then holds the reported State, the expected one or its child with the requested content. A refusal moves nothing. |
| Checkpoints.SaveRefusals | peoplebot/memory.py:278-340 | Foreign metadata, too long metadata, overlapping paths and a checked-out destination are reported exactly when they hold, in this order. |
| Synchronization.Synchronizer.PushAndInspect | peoplebot/synchronization.py:882-945 | Push, then look: uncertain for every missing answer or mismatch, verified only if the remote stands at the State. |
| Synchronization.Synchronizer.SynchronizeMemory | peoplebot/synchronization.py:822-945 | Lineage, source ref, destination and remote are checked in this order before the push; result and remote are those of the publication function, whatever arrives in between. |
| Synchronization.Synchronizer.ReconcileMemory | peoplebot/synchronization.py:948-999 | The later look, without a push. |
| Synchronization.PushAddsTheChainAbove | peoplebot/synchronization.py:642-711 | A push from the expected remote State is a fast-forward and adds exactly the validated commits above that State; a first publication adds the chain and the baseline with its history. |
| Synchronization.RemoteOnlyGrows | peoplebot/synchronization.py:872-945 | Over any run, with late pushes and other writers, no State leaves the history of the remote. |
| Synchronization.OnlyValidatedCommitsArePublished | peoplebot/synchronization.py:872-945 | Every commit in the history of the remote was there before, was brought by somebody else, belongs to an authorized baseline, or passed validation. |
| Synchronization.VerifiedMeansPublished | peoplebot/synchronization.py:925-945 | REMOTE_VERIFIED means the lineage was accepted and the remote stood at the State. |
| Synchronization.VerifiedIsForever | peoplebot/synchronization.py:925-945 | And the State stays in the history of the remote from then on. |
| Synchronization.SynchronizeCompletes | peoplebot/synchronization.py:822-945 | Undisturbed, a publication is verified if and only if the lineage is accepted and the remote is as expected; otherwise it raises and changes nothing. |
| Synchronization.AttemptStaysOpen | peoplebot/synchronization.py:880-925 | Without other writers an attempt that is uncertain or dies leaves the remote at the expected or at the attempted State, in every later attempt too. |
| Synchronization.ReconciliationNeverBlames | peoplebot/synchronization.py:948-999 | Looking again at such an attempt never reports an intervening State. |
| Synchronization.ReconciliationTells | peoplebot/synchronization.py:967-999 | Verified means published and a prior State means not published; a published State that is no longer the tip is reported FAILED. |
| SynchronizationReports.SynchronizationRefusals | peoplebot/synchronization.py:822-905 | Each refusal before the push exactly for its reason, with the remote as others left it. |
| SynchronizationReports.SynchronizationReports | peoplebot/synchronization.py:906-945 | Each report of a push exactly when its reason holds: verified takes a push that succeeded and a look that finds the State, nothing is ever reported failed, and only a push that was stopped or broke off is still under way. |
| SynchronizationReports.LookReports | peoplebot/synchronization.py:948-999 | The later look pushes nothing; verified, prior State and intervening State are told exactly by what the remote holds then. |
| Usage.Collector.ExistingKeys | peoplebot/usage.py:342-358 | The event identities of the ledger. |
| Usage.Collector.TakeNew | peoplebot/usage.py:460-463 | Of the events of one line, those with a new identity, each once. |
| Usage.Collector.ParseNew | peoplebot/usage.py:447-463 | Line by line with the position of each line: exactly the new events of that stretch, in order. |
| Usage.Collector.AdvanceLedger | peoplebot/usage.py:443-477 | Parse, append, move the cursor; a process may die inside the append or before the cursor write. |
| Usage.Collector.CollectUsage | peoplebot/usage.py:405-489 | One collection: missing source, shorter source, changed prefix, unreadable ledger, or progress. |
| UsageRuns.LinesDistribute | peoplebot/usage.py:451-453 | Splitting at LF, CR and CR LF distributes over cuts made just after LF. |
| UsageRuns.CutAfterCrDiffers | peoplebot/usage.py:445-451 | A cut after CR would split a line terminator. |
| UsageRuns.ParseBeyond | peoplebot/usage.py:443-463 | A parse of the whole source is the parse up to a cursor followed by the parse from there, with unchanged line positions. |
| UsageRuns.LedgerIsOneParse | peoplebot/usage.py:405-489 | However the source grew and wherever collections died, a completed one leaves the ledger equal to one parse of all newline-terminated content, without repetitions, and the cursor at its end. |
| UsageRuns.LedgerIsAlwaysAPrefix | peoplebot/usage.py:464-470 | In between, the ledger is always the beginning of that parse, without repetitions. |
| UsageRuns.NoCollectionFails | peoplebot/usage.py:433-442 | On such runs no collection reports a shorter source, a changed prefix or an unreadable ledger, and the cursor never moves back. |
| UsageRuns.CrashWithinALine | peoplebot/usage.py:464-470 | A death inside a record line tears the ledger at once; with only the newline missing the ledger is in order but dangling, and holds that many events of the one parse. |
| UsageRuns.NextEventTears | peoplebot/usage.py:342-358 | From a dangling ledger a collection that survives its append reports a malformed ledger and leaves it torn if and only if the source holds an event the ledger lacks; otherwise it completes and leaves the ledger as it was. |
| UsageRuns.DyingAtDangling | peoplebot/usage.py:464-470 | A collection that dies at a dangling ledger leaves it torn if and only if it wrote anything, and unchanged otherwise. |
| UsageRuns.TornLedgerIsForever | peoplebot/usage.py:342-358 | A torn ledger is never repaired: nothing is collected and nothing changes any more. |
| UsageRuns.EveryLedgerStands | peoplebot/usage.py:405-489 | Over every run on a growing source, dying inside lines too, the ledger is in order, in order but for its last newline, or torn. |
| UsageRuns.CollectedIsOneParse | peoplebot/usage.py:405-489 | On every such run a collection that reports completion leaves the ledger equal to one duplicate-free parse of all newline-terminated content. |
| UsageEvents.ParseYields | peoplebot/usage.py:180-253 | An event is in the parse of a source if and only if some newline-terminated line yields it: its offset is the start of that line, and its kind, timestamp and measurement are those of the token or allowance reading. |
| UsageEvents.LedgerHoldsTheLines | peoplebot/usage.py:405-489 | After a reported completion on any run of a growing source an event is in the ledger if and only if a complete line of the source yields it; the events stand in line order, tokens before allowance. |
| UsageEvents.RefusalsTell | peoplebot/usage.py:405-442 | Missing source, shorter source and changed prefix are reported exactly when they hold and change nothing; a ledger unreadable before is reported as such otherwise. |
| UsageEvents.CountsTell | peoplebot/usage.py:478-489 | The reported count is the growth of the ledger, the reported cursor the recorded one, and the trailing bytes those behind it. |
| Messaging.Publisher.Messages | peoplebot/messaging.py:231-277 | Reading lists at most 256 first parents and checks them from the oldest on; the result is the first objection or the messages. |
| Messaging.Publisher.AppendMessage | peoplebot/messaging.py:279-314 | One append: existing, stored, conflicting or not persisted, with the ref moved only from the tip that was read. |
| Messaging.Publisher.PublishMessage | peoplebot/messaging.py:459-534 | Compare, push, look again: verified, failed or uncertain. |
| Messaging.Publisher.AppendAndPublish | peoplebot/messaging.py:668-715 | Admission, comparison of both ends, append, publication; every durable point in between is recorded. |
| Messaging.Publisher.ReconcilePublication | peoplebot/messaging.py:537-563 | The later look at an uncertain publication. |
| MessagingRuns.ReadingIsExact | peoplebot/messaging.py:231-277 | A history is readable exactly when it is a linear chain of at most 256 message-only commits without a repeated ID; then the messages come in commit order. |
| MessagingRuns.RemoteTrailsLocal | peoplebot/messaging.py:668-715 | Over any run, with deaths and pushes that land late or never, remote history is a prefix of local history and at most one message behind; local history is linear with unique IDs. |
| MessagingRuns.AlsoMidway | peoplebot/messaging.py:668-715 | The same at every point inside one publication. |
| MessagingRuns.HistoriesGrow | peoplebot/messaging.py:279-314 | Local and remote histories only grow. |
| MessagingRuns.LogIsHistory | peoplebot/messaging.py:279-314 | The local history holds exactly the messages that the actions of the run durably appended, in order. |
| MessagingRuns.ReadersSeeWhatWasAppended | peoplebot/messaging.py:231-277 | Local readers get exactly those messages until there are more than 256, remote readers a beginning of them. |
| MessagingRuns.AttemptedIsAppended | peoplebot/messaging.py:668-715 | Whatever is reported about its publication, a message whose publication was attempted is among the appended ones. |
| MessagingRuns.ReappendIsIdle | peoplebot/messaging.py:279-291 | Appending a message that is already there changes nothing and finds its commit. |
| MessagingRuns.FullHistoryTakesOneMore | peoplebot/messaging.py:231-314 | A history of 256 accepts one more message, and is unreadable from then on. |
| MessagingRuns.OverfullIsForever | peoplebot/messaging.py:231-314 | An overfull history is never read or extended again. |
| MessagingRuns.BehindIsStuck | peoplebot/messaging.py:668-715 | A message stored but not pushed blocks every later publication, of the same message too, unless an earlier push still brings it. |
| MessagingRuns.PublishesIffLevel | peoplebot/messaging.py:668-715 | With accepted arguments and everything working a message is published as a new commit at both ends, and verified, if and only if both ends are equal at the comparison, the history is readable and the ID is new. |
| MessagingRuns.PublishingTheTipRepairs | peoplebot/messaging.py:459-534 | Publishing the local tip itself, with everything working, is verified if and only if the remote is seen where the caller expects it, and then both ends are together; otherwise the report names what was seen. |
| MessagingRuns.OnlyTheTipVerifiesAgain | peoplebot/messaging.py:668-715 | Sending a published message again is verified exactly if it is the last one; for an older one FAILED is reported although the remote has held it all along. |
| MessagingRuns.ReconciliationResolves | peoplebot/messaging.py:537-563 | Looking again at an uncertain publication of the tip finds that commit or the prior one, never a third State. |
| MessagingRuns.VerifiedIsThere | peoplebot/messaging.py:459-534 | A verified report means the remote stands at the commit with that message. |
| MessagingReports.PublicationReports | peoplebot/messaging.py:459-534 | Verified exactly if the second look finds the commit; failed exactly if the remote was not as expected, or a push that did not succeed left it so; uncertain otherwise. What was observed is what the remote held. |
| MessagingReports.TimedOutIsUncertain | peoplebot/messaging.py:487-494 | A push that timed out is reported uncertain, and only its commit may still be under way. |
| MessagingReports.SendRefusals | peoplebot/messaging.py:668-715 | Why a send raises, each reason exactly when it is reported. |
| MessagingReports.AppendReports | peoplebot/messaging.py:279-314 | On a readable history: existing exactly for a message that is there, conflicting exactly for a taken ID, stored exactly for a new ID and a write that succeeds. |
| MessagingReports.ReadingTells | peoplebot/messaging.py:231-277 | Too long, repeated ID or malformed: the report names the first commit out of order, from the oldest on. |
| MessagingReports.LookReports | peoplebot/messaging.py:537-563 | The later look reports what the remote holds then, whoever has published meanwhile. |
| Admission.FramedInjective | peoplebot/admission.py:37-43 | Different identities are hashed from different bytes, wherever the field boundaries fall. |
| Admission.OperatingSystem.TryAcquire | peoplebot/admission.py:215-266 | One acquisition: descriptor opened, lock taken or the descriptor closed again. |
| Admission.ExecutionAdmission.Release | peoplebot/admission.py:124-152 | Unlock and close of the own descriptor; a failed unlock keeps the ownership, a released handle does nothing. |
| Admission.OwnershipIsKept | peoplebot/admission.py:124-152 | Acquiring, releasing and ending processes keep locks, descriptors and handles consistent. |
| Admission.OneOwnerPerInstance | peoplebot/admission.py:215-266 | Over any run at most one handle owns an environment/Instance. |
| Admission.OnlyTheOwnerFrees | peoplebot/admission.py:124-152 | A lock is lost only through its own handle or the end of its process, also when descriptor numbers are reused. |
| Admission.StaleReleaseIsIdle | peoplebot/admission.py:124-152 | Releasing a handle again at any later point of a run changes nothing, whoever owns the Instance or its old descriptor number by then. |
| Admission.RefusedWhileOwned | peoplebot/admission.py:215-266 | With a working system an attempt is refused if and only if somebody owns the Instance. |
| Admission.AttemptTells | peoplebot/admission.py:215-266 | Each report of an attempt exactly when its reason holds; the lock is taken if and only if the attempt succeeded or it was held before, and only success or a failed close leaves the descriptor open. |
| Provenance.StepKeepsInv | peoplebot/provenance.py:745-882 | Every step of every process, in any order, keeps locks, evidence and the log of entered tasks consistent. |
| Provenance.OneAdmittedPerInstance | peoplebot/provenance.py:745-790 | In every interleaving at most one call per environment/Instance is admitted. |
| Provenance.EvidencePrecedesTask | peoplebot/provenance.py:803-812 | A running task has its start evidence committed; one that ever ran keeps its own evidence for good. |
| Provenance.AtMostOneTaskPerIdentity | peoplebot/provenance.py:607-630 | Each (repository, environment, Instance, execution ID) enters a task at most once, ever. |
| Provenance.TerminalWhileAdmitted | peoplebot/provenance.py:632-707 | Evidence changes only from an own start record to its terminal record, by a process that still holds admission. |
| Provenance.EvidenceOnlyAdvances | peoplebot/provenance.py:607-707 | A filled evidence ref keeps its record or turns its start into the terminal record. |
| Provenance.SpentIdentityNeverRuns | peoplebot/provenance.py:773-807 | A rejected attempt, a start write reported failed, or a death before the task uses the execution ID up. |
| Provenance.LaunchedExactly | peoplebot/provenance.py:607-630 | With the Instance free, and locks and Git working, a new call enters its task if and only if its identities have at most 256 characters, no record exists for its identity, and its starting State belongs to the evidence store and resolves there. |
| Provenance.MismatchNeverRuns | peoplebot/provenance.py:611-616 | A call whose starting State is in another repository than its evidence store never enters its task, over any run. |
| Provenance.RetainedKeepsOut | peoplebot/provenance.py:856-868 | Kept ownership refuses others until it is given back explicitly or its process ends. |
| Provenance.RetainedEnds | peoplebot/provenance.py:856-868 | Kept ownership ends exactly when its release works or its process dies; the lock is then free and the evidence as it was. |
| ProvenanceCall.Call.WriteStartRecord | peoplebot/provenance.py:803-809 | The task may be entered exactly if the start record was reported written; with nobody else about, exactly if the starting State belongs to the store and resolves there, no record exists and the write succeeds. |
| ProvenanceCall.Call.RunTask | peoplebot/provenance.py:809-838 | The task is entered once; unresolved ownership keeps the admission, and only a record the task returned goes on to be stored. |
| ProvenanceCall.Call.WriteTerminalRecord | peoplebot/provenance.py:840-855 | Reported done exactly if the record is bound and its write succeeds; it then is durable evidence of this start, with the content the task returned, written while admitted. |
| ProvenanceCall.Call.Leave | peoplebot/provenance.py:862-868 | Any failed release retains the handle; the lock is kept exactly if the unlock failed, which the handle itself tells. |
| ProvenanceCall.Call.RecordRefusal | peoplebot/provenance.py:773-788 | A refused call records its attempt and nothing else; with nobody else about, exactly if its identity has no record and its starting State belongs there. |
| ProvenanceCall.Call.Execute | peoplebot/provenance.py:745-882 | Whatever others do in between: task_started tells whether the task was entered and a reported terminal commit is durable with the record the task returned, reported exactly if that record is its own and the write succeeds. With nobody else about, which report is given is told exactly by the world before. A returned call reports every admission it keeps, and one it does not keep exactly if only the close failed; an interrupted call reports none and keeps it exactly if the unlock failed. |
| ProvenanceCall.ReleaseAsAdmission | peoplebot/admission.py:124-152 | Whether a release fails, and whether the handle still owns its lock afterwards, is what the admission model says. |
| ProvenanceCall.RetentionIsExact | peoplebot/provenance.py:856-882 | Over all endings without a record: told but not kept if and only if the close failed on a normal return, kept but not told if and only if an interruption met a failed unlock. |
| ProvenanceCall.ReportedButFree | peoplebot/provenance.py:862-882 | The first failing case, from the start of a run: the admission is reported retained and the next attempt is admitted at once. |
| ProvenanceCall.KeptButUnreported | peoplebot/provenance.py:856-868 | The second: nobody is told, and the next attempt is refused. |
| Manifest.BuildContextManifest | peoplebot/preparation.py:503-610 | Request checks, expansion, limits and greedy selection, against the manifest function. |
| Manifest.SelectionIsExact | peoplebot/preparation.py:552-600 | Candidates split into selected and excluded, both in path order; the total is the exact sum and within the limit; nothing refused for the total would fit at the end. |
| Manifest.MostSpecificRule | peoplebot/preparation.py:489-500 | A path is excluded if and only if some rule covers it, and the reported rule is the longest. |
| Manifest.BuildExact | peoplebot/preparation.py:521-610 | Built if and only if every request names something supported and the leaves fit; the candidates are exactly the leaves under a requested path, each once. |
| Manifest.OrderAndRepetitionDoNotMatter | peoplebot/preparation.py:515-551 | Permuting or repeating requests changes nothing, unless repetitions take their number over 256, which is refused. |
| Manifest.RequestsBelowAddNothing | peoplebot/preparation.py:515-551 | Adding a path below a requested directory goes through if and only if it is well formed, names something and is not one request too many; it changes no decision. |
| ManifestReports.FailureTells | peoplebot/preparation.py:515-551 | The manifest names each requested path once, in order; it is refused exactly for the first path in that order that names nothing, names something unsupported, or takes the distinct leaves asked for beyond the limit, with that report. |
| Framing.ParseTreeEntries | peoplebot/preparation.py:400-420 | The tree-listing parser, against the parsing function. |
| Framing.SplitAll | peoplebot/preparation.py:401-404 | Splitting joined fields gives the fields back. |
| Framing.TreeRoundTrip | peoplebot/preparation.py:400-420 | Parsing a printed listing gives its entries, tabs in paths included. |
| Framing.ReadObject | peoplebot/preparation.py:635-677 | One object: header, content, terminator, or the reason for refusal. |
| Framing.SelectedBlobContents | peoplebot/preparation.py:613-677 | The batch parser, against the parsing function. |
| Framing.BatchRoundTrip | peoplebot/preparation.py:613-677 | Reading a printed batch gives exactly the contents, whatever bytes they hold. |
| Framing.AcceptedIsFramed | peoplebot/preparation.py:613-677 | Conversely, every accepted output is the wanted headers and contents, each byte accounted for. |
| FramingReports.TreeAcceptedExactly | peoplebot/preparation.py:400-420 | A listing is accepted with these entries if and only if it is their records between NULs: mode, kind, object ID of 40 to 64 digits, a tab, the encoded path. Anything else is refused. |
| FramingReports.BatchExact | peoplebot/preparation.py:613-677 | A batch is accepted with these contents if and only if the wanted objects follow each other without a gap up to its end; it is reported missing exactly if, after objects in order, one is said to be missing; all else is malformed. |
| GitRecords.ChangedPaths | peoplebot/development.py:1228-1249 | The index loop over status records, against the parsing function. |
| GitRecords.StatusRoundTrip | peoplebot/development.py:1228-1249 | Status output with renames in the index column gives exactly the old and new paths. |
| GitRecords.RecordReads | peoplebot/development.py:1228-1249 | What every single record is read as: its paths, or, for a rename in the worktree column only, a refusal or the wrong paths. |
| GitRecords.RecordRoundTripIff | peoplebot/development.py:1228-1249 | A record gives back exactly its paths unless, and only unless, a rename or copy shows in the worktree column only. |
| GitRecords.WorktreeRenameMisread | peoplebot/development.py:1236-1246 | A rename in the worktree column only has its original path read as a record of its own, cut by three characters, or makes the parse fail. |
| GitRecords.CheckedOutBranches | peoplebot/memory.py:46-76 | The worktree-listing parser, against the parsing function. |
| GitRecords.WorktreeRoundTrip | peoplebot/memory.py:46-76 | A printed listing gives exactly the checked-out branches, and is refused if and only if one occurs twice. |
| FramingReports.HeadTells | peoplebot/memory.py:52-70 | A worktree record says a branch, or that there is none, if and only if it names a worktree and exactly one later line says so; else it is refused. |
| FramingReports.BranchesExact | peoplebot/memory.py:46-76 | A listing is accepted if and only if every record says what HEAD is and no branch is checked out twice; its result are exactly the branches named. |
| Capture.Drain | peoplebot/adapters/codex_read_only.py:637-650 | For any chunking the buffer is the stream cut one byte beyond the cap, and overflow is reported if and only if the stream is longer than the cap. |
| Capture.Builder.Add | peoplebot/adapters/codex_read_only.py:1010-1034 | Each problem is counted in its class and listed only among the first eight. |
| Capture.Transport.ReadEvents | peoplebot/adapters/codex_read_only.py:1324-1452 | The second loop: final answers, completed turns and findings, event by event. |
| Capture.Transport.Run | peoplebot/adapters/codex_read_only.py:1264-1497 | The verdict and the recorded findings of a completed process. |
| Capture.FindingsTell | peoplebot/adapters/codex_read_only.py:1279-1452 | Every recorded problem either fails the stream or violates the restriction, so no problem goes unnoticed. |
| Capture.CompletedExactly | peoplebot/adapters/codex_read_only.py:1453-1497 | Completed if and only if the process ended well, its workspace is gone, nothing was found, and the collected messages and turns are one each; `CaptureReports.CompletedByPositions` says it of the lines. |
| Capture.CompletedHasNoProblems | peoplebot/adapters/codex_read_only.py:1453-1497 | After a completed transport every problem counter is zero and there is no diagnostic entry. |
| CaptureReports.CompletedByPositions | peoplebot/adapters/codex_read_only.py:1438-1497 | Completed with a text if and only if the process ended well, every line is harmless, exactly one line is a completed agent message and carries that text, and exactly one is a completed turn, with valid usage. |
| CaptureReports.HarmlessReports | peoplebot/adapters/codex_read_only.py:1453-1497 | Over harmless lines: invalid usage, a missing or repeated message or turn, and a failed cleanup are told apart exactly. |
| CaptureReports.StreamReports | peoplebot/adapters/codex_read_only.py:1279-1452 | A restriction violation is reported exactly if a restricted item is among the first 128 lines; otherwise too many lines come first, then what the deciding line of the two loops is at fault for. |
| CaptureReports.ProcessReports | peoplebot/adapters/codex_read_only.py:1264-1323 | Too much output and a failed exit are reported exactly when they hold, before the stream is looked at. |
| CaptureReports.ProblemsTell | peoplebot/adapters/codex_read_only.py:1279-1452 | A problem is recorded for an index if and only if that line shows it, or the index is the bound and there are more lines. |

## Left out

- Git, subprocesses, pipes, threads and file systems; reachability, `rev-list` differences, fast-forward pushes and atomic ref transactions are assumed as the models state them.
- JSON, SHA-256 and object IDs: encodings and digests are taken as injective; a commit is identified with its content.
- Times are integers or strings in a total order; clocks and remaining seconds are arbitrary inputs to each call.
- Status, admission-report and observation files written beside the durable refs, and the texts of results and diagnostics.
- Different error codes of one failed ref write are one outcome of that write in the work cycle, memory and messaging models; `Refs` keeps them apart.
- Concurrent ticks of one reader: ticks and reconciliations are taken one after the other, as the logical owner lock of the cycle makes them; a busy owner is an outcome.
- Two sources of one cycle with the same ref: the model has the resulting refusal and the queue theorem assumes distinct refs.
- WorkCycleOrder.TicksFollowTheQueue: assumes fixed sources and policy, working effects, completed or failed handlers and no permitted stop; the safety theorems assume none of these.
- Size limits that are enforced on one side only: reading back a stored progress record or message is an input that may fail.
- Execution IDs of the development workflow are pairs of role and number; only their printed length is modelled, as it decides acceptance.
- DevelopmentRuns.HandleGood: implementer and reviewer are arbitrary answers; what their processes do, and the path policy for changed files, is not part of the model.
- Recovery.Recoverer.RecoverInstanceMemory: resolving and inspecting the remote, lineage, binding, ancestry and branch tests are inputs here; `RecoveryLineage` puts the lineage model in their place.
- Lineage.ValidateLineage: Git's own failures while answering are not modelled, only its answers.
- Synchronization.Synchronizer.SynchronizeMemory: remote configuration checks are one input, and the surrounding provenance record is left to `ProvenanceCall`.
- Memory.ValidateTree: an object is its text or other content; sizes, digests and UTF-8 validity are read off the object.
- MemoryTree.BuildTree: the nested dictionaries are values, updated along one path at a time, instead of dictionaries changed in place; the recursive writing of the tree objects is the identification of a tree with its content.
- Checkpoints.MemoryStore.Save: resolution of the expected State and the branch inspection are inputs.
- Usage.Collector.CollectUsage: the admission report, per-run aggregation and the two record formats; a parser is any function from a line and its offset to events with identities.
- Messaging: correlation of replies, reading of peers, appending without publication (`append_owned_message`); remote URLs and credentials.
- Admission.OperatingSystem.TryAcquire: creation and safety checks of lock files, and the differences between locking primitives.
- ProvenanceCall.Call.Execute: the contents of the records beyond their binding to the start; a write that is interrupted is taken not to have been reported done.
- Manifest.BuildContextManifest: failures to look up blob sizes, and the shape of the rendered manifest.
- Framing.TreeRoundTrip: bytes are characters, and UTF-8 is any encoding that can be decoded again; the other parsers take decoding as the identity.
- GitRecords.StatusRoundTrip: a sufficient condition for whole listings; the exact one is given record by record (`GitRecords.RecordRoundTripIff`), since in a listing a path that one record loses may be named by another.
- Capture.Drain: one stream at a time; threads, deadlines, cleanup of the child process and of its workspace, and the diagnostic texts.
- `peoplebot/alpha.py`, `peoplebot/adapters/project_review.py`, `scripts/peoplebot_website.py`, command-line front ends, configuration loaders, dictionary-shape parsers and worktree preparation would only add easy members.
