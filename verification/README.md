# Loom: a verified model

A Dafny model of the parts of Loom in which order, failure and repetition matter, with proofs
about every input, every run and every interleaving. `dafny verify dfyconfig.toml` checks all of it.

**Fleet coordinator** (`loom_ai/fleet.py`). `FleetTask` is one task record and its transitions;
`FleetOutcomes` says field by field what each of them must make of a record;
`FleetMemory` is what a coordinator holds, what it stores, and the *effect* of each public
operation: the memory states it persists, in order, and its reply. Clock readings, save outcomes
and fresh identifiers come from the environment and are arbitrary: a save may succeed, fail and
lose the new snapshot, or fail after storing it. `FleetSteps` proves that every operation keeps the
coordinator invariant and changes each record only as it may. `FleetRecovery` proves what a restart
yields. `FleetRuns` adds the store, fail-stop, crashes and restarts, and lifts this to whole runs; a
crash between two saves of one operation is a run in which the later save is lost and a restart
follows. `FleetDecisions` says what every operation decides, as a step of such a run and whatever
becomes of its save. On top stand `FleetFencing`, `FleetRecords`, `FleetAnswers`, `FleetScheduling`,
`FleetClaims`, `FleetRetries`, `FleetSubmission` and `FleetWorkers`, with the runs that show a bound or a failure in
`FleetTightness` and `FleetWitness`. `FleetCoordinator` is the coordinator as an object with mutable dictionaries, loops
and a store; each of its methods is proved to take exactly the step of `FleetRuns`, so every theorem
about runs is about those methods.

**Dispatch** (`loom_ai/fleet_dispatch.py`). `FleetDispatch` is the polling loop over a coordinator
object, with arbitrary coordinator calls by others between any two of its actions. What the
coordinator was asked in a call, by whom and in which order, is stated as one run.

**Orchestrator** (`loom_ai/orchestrator.py`, `loom_ai/execution_state.py`, `loom_ai/worker.py`).
`Orchestration` holds the locked regions as functions of the stored record, the token and the clock,
which a region may read up to three times. `OrchestratorRuns` is a step system: begins, finishes,
cancellations, evaluations and crashes of the process, in any interleaving, with saves that may fail;
the unlocked Worker run is whatever happens between a begin and its finish. `OrchestratorDecisions` says
what each step decides and that an interrupted run can be continued; `OrchestratorCancellation`
is about what becomes of cancellation requests, `OrchestratorActivity` about executions left active.
`OrchestratorService` is the object with its `active` dictionary and shared token objects, proved to
take these steps.

**Arbiter** (`loom_ai/arbiter.py`). The loop with its queue, retries and replanning, for arbitrary
Workers, evaluators and control causes, and the propagation of outcomes through Arbiters nested in
Arbiters to any depth. Which of its endings a run has is stated over what was seen at its last call
and the queue alone. `ArbiterTightness` shows the call bound met.

**Configured model Worker** (`loom_ai/configured_worker.py`). The retry loop around the loop of
provider turns, sharing one tool budget, for an arbitrary provider, arbitrary tools and clock.
`ConfiguredEndings` says what every batch, turn and attempt ends with, and when another is made.

**Intent Markdown** (`loom_ai/intent.py`). Parser and printer, down to `splitlines` and `strip`
(`PyText`), what any text is parsed to (`IntentSections`), and exactly which Intents survive being
printed and parsed.

## What turned out not to hold

- The docstring at `loom_ai/fleet.py:116-118` calls a terminal result immutable once committed.
  `renew_lease` tests the deadline before anything else (`loom_ai/fleet.py:586-592`), so a renewal
  by anyone at or after the deadline rewrites a terminal record to FAILED.
  `FleetWitness.SucceededThenFailed` is a six-event run that does it,
  `FleetRecords.TerminalRecordChanges` says exactly when a call changes a terminal record, and
  `FleetRecords.TerminalRecordSurvives` that nothing else ever does, failures and restarts included.
- Idempotency keys are not injective when a submission supplies none: its task_id becomes its key
  without a scan (`loom_ai/fleet.py:507`). `FleetSubmission.SubmissionKeepsKeysInjective` gives the
  exact condition, `FleetSubmission.UnkeyedSubmissionClashes` the failing submissions,
  `FleetWitness.TwoTasksOneKey` a run that makes one, and
  `FleetSubmission.KeyedRunsKeepKeysInjective` the runs in which injectivity holds.
- A fail-stopped coordinator acknowledges no change, but it mutates memory before it raises and
  answers later calls from that memory, so a record it returns need not be stored
  (`FleetRecords.FailStopReadsUnsavedRecord`), and the dispatcher may relay it.
  `FleetAnswers.AnswerIsStored` says exactly when a returned record is stored, and
  `FleetAnswers.AnsweredRecordSurvives` that one returned before any save failed is kept for good.
- `cancel` stamps the record (`loom_ai/orchestrator.py:369`) and then the token, which reads the clock
  again (`loom_ai/worker.py:47`); the finish believes the token and writes its instant over the
  record's (`loom_ai/orchestrator.py:742`). So a cancellation accepted just before the deadline can
  end as a deadline failure whose request stays pending for ever:
  `OrchestratorCancellation.AcceptedThenOvertaken` is such a run,
  `OrchestratorCancellation.AcceptedIsConfirmed` says exactly when an accepted cancellation is
  confirmed, and `OrchestratorCancellation.RequestInstantMoves` when the recorded instant changes.
- With failing saves the Orchestrator keeps less: a finish whose save raises leaves its execution
  active with nobody running it, and exactly then (`OrchestratorRuns.FinishStaysActive` for the step,
  `OrchestratorActivity.ActiveUnrun` for whole runs); and a recorded request can lose its reason, as in
  `OrchestratorCancellation.FailedSaveRewritesReason`, exactly when
  `OrchestratorCancellation.RequestReasonChanges` says. What `OrchestratorRuns.RunGood` promises of
  evidence, deadlines, requests and completed records holds all the same.
- An execution can be stored as cancelled and still be resumable, since `_cancelled_result` keeps
  `continuation_pending` (`loom_ai/orchestrator.py:699`).
  `OrchestratorCancellation.CancelledYetInterrupted` says exactly which finishes do it,
  `OrchestratorCancellation.CancelledInterruptedReachable` that it happens, and
  `OrchestratorCancellation.ResumingCancelledCompletes` how it ends.

## Model

| member | source | states |
|---|---|---|
| FleetFencing.GenerationsIncrease | loom_ai/fleet.py:535-575 | Two acknowledged claims of one task carry strictly increasing generations, with anything in between: other calls, failed saves, fail-stop, crashes, restarts |
| FleetFencing.LostLeaseNeverActs | loom_ai/fleet.py:577-647 | Whoever presents an acknowledged lease that is no longer current (expired, reported, cancelled, superseded, ended by a restart) is ignored in any continuation: no lease moves, a renewal is refused, a report changes nothing it could have changed by another result |
| FleetFencing.TimedOutLeaseNeverActs | loom_ai/fleet.py:577-647 | The same for a lease whose expiry has passed, even before any expiry pass, as long as clocks do not go back |
| FleetFencing.NotActingIsIgnored | loom_ai/fleet.py:586-647 | Not passing the lease test means being ignored, in reply and in state: refused, or answered with a terminal record and nothing changed, whatever result and retry flag the report carried |
| FleetFencing.BootRevokes | loom_ai/fleet.py:315-364 | After a restart no task has a lease |
| FleetFencing.ClaimAcknowledged | loom_ai/fleet.py:535-575 | The lease a claim returns is in memory and in the store, one generation above the record it found, and no save had failed |
| FleetRecords.ResultsAreEarned | loom_ai/fleet.py:615-709 | In every reachable state, each result in memory or store either has the form the coordinator gives its own failures and cancellations, or was reported by the then holder of the current lease, strictly before lease expiry and deadline (the next two rows say that no other report leaves a trace) |
| FleetRecords.UnacceptedReportIsIgnored | loom_ai/fleet.py:615-647 | A report not made by the current lease holder in time is ignored, also if its result looks like one the coordinator writes |
| FleetRecords.UnacceptedResultsDoNotMatter | loom_ai/fleet.py:615-709 | Two runs that differ only in the results and retry flags of unaccepted reports end in the same coordinator and store |
| FleetRecords.TerminalRecordChanges | loom_ai/fleet.py:586-592 | A call changes a terminal record if and only if it is a renewal of that task at or after its deadline and the record lacks the deadline form, which it then takes |
| FleetWitness.SucceededThenFailed | loom_ai/fleet.py:577-592 | A concrete run from an empty store in which a stored SUCCEEDED record becomes FAILED |
| FleetRecords.TerminalRecordSurvives | loom_ai/fleet.py:241-383 | Absent a late renewal, a terminal record stays as it is, in memory and store, through every continuation with failed saves, crashes and restarts |
| FleetRecords.FailStopFreezesStore | loom_ai/fleet.py:149-163 | After the first failed save the store is never written again |
| FleetRecords.FailStopReadsUnsavedRecord | loom_ai/fleet.py:834-837 | A family of runs in which a fail-stopped coordinator shows a result, and answers a cancellation with a terminal record, while its store has the task running |
| FleetAnswers.AnswerIsStored | loom_ai/fleet.py:149-163 | A record a call returns is stored if and only if no save has failed, or the store already held of that task what memory held |
| FleetAnswers.ObservedIsStored | loom_ai/fleet.py:872-875 | The same condition for a record an observation shows |
| FleetAnswers.AnsweredRecordSurvives | loom_ai/fleet.py:149-163 | A terminal record returned while no save had failed is kept through every continuation, crashes at any save point included, unless a late renewal rewrites it |
| FleetRecords.ChangesUseWeight | loom_ai/fleet.py:535-575 | In any run, the changes of a stored status or attempt, counted save by save, plus the remaining weight are at most the initial weight |
| FleetRecords.StatusChangesBounded | loom_ai/fleet.py:665-708 | A stored task changes status or attempt at most 2 * max_attempts + 1 times, every save counted, restarts and failed saves included |
| FleetTightness.StatusBoundAttained | loom_ai/fleet.py:535-592 | For every max_attempts a run without failures changes the stored status exactly 2 * max_attempts + 1 times, two of them in one claim |
| FleetTightness.StartIsReachable | loom_ai/fleet.py:385-533 | That run starts in a state reached from an empty store |
| FleetScheduling.ClaimLeasesTheLeast | loom_ai/fleet.py:545-575 | After the expiry pass, a claim by an available Worker leases a task if and only if one is takeable, and then the least by (submitted_at, task_id) |
| FleetScheduling.ClaimAftermath | loom_ai/fleet.py:545-575 | What a claim leaves of every record: earlier eligible ones FAILED for their deadline, the leased one running, all others untouched |
| FleetScheduling.ScanClosedForm | loom_ai/fleet.py:545-575 | The candidate loop in closed form, saves counted: finish those whose deadline passed, lease the next, or report none |
| FleetClaims.ClaimTaskTakesTheLeast | loom_ai/fleet.py:535-575 | The whole of `claim_task` as a step: a persistence error exactly if one of the saves it comes to fails; otherwise an unknown Worker is refused, an unavailable one gets nothing, and an available one gets the least takeable task if there is one, every record is left as specified, and all of it is stored |
| FleetDecisions.ReportDecides | loom_ai/fleet.py:646-708 | An accepted report requeues the task if and only if its result FAILED in a way that may be retried, retry was asked and an attempt is left; otherwise the task is over with this result, its status following the result's; one entry naming Worker, generation and result is logged, no other record changes, and this holds whatever becomes of the save |
| FleetDecisions.OverdueFails | loom_ai/fleet.py:586-592 | A renewal of any task or a report of a live one at or after the deadline is refused, and the task is FAILED for its deadline, unlogged |
| FleetDecisions.RenewDecides | loom_ai/fleet.py:577-613 | A renewal succeeds if and only if its caller holds the lease in time, before the deadline, in service with a fresh heartbeat, and the save succeeds; the lease then runs for the Worker's duration from that instant, the Worker has been heard from, and nothing else changes |
| FleetDecisions.OutOfServiceRefused | loom_ai/fleet.py:603-605 | A renewal in time by a holder that is unknown, not READY or silent is refused, and only a silent READY one is then marked UNHEALTHY |
| FleetDecisions.WithoutLeaseExpires | loom_ai/fleet.py:593-602 | A renewal or report by anyone who does not hold the lease is refused as stale and sets off an expiry pass |
| FleetDecisions.TurnedAway | loom_ai/fleet.py:628-633 | An unknown task, a result under another Worker's name, and a report of a terminal task change nothing; the last is answered with the record |
| FleetDecisions.ExpiryDecides | loom_ai/fleet.py:756-816 | An expiry pass requeues a run-out task if attempts and time are left and FAILs it otherwise, leaves all other records, takes silent READY Workers out of service, and answers exactly the records it changed |
| FleetDecisions.CancelDecides | loom_ai/fleet.py:818-870 | A cancellation ends a live task for the cause given, CANCELLED for a cancellation and FAILED for deadline or timeout, with the reason as error and a lease logged as terminated; a terminal task is answered unchanged, an unknown cause or task refused |
| FleetDecisions.SubmitDecides | loom_ai/fleet.py:452-533 | A valid submission creates a task, waiting for its first attempt behind all others, if and only if its key and identity are both new; otherwise nothing changes and the answer is the task submitted in the same words, or a conflict |
| FleetDecisions.RestartDecides | loom_ai/fleet.py:241-383 | A restart comes up if and only if its save succeeds; each running record is then queued again exactly if its deadline has not passed and an attempt is left, and otherwise FAILED for the one that failed; overdue queued records are FAILED, all others kept, no lease survives, Workers are UNHEALTHY |
| FleetDecisions.RegisterDecides | loom_ai/fleet.py:385-420 | A registration puts the Worker into service as described, with this instant as heartbeat; invalid arguments and another implementation's identity are refused |
| FleetDecisions.ServiceDecides | loom_ai/fleet.py:422-450 | Heartbeat, drain and stop of a known Worker: DRAINING survives heartbeats, STOPPED and UNHEALTHY Workers are refused them, nothing but that registration changes |
| FleetRetries.GivenUpOnlyWhenSpent | loom_ai/fleet.py:665-708 | Over any run with restarts and failed saves: a live task without a deadline that nobody cancels, and whose reported failures may all be retried, is stored as live, SUCCEEDED, or FAILED with every attempt used |
| FleetSubmission.SubmissionKeepsKeysInjective | loom_ai/fleet.py:480-533 | A submission keeps keys injective if and only if it supplied a key or its task_id is no task's key |
| FleetSubmission.UnkeyedSubmissionClashes | loom_ai/fleet.py:507-507 | Submitting without a key under another task's key creates two tasks with one key |
| FleetWitness.TwoTasksOneKey | loom_ai/fleet.py:507-507 | From an empty store, two accepted submissions give two tasks one key |
| FleetSubmission.KeyedRunsKeepKeysInjective | loom_ai/fleet.py:480-533 | If every submission supplies a key, keys stay injective in memory and store through failures and restarts |
| FleetSubmission.ResubmissionIsIdempotent | loom_ai/fleet.py:481-506 | In any state a keyed run reaches, resubmitting a known key changes nothing: same arguments get the task as it now is, anything else a conflict |
| FleetSubmission.OnlySubmitAddsTasks | loom_ai/fleet.py:452-870 | No operation but a submission adds or removes a task |
| FleetWorkers.OutOfServiceUntilRegistered | loom_ai/fleet.py:422-450 | A drained, stopped or unhealthy Worker claims and renews nothing until it registers again, in any run, heartbeats and restarts included |
| FleetWorkers.OutOfServiceReportsOnly | loom_ai/fleet.py:603-647 | At a moment at which the report of an out-of-service Worker would be accepted, its renewal is refused and changes nothing, while its report is committed |
| FleetWorkers.RestartTakesOut | loom_ai/fleet.py:258-270 | A restart takes every Worker out of service |
| FleetRecovery.RestoreSucceeds | loom_ai/fleet.py:241-383 | Restoring the snapshot of any memory satisfying the invariant never fails and gives the revived memory, insertion order included |
| FleetRecovery.RestoreDecides | loom_ai/fleet.py:241-383 | Any snapshot at all is restored if and only if it names no Worker and no task twice, every Intent and stored result passes its constructor, and every running record has a lease |
| FleetRecovery.RevivedRecords | loom_ai/fleet.py:305-383 | After recovery: no lease, Workers UNHEALTHY, running records one history entry longer and queued again if and only if time and an attempt are left, otherwise FAILED for the one that is not, overdue queued records FAILED for their deadline, terminal records unchanged |
| FleetRecovery.RecoveryIsIdempotent | loom_ai/fleet.py:241-383 | Recovering twice at one instant is recovering once |
| FleetTask.RestoreAdvances | loom_ai/fleet.py:305-364 | Recovery of one record succeeds, keeps the record invariant and is a licensed evolution |
| FleetTask.EvolvesTransitive | loom_ai/fleet.py:113-119 | How a record may change (append-only history, generation and attempt never fall, a lease only under a higher generation, falling weight) composes over steps |
| FleetTask.CloseAdvances | loom_ai/fleet.py:665-708 | Ending a running attempt in any way keeps the record invariant and is a licensed evolution |
| FleetTask.ReportAdvances | loom_ai/fleet.py:646-708 | So does committing a report that passed the lease check |
| FleetTask.ExpireAdvances | loom_ai/fleet.py:769-802 | So does expiring a lease |
| FleetTask.CancelAdvances | loom_ai/fleet.py:838-868 | So does cancelling a task that is not terminal |
| FleetTask.FinishDeadlineAdvances | loom_ai/fleet.py:926-937 | So does finishing for the deadline; on a terminal record only with the licence of a late renewal |
| FleetSteps.EffectGood | loom_ai/fleet.py:385-870 | Every memory state any operation persists satisfies the coordinator invariant and is a licensed step from the one before |
| FleetSteps.CandidatesSorted | loom_ai/fleet.py:545-556 | The candidates are exactly the eligible records, in strict scheduling order |
| FleetSteps.ScanGood | loom_ai/fleet.py:545-575 | Each save inside the candidate loop of a claim keeps the invariant |
| FleetRuns.StepGood | loom_ai/fleet.py:149-163 | Every step, restarts and failed saves included, keeps the invariant of coordinator and store: equal while no save has failed, memory ahead of the store afterwards |
| FleetRuns.RunGood | loom_ai/fleet.py:121-383 | Over every run the invariant holds and stored records only evolve; history is append-only |
| FleetRuns.BootGood | loom_ai/fleet.py:121-147 | Construction never meets a stored snapshot it cannot restore |
| FleetCoordinator.Coordinator.Persist | loom_ai/fleet.py:149-163 | Saves the snapshot of memory, or fails and stops saving for good |
| FleetCoordinator.Coordinator.TakeSnapshot | loom_ai/fleet.py:165-239 | The snapshot lists both dictionaries in insertion order |
| FleetCoordinator.Coordinator.RestoreSnapshot | loom_ai/fleet.py:241-383 | The restoring loops compute the restored memory, or change nothing when they raise |
| FleetCoordinator.Coordinator.Start | loom_ai/fleet.py:121-147 | Loading, restoring and persisting is the restart step of a run |
| FleetCoordinator.Coordinator.RegisterWorker | loom_ai/fleet.py:385-420 | Takes exactly the registration step; invalid or conflicting registrations change nothing |
| FleetCoordinator.Coordinator.HeartbeatWorker | loom_ai/fleet.py:422-442 | Takes exactly the heartbeat step; STOPPED and UNHEALTHY Workers are refused |
| FleetCoordinator.Coordinator.SetLifecycle | loom_ai/fleet.py:901-913 | Takes exactly the drain or stop step |
| FleetCoordinator.Coordinator.SubmitTask | loom_ai/fleet.py:452-533 | Takes exactly the submission step, key scan and replay included |
| FleetCoordinator.Coordinator.ExpireTasks | loom_ai/fleet.py:756-804 | The expiry loop rewrites every record whose lease ran out, and returns those in insertion order |
| FleetCoordinator.Coordinator.ExpireLeases | loom_ai/fleet.py:756-816 | Takes exactly the expiry step with its single save |
| FleetCoordinator.Coordinator.AvailableWorker | loom_ai/fleet.py:885-899 | Finds a READY Worker with a fresh heartbeat, marking a stale one UNHEALTHY and saving |
| FleetCoordinator.Coordinator.LeaseFirst | loom_ai/fleet.py:545-575 | The candidate loop, with one save per candidate, stopping at the first save that fails |
| FleetCoordinator.Coordinator.ClaimTask | loom_ai/fleet.py:535-575 | Takes exactly the claim step, all its saves in order |
| FleetCoordinator.Coordinator.RenewLease | loom_ai/fleet.py:577-613 | Takes exactly the renewal step, deadline test first |
| FleetCoordinator.Coordinator.SubmitResult | loom_ai/fleet.py:615-709 | Takes exactly the report step |
| FleetCoordinator.Coordinator.CancelTaskOf | loom_ai/fleet.py:818-870 | Takes exactly the cancellation step |
| FleetDispatch.FleetDispatchWorker.Execute | loom_ai/fleet_dispatch.py:43-120 | Under arbitrary interference: a returned result is that of the task with this submission's identity, key and arguments, terminal and unleased, stored unless a save of the coordinator failed. The coordinator was asked exactly what others asked, the submission, and one cancellation if a poll saw a cause or the timeout; if that found the task live, the result says what the poll saw: FAILED for the deadline, CANCELLED with the token's reason, FAILED for the timeout, unless somebody renewed the task after its deadline. Exceptions are the answers to the submission or that cancellation; polls are bounded, and the answer for a terminal task without result is never reached |
| FleetDispatch.CancelSays | loom_ai/fleet_dispatch.py:96-119 | The cancellation a poll asks for leaves a live task with the status, cause, evidence and reason of what that poll saw |
| FleetDispatch.TerminalInMemory | loom_ai/fleet.py:586-592 | Calls leave a terminal record in memory as it is, failed saves or not, but for a renewal after its deadline, which gives it the deadline form |
| FleetDispatch.SubmitKnows | loom_ai/fleet_dispatch.py:49-57 | A submission that names its task and key and does not raise leaves exactly that task known, submitted with these arguments |
| FleetDispatch.RelayIsConstructed | loom_ai/fleet_dispatch.py:77-95 | The relayed result of a terminal record passes the result constructor |
| Worker.FirstCauseWins | loom_ai/worker.py:103-118 | An established cause is the cause at every later instant, whatever requests follow |
| Worker.CauseIsEarliest | loom_ai/worker.py:103-118 | The cause is whichever of request and deadline came first, the deadline on a tie |
| Worker.SetTokenIsFinal | loom_ai/worker.py:42-48 | Only the first cancellation request is recorded |
| Worker.CancellationToken.Cancel | loom_ai/worker.py:42-48 | The in-place token records the first request and ignores later ones |
| Worker.ConstructorDecides | loom_ai/worker.py:148-199 | Which values the result constructor accepts, and the outcome and error code it fills in |
| Worker.PostInitIsStable | loom_ai/worker.py:148-199 | A constructed result passes its constructor again unchanged, and its outcome, status and error code agree |
| OrchestratorRuns.RunGood | loom_ai/orchestrator.py:87-575 | Over any interleaving with crashes and failing saves: evidence append-only, deadline fixed, a recorded cancellation never lost, completed records only gain evaluations; without failed saves a request also keeps its reason and its instant moves forward only |
| OrchestratorRuns.StepGood | loom_ai/orchestrator.py:137-575 | Every step, whatever becomes of its save, keeps the lifecycle invariant and every stored record evolves |
| OrchestratorRuns.OneRunPerExecution | loom_ai/orchestrator.py:137-152 | At most one run is in flight per execution id, and its record is active and stored as running, failing saves included |
| OrchestratorRuns.ActiveIsRunning | loom_ai/orchestrator.py:207-235 | As long as no save fails, an active id has a run in flight and is stored as running |
| OrchestratorRuns.FinishStaysActive | loom_ai/orchestrator.py:222-234 | A finished run leaves its id active, with no run in flight, if and only if its save raises |
| OrchestratorActivity.ActiveUnrun | loom_ai/orchestrator.py:207-235 | In every reachable state an id is active without a run in flight if and only if its last run in this process has ended and the save of that end raised |
| OrchestratorRuns.NoStartAfterCancellation | loom_ai/orchestrator.py:431-481 | Once a cancellation is recorded, no later step of any run starts the Arbiter for that id |
| OrchestratorRuns.CompletedIsAbsorbing | loom_ai/orchestrator.py:252-298 | A completed record changes only by appended evaluations, each bound to its own result reference |
| OrchestratorRuns.FinishEvolves | loom_ai/orchestrator.py:154-233 | What a finish saves evolves from the latest record, even where an exception path starts from a stale or empty prior |
| OrchestratorRuns.ContinueEvolves | loom_ai/orchestrator.py:420-481 | What a continuation saves evolves from the record, and only an uncancelled record is launched |
| OrchestratorRuns.CancelKeepsFlight | loom_ai/orchestrator.py:285-418 | A cancellation of a running execution, its save failing or not: what is recorded has reached the token and is pending; if the save went through, both carry one reason and the record's stamp is not the later one |
| OrchestratorDecisions.CauseOfFinish | loom_ai/orchestrator.py:648-661 | A finish acts on the request if it was stamped before the deadline, else on the deadline if that has passed by its last look, else on neither |
| OrchestratorDecisions.FinishDecides | loom_ai/orchestrator.py:154-235 | A finish ends its run whatever becomes of its save; what it stores is resumable if and only if the run returned with its continuation flag and the deadline did not come first, and over otherwise; status, result, evidence, markers and confirmation follow the first cause |
| OrchestratorDecisions.SubmitDecides | loom_ai/orchestrator.py:87-152 | A submission starts the Arbiter if and only if its identity is new, its deadline has not passed and its record is saved; a late one is stored as FAILED for its deadline |
| OrchestratorDecisions.ContinueDecides | loom_ai/orchestrator.py:420-481 | A continuation starts the Arbiter if and only if the stored record is resumable, carries no request, has time left, and its save succeeds; it is refused if and only if not resumable; a cancelled or overdue one is completed as CANCELLED or FAILED without a run |
| OrchestratorDecisions.CancelDecides | loom_ai/orchestrator.py:285-418 | A cancellation leaves unknown and completed executions alone, announces itself or the passed deadline to a running one and writes that down, and completes a waiting one at once, CANCELLED and confirmed, or FAILED if the deadline came first |
| OrchestratorDecisions.EvaluateDecides | loom_ai/orchestrator.py:245-283 | An evaluation is recorded if and only if the execution is over with a result and the evaluation contradicts neither its identity, its Intent nor its result; it is then bound to all three, is the one that applies, and nothing else changes |
| OrchestratorDecisions.EvaluationApplies | loom_ai/execution_state.py:81-92 | The evaluation that applies is the latest, unless it names another result |
| OrchestratorDecisions.InterruptedRunResumes | loom_ai/orchestrator.py:420-481 | A run that asks to be continued is stored as resumable with its result and evidence, stays exactly so through any steps but cancelling or continuing it, crashes and failed saves included, and a continuation then starts on that record if and only if time is left and its save succeeds |
| OrchestratorCancellation.AcceptedIsConfirmed | loom_ai/orchestrator.py:369-397 | A cancellation accepted while a run is active is confirmed at that run's finish if and only if its token was stamped before the deadline; otherwise the execution ends FAILED with the request pending |
| OrchestratorCancellation.RequestInstantMoves | loom_ai/orchestrator.py:735-754 | A recorded request's instant changes if and only if a finish takes the run for cancelled, reaches the store, and the token was stamped at another instant; it is then the token's |
| OrchestratorCancellation.RequestReasonChanges | loom_ai/orchestrator.py:735-754 | A recorded request's reason changes if and only if a finish takes the run for cancelled, reaches the store, and the token carries another reason; it is then the token's |
| OrchestratorCancellation.AcceptedThenOvertaken | loom_ai/orchestrator.py:369-397 | The race is reached: accepted before the deadline, stamped on the token at or after it, stored as FAILED with a request that stays pending |
| OrchestratorCancellation.FailedSaveRewritesReason | loom_ai/orchestrator.py:387-397 | After a failed save a run does get there: the finish writes the reason of a first request over the recorded reason of a second |
| OrchestratorCancellation.WorkerCauseDecidesFinish | loom_ai/orchestrator.py:207-233 | A cause a Worker saw during its run is the cause its finish acts on, whatever requests come in between, and decides the stored status |
| OrchestratorCancellation.ControlledRunIsNoSuccess | loom_ai/orchestrator.py:207-233 | A finish with a control cause never stores success; without one it stores the Worker's result |
| OrchestratorCancellation.CancelledYetInterrupted | loom_ai/orchestrator.py:684-700 | Exactly which finishes leave a record both cancelled and resumable |
| OrchestratorCancellation.CancelledInterruptedReachable | loom_ai/orchestrator.py:766-770 | Submit, cancel, partial result: such a record is reached |
| OrchestratorCancellation.ResumingCancelledCompletes | loom_ai/orchestrator.py:431-468 | Resuming it completes it as cancelled and confirmed, without a run |
| OrchestratorService.Orchestrator.BeginSubmit | loom_ai/orchestrator.py:95-152 | `submit` up to its Arbiter call takes exactly the submission step, late submissions included |
| OrchestratorService.Orchestrator.BeginContinue | loom_ai/orchestrator.py:423-481 | The locked begin of `continue_execution` takes exactly the continuation step |
| OrchestratorService.Orchestrator.FinishRun | loom_ai/orchestrator.py:154-233 | The locked end of a run takes exactly the finish step; the token is forgotten only if the save went through |
| OrchestratorService.Orchestrator.CancelExecution | loom_ai/orchestrator.py:285-418 | `cancel` takes exactly the cancellation step: record stamped, then token set with its own stamp, then saved |
| OrchestratorService.Orchestrator.Evaluate | loom_ai/orchestrator.py:245-283 | `record_evaluation` takes exactly the evaluation step |
| ExecutionState.CancelledOutcome | loom_ai/orchestrator.py:684-700 | A cancelled result keeps the continuation flag, cause and output of the run it replaces |
| ExecutionState.DeadlineOutcome | loom_ai/orchestrator.py:668-681 | A deadline result is a valid failure with the run's evidence and one marker |
| Arbiter.Execute | loom_ai/arbiter.py:59-218 | For all behaviours: exactly the calls the control flow allows, outputs in order, evidence with one marker per call and at most one control marker, and the call bound. The run succeeds if and only if no cause was seen after its last call and that call was partial, or judged complete, or the queue ran out after a call that did not fail or after none; every other ending has its own outcome, cause and reason |
| Arbiter.EndMeans | loom_ai/arbiter.py:103-218 | How a run ends, by what was seen at its last call and whether the queue ran out: control cause, outcome handed on, COMPLETE, INTERRUPT, retry denied, drained, or a cause before the next call |
| Arbiter.CallsBounded | loom_ai/arbiter.py:172-208 | At most one call per given or inserted Worker plus max_retries per distinct Worker id |
| ArbiterTightness.BoundAttained | loom_ai/arbiter.py:196-208 | For every nonempty queue and every list of inserted Workers, an evaluator that retries each Worker to its limit makes exactly as many calls as the bound allows |
| Arbiter.RetriesCounted | loom_ai/arbiter.py:88-89 | Calls are queue positions passed plus retries, and retries are distinct (Worker, attempt) pairs within the limit |
| Arbiter.ArbiterResult | loom_ai/arbiter.py:220-306 | Every result the Arbiter builds passes the result constructor, with the status, outcome and flag its ending requires |
| Arbiter.FirstOccurrencesOnce | loom_ai/arbiter.py:250-257 | The event-id deduplication keeps every id once, ordered by first place |
| Arbiter.ResultCollects | loom_ai/arbiter.py:237-266 | Each executed call adds its artifacts and observations in call order, and its new event ids after those already there |
| Arbiter.CauseDecides | loom_ai/arbiter.py:103-122 | A control cause seen after a call ends the run with its outcome and exactly one control marker, whatever the Worker returned |
| Arbiter.SignalReachesRoot | loom_ai/arbiter.py:123-157 | Through any nesting, a cancelled, deadline-exceeded, denied, interrupted or partial result reaches the root with its outcome and continuation flag, no evaluator asked and no later call made |
| Arbiter.SignalComesFromBelow | loom_ai/arbiter.py:103-218 | Conversely, a run's signal is its last call's, unless a cause was seen or the evaluator interrupted |
| ConfiguredWorker.ExecutionBounds | loom_ai/configured_worker.py:351-528 | For any provider, tools and clock: at most 2M - 1 provider calls and M tool invocations, retries only after single failed provider calls with no tool used, evidence in order, success exactly when earned |
| ConfiguredWorker.BoundsAttained | loom_ai/configured_worker.py:117-119 | Both bounds are attained, for every configuration with a tool |
| ConfiguredWorker.TurnsBounds | loom_ai/configured_worker.py:119-345 | From a turn on: one provider call per remaining turn, tools within the budget, and a provider failure with the budget unused was the first turn |
| ConfiguredWorker.ActsOnlyInTime | loom_ai/configured_worker.py:119-266 | A turn asks the provider if and only if no cause, time limit or deadline was seen before it, and invokes tools only if none was seen after the answer and the whole batch fits the budget |
| ConfiguredWorker.BatchBounds | loom_ai/configured_worker.py:257-334 | A batch of tool calls stays within the budget, whether it completes or stops |
| ConfiguredEndings.BatchDecides | loom_ai/configured_worker.py:267-334 | A batch runs its calls in order up to the first that is unknown, raises or answers too much, which names the failure; the results and notes of those before are kept and counted |
| ConfiguredEndings.TurnDecides | loom_ai/configured_worker.py:119-265 | A turn ends with the first of: a cause or lack of time before asking, a provider that fails or misstates its provenance, a cause, the time limit or the deadline afterwards, an answer within or above the output limit, a batch beyond the budget |
| ConfiguredEndings.AttemptDecides | loom_ai/configured_worker.py:370-498 | Another attempt may follow if and only if the provider failed, no tool had its effect, and neither a cause nor the time limit was seen; otherwise the run ends with the cause, the limit, or the attempt's own report |
| ConfiguredEndings.GivesUpLast | loom_ai/configured_worker.py:456-528 | A failing provider is given up only after max_attempts attempts, as long as no tool was used |
| ConfiguredWorker.ExecuteModelLoop | loom_ai/configured_worker.py:80-345 | The nested turn and tool loops compute the model loop the bounds are proved of |
| ConfiguredWorker.Execute | loom_ai/configured_worker.py:351-528 | The retry loop computes the run the bounds are proved of, and a last result exists where the source asserts it |
| IntentMarkdown.RoundTrip | loom_ai/intent.py:41-88 | Parsing the printed form gives the Intent back if and only if it is printable: tidy title and items, goal of tidy lines none of which reads as heading or bullet |
| IntentSections.ParseDecides | loom_ai/intent.py:41-75 | What any text is parsed to, told by line positions: no title line, content above the first heading and an empty goal are the only errors, in that order; otherwise title, goal and lists are those of the lines below their headings, repeated headings joined and other sections dropped |
| IntentMarkdown.ParsedSurvives | loom_ai/intent.py:41-88 | An Intent parsed from any text survives printing if and only if no goal line reads as heading or bullet |
| IntentMarkdown.ParsedIsTidy | loom_ai/intent.py:30-75 | Whatever the text, parsed titles, items and goal lines are tidy, and the Intent constructor never rejects what the parser built |
| IntentMarkdown.GoalShrinks | loom_ai/intent.py:51-63 | Reading goal lines never adds characters, and loses some if a line is a heading or a bullet |
| IntentMarkdown.FromMarkdown | loom_ai/intent.py:41-75 | The parsing loop computes the specified parse, errors included |
| IntentMarkdown.ToMarkdown | loom_ai/intent.py:77-88 | The printing loop computes the specified text |
| PyText.SplitTerminated | loom_ai/intent.py:44-44 | Splitting into lines inverts terminating lines without breaks |
| PyText.LessIsStrictTotal | loom_ai/fleet.py:545-556 | Code-point order of identifiers is a strict total order, so the scheduling order is one |

## Left out

- HTTP servers and clients, the MCP adapter, command lines, bearer tokens: remote Workers appear as callers that may issue any operation with any arguments.
- File and PostgreSQL stores, JSON bytes, fsync, SQL: a store holds one snapshot, and a save may succeed, lose the new snapshot, or raise after storing it.
- A fleet without a store, and the Orchestrator's non-durable path (`loom_ai/orchestrator.py:113-135`).
- Threads and `RLock`: every locked region is one atomic step, and the unlocked Worker run lies between a begin and a finish step.
- `uuid4` and clocks: identifiers and readings come from the environment, in non-decreasing order where a theorem says so. `WorkerContext.termination_cause` is modelled with one reading, which `Orchestration.CausesAgree` relates to the Orchestrator's two.
- A Worker that cancels the token it was handed, or keeps it after its run: tokens are set by the Orchestrator only.
- SHA-256 result references are taken to be injective; results that are not JSON-compatible, and loads that fail, are not modelled on the Orchestrator side.
- `execute_claimed_task` (`loom_ai/fleet.py:711-754`): an observation, an unlocked Worker run and a `submit_result`, with nothing of its own to keep.
- `observe_worker`, `WorkerContext.with_state` and `with_evidence`, and prompt texts: plain copies.
- Error and reason texts are shortened; of evidence, metadata and provenance mappings only what steers control, and the entries named in `Worker.Evidence`, are kept; `contributors` of an Arbiter's provenance and the dispatcher's `fleet_attempt` entry are dropped.
- Exceptions raised by Workers or evaluators inside an Arbiter pass through it and are not modelled there.
- Arbiter.Execute: needs some bound on how many Workers the evaluator inserts in the calls the run makes, because an evaluator that replans for ever keeps the program looping for ever; an Arbiter with a blank worker_id, whose first result would raise, is excluded.
- ConfiguredWorker.Execute: counters repeated in result metadata (`model_turns`, `attempts`, `elapsed_seconds`, `output_bytes`) are not part of the report; the check that an output is text holds by typing; the provider sees its earlier tool results but not the prompt.
- FleetDispatch.FleetDispatchWorker.Execute: the poll bound assumes that the monotonic clock advances between polls; waiting on the token is not modelled.
- OrchestratorRuns.NoStartAfterCancellation: the locked begin and the entry of the Arbiter are one step. In the program a cancellation may be recorded between the two; the Arbiter is then entered and stops at its first look at the token, before any Worker call.
- FleetFencing.TimedOutLeaseNeverActs: assumes clock readings that do not go back; the other fencing theorems need no assumption about clocks.
- PyText.Lower: lowers ASCII letters only, which decides equality with the four section names; other section names are discarded by the parser.
- `pipeline.py`, `worker_configuration.py`, `capability_runtime.py`, `model.py`, `model_worker.py`, `evaluation.py`: straight-line validation, used only as assumptions (a tool-call response names at least one call; limits are positive).
