/**
 The Orchestrator's locked regions as functions of the stored record, the run's
 cancellation token and the clock: beginning and ending a run, cancelling and
 evaluating.
 */
module Orchestration {
  import opened Wrappers
  import opened Worker
  import opened ExecutionState
  import I = Intent

  /**
   The clock readings of one locked region, in order: the deadline test, the instant
   written into the record, and the instant a token or a confirmation is stamped with.
   */
  datatype Readings = Readings(check: int, stamp: int, signal: int) {
    predicate Forward() {
      check <= stamp <= signal
    }
  }

  /** `_control_cause`, which may look at the clock a second time. */
  function ControlCause(token: Token, deadline: Option<int>, now: int, again: int): Option<Cause> {
    var requestedAt := if token.Set? then Some(token.requestedAt) else None;
    if Expired(deadline, now) && (requestedAt.None? || requestedAt.value >= deadline.value) then Some(CauseDeadline)
    else if token.Set? then Some(CauseCancelled)
    else if Expired(deadline, again) then Some(CauseDeadline)
    else None
  }

  /** The Orchestrator resolves competing causes as a Worker does at one of its two readings. */
  lemma CausesAgree(token: Token, deadline: Option<int>, now: int, again: int)
    requires now <= again
    ensures ControlCause(token, deadline, now, again)
            == TerminationCause(token, deadline, if token.Set? then now else again)
  {
  }

  /** A run between its begin and its finish. `launched` is the record a continuation was started from. */
  datatype Flight =
    Flight(id: string, launched: Option<Execution>, intent: I.Intent, deadline: Option<int>, phase: string)

  /** How the unlocked Arbiter call ended. */
  datatype RunOutcome = RunReturned(result: WorkerResult) | RunRaised(kind: string)

  /** The record a durable submission creates before any Worker runs. */
  function InitialRecord(id: string, intent: I.Intent, deadline: Option<int>): Execution {
    Execution(id, intent, NO_STATE, [], StatusRunning,
              ExecutionMetadata(INITIAL, deadline, None, None, "", NO_METADATA),
              None, LifecycleRunning, [])
  }

  /** The record of a submission whose deadline had passed already. */
  function LateRecord(id: string, intent: I.Intent, deadline: Option<int>, at: int): Execution {
    StateFromResult(id, intent, DeadlineOutcome([], NoOutput), INITIAL, None, deadline, None, at)
  }

  // ---- Beginning a continuation ---------------------------------------------------

  datatype ContinueStep = NotResumable | Answer(record: Execution, result: WorkerResult) | Launch(record: Execution)

  function ContinueRecord(e: Execution, t: Readings): ContinueStep {
    if e.lifecycle != LifecycleInterrupted then NotResumable
    else if e.CancelRecorded() then
      var error := "cancellation requested before continuation";
      var stopped := WorkerResult(ORCHESTRATOR, StatusCancelled, NoOutput, [], error, NO_METADATA, "cancelled", false,
                                  Some(OutcomeCancelled), [], [], []);
      assert Constructed(stopped) by { OrchestratorNotBlank(); }
      var r := CancelledOutcome(stopped, "cancellation requested");
      Answer(StateFromResult(e.executionId, e.intent, r, CONTINUED, Some(e), e.metadata.deadline,
                             e.metadata.cancellation, t.signal), r)
    else if Expired(e.metadata.deadline, t.check) then
      var r := DeadlineOutcome([], NoOutput);
      Answer(StateFromResult(e.executionId, e.intent, r, CONTINUED, Some(e), e.metadata.deadline, None, t.signal), r)
    else
      Launch(e.(status := StatusRunning, lifecycle := LifecycleRunning, metadata := e.metadata.(phase := CONTINUED)))
  }

  // ---- Finishing a run ----------------------------------------------------------------

  /** The result to record once the run's controls have been looked at. */
  function FinalResult(r: WorkerResult, token: Token, cause: Option<Cause>): (f: WorkerResult)
    requires Constructed(r) && (cause == Some(CauseCancelled) ==> token.Set?)
    ensures Constructed(f)
  {
    if cause == Some(CauseCancelled) && r.status != StatusCancelled then CancelledOutcome(r, token.reason)
    else if cause == Some(CauseDeadline) then DeadlineOutcome(r.evidence, r.output)
    else r
  }

  /** What the finish step saves, given the latest stored record. */
  function FinishRecord(f: Flight, latest: Execution, token: Token, outcome: RunOutcome, t: Readings): Execution
    requires outcome.RunReturned? ==> Constructed(outcome.result)
  {
    var cause := ControlCause(token, f.deadline, t.check, t.stamp);
    var cancellation := if cause == Some(CauseCancelled) then Some(TokenCancellation(token)) else None;
    if outcome.RunRaised? && cause.None? then
      StateFromResult(f.id, f.intent, ExceptionOutcome(outcome.kind, f.phase), f.phase, f.launched, f.deadline,
                      None, t.signal)
    else
      var r := match outcome
               case RunReturned(r) => FinalResult(r, token, cause)
               case RunRaised(kind) =>
                 if cause == Some(CauseCancelled) then CancelledOutcome(ExceptionOutcome(kind, f.phase), token.reason)
                 else DeadlineOutcome([ExecutionException(f.phase, kind)], NoOutput);
      StateFromResult(f.id, f.intent, r, f.phase, Some(latest), f.deadline, cancellation, t.signal)
  }

  // ---- Cancelling ------------------------------------------------------------------------

  /** `saved` is the record written, if one is; `token` the active token afterwards, if there is one. */
  datatype CancelStep = CancelStep(saved: Option<Execution>, token: Option<Token>, accepted: bool, pending: bool)

  predicate DeadlineWins(e: Execution, now: int) {
    && Expired(e.metadata.deadline, now)
    && (e.metadata.cancellation.None? || e.metadata.cancellation.value.requestedAt.None?
        || e.metadata.cancellation.value.requestedAt.value >= e.metadata.deadline.value)
  }

  /** The cancellation of an execution nobody is running takes effect at once. */
  function ConfirmCancelled(e: Execution, evidence: seq<Evidence>, cancellation: Cancellation, requested: bool,
                            at: int): Execution {
    e.(state := e.state.(lastStatus := Some(StatusCancelled), cancellationRequested := requested),
       evidence := e.evidence + evidence + [CancellationConfirmed(at)],
       status := Ended(StatusCancelled), lifecycle := LifecycleCompleted,
       metadata := e.metadata.(cancellation := Some(cancellation.(pending := Some(false), confirmedAt := Some(at)))))
  }

  /** `cancel`. The record is stamped before the token is. */
  function CancelRecord(e: Execution, token: Option<Token>, reason: string, t: Readings): CancelStep {
    if e.Terminal() then CancelStep(None, token, false, false)
    else if DeadlineWins(e, t.check) then
      if token.Some? then
        CancelStep(Some(e.(evidence := e.evidence + [DeadlinePassed],
                           metadata := e.metadata.(terminationCause := Some(TagDeadlineExceeded)))),
                   Some(token.value.Cancel("deadline exceeded", t.signal)), false, true)
      else
        CancelStep(Some(StateFromResult(e.executionId, e.intent, DeadlineOutcome([], NoOutput), e.metadata.phase,
                                        Some(e), e.metadata.deadline, None, t.signal)),
                   None, false, false)
    else if e.CancelRecorded() then
      var prior := e.metadata.cancellation.value;
      if token.Some? then
        CancelStep(None, Some(token.value.Cancel(if prior.reason != "" then prior.reason else reason, t.signal)),
                   false, true)
      else
        CancelStep(Some(ConfirmCancelled(e, [], prior, e.state.cancellationRequested, t.stamp)), None, false, false)
    else
      var c := Cancellation(true, reason, Some(t.stamp), None, None);
      var requested := [CancellationRequested(reason, t.stamp)];
      if token.Some? then
        CancelStep(Some(e.(state := e.state.(cancellationRequested := true),
                           evidence := e.evidence + requested,
                           metadata := e.metadata.(cancellation := Some(c.(pending := Some(true)))))),
                   Some(token.value.Cancel(reason, t.signal)), true, true)
      else
        CancelStep(Some(ConfirmCancelled(e, requested, c, true, t.signal)), None, true, false)
  }

  // ---- Evaluating ------------------------------------------------------------------------

  /** `record_evaluation`: None where the program raises ValueError. */
  function EvaluateRecord(e: Execution, v: Evaluation): Option<Execution> {
    if v.executionId !in {None, Some(e.executionId)} || v.intentId !in {None, Some(e.intent.intentId)} then None
    else if !e.Terminal() || e.ResultReference().None? then None
    else if v.reference !in {None, e.ResultReference()} then None
    else
      var record := v.(reference := e.ResultReference(),
                       executionId := Some(v.executionId.GetOr(e.executionId)),
                       intentId := Some(v.intentId.GetOr(e.intent.intentId)));
      Some(e.(evaluations := e.evaluations + [record]))
  }
}
