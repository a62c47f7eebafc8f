/** The durable execution record, and the records the Orchestrator writes. */
module ExecutionState {
  import opened Wrappers
  import opened Worker
  import I = Intent
  import PyText

  datatype ExecutionStatus = StatusRunning | StatusInterrupted | Ended(status: WorkerStatus)

  datatype Lifecycle = LifecycleRunning | LifecycleInterrupted | LifecycleCompleted

  datatype Cancellation = Cancellation(
    requested: bool, reason: string, requestedAt: Option<int>, pending: Option<bool>, confirmedAt: Option<int>)

  /** The metadata entries that steer control. */
  datatype ExecutionMetadata = ExecutionMetadata(
    phase: string, deadline: Option<int>, cancellation: Option<Cancellation>, terminationCause: Option<TerminationTag>,
    workerId: string, resultMetadata: Metadata)

  datatype PhaseState = PhaseState(phase: string, lastWorker: string, lastStatus: Option<WorkerStatus>,
                                   cancellationRequested: bool)

  /** A stable reference to a result: a digest of exactly these three values, taken to be injective. */
  datatype Reference = Reference(executionId: string, phase: string, result: WorkerResult)

  datatype Evaluation = Evaluation(
    verdict: string, executionId: Option<string>, intentId: Option<string>, reference: Option<Reference>)

  datatype Execution = Execution(
    executionId: string,
    intent: I.Intent,
    state: PhaseState,
    evidence: seq<Evidence>,
    status: ExecutionStatus,
    metadata: ExecutionMetadata,
    result: Option<WorkerResult>,
    lifecycle: Lifecycle,
    evaluations: seq<Evaluation>)
  {
    predicate Terminal() {
      lifecycle == LifecycleCompleted
    }

    predicate CancelRecorded() {
      metadata.cancellation.Some? && metadata.cancellation.value.requested
    }

    /** `execution_result_reference` */
    function ResultReference(): Option<Reference> {
      if result.None? then None else Some(Reference(executionId, metadata.phase, result.value))
    }

    /** The `evaluation` property: the latest one if it is about the current result. */
    function CurrentEvaluation(): Option<Evaluation> {
      if ResultReference().None? || evaluations == [] then None
      else
        var latest := evaluations[|evaluations| - 1];
        if latest.reference.Some? && latest.reference != ResultReference() then None else Some(latest)
    }
  }

  const INITIAL := "initial"
  const CONTINUED := "continued"
  const ORCHESTRATOR := "orchestrator"

  // ---- Results the Orchestrator composes ------------------------------------------

  function Composed(raw: WorkerResult): (r: WorkerResult)
    requires raw.outcome.None? && raw.status != StatusSuccess && !PyText.Blank(raw.workerId)
    ensures Constructed(r) && r == raw.(outcome := r.outcome, errorCode := r.errorCode)
  {
    PostInitIsStable(raw);
    PostInit(raw).value
  }

  lemma OrchestratorNotBlank()
    ensures !PyText.Blank(ORCHESTRATOR)
  {
    assert ORCHESTRATOR[0] == 'o' && !PyText.IsSpace(ORCHESTRATOR[0]);
  }

  /** `_deadline_result` */
  function DeadlineOutcome(evidence: seq<Evidence>, output: Output): (r: WorkerResult)
    ensures Constructed(r) && r.status == StatusFailed && r.evidence == evidence + [DeadlinePassed]
            && r.output == output
    ensures r.metadata == Metadata(Some(TagDeadlineExceeded), false, map[]) && !r.retryable
  {
    OrchestratorNotBlank();
    Composed(WorkerResult(ORCHESTRATOR, StatusFailed, output, evidence + [DeadlinePassed], "deadline exceeded",
                          Metadata(Some(TagDeadlineExceeded), false, map[]), "", false, None, [], [], []))
  }

  /** `_cancelled_result`: the flags of the stopped run are kept. */
  function CancelledOutcome(stopped: WorkerResult, reason: string): (r: WorkerResult)
    requires Constructed(stopped)
    ensures Constructed(r) && r.status == StatusCancelled
            && r.evidence == stopped.evidence + [CancellationObserved(reason)]
    ensures r.metadata.continuationPending == stopped.metadata.continuationPending
    ensures r.metadata.terminationCause == stopped.metadata.terminationCause && r.output == stopped.output
    ensures r.artifacts == stopped.artifacts && r.observations == stopped.observations
            && r.eventIds == stopped.eventIds && r.workerId == stopped.workerId
    ensures "cancellation_requested" in r.metadata.rest && r.metadata.rest["cancellation_requested"] == "true"
            && !r.retryable
  {
    Composed(WorkerResult(stopped.workerId, StatusCancelled, stopped.output,
                          stopped.evidence + [CancellationObserved(reason)], "",
                          stopped.metadata.(rest := stopped.metadata.rest["cancellation_requested" := "true"]),
                          "", false, None, stopped.artifacts, stopped.observations, stopped.eventIds))
  }

  /** `_exception_result` */
  function ExceptionOutcome(kind: string, phase: string): (r: WorkerResult)
    ensures Constructed(r) && r.status == StatusFailed && !r.metadata.continuationPending
    ensures r.evidence == [ExecutionException(phase, kind)] && r.metadata.terminationCause.None?
            && r.output == NoOutput && !r.retryable
  {
    OrchestratorNotBlank();
    Composed(WorkerResult(ORCHESTRATOR, StatusFailed, NoOutput, [ExecutionException(phase, kind)], "execution raised",
                          Metadata(None, false, map["exception_type" := kind]), "", false, None, [], [], []))
  }

  // ---- Records ---------------------------------------------------------------------

  /** `dict(previous)` updated by a newer cancellation entry. */
  function MergeCancellation(previous: Option<Cancellation>, newer: Cancellation): Cancellation {
    if previous.None? then newer
    else newer.(requestedAt := if newer.requestedAt.Some? then newer.requestedAt else previous.value.requestedAt,
                pending := if newer.pending.Some? then newer.pending else previous.value.pending,
                confirmedAt := if newer.confirmedAt.Some? then newer.confirmedAt else previous.value.confirmedAt)
  }

  /** `_cancellation_metadata` */
  function TokenCancellation(token: Token): Cancellation
    requires token.Set?
  {
    Cancellation(true, token.reason, Some(token.requestedAt), None, None)
  }

  /** The state entries of an execution before its first result. */
  const NO_STATE := PhaseState(INITIAL, "", None, false)

  /** `_state_from_result`; a cancellation is confirmed at instant `at`. */
  function StateFromResult(id: string, intent: I.Intent, r: WorkerResult, phase: string, prior: Option<Execution>,
                           deadline: Option<int>, cancellation: Option<Cancellation>, at: int): Execution {
    var before := if prior.Some? then prior.value.evidence else [];
    var evidence := before + [ExecutionPhase(phase, id)] + r.evidence;
    var previous := if prior.Some? then prior.value.metadata.cancellation else None;
    var confirmed := cancellation.Some? && r.status == StatusCancelled;
    var merged :=
      if cancellation.None? then previous
      else
        var c := MergeCancellation(previous, cancellation.value).(pending := Some(r.status != StatusCancelled));
        Some(if confirmed && c.confirmedAt.None? then c.(confirmedAt := Some(at)) else c);
    var confirmation := if confirmed then [CancellationConfirmed(merged.value.confirmedAt.GetOr(at))] else [];
    var oldCause := if prior.Some? then prior.value.metadata.terminationCause else None;
    var oldDeadline := if prior.Some? then prior.value.metadata.deadline else None;
    Execution(
      id, intent,
      PhaseState(phase, r.workerId, Some(r.status), prior.Some? && prior.value.state.cancellationRequested),
      evidence + confirmation,
      Ended(r.status),
      ExecutionMetadata(phase, if deadline.Some? then deadline else oldDeadline, merged,
                        if r.metadata.terminationCause.Some? then r.metadata.terminationCause else oldCause,
                        r.workerId, r.metadata),
      Some(r),
      if r.metadata.continuationPending then LifecycleInterrupted else LifecycleCompleted,
      if prior.Some? then prior.value.evaluations else [])
  }
}
