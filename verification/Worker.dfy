/**
 The Worker contract: cancellation tokens, the resolution of competing
 termination causes, and the result value every Worker returns.
 */
module Worker {
  import opened Wrappers
  import PyText

  datatype WorkerStatus = StatusSuccess | StatusFailed | StatusCancelled

  datatype WorkerOutcome =
    | Succeeded
    | PartiallySucceeded
    | OutcomeFailed
    | PolicyDenied
    | OutcomeCancelled
    | DeadlineExceeded

  /** One evidence mapping. The entries Loom itself writes are named by their "type"; any other is `Item`. */
  datatype Evidence =
    | Item(kind: string, fields: map<string, string>)
    | TaskDeadlineExpired
    | WorkerLeaseExpired
    | RestartLeaseInvalidated
    | FleetTaskTerminated(cause: TerminationTag)
    | ExecutionPhase(phase: string, executionId: string)
    | ExecutionException(phase: string, exceptionType: string)
    | DeadlinePassed
    | CancellationRequested(reason: string, at: int)
    | CancellationObserved(reason: string)
    | CancellationConfirmed(at: int)
    | WorkerResultNoted(workerId: string, status: WorkerStatus, arbiterId: string)

  /** A "termination_cause" metadata entry: the values Loom writes, or any other text. */
  datatype TerminationTag =
    | TagCancelled
    | TagDeadlineExceeded
    | TagWorkerTimeout
    | TagLeaseExpired
    | TagAttemptsExhausted
    | TagInterrupted
    | TagOther(text: string)

  /** The metadata entries that steer control, and all other entries. */
  datatype Metadata =
    Metadata(terminationCause: Option<TerminationTag>, continuationPending: bool, rest: map<string, string>)

  const NO_METADATA := Metadata(None, false, map[])

  datatype Output = NoOutput | Text(text: string) | Outputs(results: seq<WorkerResult>)

  datatype WorkerResult = WorkerResult(
    workerId: string,
    status: WorkerStatus,
    output: Output,
    evidence: seq<Evidence>,
    error: string,
    metadata: Metadata,
    errorCode: string,
    retryable: bool,
    outcome: Option<WorkerOutcome>,
    artifacts: seq<string>,
    observations: seq<string>,
    eventIds: seq<string>)

  /** The status each canonical outcome requires. */
  function StatusOf(outcome: WorkerOutcome): WorkerStatus {
    match outcome
    case Succeeded => StatusSuccess
    case PartiallySucceeded => StatusSuccess
    case OutcomeFailed => StatusFailed
    case PolicyDenied => StatusFailed
    case OutcomeCancelled => StatusCancelled
    case DeadlineExceeded => StatusFailed
  }

  function DefaultCode(outcome: WorkerOutcome): string {
    match outcome
    case Succeeded => ""
    case PartiallySucceeded => ""
    case OutcomeFailed => "execution_failed"
    case PolicyDenied => "policy_denied"
    case OutcomeCancelled => "cancelled"
    case DeadlineExceeded => "deadline_exceeded"
  }

  /** The outcome a result gets when its constructor was given none. */
  function ImpliedOutcome(r: WorkerResult): Option<WorkerOutcome> {
    match r.status
    case StatusCancelled => Some(OutcomeCancelled)
    case StatusFailed =>
      Some(if r.metadata.terminationCause == Some(TagDeadlineExceeded) then DeadlineExceeded else OutcomeFailed)
    case StatusSuccess =>
      if r.metadata.continuationPending then None else Some(Succeeded)
  }

  /** `WorkerResult.__post_init__`: normalise the fields, or raise ValueError. */
  function PostInit(r: WorkerResult): Result<WorkerResult, string> {
    if PyText.Blank(r.workerId) then Err("worker_id must not be empty")
    else
      var outcome := if r.outcome.Some? then r.outcome else ImpliedOutcome(r);
      if outcome.None? then Err("continuation_pending requires an explicit canonical outcome")
      else if StatusOf(outcome.value) != r.status then Err("outcome contradicts status")
      else Ok(r.(
                          outcome := outcome,
                          errorCode := if r.errorCode == "" then DefaultCode(outcome.value) else r.errorCode))
  }

  /** A value that some constructor call can have produced. */
  predicate Constructed(r: WorkerResult) {
    PostInit(r) == Ok(r)
  }

  /**
   Reading a stored result back through the constructor gives the same result, and
   everything a constructed result says about its end is mutually consistent.
   */
  lemma PostInitIsStable(raw: WorkerResult)
    requires PostInit(raw).Ok?
    ensures Constructed(PostInit(raw).value)
    ensures var r := PostInit(raw).value;
            && r.outcome.Some? && r.status == raw.status == StatusOf(r.outcome.value)
            && (r.errorCode == "" ==> r.status == StatusSuccess)
            && (raw.outcome.Some? ==> r.outcome == raw.outcome)
            && r.output == raw.output && r.evidence == raw.evidence && r.metadata == raw.metadata
  {
    var r := PostInit(raw).value;
    assert DefaultCode(r.outcome.value) == "" <==> StatusOf(r.outcome.value) == StatusSuccess;
  }

  /**
   Which values the constructor accepts, and what it fills in: an outcome is taken only with
   its status; a result given none gets that of its status, a failure by deadline its own,
   and only a success to be continued must name it. An error code given is kept.
   */
  lemma ConstructorDecides(raw: WorkerResult)
    ensures PostInit(raw).Ok? <==>
            && !PyText.Blank(raw.workerId)
            && (match raw.outcome
                case None => raw.status == StatusSuccess ==> !raw.metadata.continuationPending
                case Some(Succeeded) => raw.status == StatusSuccess
                case Some(PartiallySucceeded) => raw.status == StatusSuccess
                case Some(OutcomeCancelled) => raw.status == StatusCancelled
                case Some(_) => raw.status == StatusFailed)
    ensures PostInit(raw).Ok? && raw.outcome.None? ==>
              PostInit(raw).value.outcome
              == Some(match raw.status
                      case StatusSuccess => Succeeded
                      case StatusCancelled => OutcomeCancelled
                      case StatusFailed =>
                        if raw.metadata.terminationCause == Some(TagDeadlineExceeded) then DeadlineExceeded
                        else OutcomeFailed)
    ensures PostInit(raw).Ok? ==>
              var r := PostInit(raw).value;
              r.errorCode == (if raw.errorCode != "" then raw.errorCode
                              else match r.outcome.value
                                   case OutcomeFailed => "execution_failed"
                                   case PolicyDenied => "policy_denied"
                                   case OutcomeCancelled => "cancelled"
                                   case DeadlineExceeded => "deadline_exceeded"
                                   case _ => "")
  {
  }

  /** The value of a cancellation token: unset, or set once with a reason and an instant. */
  datatype Token = Unset | Set(reason: string, requestedAt: int) {
    /** `CancellationToken.cancel` as a function: the first request wins. */
    function Cancel(why: string, now: int): Token {
      if Set? then this else Set(why, now)
    }
  }

  /** The shared cooperative cancellation signal, updated in place. */
  class CancellationToken {
    var requested: bool
    var reason: string
    var requestedAt: Option<int>

    ghost predicate Valid()
      reads this
    {
      requested == requestedAt.Some?
    }

    ghost function Value(): Token
      reads this
      requires Valid()
    {
      if requested then Set(reason, requestedAt.value) else Unset
    }

    constructor ()
      ensures Valid() && Value() == Unset
    {
      requested := false;
      reason := "cancellation requested";
      requestedAt := None;
    }

    method Cancel(why: string, now: int)
      requires Valid()
      modifies this
      ensures Valid() && Value() == old(Value()).Cancel(why, now)
    {
      if !requested {
        reason := why;
        requestedAt := Some(now);
        requested := true;
      }
    }
  }

  datatype Cause = CauseCancelled | CauseDeadline

  predicate Expired(deadline: Option<int>, now: int) {
    deadline.Some? && now >= deadline.value
  }

  /** `WorkerContext.termination_cause`, with one clock reading. */
  function TerminationCause(token: Token, deadline: Option<int>, now: int): Option<Cause> {
    if Expired(deadline, now) && (token.Unset? || token.requestedAt >= deadline.value) then Some(CauseDeadline)
    else if token.Set? then Some(CauseCancelled)
    else if Expired(deadline, now) then Some(CauseDeadline)
    else None
  }

  /** One cancellation request made at an instant. */
  datatype Request = Request(why: string, at: int)

  function CancelAll(token: Token, requests: seq<Request>): Token
    decreases |requests|
  {
    if requests == [] then token
    else CancelAll(token.Cancel(requests[0].why, requests[0].at), requests[1..])
  }

  /**
   First cause wins: once a cause is established it is the cause at every later
   instant, whatever cancellation requests arrive in between. The token may only
   carry a request made before `now`, and later requests are made after it.
   */
  lemma {:induction false} FirstCauseWins(token: Token, deadline: Option<int>, now: int, requests: seq<Request>,
                                          later: int)
    requires now <= later && (token.Set? ==> token.requestedAt <= now)
    requires forall r <- requests :: now <= r.at
    requires TerminationCause(token, deadline, now).Some?
    ensures TerminationCause(CancelAll(token, requests), deadline, later) == TerminationCause(token, deadline, now)
    decreases |requests|
  {
    if requests != [] {
      var next := token.Cancel(requests[0].why, requests[0].at);
      if token.Set? {
        FirstCauseWins(token, deadline, now, requests[1..], later);
      } else {
        SetTokenIsFinal(next, requests[1..]);
      }
    }
  }

  /** Only the first request is recorded. */
  lemma {:induction false} SetTokenIsFinal(token: Token, requests: seq<Request>)
    requires token.Set?
    ensures CancelAll(token, requests) == token
    decreases |requests|
  {
    if requests != [] {
      SetTokenIsFinal(token, requests[1..]);
    }
  }

  /** What the cause is, in terms of which event came first. */
  lemma CauseIsEarliest(token: Token, deadline: Option<int>, now: int)
    requires token.Set? ==> token.requestedAt <= now
    ensures TerminationCause(token, deadline, now) ==
            (if token.Set? && (deadline.None? || token.requestedAt < deadline.value) then Some(CauseCancelled)
             else if Expired(deadline, now) then Some(CauseDeadline)
             else None)
  {
  }
}
