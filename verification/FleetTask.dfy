/**
 One fleet task: its record, and what each coordinator operation does to it.
 Instants are microseconds.
 */
module FleetTask {
  import opened Wrappers
  import opened Worker
  import I = Intent
  import PyText

  datatype TaskStatus = Queued | Running | TaskSucceeded | TaskFailed | TaskCancelled

  datatype Lease = Lease(
    taskId: string, leaseId: string, workerId: string, generation: int, attempt: int, expiresAt: int)

  /** How an attempt ended. */
  datatype Ending =
    | Reported(result: WorkerResult)
    | LeaseExpired
    | CoordinatorTerminated(cause: TerminationTag)
    | RestartInvalidated

  datatype HistoryEntry = HistoryEntry(attempt: int, workerId: string, generation: int, ending: Ending)

  datatype Task = Task(
    taskId: string,
    executionId: string,
    idempotencyKey: string,
    intent: I.Intent,
    required: set<string>,
    maxAttempts: int,
    deadline: Option<int>,
    submittedAt: int,
    status: TaskStatus,
    attempt: int,
    generation: int,
    lease: Option<Lease>,
    result: Option<WorkerResult>,
    history: seq<HistoryEntry>)
  {
    predicate Terminal() {
      status in {TaskSucceeded, TaskFailed, TaskCancelled}
    }

    predicate PastDeadline(now: int) {
      Expired(deadline, now)
    }

    /** The lease named by a Worker is the current one and has not run out. */
    predicate HeldBy(worker: string, leaseId: string, gen: int, now: int) {
      && status == Running
      && lease.Some?
      && lease.value.workerId == worker
      && lease.value.leaseId == leaseId
      && lease.value.generation == gen
      && now < lease.value.expiresAt
    }
  }

  // ---- Results the coordinator itself writes -------------------------------

  const COORDINATOR := "fleet-coordinator"

  function CoordinatorResult(status: WorkerStatus, error: string, evidence: seq<Evidence>,
                             cause: TerminationTag): (r: WorkerResult)
    requires status != StatusSuccess
    ensures Constructed(r) && r.status == status && r.metadata.terminationCause == Some(cause)
    ensures r.error == error && r.evidence == evidence
  {
    var raw := WorkerResult(COORDINATOR, status, NoOutput, evidence, error, Metadata(Some(cause), false, map[]),
                            "", false, None, [], [], []);
    assert COORDINATOR[0] == 'f' && !PyText.IsSpace(COORDINATOR[0]);
    PostInitIsStable(raw);
    PostInit(raw).value
  }

  /** The result is one the coordinator composes, for some error text, evidence and cause. */
  predicate CoordinatorAuthored(r: WorkerResult) {
    && r.status != StatusSuccess
    && r.metadata.terminationCause.Some?
    && r == CoordinatorResult(r.status, r.error, r.evidence, r.metadata.terminationCause.value)
  }

  function DeadlineResult(): WorkerResult {
    CoordinatorResult(StatusFailed, "deadline expired before lease", [TaskDeadlineExpired], TagDeadlineExceeded)
  }

  // ---- Transitions of one record -------------------------------------------

  function NewTask(taskId: string, executionId: string, key: string, intent: I.Intent, required: set<string>,
                   maxAttempts: int, deadline: Option<int>, now: int): Task {
    Task(taskId, executionId, key, intent, required, maxAttempts, deadline, now, Queued, 0, 0, None, None, [])
  }

  function LeaseTo(t: Task, worker: string, leaseId: string, expiresAt: int): Task {
    t.(status := Running,
       attempt := t.attempt + 1,
       generation := t.generation + 1,
       lease := Some(Lease(t.taskId, leaseId, worker, t.generation + 1, t.attempt + 1, expiresAt)))
  }

  function FinishDeadline(t: Task): Task {
    t.(status := TaskFailed, lease := None, result := Some(DeadlineResult()))
  }

  function RenewUntil(t: Task, expiresAt: int): Task
    requires t.lease.Some?
  {
    t.(lease := Some(t.lease.value.(expiresAt := expiresAt)))
  }

  /** End the current attempt with a new history entry. */
  function Close(t: Task, worker: string, gen: int, ending: Ending, status: TaskStatus,
                 result: Option<WorkerResult>): Task {
    t.(status := status, lease := None, result := result,
       history := t.history + [HistoryEntry(t.attempt, worker, gen, ending)])
  }

  predicate LeaseRanOut(t: Task, now: int) {
    t.status == Running && t.lease.Some? && now >= t.lease.value.expiresAt
  }

  function ExpireTask(t: Task, now: int): Task {
    if !LeaseRanOut(t, now) then t
    else
      var l := t.lease.value;
      if t.attempt < t.maxAttempts && !t.PastDeadline(now) then
        Close(t, l.workerId, l.generation, LeaseExpired, Queued, None)
      else
        Close(t, l.workerId, l.generation, LeaseExpired, TaskFailed,
              Some(CoordinatorResult(StatusFailed, "lease expired", [WorkerLeaseExpired], TagLeaseExpired)))
  }

  /** The new record once a report has passed the lease check. */
  function CommitReport(t: Task, worker: string, gen: int, r: WorkerResult, retryable: bool, now: int): Task {
    if r.status == StatusSuccess then
      Close(t, worker, gen, Reported(r), TaskSucceeded, Some(r))
    else if r.status == StatusCancelled then
      Close(t, worker, gen, Reported(r), TaskCancelled, Some(r))
    else if r.outcome !in {Some(PolicyDenied), Some(OutcomeCancelled), Some(DeadlineExceeded)}
            && retryable && t.attempt < t.maxAttempts && !t.PastDeadline(now) then
      Close(t, worker, gen, Reported(r), Queued, None)
    else
      Close(t, worker, gen, Reported(r), TaskFailed, Some(r))
  }

  const CANCEL_CAUSES := {TagCancelled, TagDeadlineExceeded, TagWorkerTimeout}

  function CancelTask(t: Task, reason: string, cause: TerminationTag): Task {
    var cancelled := cause == TagCancelled;
    var status := if cancelled then TaskCancelled else TaskFailed;
    var result := Some(CoordinatorResult(if cancelled then StatusCancelled else StatusFailed, reason,
                                         [FleetTaskTerminated(cause)], cause));
    if t.status == Running && t.lease.Some? then
      Close(t, t.lease.value.workerId, t.lease.value.generation, CoordinatorTerminated(cause), status, result)
    else
      t.(status := status, lease := None, result := result)
  }

  /** A restart ends the lease of a running record. */
  function RevokeLease(t: Task, now: int): Task
    requires t.lease.Some?
  {
    var l := t.lease.value;
    if t.PastDeadline(now) then
      Close(t, l.workerId, l.generation, RestartInvalidated, TaskFailed,
            Some(CoordinatorResult(StatusFailed, "deadline expired in restart",
                                   [TaskDeadlineExpired, RestartLeaseInvalidated],
                                   TagDeadlineExceeded)))
    else if t.attempt < t.maxAttempts then
      Close(t, l.workerId, l.generation, RestartInvalidated, Queued, None)
    else
      Close(t, l.workerId, l.generation, RestartInvalidated, TaskFailed,
            Some(CoordinatorResult(StatusFailed, "attempts exhausted",
                                   [RestartLeaseInvalidated], TagAttemptsExhausted)))
  }

  /** Recovery of one stored record: leases are revoked, stored results pass the constructor again. */
  function RestoreTask(t: Task, now: int): Result<Task, string> {
    if !t.intent.Valid() then Err("invalid intent")
    else if t.result.Some? && PostInit(t.result.value).Err? then Err(PostInit(t.result.value).error)
    else
      var stored := if t.result.Some? then Some(PostInit(t.result.value).value) else None;
      if t.status == Running then
        if t.lease.None? then Err("running task lacks lease") else Ok(RevokeLease(t, now))
      else if t.status == Queued && t.PastDeadline(now) then
        Ok(t.(status := TaskFailed, lease := None,
              result := Some(CoordinatorResult(StatusFailed, "deadline expired while stopped",
                                               [TaskDeadlineExpired], TagDeadlineExceeded))))
      else Ok(t.(lease := None, result := stored))
  }

  // ---- The record invariant --------------------------------------------------

  /** Entry i of the history belongs to attempt i+1 and generation i+1. */
  predicate Numbered(history: seq<HistoryEntry>) {
    forall i | 0 <= i < |history| :: history[i].attempt == i + 1 && history[i].generation == i + 1
  }

  predicate LeaseMatches(t: Task) {
    t.lease.Some? ==>
      && t.lease.value.taskId == t.taskId
      && t.lease.value.attempt == t.attempt
      && t.lease.value.generation == t.generation
  }

  /** The status a terminal record's result has. */
  function RequiredStatus(status: TaskStatus): WorkerStatus {
    match status
    case TaskSucceeded => StatusSuccess
    case TaskCancelled => StatusCancelled
    case _ => StatusFailed
  }

  predicate ResultMatches(t: Task) {
    t.result.Some? ==>
      && Constructed(t.result.value)
      && t.result.value.status == RequiredStatus(t.status)
  }

  predicate HistoryFits(t: Task) {
    && Numbered(t.history)
    && match t.status
       case Queued => |t.history| == t.attempt
       case Running => |t.history| == t.attempt - 1
       case _ => |t.history| == t.attempt || |t.history| == t.attempt - 1
  }

  predicate TaskInv(t: Task) {
    && t.intent.Valid()
    && 0 <= t.attempt == t.generation <= t.maxAttempts
    && (t.status == Queued ==> t.attempt < t.maxAttempts)
    && (t.status == Running ==> 1 <= t.attempt)
    && (t.status == Running <==> t.lease.Some?)
    && (t.Terminal() <==> t.result.Some?)
    && LeaseMatches(t) && ResultMatches(t) && HistoryFits(t)
  }

  // ---- How a record may evolve -------------------------------------------------

  /** A measure that every change of status or attempt lowers. */
  function Weight(t: Task): int {
    match t.status
    case Queued => 2 * (t.maxAttempts - t.attempt) + 1
    case Running => 2 * (t.maxAttempts - t.attempt) + 2
    case TaskFailed => 0
    case _ => 1
  }

  predicate SameSubmission(a: Task, b: Task) {
    && a.taskId == b.taskId && a.executionId == b.executionId && a.idempotencyKey == b.idempotencyKey
    && a.intent == b.intent && a.required == b.required && a.maxAttempts == b.maxAttempts
    && a.deadline == b.deadline && a.submittedAt == b.submittedAt
  }

  /** A lease persists only as itself, up to its expiry; any other lease has a higher generation. */
  predicate LeaseFollows(a: Task, b: Task) {
    b.lease.Some? ==>
      || a.generation < b.generation
      || (a.lease.Some? && b.lease.value.(expiresAt := 0) == a.lease.value.(expiresAt := 0))
  }

  /** Record `a` can have become record `b` through coordinator steps and restarts. */
  predicate Evolves(a: Task, b: Task) {
    && SameSubmission(a, b)
    && a.generation <= b.generation && a.attempt <= b.attempt
    && a.history <= b.history
    && LeaseFollows(a, b)
    && (a.Terminal() ==> b == a || b == FinishDeadline(a))
    && ((a.status == b.status && a.attempt == b.attempt) || Weight(b) < Weight(a))
  }

  lemma EvolvesTransitive(a: Task, b: Task, c: Task)
    requires Evolves(a, b) && Evolves(b, c)
    ensures Evolves(a, c)
  {
  }

  /** What one operation entitles its caller to do to one named task. */
  datatype Grant =
    | NoGrant
    | RenewOf(id: string)
    | ReportOf(id: string, result: WorkerResult)
    | LateRenewOf(id: string)

  /**
   Beyond evolving, a single step changes a lease's expiry only for its renewer,
   installs a result only if the coordinator wrote it or its reporter was entitled
   to, and touches a terminal record only for a renewal after the deadline.
   */
  predicate Licensed(a: Task, b: Task, g: Grant) {
    && (b.lease.Some? ==> b.lease == a.lease || a.generation < b.generation || g == RenewOf(a.taskId))
    && (b.result.Some? ==>
          b.result == a.result || CoordinatorAuthored(b.result.value) || g == ReportOf(a.taskId, b.result.value))
    && (a.Terminal() ==> b == a || g == LateRenewOf(a.taskId))
  }

  // ---- Each transition keeps the invariant and is an evolution ----------------

  predicate Advances(a: Task, b: Task, g: Grant) {
    TaskInv(b) && Evolves(a, b) && Licensed(a, b, g)
  }

  lemma StaysAdvances(t: Task, g: Grant)
    requires TaskInv(t)
    ensures Advances(t, t, g)
  {
  }

  lemma LeaseToAdvances(t: Task, worker: string, leaseId: string, expiresAt: int)
    requires TaskInv(t) && t.status == Queued
    ensures Advances(t, LeaseTo(t, worker, leaseId, expiresAt), NoGrant)
  {
  }

  lemma RenewAdvances(t: Task, expiresAt: int)
    requires TaskInv(t) && t.lease.Some?
    ensures Advances(t, RenewUntil(t, expiresAt), RenewOf(t.taskId))
  {
  }

  lemma FinishDeadlineAdvances(t: Task)
    requires TaskInv(t)
    ensures Advances(t, FinishDeadline(t), LateRenewOf(t.taskId))
    ensures !t.Terminal() ==> Advances(t, FinishDeadline(t), NoGrant)
  {
  }

  /** Ending a running attempt, whichever way, is an advance. */
  lemma CloseAdvances(t: Task, worker: string, gen: int, ending: Ending, status: TaskStatus,
                      result: Option<WorkerResult>, g: Grant)
    requires TaskInv(t) && t.status == Running && gen == t.generation
    requires result.Some? ==> CoordinatorAuthored(result.value) || g == ReportOf(t.taskId, result.value)
    requires status != Running
    requires if status == Queued then result.None? && t.attempt < t.maxAttempts
             else result.Some? && Constructed(result.value) && result.value.status == RequiredStatus(status)
    ensures Advances(t, Close(t, worker, gen, ending, status, result), g)
  {
  }

  lemma ExpireAdvances(t: Task, now: int)
    requires TaskInv(t)
    ensures Advances(t, ExpireTask(t, now), NoGrant)
  {
    if LeaseRanOut(t, now) {
      var u := ExpireTask(t, now);
      CloseAdvances(t, t.lease.value.workerId, t.generation, LeaseExpired, u.status, u.result, NoGrant);
    }
  }

  lemma ReportAdvances(t: Task, worker: string, leaseId: string, gen: int, r: WorkerResult, retryable: bool, now: int)
    requires TaskInv(t) && Constructed(r) && t.HeldBy(worker, leaseId, gen, now)
    ensures Advances(t, CommitReport(t, worker, gen, r, retryable, now), ReportOf(t.taskId, r))
  {
    var u := CommitReport(t, worker, gen, r, retryable, now);
    CloseAdvances(t, worker, gen, Reported(r), u.status, u.result, ReportOf(t.taskId, r));
  }

  lemma CancelAdvances(t: Task, reason: string, cause: TerminationTag)
    requires TaskInv(t) && !t.Terminal()
    ensures Advances(t, CancelTask(t, reason, cause), NoGrant)
  {
    var u := CancelTask(t, reason, cause);
    if t.status == Running {
      CloseAdvances(t, t.lease.value.workerId, t.generation, CoordinatorTerminated(cause), u.status, u.result, NoGrant);
    }
  }

  lemma RevokeAdvances(t: Task, now: int)
    requires TaskInv(t) && t.status == Running
    ensures Advances(t, RevokeLease(t, now), NoGrant)
  {
    var u := RevokeLease(t, now);
    CloseAdvances(t, t.lease.value.workerId, t.generation, RestartInvalidated, u.status, u.result, NoGrant);
  }

  /**
   Recovery of a record that satisfies the invariant succeeds and keeps it. It adds
   exactly one history entry to a running record and none to any other, leaves
   terminal records alone, and no lease survives.
   */
  lemma RestoreAdvances(t: Task, now: int)
    requires TaskInv(t)
    ensures RestoreTask(t, now).Ok?
    ensures var u := RestoreTask(t, now).value;
            && Advances(t, u, NoGrant)
            && u.lease.None? && u.status != Running && u.attempt == t.attempt
            && (t.Terminal() ==> u == t)
            && (t.status == Queued && !t.PastDeadline(now) ==> u == t)
            && (u.status == Queued ==> !u.PastDeadline(now))
            && (if t.status == Running
                then u.history == t.history
                                  + [HistoryEntry(t.attempt, t.lease.value.workerId, t.generation, RestartInvalidated)]
                else u.history == t.history)
  {
    if t.status == Running {
      RevokeAdvances(t, now);
    }
  }
}
