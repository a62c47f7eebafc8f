/**
 What the coordinator's decisions make of one record, told by its fields: who is queued
 again, who ends and how, and what is logged. The transitions are proved to do just this.
 */
module FleetOutcomes {
  import opened Wrappers
  import opened Worker
  import opened FleetTask
  import PyText

  /** Attempt and generation, too, are as they were: no lease was granted. */
  predicate SameAttempt(t: Task, u: Task) {
    SameSubmission(t, u) && u.attempt == t.attempt && u.generation == t.generation
  }

  /** The task waits for another attempt. */
  predicate Requeued(t: Task, u: Task) {
    SameAttempt(t, u) && u.status == Queued && u.lease.None? && u.result.None?
  }

  /** A result in the coordinator's own name: CANCELLED for a cancellation, FAILED otherwise. */
  predicate WrittenFor(r: WorkerResult, tag: TerminationTag, evidence: seq<Evidence>) {
    && r.workerId == "fleet-coordinator" && r.evidence == evidence && r.output == NoOutput && !r.retryable
    && r.status == (if tag == TagCancelled then StatusCancelled else StatusFailed)
    && r.outcome == Some(match tag
                         case TagCancelled => OutcomeCancelled
                         case TagDeadlineExceeded => DeadlineExceeded
                         case _ => OutcomeFailed)
    && r.metadata.terminationCause == Some(tag) && !r.metadata.continuationPending
  }

  lemma CoordinatorWrites(error: string, tag: TerminationTag, evidence: seq<Evidence>)
    ensures var status := if tag == TagCancelled then StatusCancelled else StatusFailed;
            WrittenFor(CoordinatorResult(status, error, evidence, tag), tag, evidence)
  {
    assert COORDINATOR[0] == 'f' && !PyText.IsSpace(COORDINATOR[0]);
  }

  /** The task is over, with such a result. */
  predicate EndedFor(t: Task, u: Task, tag: TerminationTag, evidence: seq<Evidence>) {
    && SameAttempt(t, u) && u.lease.None? && u.result.Some? && WrittenFor(u.result.value, tag, evidence)
    && u.status == (if tag == TagCancelled then TaskCancelled else TaskFailed)
  }

  /** The history gained one entry, naming the attempt and lease that ended, and how. */
  predicate Logged(t: Task, u: Task, ending: Ending) {
    && t.lease.Some?
    && u.history == t.history
                    + [HistoryEntry(t.attempt, t.lease.value.workerId, t.lease.value.generation, ending)]
  }

  // ---- A report -----------------------------------------------------------------------------

  /** The task gets another attempt: its Worker failed in a way that may be retried, asked for it, and one is left. */
  predicate Retries(t: Task, r: WorkerResult, retryable: bool) {
    && r.status == StatusFailed && r.outcome !in {Some(PolicyDenied), Some(OutcomeCancelled), Some(DeadlineExceeded)}
    && retryable && t.attempt < t.maxAttempts
  }

  /** Record `t` after an accepted report: queued again, or over with exactly this result. */
  predicate AfterReport(t: Task, u: Task, r: WorkerResult, retryable: bool) {
    && SameAttempt(t, u) && u.lease.None? && Logged(t, u, Reported(r))
    && (u.status == Queued <==> Retries(t, r, retryable))
    && (u.status == Queued ==> Requeued(t, u))
    && (u.status != Queued ==> u.Terminal() && u.result == Some(r))
    && (u.status == TaskSucceeded <==> r.status == StatusSuccess)
    && (u.status == TaskCancelled <==> r.status == StatusCancelled)
  }

  lemma ReportMeans(t: Task, worker: string, leaseId: string, gen: int, r: WorkerResult, retryable: bool, now: int)
    requires t.HeldBy(worker, leaseId, gen, now) && !t.PastDeadline(now)
    ensures AfterReport(t, CommitReport(t, worker, gen, r, retryable, now), r, retryable)
  {
  }

  // ---- Lease expiry ---------------------------------------------------------------------------

  /** Record `t` after an expiry pass: if its lease ran out, queued again as long as attempts and time are left. */
  predicate AfterExpiry(t: Task, u: Task, now: int) {
    if t.status == Running && t.lease.Some? && t.lease.value.expiresAt <= now then
      && Logged(t, u, LeaseExpired)
      && (if t.attempt < t.maxAttempts && (t.deadline.Some? ==> now < t.deadline.value) then Requeued(t, u)
          else EndedFor(t, u, TagLeaseExpired, [WorkerLeaseExpired]))
    else u == t
  }

  lemma ExpiryMeans(t: Task, now: int)
    ensures AfterExpiry(t, ExpireTask(t, now), now)
  {
    hide CoordinatorResult, WrittenFor, Constructed;
    CoordinatorWrites("lease expired", TagLeaseExpired, [WorkerLeaseExpired]);
  }

  // ---- Cancellation -------------------------------------------------------------------------

  /** Record `t` after a cancellation: over for the cause given, with the reason as its error. */
  predicate AfterCancel(t: Task, u: Task, reason: string, cause: TerminationTag) {
    if t.Terminal() then u == t
    else
      && EndedFor(t, u, cause, [FleetTaskTerminated(cause)]) && u.result.value.error == reason
      && (if t.status == Running then Logged(t, u, CoordinatorTerminated(cause)) else u.history == t.history)
  }

  lemma CancelMeans(t: Task, reason: string, cause: TerminationTag)
    requires TaskInv(t) && !t.Terminal()
    ensures AfterCancel(t, CancelTask(t, reason, cause), reason, cause)
  {
    hide CoordinatorResult, WrittenFor, Constructed;
    CoordinatorWrites(reason, cause, [FleetTaskTerminated(cause)]);
  }

  // ---- The deadline ---------------------------------------------------------------------------

  /** The task is FAILED for its deadline; what it was doing is not logged. */
  predicate AfterDeadline(t: Task, u: Task) {
    EndedFor(t, u, TagDeadlineExceeded, [TaskDeadlineExpired]) && u.history == t.history
  }

  lemma DeadlineMeans(t: Task)
    ensures AfterDeadline(t, FinishDeadline(t))
  {
    hide CoordinatorResult, WrittenFor, Constructed;
    CoordinatorWrites("deadline expired before lease", TagDeadlineExceeded, [TaskDeadlineExpired]);
  }

  // ---- Leases ---------------------------------------------------------------------------------

  /** The task runs under a new lease of the Worker, one attempt and one generation up. */
  predicate LeasedTo(t: Task, u: Task, worker: string, leaseId: string, expiresAt: int) {
    && SameSubmission(t, u) && u.status == Running && u.attempt == t.attempt + 1 && u.generation == t.generation + 1
    && u.lease == Some(Lease(t.taskId, leaseId, worker, u.generation, u.attempt, expiresAt))
    && u.result == t.result && u.history == t.history
  }

  lemma LeaseMeans(t: Task, worker: string, leaseId: string, expiresAt: int)
    ensures LeasedTo(t, LeaseTo(t, worker, leaseId, expiresAt), worker, leaseId, expiresAt)
  {
  }

  /** The same lease, to a new instant; nothing else. */
  predicate RenewedTo(t: Task, u: Task, expiresAt: int) {
    && t.lease.Some? && u.lease.Some? && u.lease.value.expiresAt == expiresAt
    && t == u.(lease := Some(u.lease.value.(expiresAt := t.lease.value.expiresAt)))
  }

  lemma RenewMeans(t: Task, expiresAt: int)
    requires t.lease.Some?
    ensures RenewedTo(t, RenewUntil(t, expiresAt), expiresAt)
  {
  }

  // ---- A restart ------------------------------------------------------------------------------

  /**
   Record `t` after a restart at `now`. A running one loses its lease and is queued again
   exactly if its deadline has not passed and an attempt is left; a queued one stays so
   unless its deadline has passed; a terminal one stays as it is.
   */
  predicate AfterRestart(t: Task, u: Task, now: int) {
    var overdue := t.deadline.Some? && t.deadline.value <= now;
    match t.status
    case Running =>
      && Logged(t, u, RestartInvalidated)
      && (if overdue then EndedFor(t, u, TagDeadlineExceeded, [TaskDeadlineExpired, RestartLeaseInvalidated])
          else if t.attempt < t.maxAttempts then Requeued(t, u)
          else EndedFor(t, u, TagAttemptsExhausted, [RestartLeaseInvalidated]))
    case Queued =>
      if overdue then EndedFor(t, u, TagDeadlineExceeded, [TaskDeadlineExpired]) && u.history == t.history
      else u == t
    case _ => u == t
  }

  lemma RestartMeans(t: Task, now: int)
    requires TaskInv(t)
    ensures RestoreTask(t, now).Ok? && AfterRestart(t, RestoreTask(t, now).value, now)
  {
    hide CoordinatorResult, WrittenFor, Constructed, HistoryFits, LeaseMatches, Advances;
    RestoreAdvances(t, now);
    var revoked := [TaskDeadlineExpired, RestartLeaseInvalidated];
    CoordinatorWrites("deadline expired in restart", TagDeadlineExceeded, revoked);
    CoordinatorWrites("attempts exhausted", TagAttemptsExhausted, [RestartLeaseInvalidated]);
    CoordinatorWrites("deadline expired while stopped", TagDeadlineExceeded, [TaskDeadlineExpired]);
  }
}
