/** No attempt is wasted: over whole runs, a task is given up only when its attempts are spent. */
module FleetRetries {
  import opened Wrappers
  import opened Worker
  import opened FleetTask
  import opened FleetOutcomes
  import opened FleetMemory
  import opened FleetSteps
  import opened FleetRecovery
  import opened FleetRuns
  import opened FleetFencing
  import opened FleetSubmission

  /** The task has no deadline, and has succeeded, spent all its attempts, or is still being tried. */
  predicate Tried(t: Task) {
    && t.deadline.None?
    && (t.Terminal() ==> t.status == TaskSucceeded || (t.status == TaskFailed && t.attempt == t.maxAttempts))
  }

  /** The operation does not cancel the task, nor report a failure of it that is not to be retried. */
  predicate Sparing(op: Op, id: string) {
    && !(op.Cancel? && op.id == id)
    && (op.Report? && op.id == id ==>
          op.result.status == StatusSuccess
          || (op.result.status == StatusFailed && op.retryable
              && op.result.outcome !in {Some(PolicyDenied), Some(OutcomeCancelled), Some(DeadlineExceeded)}))
  }

  /** Under this memory the task, if known, satisfies `Tried`. */
  predicate TriedIn(m: Memory, id: string) {
    id in m.tasks ==> Tried(m.tasks[id])
  }

  lemma ExpiryTries(t: Task, now: int)
    requires TaskInv(t) && Tried(t)
    ensures Tried(ExpireTask(t, now))
  {
    hide ExpireTask, WrittenFor, LeaseMatches, ResultMatches, HistoryFits;
    ExpiryMeans(t, now);
  }

  lemma ReportTries(t: Task, op: Op, now: int)
    requires TaskInv(t) && Tried(t) && op.Report? && Sparing(op, t.taskId) && op.id == t.taskId
    requires t.HeldBy(op.workerId, op.leaseId, op.generation, now)
    ensures Tried(CommitReport(t, op.workerId, op.generation, op.result, op.retryable, now))
  {
    hide CommitReport, LeaseMatches, ResultMatches, HistoryFits;
    ReportMeans(t, op.workerId, op.leaseId, op.generation, op.result, op.retryable, now);
  }

  lemma RestartTries(t: Task, now: int)
    requires TaskInv(t) && Tried(t)
    ensures RestoreTask(t, now).Ok? && Tried(RestoreTask(t, now).value)
  {
    hide RestoreTask, WrittenFor, LeaseMatches, ResultMatches, HistoryFits;
    RestartMeans(t, now);
  }

  lemma ExpiredTried(m: Memory, now: int, timeout: int, id: string)
    requires Inv(m) && TriedIn(m, id)
    ensures TriedIn(ExpireMemory(m, now, timeout), id)
  {
    hide TaskInv, Tried, ExpireTask;
    if id in m.tasks {
      ExpiryTries(m.tasks[id], now);
    }
  }

  lemma {:induction false} ScanTries(m: Memory, w: Registration, candidates: seq<Task>, env: Env, k: nat, id: string)
    requires TriedIn(m, id) && Fresh(m, candidates)
    ensures forall s <- ScanEffect(m, w, candidates, env, k).saves :: TriedIn(s, id)
    decreases |candidates|
  {
    hide ScanEffect, FinishDeadline, LeaseTo;
    if candidates == [] {
      ScanEnds(m, w, env, k);
    } else {
      var t := candidates[0];
      assert FreshRecord(m, t);
      if t.PastDeadline(env.clock(k)) {
        ScanSkips(m, w, candidates, env, k);
        FinishKeepsId(t);
        FreshAfterPut(m, candidates, FinishDeadline(t));
        ScanTries(PutTask(m, FinishDeadline(t)), w, candidates[1..], env, k + 1, id);
      } else {
        ScanLeases(m, w, candidates, env, k);
        var k' := if t.deadline.Some? then k + 1 else k;
        LeaseMeans(t, w.workerId, env.uuid, env.clock(k') + w.leaseSeconds * SECOND);
      }
    }
  }

  lemma ClaimTries(m: Memory, worker: string, env: Env, timeout: int, id: string)
    requires Inv(m) && TriedIn(m, id)
    ensures forall s <- ClaimEffect(m, worker, env, timeout).saves :: TriedIn(s, id)
  {
    hide Inv, ScanEffect, Candidates, ExpireMemory, TriedIn, Fresh, MemorySteps;
    var m' := ExpireMemory(m, env.clock(0), timeout);
    ExpiredTried(m, env.clock(0), timeout, id);
    ExpireSteps(m, env.clock(0), timeout);
    if worker in m'.workers {
      var w := m'.workers[worker];
      CandidatesFresh(m', w);
      ScanTries(m', w, Candidates(m', w, m'.taskOrder), env, 2, id);
      WorkersOnly(m', w.(lifecycle := Unhealthy), id);
    }
  }

  lemma WorkersOnly(m: Memory, w: Registration, id: string)
    ensures TriedIn(PutWorker(m, w), id) == TriedIn(m, id)
  {
  }

  lemma PutTries(m: Memory, t: Task, id: string)
    requires TriedIn(m, id) && (t.taskId == id ==> Tried(t))
    ensures TriedIn(PutTask(m, t), id)
  {
  }

  /** Every state an operation persists leaves the task tried, if it is spared. */
  lemma ReportEffectTries(m: Memory, op: Op, env: Env, timeout: int, id: string)
    requires Inv(m) && TriedIn(m, id) && op.Report? && Sparing(op, id) && id in m.tasks
    ensures forall s <- ReportEffect(m, op, env, timeout).saves :: TriedIn(s, id)
  {
    hide Inv, TaskInv, CommitReport, FinishDeadline, ExpireMemory, PutTask, Sparing, Tried;
    ExpiredTried(m, env.clock(1), timeout, id);
    if op.id in m.tasks {
      var t, now := m.tasks[op.id], env.clock(0);
      TaskOf(m, op.id);
      FinishKeepsId(t);
      CommitKeepsId(t, op.workerId, op.generation, op.result, op.retryable, now);
      if op.id == id && t.HeldBy(op.workerId, op.leaseId, op.generation, now) {
        ReportTries(t, op, now);
      }
      NoDeadline(m.tasks[id], now);
      if t.HeldBy(op.workerId, op.leaseId, op.generation, now) {
        PutTries(m, CommitReport(t, op.workerId, op.generation, op.result, op.retryable, now), id);
      }
      if t.PastDeadline(now) {
        PutTries(m, FinishDeadline(t), id);
      }
    }
  }

  lemma NoDeadline(t: Task, now: int)
    requires Tried(t)
    ensures !t.PastDeadline(now)
  {
  }

  lemma RenewEffectTries(m: Memory, op: Op, env: Env, timeout: int, id: string)
    requires Inv(m) && TriedIn(m, id) && op.Renew? && id in m.tasks
    ensures forall s <- RenewEffect(m, op, env, timeout).saves :: TriedIn(s, id)
  {
    hide Inv, TaskInv, FinishDeadline, ExpireMemory, PutTask, RenewUntil, PutWorker, Tried;
    ExpiredTried(m, env.clock(1), timeout, id);
    NoDeadline(m.tasks[id], env.clock(0));
    if op.id in m.tasks {
      var t, now := m.tasks[op.id], env.clock(0);
      TaskOf(m, op.id);
      FinishKeepsId(t);
      if t.PastDeadline(now) {
        PutTries(m, FinishDeadline(t), id);
      }
      if op.workerId in m.workers && t.lease.Some? {
        var w := m.workers[op.workerId];
        WorkersOnly(m, w.(lifecycle := Unhealthy), id);
        WorkersOnly(m, w.(lastHeartbeat := now), id);
        RenewalTries(t, now + w.leaseSeconds * SECOND);
        PutTries(PutWorker(m, w.(lastHeartbeat := now)), RenewUntil(t, now + w.leaseSeconds * SECOND), id);
      }
    }
  }

  lemma RenewalTries(t: Task, expiresAt: int)
    requires t.lease.Some?
    ensures Tried(t) ==> Tried(RenewUntil(t, expiresAt))
    ensures RenewUntil(t, expiresAt).taskId == t.taskId
  {
  }

  lemma EffectTries(m: Memory, op: Op, env: Env, timeout: int, id: string)
    requires Inv(m) && TriedIn(m, id) && Sparing(op, id) && id in m.tasks
    ensures forall s <- EffectOf(m, op, env, timeout).saves :: TriedIn(s, id)
  {
    hide Inv, Tried, ClaimEffect, RenewEffect, ReportEffect, ExpireMemory, CancelTask, SubmitArgumentsValid,
         FirstWithKey, SameArguments;
    match op
    case Claim(worker) => ClaimTries(m, worker, env, timeout, id);
    case Renew(_, _, _, _) => RenewEffectTries(m, op, env, timeout, id);
    case Report(_, _, _, _, _, _) => ReportEffectTries(m, op, env, timeout, id);
    case Expire => ExpiredTried(m, env.clock(0), timeout, id);
    case Cancel(other, reason, cause) =>
      if other in m.tasks {
        TaskOf(m, other);
        CancelKeepsId(m.tasks[other], reason, cause);
      }
    case _ =>
  }

  lemma CancelKeepsId(t: Task, reason: string, cause: TerminationTag)
    ensures CancelTask(t, reason, cause).taskId == t.taskId
  {
  }

  // ---- Over runs ----------------------------------------------------------------------------------

  ghost predicate TriedAt(f: Fleet, id: string) {
    && f.durable.Some? && id in f.durable.value.tasks && Tried(f.durable.value.tasks[id])
    && (f.phase != Down ==> id in f.memory.tasks && Tried(f.memory.tasks[id]))
  }

  lemma TriesStep(f: Fleet, e: Event, id: string)
    requires FleetInv(f) && Typed([e]) && TriedAt(f, id) && (e.Call? ==> Sparing(e.op, id))
    ensures TriedAt(Step(f, e).0, id)
  {
    hide Inv, MemoryEvolves, MemorySteps, EffectOf, Commit, Revived, Recovered, Boot, Tried, Sparing, RestoreTask;
    StepGood(f, e);
    if e.Restart? {
      BootGood(f, e.env);
      RevivedTries(f.durable.value, e.env.clock(0), id);
    } else if f.phase != Down {
      var effect := EffectOf(f.memory, e.op, e.env, f.timeout);
      CommitReaches(f, effect.saves, effect.reply, e.env.saves, 0);
      MemoryInv(f);
      EffectTries(f.memory, e.op, e.env, f.timeout, id);
      TriesKnown(f, Step(f, e).0, e, id);
    }
  }

  lemma TriesKnown(f: Fleet, g: Fleet, e: Event, id: string)
    requires e.Call? && id in f.memory.tasks && f.durable.Some? && id in f.durable.value.tasks
    requires MemorySteps(f.memory, g.memory, GrantOf(f.memory, e.op, e.env))
    requires g.durable == f.durable
             || (g.durable.Some? && MemorySteps(f.memory, g.durable.value, GrantOf(f.memory, e.op, e.env)))
    ensures id in g.memory.tasks && g.durable.Some? && id in g.durable.value.tasks
  {
    hide GrantOf, Evolves, Licensed;
  }

  lemma RevivedTries(m: Memory, now: int, id: string)
    requires Inv(m) && id in m.tasks && Tried(m.tasks[id])
    ensures id in Revived(m, now).tasks && Tried(Revived(m, now).tasks[id])
  {
    hide Inv, MemorySteps, Recovered, Tried, RestoreTask;
    RevivedRecords(m, now);
    TaskOf(m, id);
    RestartTries(m.tasks[id], now);
  }

  lemma {:induction false} Tries(f: Fleet, events: seq<Event>, id: string)
    requires FleetInv(f) && Typed(events) && TriedAt(f, id) && forall e <- events :: e.Call? ==> Sparing(e.op, id)
    ensures TriedAt(After(f, events), id)
    decreases |events|
  {
    hide Inv, MemoryEvolves, Step, Typed, FleetInv, TriedAt, Sparing;
    if events != [] {
      SplitTyped(events);
      assert events[0] in events && forall e <- events[1..] :: e in events;
      StepGood(f, events[0]);
      TriesStep(f, events[0], id);
      Tries(Step(f, events[0]).0, events[1..], id);
    }
  }

  /**
   A live task without a deadline that nobody cancels, and whose reported failures all ask
   for a retry and may be retried, is never given up before its last attempt: whatever else
   happens to it, leases running out, failed saves, crashes and restarts included, its
   stored record is live, SUCCEEDED, or FAILED with every attempt used.
   */
  lemma GivenUpOnlyWhenSpent(f: Fleet, events: seq<Event>, id: string)
    requires FleetInv(f) && Typed(events) && f.phase == Up && id in f.memory.tasks
    requires !f.memory.tasks[id].Terminal() && f.memory.tasks[id].deadline.None?
    requires forall e <- events :: e.Call? ==> Sparing(e.op, id)
    ensures var g := After(f, events);
            && g.durable.Some? && id in g.durable.value.tasks
            && var t := g.durable.value.tasks[id];
              && (t.Terminal() ==> t.status == TaskSucceeded || (t.status == TaskFailed && t.attempt == t.maxAttempts))
  {
    hide Inv, MemoryEvolves, After, Sparing;
    Tries(f, events, id);
  }
}
