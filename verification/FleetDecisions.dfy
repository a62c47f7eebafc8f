/**
 What each operation decides, as steps of a run: the record or registration it leaves, its
 answer, and that nothing else is touched, whatever becomes of its save. Records are
 described by `FleetOutcomes`, not by the functions that compute them.
 */
module FleetDecisions {
  import opened Wrappers
  import opened Worker
  import opened FleetTask
  import opened FleetOutcomes
  import opened FleetMemory
  import opened FleetSteps
  import opened FleetRecovery
  import opened FleetRuns
  import opened FleetFencing
  import opened FleetCoordinator
  import opened FleetRecords
  import opened FleetAnswers
  import PyText

  /** A change of memory with one save: answered and stored if the save succeeds, a persistence error otherwise. */
  predicate SavedAs(f: Fleet, g: Fleet, reply: Reply, answer: Reply, save: SaveOutcome) {
    if f.phase == Up && save == Saved then reply == answer && g.phase == Up && g.durable == Some(g.memory)
    else
      && reply == Raised(PersistenceFailed) && g.phase == FailStopped
      && g.durable == (if f.phase == Up && save == LateFailure then Some(g.memory) else f.durable)
  }

  /** Nothing but the record of this task is different. */
  predicate OnlyTask(a: Memory, b: Memory, id: string) {
    && b.workers == a.workers && b.workerOrder == a.workerOrder && b.taskOrder == a.taskOrder
    && id in a.tasks && id in b.tasks && b.tasks == a.tasks[id := b.tasks[id]]
  }

  /** Nothing but the registration of this Worker is different. */
  predicate OnlyWorker(a: Memory, b: Memory, id: string) {
    && b.tasks == a.tasks && b.taskOrder == a.taskOrder && id in b.workers
    && b.workers == a.workers[id := b.workers[id]]
    && b.workerOrder == (if id in a.workers then a.workerOrder else a.workerOrder + [id])
  }

  lemma WorkerIs(m: Memory, w: Registration)
    ensures OnlyWorker(m, PutWorker(m, w), w.workerId) && PutWorker(m, w).workers[w.workerId] == w
  {
  }

  lemma OneSaved(f: Fleet, m: Memory, answer: Reply, outcome: nat -> SaveOutcome)
    requires f.phase != Down
    ensures var (g, reply) := Commit(f, [m], answer, outcome, 0);
            g.memory == m && g.timeout == f.timeout && SavedAs(f, g, reply, answer, outcome(0))
  {
    CommitOne(f, m, answer, outcome, 0);
  }

  lemma OnePut(m: Memory, u: Task)
    requires u.taskId in m.tasks
    ensures OnlyTask(m, PutTask(m, u), u.taskId) && PutTask(m, u).tasks[u.taskId] == u
  {
  }

  /** The one save of an operation that rewrites one task. */
  lemma TaskSaved(f: Fleet, id: string, u: Task, answer: Reply, outcome: nat -> SaveOutcome)
    requires f.phase != Down && id in f.memory.tasks && u.taskId == id
    ensures var (g, reply) := Commit(f, [PutTask(f.memory, u)], answer, outcome, 0);
            && SavedAs(f, g, reply, answer, outcome(0))
            && OnlyTask(f.memory, g.memory, id) && g.memory.tasks[id] == u
  {
    hide Commit, PutTask, SavedAs, OnlyTask;
    OneSaved(f, PutTask(f.memory, u), answer, outcome);
    OnePut(f.memory, u);
  }

  // ---- submit_result --------------------------------------------------------------------------

  /**
   An accepted report: the task is queued again exactly if its Worker failed in a way that
   may be retried, retry was asked for, and an attempt is left; otherwise it is over with
   this result, its status following the result's. Either way the report is logged.
   */
  lemma ReportDecides(f: Fleet, op: Op, env: Env)
    requires FleetInv(f) && op.Report? && AcceptedReport(f, Call(op, env), op.id, op.result)
    ensures var (g, reply) := Step(f, Call(op, env));
            && OnlyTask(f.memory, g.memory, op.id)
            && AfterReport(f.memory.tasks[op.id], g.memory.tasks[op.id], op.result, op.retryable)
            && SavedAs(f, g, reply, TaskReply(g.memory.tasks[op.id]), env.saves(0))
  {
    hide Inv, MemoryEvolves, PutTask, FinishDeadline, ExpireMemory, CommitReport, AfterReport, Commit, SavedAs,
         OnlyTask;
    var t := f.memory.tasks[op.id];
    assert t.taskId == op.id by { MemoryInv(f); TaskOf(f.memory, op.id); }
    var u := CommitReport(t, op.workerId, op.generation, op.result, op.retryable, env.clock(0));
    CommitKeepsId(t, op.workerId, op.generation, op.result, op.retryable, env.clock(0));
    ReportMeans(t, op.workerId, op.leaseId, op.generation, op.result, op.retryable, env.clock(0));
    assert EffectOf(f.memory, op, env, f.timeout) == Effect([PutTask(f.memory, u)], TaskReply(u));
    TaskSaved(f, op.id, u, TaskReply(u), env.saves);
  }

  // ---- The deadline -----------------------------------------------------------------------------

  /** The operation meets a deadline that has passed: a renewal of any task, or a report of a live one. */
  predicate Overdue(f: Fleet, op: Op, env: Env) {
    && (op.Renew? || op.Report?) && op.id in f.memory.tasks
    && f.memory.tasks[op.id].deadline.Some? && f.memory.tasks[op.id].deadline.value <= env.clock(0)
    && (op.Report? ==> op.result.workerId == op.workerId && !f.memory.tasks[op.id].Terminal())
  }

  /** Whoever renews or reports after the deadline is refused, and the task is FAILED for its deadline. */
  lemma OverdueFails(f: Fleet, op: Op, env: Env)
    requires FleetInv(f) && f.phase != Down && Overdue(f, op, env)
    ensures var (g, reply) := Step(f, Call(op, env));
            && OnlyTask(f.memory, g.memory, op.id) && AfterDeadline(f.memory.tasks[op.id], g.memory.tasks[op.id])
            && SavedAs(f, g, reply, Raised(StaleLease), env.saves(0))
  {
    hide Inv, MemoryEvolves, PutTask, FinishDeadline, ExpireMemory, CommitReport, AfterDeadline, Commit, SavedAs,
         OnlyTask, RenewUntil;
    var t := f.memory.tasks[op.id];
    assert t.taskId == op.id by { MemoryInv(f); TaskOf(f.memory, op.id); }
    var u := FinishDeadline(t);
    FinishKeepsId(t);
    DeadlineMeans(t);
    assert EffectOf(f.memory, op, env, f.timeout) == Effect([PutTask(f.memory, u)], Raised(StaleLease));
    TaskSaved(f, op.id, u, Raised(StaleLease), env.saves);
  }

  // ---- renew_lease ------------------------------------------------------------------------------

  /** A renewal in time by the holder of the lease, who is in service and was heard from lately. */
  predicate MayRenew(f: Fleet, op: Op, env: Env)
    requires op.Renew?
  {
    && f.phase != Down && op.id in f.memory.tasks && op.workerId in f.memory.workers
    && f.memory.tasks[op.id].HeldBy(op.workerId, op.leaseId, op.generation, env.clock(0))
    && (f.memory.tasks[op.id].deadline.Some? ==> env.clock(0) < f.memory.tasks[op.id].deadline.value)
    && var w := f.memory.workers[op.workerId];
      w.lifecycle == Ready && env.clock(1) <= w.lastHeartbeat + f.timeout * SECOND
  }

  /**
   Task and Worker after a renewal at `now`: the lease runs on, the Worker has been heard from, all else is as it
   was.
   */
  predicate AfterRenewal(a: Memory, b: Memory, id: string, worker: string, now: int) {
    && id in a.tasks && id in b.tasks && worker in a.workers && worker in b.workers
    && RenewedTo(a.tasks[id], b.tasks[id], now + a.workers[worker].leaseSeconds * SECOND)
    && b.workers == a.workers[worker := a.workers[worker].(lastHeartbeat := now)]
    && b.tasks == a.tasks[id := b.tasks[id]] && b.taskOrder == a.taskOrder && b.workerOrder == a.workerOrder
  }

  /** A lease is renewed exactly for such a caller, for the Worker's lease duration from now on. */
  lemma RenewDecides(f: Fleet, op: Op, env: Env)
    requires FleetInv(f) && op.Renew?
    ensures var (g, reply) := Step(f, Call(op, env));
            && (reply.Renewed? <==> MayRenew(f, op, env) && f.phase == Up && env.saves(0) == Saved)
            && (MayRenew(f, op, env) ==>
                  && AfterRenewal(f.memory, g.memory, op.id, op.workerId, env.clock(0))
                  && SavedAs(f, g, reply, Renewed(g.memory.tasks[op.id].lease.value), env.saves(0)))
  {
    hide Inv, MemoryEvolves, PutTask, PutWorker, FinishDeadline, ExpireMemory, Commit, SavedAs, RenewUntil,
         AfterRenewal;
    if f.phase != Down {
      var e := RenewEffect(f.memory, op, env, f.timeout);
      CommitReplies(f, e.saves, e.reply, env.saves, 0);
      if MayRenew(f, op, env) {
        var t, w := f.memory.tasks[op.id], f.memory.workers[op.workerId];
        RenewMeans(t, env.clock(0) + w.leaseSeconds * SECOND);
        var u := RenewUntil(t, env.clock(0) + w.leaseSeconds * SECOND);
        var m := PutTask(PutWorker(f.memory, w.(lastHeartbeat := env.clock(0))), u);
        assert e == Effect([m], Renewed(u.lease.value));
        OneSaved(f, m, Renewed(u.lease.value), env.saves);
        MemoryInv(f);
        RenewalIs(f.memory, op.id, op.workerId, env.clock(0));
        RenewedReply(f, Step(f, Call(op, env)).0, Step(f, Call(op, env)).1, e.reply, env.saves(0));
      }
    }
  }

  lemma RenewedReply(f: Fleet, g: Fleet, reply: Reply, answer: Reply, save: SaveOutcome)
    requires SavedAs(f, g, reply, answer, save) && answer.Renewed?
    ensures reply.Renewed? <==> f.phase == Up && save == Saved
  {
  }

  lemma RenewalIs(m: Memory, id: string, worker: string, now: int)
    requires Inv(m) && id in m.tasks && worker in m.workers && m.tasks[id].lease.Some?
    ensures var w := m.workers[worker];
            var u := RenewUntil(m.tasks[id], now + w.leaseSeconds * SECOND);
            var m' := PutTask(PutWorker(m, w.(lastHeartbeat := now)), u);
            AfterRenewal(m, m', id, worker, now) && m'.tasks[id] == u
  {
    hide TaskInv, Distinct;
  }

  // ---- expire_leases ----------------------------------------------------------------------------

  /** Registration `w` after an expiry pass: READY without a recent heartbeat becomes UNHEALTHY. */
  predicate AfterSilence(w: Registration, v: Registration, now: int, timeout: int) {
    v == w.(lifecycle := if w.lifecycle == Ready && now > w.lastHeartbeat + timeout * SECOND then Unhealthy
                         else w.lifecycle)
  }

  /** Memory after an expiry pass: every record and every registration decided on its own. */
  predicate ExpiryPassed(a: Memory, b: Memory, now: int, timeout: int) {
    && b.tasks.Keys == a.tasks.Keys && b.workers.Keys == a.workers.Keys
    && b.taskOrder == a.taskOrder && b.workerOrder == a.workerOrder
    && (forall id <- a.tasks :: AfterExpiry(a.tasks[id], b.tasks[id], now))
    && (forall id <- a.workers :: AfterSilence(a.workers[id], b.workers[id], now, timeout))
  }

  lemma ExpireMeans(m: Memory, now: int, timeout: int)
    ensures ExpiryPassed(m, ExpireMemory(m, now, timeout), now, timeout)
  {
    hide ExpireTask, AfterExpiry;
    forall id <- m.tasks ensures AfterExpiry(m.tasks[id], ExpireMemory(m, now, timeout).tasks[id], now) {
      ExpiryMeans(m.tasks[id], now);
    }
  }

  /** An expiry pass answers exactly the records it changed. */
  lemma ExpiryDecides(f: Fleet, env: Env)
    requires FleetInv(f) && f.phase != Down
    ensures var (g, reply) := Step(f, Call(Expire, env));
            && ExpiryPassed(f.memory, g.memory, env.clock(0), f.timeout)
            && exists expired ::
                 && SavedAs(f, g, reply, ExpiredTasks(expired), env.saves(0))
                 && forall u :: u in expired <==>
                                exists id <- f.memory.tasks :: g.memory.tasks[id] == u && f.memory.tasks[id] != u
  {
    hide Inv, MemoryEvolves, ExpireTask, Commit, SavedAs, AfterExpiry;
    var m, now := f.memory, env.clock(0);
    var m' := ExpireMemory(m, now, f.timeout);
    var expired := ExpiredIn(m, now, m.taskOrder);
    OneSaved(f, m', ExpiredTasks(expired), env.saves);
    MemoryInv(f);
    ExpireMeans(m, now, f.timeout);
    forall u ensures u in expired <==> exists id <- m.tasks :: m'.tasks[id] == u && m.tasks[id] != u {
      InvLists(m);
      ExpiredAre(m, now, m.taskOrder, u);
      ExpiryChanges(m, now);
    }
  }

  lemma InvLists(m: Memory)
    requires Inv(m)
    ensures forall id :: id in m.taskOrder <==> id in m.tasks
  {
  }

  lemma ExpiryChanges(m: Memory, now: int)
    ensures forall id <- m.tasks :: ExpireTask(m.tasks[id], now) != m.tasks[id] <==> LeaseRanOut(m.tasks[id], now)
  {
    forall id <- m.tasks
      ensures ExpireTask(m.tasks[id], now) != m.tasks[id] <==> LeaseRanOut(m.tasks[id], now)
    {
      ExpiryMeans(m.tasks[id], now);
    }
  }

  lemma {:induction false} ExpiredAre(m: Memory, now: int, order: seq<string>, u: Task)
    ensures u in ExpiredIn(m, now, order) <==>
            exists id <- order :: id in m.tasks && LeaseRanOut(m.tasks[id], now) && ExpireTask(m.tasks[id], now) == u
  {
    hide ExpireTask;
    if order != [] {
      ExpiredAre(m, now, order[1..], u);
      assert order == [order[0]] + order[1..];
    }
  }

  // ---- Renewals and reports that are refused ------------------------------------------------------

  /** A renewal or a report that is not looked at further: unknown task, someone else's result, or a terminal record. */
  lemma TurnedAway(f: Fleet, op: Op, env: Env)
    requires FleetInv(f) && f.phase != Down && (op.Renew? || op.Report?)
    ensures var step := Step(f, Call(op, env));
            && (op.id !in f.memory.tasks ==> step == (f, Raised(UnknownTask)))
            && (op.id in f.memory.tasks && op.Report? ==>
                  && (op.result.workerId != op.workerId ==> step == (f, Raised(Conflict)))
                  && (op.result.workerId == op.workerId && f.memory.tasks[op.id].Terminal() ==>
                        step == (f, TaskReply(f.memory.tasks[op.id]))))
  {
    hide Inv, MemoryEvolves, PutTask, PutWorker, FinishDeadline, ExpireMemory, CommitReport, RenewUntil, Commit;
    var e := EffectOf(f.memory, op, env, f.timeout);
    if e.saves == [] {
      CommitNone(f, e.reply, env.saves, 0);
    }
  }

  /** The caller does not hold the lease, or not any more; the deadline is not the reason. */
  predicate WithoutLease(f: Fleet, op: Op, env: Env) {
    && (op.Renew? || op.Report?) && op.id in f.memory.tasks && !Overdue(f, op, env)
    && !f.memory.tasks[op.id].HeldBy(op.workerId, op.leaseId, op.generation, env.clock(0))
    && (op.Report? ==> op.result.workerId == op.workerId && !f.memory.tasks[op.id].Terminal())
  }

  /** Such a caller is refused, and sets off an expiry pass, by a later look at the clock. */
  lemma WithoutLeaseExpires(f: Fleet, op: Op, env: Env)
    requires FleetInv(f) && f.phase != Down && WithoutLease(f, op, env)
    ensures var (g, reply) := Step(f, Call(op, env));
            && ExpiryPassed(f.memory, g.memory, env.clock(1), f.timeout)
            && SavedAs(f, g, reply, Raised(StaleLease), env.saves(0))
  {
    hide Inv, MemoryEvolves, PutTask, PutWorker, FinishDeadline, ExpireMemory, CommitReport, RenewUntil, Commit,
         SavedAs, ExpiryPassed;
    ExpireMeans(f.memory, env.clock(1), f.timeout);
    var m := ExpireMemory(f.memory, env.clock(1), f.timeout);
    assert EffectOf(f.memory, op, env, f.timeout) == Effect([m], Raised(StaleLease));
    OneSaved(f, m, Raised(StaleLease), env.saves);
  }

  /** The caller holds the lease in time, but is not in service, or has not been heard from lately. */
  predicate HolderOutOfService(f: Fleet, op: Op, env: Env)
    requires op.Renew?
  {
    && op.id in f.memory.tasks && !Overdue(f, op, env)
    && f.memory.tasks[op.id].HeldBy(op.workerId, op.leaseId, op.generation, env.clock(0)) && !MayRenew(f, op, env)
  }

  /** Its renewal is refused, and only a READY Worker that fell silent is then taken out of service. */
  lemma OutOfServiceRefused(f: Fleet, op: Op, env: Env)
    requires FleetInv(f) && f.phase != Down && op.Renew? && HolderOutOfService(f, op, env)
    ensures var (g, reply) := Step(f, Call(op, env));
            var workers := f.memory.workers;
            if op.workerId !in workers || workers[op.workerId].lifecycle != Ready then
              (g, reply) == (f, Raised(NotRegistered))
            else
              && OnlyWorker(f.memory, g.memory, op.workerId)
              && g.memory.workers[op.workerId] == workers[op.workerId].(lifecycle := Unhealthy)
              && SavedAs(f, g, reply, Raised(NotRegistered), env.saves(0))
  {
    hide MemoryEvolves, PutTask, PutWorker, FinishDeadline, ExpireMemory, RenewUntil, Commit, SavedAs, OnlyWorker,
         TaskInv, Distinct;
    MemoryInv(f);
    var e := RenewEffect(f.memory, op, env, f.timeout);
    if e.saves == [] {
      CommitNone(f, e.reply, env.saves, 0);
    } else {
      var w := f.memory.workers[op.workerId].(lifecycle := Unhealthy);
      assert e == Effect([PutWorker(f.memory, w)], Raised(NotRegistered));
      OneSaved(f, PutWorker(f.memory, w), Raised(NotRegistered), env.saves);
      WorkerIs(f.memory, w);
    }
  }

  // ---- cancel_task ------------------------------------------------------------------------------

  /**
   A cancellation ends a live task for the cause given, CANCELLED only if that cause is a
   cancellation, and tells of a terminal one as it is.
   */
  lemma CancelDecides(f: Fleet, op: Op, env: Env)
    requires FleetInv(f) && f.phase != Down && op.Cancel?
    ensures var (g, reply) := Step(f, Call(op, env));
            if PyText.Blank(op.reason) || op.cause !in {TagCancelled, TagDeadlineExceeded, TagWorkerTimeout} then
              (g, reply) == (f, Raised(Invalid))
            else if op.id !in f.memory.tasks then (g, reply) == (f, Raised(UnknownTask))
            else if f.memory.tasks[op.id].Terminal() then (g, reply) == (f, TaskReply(f.memory.tasks[op.id]))
            else
              && OnlyTask(f.memory, g.memory, op.id)
              && AfterCancel(f.memory.tasks[op.id], g.memory.tasks[op.id], op.reason, op.cause)
              && SavedAs(f, g, reply, TaskReply(g.memory.tasks[op.id]), env.saves(0))
  {
    hide Inv, MemoryEvolves, PutTask, CancelTask, AfterCancel, Commit, SavedAs, OnlyTask;
    var e := CancelEffect(f.memory, op);
    if e.saves == [] {
      CommitNone(f, e.reply, env.saves, 0);
    } else {
      var t := f.memory.tasks[op.id];
      MemoryInv(f);
      TaskOf(f.memory, op.id);
      var u := CancelTask(t, op.reason, op.cause);
      CancelMeans(t, op.reason, op.cause);
      CancelledKeepsId(t, u, op);
      TaskSaved(f, op.id, u, TaskReply(u), env.saves);
    }
  }

  lemma CancelledKeepsId(t: Task, u: Task, op: Op)
    requires op.Cancel? && AfterCancel(t, u, op.reason, op.cause)
    ensures u.taskId == t.taskId
  {
  }

  // ---- submit_task ------------------------------------------------------------------------------

  /** A task as it is first recorded: waiting, at its submission, for its first attempt. */
  predicate NewlySubmitted(t: Task, op: Op, id: string, now: int)
    requires op.Submit?
  {
    && t.taskId == id && t.idempotencyKey == op.key.GetOr(id) && SameArguments(t, op) && t.submittedAt == now
    && t.status == Queued && t.attempt == t.generation == 0 && t.lease.None? && t.result.None? && t.history == []
  }

  /** The submission asks for a task there is not yet: its key, if it gives one, and its identity are both new. */
  ghost predicate AsksForNew(f: Fleet, op: Op, id: string)
    requires op.Submit?
  {
    && id !in f.memory.tasks
    && (op.key.Some? ==> forall other <- f.memory.tasks :: f.memory.tasks[other].idempotencyKey != op.key.value)
  }

  /** The task was submitted before, in the same words. */
  predicate Resubmitted(m: Memory, t: Task, op: Op)
    requires op.Submit?
  {
    && t.taskId in m.tasks && m.tasks[t.taskId] == t && SameArguments(t, op)
    && (op.key.Some? ==> t.idempotencyKey == op.key.value) && (op.taskId.Some? ==> t.taskId == op.taskId.value)
  }

  /**
   A task is created exactly for such a submission, and then waits behind those submitted
   before. Otherwise nothing changes, and the answer is the task submitted before in the
   same words, or a conflict.
   */
  lemma SubmitDecides(f: Fleet, op: Op, env: Env)
    requires FleetInv(f) && f.phase != Down && op.Submit?
    ensures var (g, reply) := Step(f, Call(op, env));
            var m, id := f.memory, op.taskId.GetOr(env.uuid);
            if !SubmitArgumentsValid(op) then (g, reply) == (f, Raised(Invalid))
            else if AsksForNew(f, op, id) then
              && id in g.memory.tasks && NewlySubmitted(g.memory.tasks[id], op, id, env.clock(0))
              && g.memory.tasks == m.tasks[id := g.memory.tasks[id]] && g.memory.taskOrder == m.taskOrder + [id]
              && g.memory.workers == m.workers && g.memory.workerOrder == m.workerOrder
              && SavedAs(f, g, reply, TaskReply(g.memory.tasks[id]), env.saves(0))
            else
              && g == f && (if reply.TaskReply? then Resubmitted(m, reply.task, op) else reply == Raised(Conflict))
              && (op.key.None? ==>
                    (reply.TaskReply? <==>
                     id in m.tasks && m.tasks[id].idempotencyKey == id && SameArguments(m.tasks[id], op)))
  {
    hide Inv, MemoryEvolves, FirstWithKey, Commit, SavedAs, SubmitArgumentsValid, SameArguments;
    var m, id := f.memory, op.taskId.GetOr(env.uuid);
    var e := SubmitEffect(m, op, env);
    MemoryInv(f);
    if op.key.Some? {
      KeyIsNew(m, op.key.value);
      FoundIsKept(m, op.key.value, m.taskOrder);
      FoundHasKey(m, op.key.value, m.taskOrder);
    }
    if id in m.tasks {
      TaskOf(m, id);
    }
    if SubmitArgumentsValid(op) && AsksForNew(f, op, id) {
      OneSaved(f, e.saves[0], e.reply, env.saves);
      NewTaskMeans(op, id, env);
    } else {
      assert e.saves == [];
      CommitNone(f, e.reply, env.saves, 0);
    }
  }

  lemma {:induction false} FoundHasKey(m: Memory, key: string, order: seq<string>)
    ensures var p := FirstWithKey(m, key, order); p.Some? ==> p.value.idempotencyKey == key
  {
    if order != [] {
      FoundHasKey(m, key, order[1..]);
    }
  }

  lemma NewTaskMeans(op: Op, id: string, env: Env)
    requires op.Submit?
    ensures var t := NewTask(id, op.executionId, op.key.GetOr(id), op.intent, AsSet(op.required), op.maxAttempts,
                             op.deadline, env.clock(0));
            NewlySubmitted(t, op, id, env.clock(0))
  {
  }

  lemma KeyIsNew(m: Memory, key: string)
    requires Inv(m)
    ensures FirstWithKey(m, key, m.taskOrder).None? <==> forall id <- m.tasks :: m.tasks[id].idempotencyKey != key
  {
    hide TaskInv, Distinct;
    KeyIsListed(m, key, m.taskOrder);
  }

  lemma {:induction false} KeyIsListed(m: Memory, key: string, order: seq<string>)
    ensures FirstWithKey(m, key, order).None? <==>
            forall id <- order :: id in m.tasks ==> m.tasks[id].idempotencyKey != key
  {
    if order != [] {
      KeyIsListed(m, key, order[1..]);
      assert order == [order[0]] + order[1..];
    }
  }

  // ---- Registrations ----------------------------------------------------------------------------

  lemma WorkerPut(f: Fleet, w: Registration, outcome: nat -> SaveOutcome)
    requires f.phase != Down
    ensures var (g, reply) := Commit(f, [PutWorker(f.memory, w)], WorkerReply(w), outcome, 0);
            && OnlyWorker(f.memory, g.memory, w.workerId) && g.memory.workers[w.workerId] == w
            && SavedAs(f, g, reply, WorkerReply(w), outcome(0))
  {
    hide Commit, SavedAs;
    OneSaved(f, PutWorker(f.memory, w), WorkerReply(w), outcome);
  }

  /** The arguments describe a Worker, with capabilities and a lease duration. */
  predicate Registrable(op: Op)
    requires op.Register?
  {
    && !PyText.Blank(op.workerId) && !PyText.Blank(op.implementationId) && op.leaseSeconds >= 1
    && forall c <- op.capabilities :: !PyText.Blank(c)
  }

  /** A registration puts its Worker into service as described, unless the identity is another implementation's. */
  lemma RegisterDecides(f: Fleet, op: Op, env: Env)
    requires FleetInv(f) && f.phase != Down && op.Register?
    ensures var (g, reply) := Step(f, Call(op, env));
            var known := f.memory.workers;
            if !Registrable(op) then (g, reply) == (f, Raised(Invalid))
            else if op.workerId in known && known[op.workerId].implementationId != op.implementationId then
              (g, reply) == (f, Raised(Conflict))
            else
              && OnlyWorker(f.memory, g.memory, op.workerId)
              && var w := g.memory.workers[op.workerId];
                && w.workerId == op.workerId && w.implementationId == op.implementationId
                && (forall c :: c in w.capabilities <==> c in op.capabilities)
                && w.lifecycle == Ready && w.lastHeartbeat == env.clock(0) && w.leaseSeconds == op.leaseSeconds
                && SavedAs(f, g, reply, WorkerReply(w), env.saves(0))
  {
    hide Inv, MemoryEvolves, Commit, SavedAs, OnlyWorker, PutWorker;
    var e := RegisterEffect(f.memory, op, env);
    if e.saves == [] {
      CommitNone(f, e.reply, env.saves, 0);
    } else {
      WorkerPut(f, e.reply.worker, env.saves);
    }
  }

  /** The state a Worker is in after a heartbeat, a drain or a stop; a heartbeat does not end a drain. */
  function Afterwards(op: Op, was: Lifecycle): Lifecycle {
    match op
    case Drain(_) => Draining
    case StopWorker(_) => Stopped
    case _ => if was == Draining then Draining else Ready
  }

  /** Heartbeats, drains and stops: only of known Workers, and a heartbeat only of one that is not out of service. */
  lemma ServiceDecides(f: Fleet, op: Op, env: Env)
    requires FleetInv(f) && f.phase != Down && (op.Heartbeat? || op.Drain? || op.StopWorker?)
    ensures var (g, reply) := Step(f, Call(op, env));
            var known := f.memory.workers;
            if op.workerId !in known || (op.Heartbeat? && known[op.workerId].lifecycle in {Stopped, Unhealthy}) then
              (g, reply) == (f, Raised(NotRegistered))
            else
              var was := known[op.workerId];
              && OnlyWorker(f.memory, g.memory, op.workerId)
              && g.memory.workers[op.workerId]
                 == was.(lifecycle := Afterwards(op, was.lifecycle), lastHeartbeat := env.clock(0))
              && SavedAs(f, g, reply, WorkerReply(g.memory.workers[op.workerId]), env.saves(0))
  {
    hide MemoryEvolves, Commit, SavedAs, OnlyWorker, PutWorker, TaskInv, Distinct;
    MemoryInv(f);
    var e := EffectOf(f.memory, op, env, f.timeout);
    if e.saves == [] {
      CommitNone(f, e.reply, env.saves, 0);
    } else {
      WorkerPut(f, e.reply.worker, env.saves);
    }
  }

  // ---- Restart ----------------------------------------------------------------------------------

  /**
   A restart over a stored snapshot: it comes up exactly if its save succeeds, with every
   stored record queued again, ended or left alone as `AfterRestart` says, no lease, and
   every Worker out of service; and this is stored if the save got that far.
   */
  lemma RestartDecides(f: Fleet, env: Env)
    requires FleetInv(f) && f.durable.Some?
    ensures var (g, reply) := Step(f, Restart(env));
            var was, now := f.durable.value, env.clock(0);
            && (reply == Started <==> env.saves(0) == Saved) && (g.phase == Up <==> reply == Started)
            && (reply != Started ==> reply == Raised(PersistenceFailed) && g.phase == Down)
            && g.durable == (if env.saves(0) == LostSave then f.durable else Some(g.memory))
            && g.memory.tasks.Keys == was.tasks.Keys && g.memory.workers.Keys == was.workers.Keys
            && (forall id <- was.tasks ::
                  && AfterRestart(was.tasks[id], g.memory.tasks[id], now) && g.memory.tasks[id].lease.None?
                  && g.memory.tasks[id].status != Running)
            && (forall id <- was.workers ::
                  g.memory.workers[id] == was.workers[id].(lifecycle := Unhealthy, lastHeartbeat := now))
  {
    hide Inv, MemoryEvolves, MemorySteps, Revived, RestoreTask, Restore, SnapshotOf, AfterRestart;
    RestoreSucceeds(f.durable.value, env.clock(0));
    RevivedRecords(f.durable.value, env.clock(0));
  }
}
