/** Worker registrations over whole runs: who may come back into service, and how. */
module FleetWorkers {
  import opened Wrappers
  import opened FleetTask
  import opened FleetMemory
  import opened FleetSteps
  import opened FleetRecovery
  import opened FleetRuns
  import opened FleetFencing
  import opened FleetSubmission
  import opened FleetCoordinator
  import opened FleetRecords

  const OUT_OF_SERVICE := {Draining, Stopped, Unhealthy}

  /** Under `m'` the Worker is known exactly if it was under `m`, and out of service if it was. */
  predicate StaysOut(m: Memory, m': Memory, id: string) {
    && (id in m'.workers <==> id in m.workers)
    && (id in m.workers && m.workers[id].lifecycle in OUT_OF_SERVICE ==> m'.workers[id].lifecycle in OUT_OF_SERVICE)
  }

  lemma {:induction false} ScanKeepsWorkers(m: Memory, w: Registration, candidates: seq<Task>, env: Env, k: nat)
    ensures forall s <- ScanEffect(m, w, candidates, env, k).saves :: s.workers == m.workers
    decreases |candidates|
  {
    hide ScanEffect, FinishDeadline, LeaseTo;
    if candidates == [] {
      ScanEnds(m, w, env, k);
    } else if candidates[0].PastDeadline(env.clock(k)) {
      ScanSkips(m, w, candidates, env, k);
      ScanKeepsWorkers(PutTask(m, FinishDeadline(candidates[0])), w, candidates[1..], env, k + 1);
    } else {
      ScanLeases(m, w, candidates, env, k);
    }
  }

  lemma ClaimStaysOut(m: Memory, worker: string, env: Env, timeout: int, id: string)
    requires Inv(m)
    ensures forall s <- ClaimEffect(m, worker, env, timeout).saves :: StaysOut(m, s, id)
  {
    hide Inv, ScanEffect, Candidates, ExpireTask;
    var m' := ExpireMemory(m, env.clock(0), timeout);
    assert StaysOut(m, m', id);
    if worker in m'.workers {
      assert m'.workers[worker].workerId == worker by { ExpiredName(m, worker, env.clock(0), timeout); }
      ScanKeepsWorkers(m', m'.workers[worker], Candidates(m', m'.workers[worker], m'.taskOrder), env, 2);
    }
  }

  lemma ExpiredName(m: Memory, worker: string, now: int, timeout: int)
    requires Inv(m) && worker in m.workers
    ensures ExpireMemory(m, now, timeout).workers[worker].workerId == worker
  {
  }

  predicate OnWorkers(op: Op) {
    op.Register? || op.Heartbeat? || op.Drain? || op.StopWorker? || op.Renew?
  }

  lemma WorkerOpStaysOut(m: Memory, op: Op, env: Env, timeout: int, id: string)
    requires Inv(m) && OnWorkers(op) && !(op.Register? && op.workerId == id)
    ensures forall s <- EffectOf(m, op, env, timeout).saves :: StaysOut(m, s, id)
  {
    hide FinishDeadline, ExpireTask, RenewUntil, TaskInv, Distinct;
  }

  lemma TaskOpStaysOut(m: Memory, op: Op, env: Env, timeout: int, id: string)
    requires !OnWorkers(op) && !op.Claim?
    ensures forall s <- EffectOf(m, op, env, timeout).saves :: StaysOut(m, s, id)
  {
    hide FinishDeadline, ExpireTask, CommitReport, CancelTask, SubmitArgumentsValid, FirstWithKey, NewTask;
  }

  lemma EffectStaysOut(m: Memory, op: Op, env: Env, timeout: int, id: string)
    requires Inv(m) && !(op.Register? && op.workerId == id)
    ensures forall s <- EffectOf(m, op, env, timeout).saves :: StaysOut(m, s, id)
  {
    hide Inv, StaysOut;
    if op.Claim? {
      ClaimStaysOut(m, op.workerId, env, timeout, id);
    } else if OnWorkers(op) {
      WorkerOpStaysOut(m, op, env, timeout, id);
    } else {
      TaskOpStaysOut(m, op, env, timeout, id);
    }
  }

  /** The coordinator, if there is one, does not have the Worker in service. */
  predicate Out(f: Fleet, id: string) {
    f.phase != Down && id in f.memory.workers ==> f.memory.workers[id].lifecycle in OUT_OF_SERVICE
  }

  predicate Registers(e: Event, id: string) {
    e.Call? && e.op.Register? && e.op.workerId == id
  }

  lemma OutStep(f: Fleet, e: Event, id: string)
    requires FleetInv(f) && Typed([e]) && Out(f, id) && !Registers(e, id)
    ensures Out(Step(f, e).0, id)
  {
    hide Inv, MemoryEvolves, MemorySteps, EffectOf, Commit, Revived, Recovered, Boot;
    if e.Restart? {
      BootGood(f, e.env);
      if f.durable.Some? {
        RevivedRecords(f.durable.value, e.env.clock(0));
      }
    } else if f.phase != Down {
      var effect := EffectOf(f.memory, e.op, e.env, f.timeout);
      CommitReaches(f, effect.saves, effect.reply, e.env.saves, 0);
      EffectStaysOut(f.memory, e.op, e.env, f.timeout, id);
    }
  }

  lemma {:induction false} OutStays(f: Fleet, events: seq<Event>, id: string)
    requires FleetInv(f) && Typed(events) && Out(f, id) && forall e <- events :: !Registers(e, id)
    ensures FleetInv(After(f, events)) && Out(After(f, events), id)
    decreases |events|
  {
    hide Inv, MemoryEvolves, Step, Typed, Out, FleetInv;
    if events != [] {
      SplitTyped(events);
      assert events[0] in events && forall e <- events[1..] :: e in events;
      StepGood(f, events[0]);
      OutStep(f, events[0], id);
      OutStays(Step(f, events[0]).0, events[1..], id);
    }
  }

  /**
   A Worker that was drained, stopped or found unhealthy claims and renews nothing until it
   registers again, whatever else the run does, heartbeats and restarts included.
   */
  lemma OutOfServiceUntilRegistered(f: Fleet, events: seq<Event>, id: string, op: Op, env: Env)
    requires FleetInv(f) && Typed(events) && Out(f, id) && forall e <- events :: !Registers(e, id)
    requires (op.Claim? || op.Renew?) && op.workerId == id
    ensures var reply := Step(After(f, events), Call(op, env)).1; !reply.Leased? && !reply.Renewed?
  {
    hide Step, After, FleetInv;
    OutStays(f, events, id);
    OutGetsNothing(After(f, events), op, env, id);
  }

  lemma OutGetsNothing(f: Fleet, op: Op, env: Env, id: string)
    requires Out(f, id) && (op.Claim? || op.Renew?) && op.workerId == id
    ensures var reply := Step(f, Call(op, env)).1; !reply.Leased? && !reply.Renewed?
  {
    hide Commit, ScanEffect, ExpireTask, FinishDeadline;
    if f.phase != Down {
      var effect := EffectOf(f.memory, op, env, f.timeout);
      CommitReplies(f, effect.saves, effect.reply, env.saves, 0);
    }
  }

  /** Every restart takes every Worker out of service. */
  lemma RestartTakesOut(f: Fleet, env: Env, id: string)
    requires FleetInv(f)
    ensures Out(Step(f, Restart(env)).0, id)
  {
    hide Inv, MemoryEvolves, MemorySteps, Revived, Recovered, Boot;
    BootGood(f, env);
    if f.durable.Some? {
      RevivedRecords(f.durable.value, env.clock(0));
    }
  }

  /**
   Being out of service costs a Worker its renewals, but not its result: at a moment at
   which its report of a task would be accepted, its renewal of that task is refused and
   changes nothing, while the report is committed just as from a Worker in service.
   */
  lemma OutOfServiceReportsOnly(f: Fleet, report: Op, env: Env)
    requires FleetInv(f) && f.phase == Up && report.Report?
    requires AcceptedReport(f, Call(report, env), report.id, report.result)
    requires Out(f, report.workerId) && env.saves(0) == Saved
    ensures var renew := Renew(report.id, report.workerId, report.leaseId, report.generation);
            var t := CommitReport(f.memory.tasks[report.id], report.workerId, report.generation, report.result,
                                  report.retryable, env.clock(0));
            && Step(f, Call(renew, env)) == (f, Raised(NotRegistered))
            && Step(f, Call(report, env)).1 == TaskReply(t) && t.lease.None?
            && Step(f, Call(report, env)).0.durable == Some(PutTask(f.memory, t))
  {
    hide Inv, MemoryEvolves, Commit, PutTask, FinishDeadline, ExpireMemory;
    var renew := Renew(report.id, report.workerId, report.leaseId, report.generation);
    assert RenewEffect(f.memory, renew, env, f.timeout) == Refuse(NotRegistered);
    CommitNone(f, Raised(NotRegistered), env.saves, 0);
    var t := CommitReport(f.memory.tasks[report.id], report.workerId, report.generation, report.result,
                          report.retryable, env.clock(0));
    assert ReportEffect(f.memory, report, env, f.timeout) == Effect([PutTask(f.memory, t)], TaskReply(t));
    CommitOne(f, PutTask(f.memory, t), TaskReply(t), env.saves, 0);
  }
}
