/**
 Fencing over whole runs: generations of acknowledged claims strictly increase,
 a lease that was lost never acts again, and every Worker-supplied result was
 accepted from the holder of the current lease, in time.
 */
module FleetFencing {
  import opened Wrappers
  import opened Worker
  import opened FleetTask
  import opened FleetMemory
  import opened FleetSteps
  import opened FleetRuns
  import opened FleetRecovery

  // ---- What an acknowledgement says ---------------------------------------------

  /** An operation that saved and did not report a persistence failure left its last state both in memory and stored. */
  lemma {:induction false} CommitAcknowledged(f: Fleet, saves: seq<Memory>, reply: Reply, outcome: nat -> SaveOutcome,
                                              n: nat)
    requires saves != [] && Commit(f, saves, reply, outcome, n).1 != Raised(PersistenceFailed)
    ensures var (f', r) := Commit(f, saves, reply, outcome, n);
            f.phase == Up && f'.phase == Up && r == reply
            && f'.memory == saves[|saves| - 1] && f'.durable == Some(f'.memory)
    decreases |saves|
  {
    if |saves| > 1 {
      CommitAcknowledged(f.(memory := saves[0], durable := Some(saves[0])), saves[1..], reply, outcome, n + 1);
    }
  }

  /** The lease the candidate loop grants is the next generation of a queued record, and is what it leaves in memory. */
  lemma {:induction false} ScanLeased(m: Memory, w: Registration, candidates: seq<Task>, env: Env, k: nat)
    requires Fresh(m, candidates) && ScanEffect(m, w, candidates, env, k).reply.Leased?
    ensures var e := ScanEffect(m, w, candidates, env, k);
            var t := e.reply.task;
            && e.saves != [] && t.taskId in e.saves[|e.saves| - 1].tasks && e.saves[|e.saves| - 1].tasks[t.taskId] == t
            && t.taskId in m.tasks && t.lease.Some?
            && t == LeaseTo(m.tasks[t.taskId], w.workerId, t.lease.value.leaseId, t.lease.value.expiresAt)
    decreases |candidates|
  {
    assert FreshRecord(m, candidates[0]);
    hide ScanEffect;
    if candidates[0].PastDeadline(env.clock(k)) {
      ScanSkips(m, w, candidates, env, k);
      var m' := PutTask(m, FinishDeadline(candidates[0]));
      FinishKeepsId(candidates[0]);
      FreshAfterPut(m, candidates, FinishDeadline(candidates[0]));
      ScanLeased(m', w, candidates[1..], env, k + 1);
      ScanNames(m', w, candidates[1..], env, k + 1);
    } else {
      ScanLeases(m, w, candidates, env, k);
    }
  }

  /** The leased task is one of the candidates. */
  lemma {:induction false} ScanNames(m: Memory, w: Registration, candidates: seq<Task>, env: Env, k: nat)
    requires ScanEffect(m, w, candidates, env, k).reply.Leased?
    ensures exists i :: 0 <= i < |candidates|
                        && candidates[i].taskId == ScanEffect(m, w, candidates, env, k).reply.task.taskId
    decreases |candidates|
  {
    if candidates[0].PastDeadline(env.clock(k)) {
      ScanSkips(m, w, candidates, env, k);
      var m' := PutTask(m, FinishDeadline(candidates[0]));
      hide ScanEffect;
      ScanNames(m', w, candidates[1..], env, k + 1);
      var i :| 0 <= i < |candidates[1..]|
               && candidates[1..][i].taskId == ScanEffect(m', w, candidates[1..], env, k + 1).reply.task.taskId;
      assert candidates[i + 1] == candidates[1..][i];
    }
  }

  /** An acknowledged claim: the lease it returns is in memory and stored, one generation above the record it found. */
  lemma ClaimAcknowledged(f: Fleet, worker: string, env: Env)
    requires FleetInv(f) && Step(f, Call(Claim(worker), env)).1.Leased?
    ensures var (f', r) := Step(f, Call(Claim(worker), env));
            var t := r.task;
            && f.phase == Up && f'.phase == Up && f'.durable == Some(f'.memory)
            && t.taskId in f.memory.tasks && t.generation == f.memory.tasks[t.taskId].generation + 1
            && t.taskId in f'.memory.tasks && f'.memory.tasks[t.taskId] == t
            && t.lease.Some? && t.lease.value.generation == t.generation
  {
    hide Inv, MemoryEvolves, ClaimEffect, Commit;
    var effect := ClaimEffect(f.memory, worker, env, f.timeout);
    CommitReplies(f, effect.saves, effect.reply, env.saves, 0);
    ClaimLeased(f.memory, worker, env, f.timeout);
    CommitAcknowledged(f, effect.saves, effect.reply, env.saves, 0);
  }

  lemma {:induction false} CommitReplies(f: Fleet, saves: seq<Memory>, reply: Reply, outcome: nat -> SaveOutcome,
                                         n: nat)
    ensures Commit(f, saves, reply, outcome, n).1 in {reply, Raised(PersistenceFailed)}
    decreases |saves|
  {
    if saves != [] && f.phase == Up && outcome(n) == Saved {
      CommitReplies(f.(memory := saves[0], durable := Some(saves[0])), saves[1..], reply, outcome, n + 1);
    }
  }

  lemma ClaimLeased(m: Memory, worker: string, env: Env, timeout: int)
    requires Inv(m) && ClaimEffect(m, worker, env, timeout).reply.Leased?
    ensures var e := ClaimEffect(m, worker, env, timeout);
            var t := e.reply.task;
            && e.saves != [] && t.taskId in e.saves[|e.saves| - 1].tasks && e.saves[|e.saves| - 1].tasks[t.taskId] == t
            && t.taskId in m.tasks && t.generation == m.tasks[t.taskId].generation + 1
            && t.lease.Some? && t.lease.value.generation == t.generation
  {
    hide Inv, MemorySteps, ExpireMemory, ScanEffect, Candidates, Fresh;
    var m' := ExpireMemory(m, env.clock(0), timeout);
    ExpireSteps(m, env.clock(0), timeout);
    ExpireGenerations(m, env.clock(0), timeout);
    var w := m'.workers[worker];
    CandidatesFresh(m', w);
    ScanLeased(m', w, Candidates(m', w, m'.taskOrder), env, 2);
  }

  lemma ExpireGenerations(m: Memory, now: int, timeout: int)
    ensures var e := ExpireMemory(m, now, timeout);
            e.tasks.Keys == m.tasks.Keys && forall id <- m.tasks :: e.tasks[id].generation == m.tasks[id].generation
  {
  }

  // ---- Generations -------------------------------------------------------------------

  /** The task is stored, and known in memory, with at least this generation. */
  ghost predicate Reached(f: Fleet, id: string, gen: int) {
    && f.durable.Some? && id in f.durable.value.tasks && gen <= f.durable.value.tasks[id].generation
    && (f.phase != Down ==> id in f.memory.tasks && gen <= f.memory.tasks[id].generation)
  }

  lemma ReachedFromDurable(f: Fleet, id: string, gen: int)
    requires FleetInv(f) && f.durable.Some? && id in f.durable.value.tasks
             && gen <= f.durable.value.tasks[id].generation
    ensures Reached(f, id, gen)
  {
  }

  lemma ReachedStays(f: Fleet, id: string, gen: int, events: seq<Event>)
    requires FleetInv(f) && Typed(events) && Reached(f, id, gen)
    ensures FleetInv(After(f, events)) && Reached(After(f, events), id, gen)
  {
    RunGood(f, events);
    hide Inv;
    ReachedFromDurable(After(f, events), id, gen);
  }

  /**
   Acknowledged claims of one task carry strictly increasing generations, whatever
   happens between them: failed saves, fail-stops, crashes and restarts included.
   */
  lemma GenerationsIncrease(f: Fleet, first: Event, events: seq<Event>, second: Event)
    requires FleetInv(f) && Typed(events)
    requires first.Call? && first.op.Claim? && second.Call? && second.op.Claim?
    requires Step(f, first).1.Leased? && Step(After(Step(f, first).0, events), second).1.Leased?
    requires Step(f, first).1.task.taskId == Step(After(Step(f, first).0, events), second).1.task.taskId
    ensures Step(f, first).1.task.generation < Step(After(Step(f, first).0, events), second).1.task.generation
  {
    hide Inv, MemoryEvolves, Step, After;
    var t := Step(f, first).1.task;
    var f1 := Step(f, first).0;
    StepGood(f, first);
    ClaimAcknowledged(f, first.op.workerId, first.env);
    ReachedStays(f1, t.taskId, t.generation, events);
    ClaimAcknowledged(After(f1, events), second.op.workerId, second.env);
  }

  // ---- Lost leases ----------------------------------------------------------------------

  /** The coordinator still regards generation `gen` of the task as leased. */
  predicate Current(f: Fleet, id: string, gen: int) {
    && f.phase != Down && id in f.memory.tasks
    && f.memory.tasks[id].lease.Some? && f.memory.tasks[id].lease.value.generation == gen
  }

  /** The operation presents generation `gen` of the task and is let through as its lease holder. */
  predicate ActsOn(f: Fleet, op: Op, env: Env, id: string, gen: int) {
    && f.phase != Down
    && ((op.Renew? && op.id == id && op.generation == gen && GrantOf(f.memory, op, env) == RenewOf(id))
        || (op.Report? && op.id == id && op.generation == gen && GrantOf(f.memory, op, env) == ReportOf(id, op.result)))
  }

  /** The operation presents a lease: the renewal or report of generation `gen` of the task. */
  predicate Presents(op: Op, id: string, gen: int) {
    (op.Renew? || op.Report?) && op.id == id && op.generation == gen
  }

  /**
   The caller achieves nothing: no lease is extended or handed out, a renewal is refused,
   and a report is either refused or answered with the state left as it is; whatever
   result it carried, and whether it asked for a retry, makes no difference.
   */
  ghost predicate Ignored(f: Fleet, op: Op, env: Env) {
    var (g, reply) := Step(f, Call(op, env));
    && (forall id <- g.memory.tasks | g.memory.tasks[id].lease.Some? ::
          id in f.memory.tasks && g.memory.tasks[id].lease == f.memory.tasks[id].lease)
    && (op.Renew? ==> reply.Raised?)
    && (op.Report? ==>
          && (reply.Raised? || (reply.TaskReply? && g == f))
          && forall r: WorkerResult, retryable: bool | r.workerId == op.result.workerId ::
               Step(f, Call(op.(result := r, retryable := retryable), env)) == (g, reply))
  }

  /**
   The memories a refused renewal or report can leave: only deadlines, expiries and Worker health are looked
   after.
   */
  predicate NoLeaseMoves(m: Memory, m': Memory) {
    forall id <- m'.tasks | m'.tasks[id].lease.Some? :: id in m.tasks && m'.tasks[id].lease == m.tasks[id].lease
  }

  lemma CommitMovesNoLease(f: Fleet, saves: seq<Memory>, reply: Reply, outcome: nat -> SaveOutcome, n: nat)
    requires |saves| <= 1 && forall s <- saves :: NoLeaseMoves(f.memory, s)
    ensures NoLeaseMoves(f.memory, Commit(f, saves, reply, outcome, n).0.memory)
  {
    hide NoLeaseMoves;
    assert NoLeaseMoves(f.memory, f.memory) by { SameLeases(f.memory); }
    if saves != [] {
      assert saves[0] in saves && saves[1..] == [];
    }
  }

  lemma SameLeases(m: Memory)
    ensures NoLeaseMoves(m, m)
  {
  }

  lemma FinishMovesNoLease(m: Memory, id: string)
    requires Inv(m) && id in m.tasks
    ensures NoLeaseMoves(m, PutTask(m, FinishDeadline(m.tasks[id])))
  {
    hide TaskInv;
  }

  lemma ExpireMovesNoLease(m: Memory, now: int, timeout: int)
    ensures NoLeaseMoves(m, ExpireMemory(m, now, timeout))
  {
    hide ExpireWorker;
  }

  /** What an operation that presents a lease it does not hold amounts to. */
  lemma RefusedEffect(m: Memory, op: Op, env: Env, timeout: int)
    requires Inv(m) && (op.Renew? || op.Report?)
    requires if op.Renew? then GrantOf(m, op, env) != RenewOf(op.id)
             else GrantOf(m, op, env) != ReportOf(op.id, op.result)
    ensures var e := EffectOf(m, op, env, timeout);
            && |e.saves| <= 1 && (forall s <- e.saves :: NoLeaseMoves(m, s))
            && (e.reply.Raised? || (op.Report? && e.reply.TaskReply? && e.saves == []))
  {
    hide Inv, CommitReport, ExpireMemory, NoLeaseMoves, PutTask, FinishDeadline;
    ExpireMovesNoLease(m, env.clock(1), timeout);
    if op.id in m.tasks {
      FinishMovesNoLease(m, op.id);
    }
  }

  lemma RefusedAlike(m: Memory, op: Op, env: Env, timeout: int, r: WorkerResult, retryable: bool)
    requires op.Report? && GrantOf(m, op, env) != ReportOf(op.id, op.result) && r.workerId == op.result.workerId
    ensures EffectOf(m, op.(result := r, retryable := retryable), env, timeout) == EffectOf(m, op, env, timeout)
  {
    hide CommitReport, ExpireMemory, FinishDeadline;
  }

  lemma NotActingIsIgnored(f: Fleet, op: Op, env: Env, id: string, gen: int)
    requires FleetInv(f) && Presents(op, id, gen) && !ActsOn(f, op, env, id, gen)
    ensures Ignored(f, op, env)
  {
    hide Inv, MemoryEvolves, EffectOf, GrantOf, Commit, FleetInv;
    if f.phase != Down {
      assert Inv(f.memory) by { MemoryInv(f); }
      RefusedEffect(f.memory, op, env, f.timeout);
      var e := EffectOf(f.memory, op, env, f.timeout);
      CommitMovesNoLease(f, e.saves, e.reply, env.saves, 0);
      CommitReplies(f, e.saves, e.reply, env.saves, 0);
      if e.saves == [] {
        CommitNothing(f, e.reply, env.saves, 0);
      }
      if op.Report? {
        forall r: WorkerResult, retryable: bool | r.workerId == op.result.workerId
          ensures Step(f, Call(op.(result := r, retryable := retryable), env)) == Step(f, Call(op, env))
        {
          RefusedAlike(f.memory, op, env, f.timeout, r, retryable);
        }
      }
    } else {
      SameLeases(f.memory);
    }
  }

  lemma MemoryInv(f: Fleet)
    requires FleetInv(f) && f.phase != Down
    ensures Inv(f.memory)
  {
  }

  lemma CommitNothing(f: Fleet, reply: Reply, outcome: nat -> SaveOutcome, n: nat)
    ensures Commit(f, [], reply, outcome, n) == (f, reply)
  {
  }

  lemma LostStepStays(f: Fleet, e: Event, id: string, gen: int)
    requires FleetInv(f) && Typed([e]) && Reached(f, id, gen) && !Current(f, id, gen)
    ensures !Current(Step(f, e).0, id, gen)
  {
    hide Inv, MemoryEvolves, Step;
    StepGood(f, e);
    if e.Restart? {
      BootRevokes(f, e.env);
    } else if f.phase != Down {
      LeaseOf(f.memory, id);
      LeaseOf(Step(f, e).0.memory, id);
    }
  }

  /** A restart leaves no lease in memory. */
  lemma BootRevokes(f: Fleet, env: Env)
    requires FleetInv(f)
    ensures var f' := Step(f, Restart(env)).0;
            f'.phase == Up ==> forall id <- f'.memory.tasks :: f'.memory.tasks[id].lease.None?
    ensures Step(f, Restart(env)).0.phase != FailStopped
  {
    hide Inv, MemoryEvolves, Revived, RestoreTask, MemorySteps;
    BootGood(f, env);
    if f.durable.Some? {
      assert Inv(f.durable.value);
      RevivedRecords(f.durable.value, env.clock(0));
    }
  }

  lemma LeaseOf(m: Memory, id: string)
    requires Inv(m) && id in m.tasks
    ensures m.tasks[id].lease.Some? ==> m.tasks[id].lease.value.generation == m.tasks[id].generation
  {
  }

  lemma {:induction false} LostStays(f: Fleet, id: string, gen: int, events: seq<Event>)
    requires FleetInv(f) && Typed(events) && Reached(f, id, gen) && !Current(f, id, gen)
    ensures var g := After(f, events); FleetInv(g) && Reached(g, id, gen) && !Current(g, id, gen)
    decreases |events|
  {
    hide Inv, MemoryEvolves, Step, Typed, Reached, Current, FleetInv;
    if events != [] {
      SplitTyped(events);
      StepGood(f, events[0]);
      LostStepStays(f, events[0], id, gen);
      ReachedStays(f, id, gen, [events[0]]);
      LostStays(Step(f, events[0]).0, id, gen, events[1..]);
    }
  }

  /**
   Once an acknowledged lease is no longer the current one, because it was expired,
   reported, cancelled, superseded or ended by a restart, whoever presents it is ignored,
   in any continuation of the run.
   */
  lemma LostLeaseNeverActs(f: Fleet, claim: Event, before: seq<Event>, later: seq<Event>, op: Op, env: Env)
    requires FleetInv(f) && Typed(before) && Typed(later)
    requires claim.Call? && claim.op.Claim? && Step(f, claim).1.Leased?
    requires var t := Step(f, claim).1.task; !Current(After(Step(f, claim).0, before), t.taskId, t.generation)
    requires Presents(op, Step(f, claim).1.task.taskId, Step(f, claim).1.task.generation)
    ensures Ignored(After(After(Step(f, claim).0, before), later), op, env)
  {
    hide Inv, MemoryEvolves, Step, After, Ignored;
    var (f1, r) := Step(f, claim);
    var t := r.task;
    StepGood(f, claim);
    ClaimAcknowledged(f, claim.op.workerId, claim.env);
    ReachedStays(f1, t.taskId, t.generation, before);
    var f2 := After(f1, before);
    LostStays(f2, t.taskId, t.generation, later);
    NotActingIsIgnored(After(f2, later), op, env, t.taskId, t.generation);
  }

  /** Readings of the events' clocks are not before `now`. */
  ghost predicate NotBefore(events: seq<Event>, now: int) {
    forall e <- events, i: nat :: now <= e.env.clock(i)
  }

  /** If the task is still leased under `gen`, that lease has run out by `now`. */
  predicate RanOutBy(f: Fleet, id: string, gen: int, now: int) {
    Current(f, id, gen) ==> f.memory.tasks[id].lease.value.expiresAt <= now
  }

  lemma RanOutStep(f: Fleet, e: Event, id: string, gen: int, now: int)
    requires FleetInv(f) && Typed([e]) && NotBefore([e], now) && Reached(f, id, gen) && RanOutBy(f, id, gen, now)
    ensures RanOutBy(Step(f, e).0, id, gen, now)
  {
    hide Inv, MemoryEvolves, Step;
    StepGood(f, e);
    assert e in [e];
    if e.Restart? {
      BootRevokes(f, e.env);
    } else if f.phase != Down {
      assert now <= e.env.clock(0);
      LeaseOf(f.memory, id);
      LeaseOf(Step(f, e).0.memory, id);
      TaskOf(f.memory, id);
    }
  }

  /**
   A lease whose time has passed is dead even before any expiry pass has noticed:
   as long as clocks do not go back, whoever presents it is ignored.
   */
  lemma {:induction false} TimedOutLeaseNeverActs(f: Fleet, id: string, gen: int, now: int, events: seq<Event>,
                                                  op: Op, env: Env)
    requires FleetInv(f) && Typed(events) && NotBefore(events, now) && Reached(f, id, gen) && RanOutBy(f, id, gen, now)
    requires now <= env.clock(0) && Presents(op, id, gen)
    ensures Ignored(After(f, events), op, env)
    decreases |events|
  {
    hide Inv, MemoryEvolves, Step, Typed, Reached, FleetInv, Ignored;
    if events == [] {
      NotActingIsIgnored(f, op, env, id, gen);
    } else {
      SplitTyped(events);
      assert forall e <- [events[0]] :: e in events;
      assert forall e <- events[1..] :: e in events;
      StepGood(f, events[0]);
      RanOutStep(f, events[0], id, gen, now);
      ReachedStays(f, id, gen, [events[0]]);
      TimedOutLeaseNeverActs(Step(f, events[0]).0, id, gen, now, events[1..], op, env);
    }
  }
}
