/**
 Every operation of the coordinator, step by step: each memory state it persists
 satisfies the coordinator invariant and evolves from the one before.
 */
module FleetSteps {
  import opened Worker
  import opened FleetTask
  import opened FleetMemory
  import PyText

  /** No task disappears, insertion order only grows, and each record evolves. */
  ghost predicate MemoryEvolves(a: Memory, b: Memory) {
    && a.taskOrder <= b.taskOrder
    && forall id <- a.tasks :: id in b.tasks && Evolves(a.tasks[id], b.tasks[id])
  }

  lemma MemoryEvolvesReflexive(m: Memory)
    requires Inv(m)
    ensures MemoryEvolves(m, m)
  {
    forall id <- m.tasks ensures Evolves(m.tasks[id], m.tasks[id]) {
      assert TaskInv(m.tasks[id]);
    }
  }

  lemma MemoryEvolvesTransitive(a: Memory, b: Memory, c: Memory)
    requires MemoryEvolves(a, b) && MemoryEvolves(b, c)
    ensures MemoryEvolves(a, c)
  {
    forall id <- a.tasks ensures id in c.tasks && Evolves(a.tasks[id], c.tasks[id]) {
      EvolvesTransitive(a.tasks[id], b.tasks[id], c.tasks[id]);
    }
  }

  /** One step under a grant: besides evolving, each record is changed only as licensed. */
  ghost predicate MemorySteps(a: Memory, b: Memory, g: Grant) {
    && a.taskOrder <= b.taskOrder
    && (forall id <- a.tasks :: id in b.tasks && Evolves(a.tasks[id], b.tasks[id])
                                && Licensed(a.tasks[id], b.tasks[id], g))
    && (forall id <- b.tasks :: id in a.tasks || ResultEarned(b.tasks[id], g))
  }

  /** A task that is new in this step holds no result but one the coordinator wrote or its reporter earned. */
  predicate ResultEarned(t: Task, g: Grant) {
    t.result.Some? ==> CoordinatorAuthored(t.result.value) || g == ReportOf(t.taskId, t.result.value)
  }

  lemma MemoryStaysSteps(m: Memory, g: Grant)
    requires Inv(m)
    ensures MemorySteps(m, m, g)
  {
    forall id <- m.tasks ensures Advances(m.tasks[id], m.tasks[id], g) {
      StaysAdvances(m.tasks[id], g);
    }
  }

  lemma LicensedTransitive(a: Task, b: Task, c: Task, g: Grant)
    requires Evolves(a, b) && Evolves(b, c) && Licensed(a, b, g) && Licensed(b, c, g)
    ensures Evolves(a, c) && Licensed(a, c, g)
  {
  }

  lemma MemoryStepsTransitive(a: Memory, b: Memory, c: Memory, g: Grant)
    requires MemorySteps(a, b, g) && MemorySteps(b, c, g)
    ensures MemorySteps(a, c, g)
  {
    hide Evolves, Licensed, ResultEarned;
    forall id <- a.tasks ensures Evolves(a.tasks[id], c.tasks[id]) && Licensed(a.tasks[id], c.tasks[id], g) {
      LicensedTransitive(a.tasks[id], b.tasks[id], c.tasks[id], g);
    }
    forall id <- c.tasks ensures id in a.tasks || ResultEarned(c.tasks[id], g) {
      if id in b.tasks && id !in a.tasks {
        EarnedStays(b.tasks[id], c.tasks[id], g);
      }
    }
  }

  lemma EarnedStays(b: Task, c: Task, g: Grant)
    requires ResultEarned(b, g) && Evolves(b, c) && Licensed(b, c, g)
    ensures ResultEarned(c, g)
  {
  }

  /** A chain of persisted memories, each satisfying the invariant and a step from its predecessor. */
  ghost predicate GoodChain(m: Memory, saves: seq<Memory>, g: Grant)
    decreases |saves|
  {
    saves == [] || (Inv(saves[0]) && MemorySteps(m, saves[0], g) && GoodChain(saves[0], saves[1..], g))
  }

  lemma NoSave(m: Memory, g: Grant)
    ensures GoodChain(m, [], g)
  {
  }

  lemma SaveThen(m: Memory, m': Memory, rest: seq<Memory>, g: Grant)
    requires Inv(m') && MemorySteps(m, m', g) && GoodChain(m', rest, g)
    ensures GoodChain(m, [m'] + rest, g)
  {
    assert ([m'] + rest)[1..] == rest;
  }

  lemma OneSave(m: Memory, m': Memory, g: Grant)
    requires Inv(m') && MemorySteps(m, m', g)
    ensures GoodChain(m, [m'], g)
  {
  }

  lemma TaskOf(m: Memory, id: string)
    requires Inv(m) && id in m.tasks
    ensures TaskInv(m.tasks[id]) && m.tasks[id].taskId == id
  {
  }

  // ---- Replacing one record, or all of them ---------------------------------------

  /** Listing a key that is new keeps the list free of duplicates. */
  lemma ListKey(order: seq<string>, keys: set<string>, id: string)
    requires Distinct(order) && forall k :: k in order <==> k in keys
    ensures var order' := if id in keys then order else order + [id];
            Distinct(order') && order <= order' && forall k :: k in order' <==> k in keys + {id}
  {
  }

  lemma PutTaskIndexed(m: Memory, t: Task)
    requires Indexed(m)
    ensures Indexed(PutTask(m, t)) && m.taskOrder <= PutTask(m, t).taskOrder
  {
    ListKey(m.taskOrder, m.tasks.Keys, t.taskId);
    assert PutTask(m, t).tasks.Keys == m.tasks.Keys + {t.taskId};
  }

  lemma PutTaskSteps(m: Memory, t: Task, g: Grant)
    requires Inv(m)
    requires if t.taskId in m.tasks then Advances(m.tasks[t.taskId], t, g)
             else TaskInv(t) && t.lease.None? && t.result.None?
    ensures Inv(PutTask(m, t)) && MemorySteps(m, PutTask(m, t), g)
  {
    hide TaskInv, Evolves, Licensed, Indexed;
    var m' := PutTask(m, t);
    PutTaskIndexed(m, t);
    MemoryStaysSteps(m, g);
    assert forall id <- m'.tasks :: TaskInv(m'.tasks[id]);
  }

  lemma PutWorkerIndexed(m: Memory, w: Registration)
    requires Indexed(m)
    ensures Indexed(PutWorker(m, w))
  {
    ListKey(m.workerOrder, m.workers.Keys, w.workerId);
    assert PutWorker(m, w).workers.Keys == m.workers.Keys + {w.workerId};
  }

  lemma PutWorkerSteps(m: Memory, w: Registration, g: Grant)
    requires Inv(m)
    ensures Inv(PutWorker(m, w)) && MemorySteps(m, PutWorker(m, w), g)
    ensures PutWorker(m, w).tasks == m.tasks && PutWorker(m, w).taskOrder == m.taskOrder
  {
    hide TaskInv, Evolves, Licensed, Indexed;
    MemoryStaysSteps(m, g);
    PutWorkerIndexed(m, w);
  }

  lemma ExpireSteps(m: Memory, now: int, timeout: int)
    requires Inv(m)
    ensures var e := ExpireMemory(m, now, timeout); Inv(e) && MemorySteps(m, e, NoGrant)
  {
    hide TaskInv, Evolves, Licensed, ExpireTask;
    var e := ExpireMemory(m, now, timeout);
    forall id <- m.tasks ensures Advances(m.tasks[id], e.tasks[id], NoGrant) && e.tasks[id].taskId == id {
      ExpireAdvances(m.tasks[id], now);
      ExpireKeepsId(m.tasks[id], now);
    }
    assert e.tasks.Keys == m.tasks.Keys && e.workers.Keys == m.workers.Keys;
  }

  lemma ExpireKeepsId(t: Task, now: int)
    ensures ExpireTask(t, now).taskId == t.taskId
  {
  }

  /** No operation but a renewal after the deadline may finish a terminal record. */
  function DeadlineGrant(t: Task): Grant {
    if t.Terminal() then LateRenewOf(t.taskId) else NoGrant
  }

  lemma FinishSteps(m: Memory, id: string)
    requires Inv(m) && id in m.tasks
    ensures var t := m.tasks[id];
            var m' := PutTask(m, FinishDeadline(t));
            Inv(m') && MemorySteps(m, m', DeadlineGrant(t))
  {
    FinishDeadlineAdvances(m.tasks[id]);
    PutTaskSteps(m, FinishDeadline(m.tasks[id]), DeadlineGrant(m.tasks[id]));
  }

  // ---- Scheduling order -------------------------------------------------------

  predicate Sorted(tasks: seq<Task>) {
    forall i, j | 0 <= i < j < |tasks| :: Before(tasks[i], tasks[j])
  }

  lemma BeforeTransitive(a: Task, b: Task, c: Task)
    requires Before(a, b) && Before(b, c)
    ensures Before(a, c)
  {
    if a.submittedAt == b.submittedAt == c.submittedAt {
      PyText.LessIsTransitive(a.taskId, b.taskId, c.taskId);
    }
  }

  lemma {:induction false} InsertSorted(t: Task, sorted: seq<Task>)
    requires Sorted(sorted) && forall u <- sorted :: u.taskId != t.taskId
    ensures Sorted(Insert(t, sorted))
    ensures forall u :: u in Insert(t, sorted) <==> u == t || u in sorted
    ensures |Insert(t, sorted)| == |sorted| + 1
  {
    if sorted == [] {
    } else if Before(t, sorted[0]) {
      forall j | 0 < j < |sorted| ensures Before(t, sorted[j]) {
        BeforeTransitive(t, sorted[0], sorted[j]);
      }
    } else {
      PyText.LessIsStrictTotal(t.taskId, sorted[0].taskId);
      assert sorted[0] in sorted && forall u <- sorted[1..] :: u in sorted;
      InsertSorted(t, sorted[1..]);
      var rest := Insert(t, sorted[1..]);
      forall j | 0 <= j < |rest| ensures Before(sorted[0], rest[j]) {
        assert rest[j] in rest;
        if rest[j] != t {
          var k :| 0 <= k < |sorted[1..]| && sorted[1..][k] == rest[j];
        }
      }
      assert sorted == [sorted[0]] + sorted[1..];
    }
  }

  /** `Candidates` is exactly the eligible part of the listed tasks, in scheduling order. */
  lemma {:induction false} CandidatesSorted(m: Memory, w: Registration, order: seq<string>)
    requires Indexed(m) && Distinct(order)
    ensures Sorted(Candidates(m, w, order))
    ensures forall t :: t in Candidates(m, w, order) <==>
                        t.taskId in order && t.taskId in m.tasks && m.tasks[t.taskId] == t && Eligible(t, w)
  {
    if order != [] {
      assert order == [order[0]] + order[1..];
      CandidatesSorted(m, w, order[1..]);
      if order[0] in m.tasks && Eligible(m.tasks[order[0]], w) {
        InsertSorted(m.tasks[order[0]], Candidates(m, w, order[1..]));
      }
    }
  }

  // ---- The candidate loop of claim_task ------------------------------------------

  /** Candidates still to be tried are untouched queued records, each listed once. */
  ghost predicate Fresh(m: Memory, candidates: seq<Task>) {
    && (forall i, j | 0 <= i < j < |candidates| :: candidates[i].taskId != candidates[j].taskId)
    && (forall i | 0 <= i < |candidates| :: FreshRecord(m, candidates[i]))
  }

  predicate FreshRecord(m: Memory, t: Task) {
    t.taskId in m.tasks && m.tasks[t.taskId] == t && t.status == Queued
  }

  lemma FreshAfterPut(m: Memory, candidates: seq<Task>, t: Task)
    requires candidates != [] && Fresh(m, candidates) && t.taskId == candidates[0].taskId
    ensures Fresh(PutTask(m, t), candidates[1..])
  {
  }

  lemma LeaseSave(m: Memory, candidates: seq<Task>, worker: string, leaseId: string, expiresAt: int)
    requires Inv(m) && Fresh(m, candidates) && candidates != []
    ensures GoodChain(m, [PutTask(m, LeaseTo(candidates[0], worker, leaseId, expiresAt))], NoGrant)
  {
    var t := candidates[0];
    assert FreshRecord(m, t);
    LeaseToAdvances(t, worker, leaseId, expiresAt);
    PutTaskSteps(m, LeaseTo(t, worker, leaseId, expiresAt), NoGrant);
    OneSave(m, PutTask(m, LeaseTo(t, worker, leaseId, expiresAt)), NoGrant);
  }

  lemma ScanSkips(m: Memory, w: Registration, candidates: seq<Task>, env: Env, k: nat)
    requires candidates != [] && candidates[0].PastDeadline(env.clock(k))
    ensures var m' := PutTask(m, FinishDeadline(candidates[0]));
            var rest := ScanEffect(m', w, candidates[1..], env, k + 1);
            ScanEffect(m, w, candidates, env, k) == Effect([m'] + rest.saves, rest.reply)
  {
  }

  lemma ScanLeases(m: Memory, w: Registration, candidates: seq<Task>, env: Env, k: nat)
    requires candidates != [] && !candidates[0].PastDeadline(env.clock(k))
    ensures var k' := if candidates[0].deadline.Some? then k + 1 else k;
            var leased := LeaseTo(candidates[0], w.workerId, env.uuid, env.clock(k') + w.leaseSeconds * SECOND);
            ScanEffect(m, w, candidates, env, k) == Effect([PutTask(m, leased)], Leased(leased))
  {
  }

  lemma ScanEnds(m: Memory, w: Registration, env: Env, k: nat)
    ensures ScanEffect(m, w, [], env, k) == Effect([], NoTask)
  {
  }

  lemma FinishKeepsId(t: Task)
    ensures FinishDeadline(t).taskId == t.taskId
  {
  }

  lemma SkipSteps(m: Memory, candidates: seq<Task>)
    requires Inv(m) && Fresh(m, candidates) && candidates != []
    ensures var m' := PutTask(m, FinishDeadline(candidates[0]));
            Inv(m') && MemorySteps(m, m', NoGrant) && Fresh(m', candidates[1..])
  {
    hide Inv, PutTask, FinishDeadline, MemorySteps;
    assert FreshRecord(m, candidates[0]);
    FinishSteps(m, candidates[0].taskId);
    FinishKeepsId(candidates[0]);
    FreshAfterPut(m, candidates, FinishDeadline(candidates[0]));
  }

  lemma {:induction false} ScanGood(m: Memory, w: Registration, candidates: seq<Task>, env: Env, k: nat)
    requires Inv(m) && Fresh(m, candidates)
    ensures GoodChain(m, ScanEffect(m, w, candidates, env, k).saves, NoGrant)
    decreases |candidates|
  {
    hide Inv, PutTask, LeaseTo, FinishDeadline, GoodChain, MemorySteps, Fresh, ScanEffect;
    if candidates == [] {
      NoSave(m, NoGrant);
      ScanEnds(m, w, env, k);
    } else if candidates[0].PastDeadline(env.clock(k)) {
      var m' := PutTask(m, FinishDeadline(candidates[0]));
      SkipSteps(m, candidates);
      ScanGood(m', w, candidates[1..], env, k + 1);
      SaveThen(m, m', ScanEffect(m', w, candidates[1..], env, k + 1).saves, NoGrant);
      ScanSkips(m, w, candidates, env, k);
    } else {
      var k' := if candidates[0].deadline.Some? then k + 1 else k;
      LeaseSave(m, candidates, w.workerId, env.uuid, env.clock(k') + w.leaseSeconds * SECOND);
      ScanLeases(m, w, candidates, env, k);
    }
  }

  lemma CandidatesFresh(m: Memory, w: Registration)
    requires Inv(m)
    ensures Fresh(m, Candidates(m, w, m.taskOrder))
  {
    CandidatesSorted(m, w, m.taskOrder);
    var candidates := Candidates(m, w, m.taskOrder);
    forall i, j | 0 <= i < j < |candidates| ensures candidates[i].taskId != candidates[j].taskId {
      assert candidates[i] in candidates && candidates[j] in candidates && Before(candidates[i], candidates[j]);
      PyText.LessIsStrictTotal(candidates[i].taskId, candidates[i].taskId);
    }
    forall i | 0 <= i < |candidates| ensures FreshRecord(m, candidates[i]) {
      assert candidates[i] in candidates;
    }
  }

  lemma ClaimExpiredGood(m: Memory, workerId: string, env: Env, timeout: int)
    requires Inv(m)
    ensures GoodChain(m, ClaimExpired(m, workerId, env, timeout).saves, NoGrant)
  {
    hide Inv, GoodChain, Fresh, ScanEffect, Candidates;
    NoSave(m, NoGrant);
    if workerId in m.workers {
      var w := m.workers[workerId];
      WorkerSave(m, w.(lifecycle := Unhealthy));
      CandidatesFresh(m, w);
      ScanGood(m, w, Candidates(m, w, m.taskOrder), env, 2);
    }
  }

  lemma ClaimGood(m: Memory, workerId: string, env: Env, timeout: int)
    requires Inv(m)
    ensures GoodChain(m, ClaimEffect(m, workerId, env, timeout).saves, NoGrant)
  {
    hide Inv, GoodChain, ExpireMemory, MemorySteps, ClaimExpired;
    var m' := ExpireMemory(m, env.clock(0), timeout);
    ExpireSteps(m, env.clock(0), timeout);
    ClaimExpiredGood(m', workerId, env, timeout);
    SaveThen(m, m', ClaimExpired(m', workerId, env, timeout).saves, NoGrant);
  }

  // ---- The other operations ---------------------------------------------------------

  lemma TaskSave(m: Memory, id: string, t: Task, g: Grant)
    requires Inv(m) && id in m.tasks && t.taskId == id && Advances(m.tasks[id], t, g)
    ensures GoodChain(m, [PutTask(m, t)], g)
  {
    PutTaskSteps(m, t, g);
    OneSave(m, PutTask(m, t), g);
  }

  lemma ExpireSave(m: Memory, now: int, timeout: int)
    requires Inv(m)
    ensures GoodChain(m, [ExpireMemory(m, now, timeout)], NoGrant)
  {
    ExpireSteps(m, now, timeout);
    OneSave(m, ExpireMemory(m, now, timeout), NoGrant);
  }

  lemma WorkerSave(m: Memory, w: Registration)
    requires Inv(m)
    ensures forall g :: GoodChain(m, [PutWorker(m, w)], g)
  {
    forall g ensures GoodChain(m, [PutWorker(m, w)], g) {
      PutWorkerSteps(m, w, g);
      OneSave(m, PutWorker(m, w), g);
    }
  }

  lemma DeadlineSave(m: Memory, id: string)
    requires Inv(m) && id in m.tasks
    ensures GoodChain(m, [PutTask(m, FinishDeadline(m.tasks[id]))], DeadlineGrant(m.tasks[id]))
  {
    FinishSteps(m, id);
    OneSave(m, PutTask(m, FinishDeadline(m.tasks[id])), DeadlineGrant(m.tasks[id]));
  }

  lemma RenewSave(m: Memory, id: string, w: Registration, until: int)
    requires Inv(m) && id in m.tasks && m.tasks[id].lease.Some?
    ensures GoodChain(m, [PutTask(PutWorker(m, w), RenewUntil(m.tasks[id], until))], RenewOf(id))
  {
    var m1, t := PutWorker(m, w), RenewUntil(m.tasks[id], until);
    PutWorkerSteps(m, w, RenewOf(id));
    RenewAdvances(m.tasks[id], until);
    PutTaskSteps(m1, t, RenewOf(id));
    hide Evolves, Licensed, TaskInv, Indexed;
    OneSave(m, PutTask(m1, t), RenewOf(id));
  }

  /** What an operation may do, decided by the guard it passes on the memory it finds. */
  function GrantOf(m: Memory, op: Op, env: Env): Grant {
    match op
    case Renew(id, worker, leaseId, gen) =>
      if id !in m.tasks then NoGrant
      else if m.tasks[id].PastDeadline(env.clock(0)) then DeadlineGrant(m.tasks[id])
      else if m.tasks[id].HeldBy(worker, leaseId, gen, env.clock(0)) then RenewOf(id)
      else NoGrant
    case Report(id, worker, leaseId, gen, result, _) =>
      if id in m.tasks && result.workerId == worker && !m.tasks[id].PastDeadline(env.clock(0))
         && m.tasks[id].HeldBy(worker, leaseId, gen, env.clock(0)) then ReportOf(id, result)
      else NoGrant
    case _ => NoGrant
  }

  lemma NewTaskGood(m: Memory, op: Op, env: Env)
    requires Inv(m) && op.Submit? && WellTyped(op)
    ensures GoodChain(m, SubmitEffect(m, op, env).saves, NoGrant)
  {
    hide Inv, FirstWithKey, SameArguments, GoodChain, PutTask, MemorySteps;
    NoSave(m, NoGrant);
    var id := op.taskId.GetOr(env.uuid);
    if SubmitArgumentsValid(op) && id !in m.tasks {
      var t := NewTask(id, op.executionId, op.key.GetOr(id), op.intent, AsSet(op.required), op.maxAttempts,
                       op.deadline, env.clock(0));
      PutTaskSteps(m, t, NoGrant);
      OneSave(m, PutTask(m, t), NoGrant);
    }
  }

  lemma RenewGood(m: Memory, op: Op, env: Env, timeout: int)
    requires Inv(m) && op.Renew?
    ensures GoodChain(m, RenewEffect(m, op, env, timeout).saves, GrantOf(m, op, env))
  {
    hide Inv, GoodChain, PutTask, PutWorker, ExpireMemory, FinishDeadline, DeadlineGrant;
    ExpireSave(m, env.clock(1), timeout);
    NoSave(m, GrantOf(m, op, env));
    if op.id in m.tasks {
      var t, now := m.tasks[op.id], env.clock(0);
      DeadlineSave(m, op.id);
      if t.HeldBy(op.workerId, op.leaseId, op.generation, now) && op.workerId in m.workers {
        var w := m.workers[op.workerId];
        WorkerSave(m, w.(lifecycle := Unhealthy));
        RenewSave(m, op.id, w.(lastHeartbeat := now), now + w.leaseSeconds * SECOND);
      }
    }
  }

  lemma ReportGood(m: Memory, op: Op, env: Env, timeout: int)
    requires Inv(m) && op.Report? && WellTyped(op)
    ensures GoodChain(m, ReportEffect(m, op, env, timeout).saves, GrantOf(m, op, env))
  {
    hide Inv, GoodChain, PutTask, PutWorker, ExpireMemory, FinishDeadline, Advances, CommitReport;
    ExpireSave(m, env.clock(1), timeout);
    NoSave(m, GrantOf(m, op, env));
    if op.id in m.tasks {
      var t, now := m.tasks[op.id], env.clock(0);
      DeadlineSave(m, op.id);
      TaskOf(m, op.id);
      if t.HeldBy(op.workerId, op.leaseId, op.generation, now) {
        ReportAdvances(t, op.workerId, op.leaseId, op.generation, op.result, op.retryable, now);
        CommitKeepsId(t, op.workerId, op.generation, op.result, op.retryable, now);
        TaskSave(m, op.id, CommitReport(t, op.workerId, op.generation, op.result, op.retryable, now),
                 ReportOf(op.id, op.result));
      }
    }
  }

  lemma CommitKeepsId(t: Task, worker: string, gen: int, r: WorkerResult, retryable: bool, now: int)
    ensures CommitReport(t, worker, gen, r, retryable, now).taskId == t.taskId
  {
  }

  lemma CancelGood(m: Memory, op: Op)
    requires Inv(m) && op.Cancel?
    ensures GoodChain(m, CancelEffect(m, op).saves, NoGrant)
  {
    NoSave(m, NoGrant);
    if op.id in m.tasks && !m.tasks[op.id].Terminal() {
      CancelAdvances(m.tasks[op.id], op.reason, op.cause);
      TaskSave(m, op.id, CancelTask(m.tasks[op.id], op.reason, op.cause), NoGrant);
    }
  }

  lemma WorkerOpsGood(m: Memory, op: Op, env: Env, timeout: int)
    requires Inv(m) && (op.Register? || op.Heartbeat? || op.Drain? || op.StopWorker?)
    ensures GoodChain(m, EffectOf(m, op, env, timeout).saves, NoGrant)
  {
    hide Inv, GoodChain, PutWorker;
    NoSave(m, NoGrant);
    var reply := EffectOf(m, op, env, timeout).reply;
    if reply.WorkerReply? {
      WorkerSave(m, reply.worker);
    }
  }

  /** Every state an operation persists satisfies the invariant and is a licensed step from the one before. */
  lemma EffectGood(m: Memory, op: Op, env: Env, timeout: int)
    requires Inv(m) && WellTyped(op)
    ensures GoodChain(m, EffectOf(m, op, env, timeout).saves, GrantOf(m, op, env))
  {
    hide Inv, GoodChain, SubmitEffect, ClaimEffect, RenewEffect, ReportEffect, CancelEffect, ExpireMemory;
    match op
    case Submit(_, _, _, _, _, _, _) => NewTaskGood(m, op, env);
    case Claim(w) => ClaimGood(m, w, env, timeout);
    case Renew(_, _, _, _) => RenewGood(m, op, env, timeout);
    case Report(_, _, _, _, _, _) => ReportGood(m, op, env, timeout);
    case Expire => ExpireSave(m, env.clock(0), timeout);
    case Cancel(_, _, _) => CancelGood(m, op);
    case _ => WorkerOpsGood(m, op, env, timeout);
  }
}
