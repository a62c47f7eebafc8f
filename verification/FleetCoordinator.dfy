/**
 The coordinator as the program has it: an object whose methods rewrite its two
 dictionaries in place and save after each rewrite. Every method is proved to take
 exactly the step that FleetRuns describes.
 */
module FleetCoordinator {
  import opened Wrappers
  import opened Worker
  import opened FleetTask
  import opened FleetMemory
  import opened FleetSteps
  import opened FleetRecovery
  import opened FleetRuns
  import PyText

  /** The storage port: one snapshot, replaced atomically or not at all. */
  class SnapshotStore {
    var content: Option<Snapshot>

    constructor ()
      ensures content == None
    {
      content := None;
    }

    method Save(snapshot: Snapshot, outcome: SaveOutcome) returns (ok: bool)
      modifies this
      ensures ok <==> outcome == Saved
      ensures content == if outcome == LostSave then old(content) else Some(snapshot)
    {
      if outcome != LostSave {
        content := Some(snapshot);
      }
      ok := outcome == Saved;
    }
  }

  /** The state after `_persist_locked` on the memory `f` already holds. */
  function Persisted(f: Fleet, outcome: SaveOutcome): Fleet {
    if f.phase != Up then f
    else
      match outcome
      case Saved => f.(durable := Some(f.memory))
      case LostSave => f.(phase := FailStopped)
      case LateFailure => f.(phase := FailStopped, durable := Some(f.memory))
  }

  predicate SavedOk(f: Fleet, outcome: SaveOutcome) {
    f.phase == Up && outcome == Saved
  }

  /** One memory state, then the rest. */
  lemma CommitThen(f: Fleet, m: Memory, rest: seq<Memory>, reply: Reply, outcome: nat -> SaveOutcome, n: nat)
    requires f.phase != Down
    ensures var f' := Persisted(f.(memory := m), outcome(n));
            Commit(f, [m] + rest, reply, outcome, n)
            == if SavedOk(f, outcome(n)) then Commit(f', rest, reply, outcome, n + 1)
               else (f', Raised(PersistenceFailed))
  {
    assert ([m] + rest)[1..] == rest;
  }

  lemma CommitNone(f: Fleet, reply: Reply, outcome: nat -> SaveOutcome, n: nat)
    ensures Commit(f, [], reply, outcome, n) == (f, reply)
  {
  }

  lemma CommitOne(f: Fleet, m: Memory, reply: Reply, outcome: nat -> SaveOutcome, n: nat)
    requires f.phase != Down
    ensures Commit(f, [m], reply, outcome, n)
            == (Persisted(f.(memory := m), outcome(n)),
                if SavedOk(f, outcome(n)) then reply else Raised(PersistenceFailed))
  {
    CommitThen(f, m, [], reply, outcome, n);
    assert [m] + [] == [m];
    CommitNone(Persisted(f.(memory := m), outcome(n)), reply, outcome, n + 1);
  }

  /** The result of `_available_worker`. */
  datatype Availability = Found(worker: Registration) | NotAvailable | NotKnown | SaveFailed

  class Coordinator {
    const timeout: int
    const store: SnapshotStore
    var workers: map<string, Registration>
    var workerOrder: seq<string>
    var tasks: map<string, Task>
    var taskOrder: seq<string>
    var failed: bool
    ghost var stored: Option<Memory>

    function Mem(): Memory
      reads this
    {
      Memory(workers, workerOrder, tasks, taskOrder)
    }

    ghost function State(): Fleet
      reads this
    {
      Fleet(timeout, Mem(), if failed then FailStopped else Up, stored)
    }

    /** The store holds the snapshot of `stored`. */
    ghost predicate Linked()
      reads this, store
    {
      store.content == if stored.Some? then Some(SnapshotOf(stored.value)) else None
    }

    ghost predicate Valid()
      reads this, store
    {
      Linked() && FleetInv(State())
    }

    // ---- Saving ---------------------------------------------------------------------

    method TakeSnapshot() returns (s: Snapshot)
      ensures s == SnapshotOf(Mem())
    {
      var ws: seq<Registration> := [];
      var i := 0;
      while i < |workerOrder|
        invariant 0 <= i <= |workerOrder|
        invariant WorkerList(Mem(), workerOrder) == ws + WorkerList(Mem(), workerOrder[i..])
      {
        assert workerOrder[i..][1..] == workerOrder[i + 1..];
        if workerOrder[i] in workers {
          ws := ws + [workers[workerOrder[i]]];
        }
        i := i + 1;
      }
      var ts: seq<Task> := [];
      i := 0;
      while i < |taskOrder|
        invariant 0 <= i <= |taskOrder|
        invariant TaskList(Mem(), taskOrder) == ts + TaskList(Mem(), taskOrder[i..])
      {
        assert taskOrder[i..][1..] == taskOrder[i + 1..];
        if taskOrder[i] in tasks {
          ts := ts + [tasks[taskOrder[i]]];
        }
        i := i + 1;
      }
      s := Snapshot(ws, ts);
    }

    /** `_persist_locked` */
    method Persist(outcome: SaveOutcome) returns (ok: bool)
      requires Linked()
      modifies this`failed, this`stored, store
      ensures Linked() && State() == Persisted(old(State()), outcome)
      ensures ok == SavedOk(old(State()), outcome)
    {
      if failed {
        return false;
      }
      var s := TakeSnapshot();
      ok := store.Save(s, outcome);
      if outcome != LostSave {
        stored := Some(Mem());
      }
      failed := !ok;
    }

    // ---- Dictionary updates -----------------------------------------------------------

    method SetTask(t: Task)
      modifies this`tasks, this`taskOrder
      ensures Mem() == PutTask(old(Mem()), t)
    {
      if t.taskId !in tasks {
        taskOrder := taskOrder + [t.taskId];
      }
      tasks := tasks[t.taskId := t];
    }

    method SetWorker(w: Registration)
      modifies this`workers, this`workerOrder
      ensures Mem() == PutWorker(old(Mem()), w)
    {
      if w.workerId !in workers {
        workerOrder := workerOrder + [w.workerId];
      }
      workers := workers[w.workerId := w];
    }

    // ---- Construction and recovery ---------------------------------------------------------

    /** `__init__` with an existing or empty store; `ok` is false where the program raises. */
    constructor (timeout: int, store: SnapshotStore, ghost content: Option<Memory>)
      requires store.content == if content.Some? then Some(SnapshotOf(content.value)) else None
      ensures this.timeout == timeout && this.store == store
      ensures Mem() == EMPTY && !failed && stored == content && Linked()
    {
      this.timeout := timeout;
      this.store := store;
      workers, workerOrder, tasks, taskOrder := map[], [], map[], [];
      failed := false;
      stored := content;
    }

    /** `_restore_snapshot` */
    method RestoreSnapshot(s: Snapshot, now: int) returns (ok: bool)
      modifies this`workers, this`workerOrder, this`tasks, this`taskOrder
      ensures ok == Restore(s, now).Ok?
      ensures Mem() == if ok then Restore(s, now).value else old(Mem())
    {
      var m := EMPTY;
      var i := 0;
      while i < |s.workers|
        invariant 0 <= i <= |s.workers|
        invariant AddWorkers(EMPTY, s.workers, now) == AddWorkers(m, s.workers[i..], now)
      {
        assert s.workers[i..][1..] == s.workers[i + 1..] && s.workers[i..][0] == s.workers[i];
        if s.workers[i].workerId in m.workers {
          return false;
        }
        m := PutWorker(m, RestoreWorker(s.workers[i], now));
        i := i + 1;
      }
      ghost var withWorkers := m;
      i := 0;
      while i < |s.tasks|
        invariant 0 <= i <= |s.tasks|
        invariant AddTasks(withWorkers, s.tasks, now) == AddTasks(m, s.tasks[i..], now)
      {
        assert s.tasks[i..][1..] == s.tasks[i + 1..] && s.tasks[i..][0] == s.tasks[i];
        if s.tasks[i].taskId in m.tasks {
          return false;
        }
        var t := RestoreTask(s.tasks[i], now);
        if t.Err? {
          return false;
        }
        m := PutTask(m, t.value);
        i := i + 1;
      }
      workers, workerOrder, tasks, taskOrder := m.workers, m.workerOrder, m.tasks, m.taskOrder;
      ok := true;
    }

    /** The rest of `__init__`: load, restore, persist. The step is a restart of the fleet `f`. */
    method Start(env: Env, ghost f: Fleet) returns (reply: Reply)
      requires Linked() && Mem() == EMPTY && !failed && stored == f.durable && timeout == f.timeout && FleetInv(f)
      modifies this, store
      ensures Linked() && reply == Step(f, Restart(env)).1
      ensures reply == Started ==> Valid() && State() == Step(f, Restart(env)).0
      ensures stored == Step(f, Restart(env)).0.durable
    {
      hide Inv, Restore, SnapshotOf, Revived;
      BootGood(f, env);
      if store.content.Some? {
        var restored := RestoreSnapshot(store.content.value, env.clock(0));
        if !restored {
          return Raised(CorruptState);
        }
      }
      var ok := Persist(env.saves(0));
      reply := if ok then Started else Raised(PersistenceFailed);
    }

    // ---- Workers ---------------------------------------------------------------------------

    method RegisterWorker(workerId: string, implementationId: string, capabilities: seq<string>, leaseSeconds: int,
                          env: Env)
      returns (reply: Reply)
      requires Valid()
      modifies this, store
      ensures Valid()
      ensures (State(), reply)
              == Step(old(State()), Call(Register(workerId, implementationId, capabilities, leaseSeconds), env))
    {
      hide Inv;
      ghost var f, op := State(), Register(workerId, implementationId, capabilities, leaseSeconds);
      StepGood(f, Call(op, env));
      if PyText.Blank(workerId) || PyText.Blank(implementationId) || leaseSeconds < 1
         || exists c <- capabilities :: PyText.Blank(c)
      {
        return Raised(Invalid);
      }
      if workerId in workers && workers[workerId].implementationId != implementationId {
        return Raised(Conflict);
      }
      var w := Registration(workerId, implementationId, AsSet(capabilities), Ready, env.clock(0), leaseSeconds);
      SetWorker(w);
      CommitOne(f, Mem(), WorkerReply(w), env.saves, 0);
      var ok := Persist(env.saves(0));
      reply := if ok then WorkerReply(w) else Raised(PersistenceFailed);
    }

    method HeartbeatWorker(workerId: string, env: Env) returns (reply: Reply)
      requires Valid()
      modifies this, store
      ensures Valid() && (State(), reply) == Step(old(State()), Call(Heartbeat(workerId), env))
    {
      hide Inv;
      ghost var f := State();
      StepGood(f, Call(Heartbeat(workerId), env));
      if workerId !in workers {
        return Raised(NotRegistered);
      }
      var w := workers[workerId];
      if w.lifecycle in {Stopped, Unhealthy} {
        return Raised(NotRegistered);
      }
      assert w.workerId == workerId by { WorkerName(f.memory, workerId); }
      var updated := if w.lifecycle == Draining then w.(lastHeartbeat := env.clock(0))
      else w.(lastHeartbeat := env.clock(0), lifecycle := Ready);
      SetWorker(updated);
      CommitOne(f, Mem(), WorkerReply(updated), env.saves, 0);
      var ok := Persist(env.saves(0));
      reply := if ok then WorkerReply(updated) else Raised(PersistenceFailed);
    }

    /** `drain_worker` and `stop_worker` */
    method SetLifecycle(workerId: string, stop: bool, env: Env) returns (reply: Reply)
      requires Valid()
      modifies this, store
      ensures Valid()
      ensures (State(), reply) == Step(old(State()), Call(if stop then StopWorker(workerId) else Drain(workerId), env))
    {
      hide Inv;
      ghost var f := State();
      StepGood(f, Call(if stop then StopWorker(workerId) else Drain(workerId), env));
      if workerId !in workers {
        return Raised(NotRegistered);
      }
      var updated := workers[workerId].(lifecycle := if stop then Stopped else Draining, lastHeartbeat := env.clock(0));
      SetWorker(updated);
      CommitOne(f, Mem(), WorkerReply(updated), env.saves, 0);
      var ok := Persist(env.saves(0));
      reply := if ok then WorkerReply(updated) else Raised(PersistenceFailed);
    }

    // ---- Submission ----------------------------------------------------------------------

    method SubmitTask(op: Op, env: Env) returns (reply: Reply)
      requires Valid() && op.Submit? && WellTyped(op)
      modifies this, store
      ensures Valid() && (State(), reply) == Step(old(State()), Call(op, env))
    {
      hide Inv;
      ghost var f := State();
      StepGood(f, Call(op, env));
      if !SubmitArgumentsValid(op) {
        return Raised(Invalid);
      }
      if op.key.Some? {
        var prior := FindKey(op.key.value);
        if prior.Some? {
          if !SameArguments(prior.value, op) || (op.taskId.Some? && op.taskId.value != prior.value.taskId) {
            return Raised(Conflict);
          }
          return TaskReply(prior.value);
        }
      }
      var id := op.taskId.GetOr(env.uuid);
      var key := op.key.GetOr(id);
      if id in tasks {
        if tasks[id].idempotencyKey == key && SameArguments(tasks[id], op) {
          return TaskReply(tasks[id]);
        }
        return Raised(Conflict);
      }
      var t := NewTask(id, op.executionId, key, op.intent, AsSet(op.required), op.maxAttempts, op.deadline,
                       env.clock(0));
      SetTask(t);
      CommitOne(f, Mem(), TaskReply(t), env.saves, 0);
      var ok := Persist(env.saves(0));
      reply := if ok then TaskReply(t) else Raised(PersistenceFailed);
    }

    /** The scan over `_tasks.values()` for an idempotency key. */
    method FindKey(key: string) returns (prior: Option<Task>)
      ensures prior == FirstWithKey(Mem(), key, taskOrder)
    {
      var i := 0;
      while i < |taskOrder|
        invariant 0 <= i <= |taskOrder|
        invariant FirstWithKey(Mem(), key, taskOrder) == FirstWithKey(Mem(), key, taskOrder[i..])
      {
        assert taskOrder[i..][1..] == taskOrder[i + 1..];
        if taskOrder[i] in tasks && tasks[taskOrder[i]].idempotencyKey == key {
          return Some(tasks[taskOrder[i]]);
        }
        i := i + 1;
      }
      prior := None;
    }

    // ---- Lease expiry ----------------------------------------------------------------------

    method ExpireTasks(now: int) returns (expired: seq<Task>)
      requires Indexed(Mem())
      modifies this`tasks
      ensures Mem() == old(Mem()).(tasks := map id | id in old(tasks) :: ExpireTask(old(tasks)[id], now))
      ensures expired == ExpiredIn(old(Mem()), now, taskOrder)
    {
      hide ExpireTask, ExpiredIn, Indexed, LeaseRanOut, Distinct, SnapshotOf, TaskInv;
      ghost var m := Mem();
      ghost var done: set<string> := {};
      assert taskOrder[0..] == taskOrder;
      expired := [];
      var i := 0;
      while i < |taskOrder|
        invariant 0 <= i <= |taskOrder| && tasks.Keys == m.tasks.Keys
        invariant forall k | 0 <= k < |taskOrder| :: taskOrder[k] in done <==> k < i
        invariant forall id <- m.tasks :: tasks[id] == if id in done then ExpireTask(m.tasks[id], now) else m.tasks[id]
        invariant ExpiredIn(m, now, taskOrder) == expired + ExpiredIn(m, now, taskOrder[i..])
      {
        KeyAt(m, i);
        var id := taskOrder[i];
        var t := tasks[id];
        if LeaseRanOut(t, now) {
          tasks := tasks[id := ExpireTask(t, now)];
          expired := expired + [ExpireTask(t, now)];
        } else {
          ExpireLeavesAlone(t, now);
        }
        done := done + {id};
        assert ExpiredIn(m, now, taskOrder) == expired + ExpiredIn(m, now, taskOrder[i + 1..]) by {
          ExpiredNext(m, now, taskOrder, i);
        }
        i := i + 1;
      }
      ExpiredNone(m, now, taskOrder);
      forall id <- m.tasks ensures id in done {
        KeyIsListed(m, id);
      }
    }

    method ExpireWorkers(now: int)
      requires Indexed(Mem())
      modifies this`workers
      ensures Mem() == old(Mem()).(
                         workers := map id | id in old(workers) :: ExpireWorker(old(workers)[id], now, timeout))
    {
      ghost var m := Mem();
      var i := 0;
      while i < |workerOrder|
        invariant 0 <= i <= |workerOrder| && workers.Keys == m.workers.Keys
        invariant forall k | 0 <= k < i ::
                    workers[workerOrder[k]] == ExpireWorker(m.workers[workerOrder[k]], now, timeout)
        invariant forall k | i <= k < |workerOrder| :: workers[workerOrder[k]] == m.workers[workerOrder[k]]
      {
        var id := workerOrder[i];
        assert id in workerOrder;
        var w := workers[id];
        if w.lifecycle == Ready && HeartbeatStale(w, now, timeout) {
          workers := workers[id := w.(lifecycle := Unhealthy)];
        }
        i := i + 1;
      }
      forall id <- m.workers ensures workers[id] == ExpireWorker(m.workers[id], now, timeout) {
        assert id in workerOrder;
      }
    }

    method ExpireAt(now: int, outcome: SaveOutcome) returns (ok: bool, expired: seq<Task>)
      requires Linked() && Indexed(Mem())
      modifies this, store
      ensures Linked() && State() == Persisted(old(State()).(memory := ExpireMemory(old(Mem()), now, timeout)), outcome)
      ensures ok == SavedOk(old(State()), outcome)
      ensures expired == ExpiredIn(old(Mem()), now, old(taskOrder))
    {
      hide ExpireTask, ExpireWorker, Indexed, SnapshotOf;
      ExpireIndexed(Mem(), now);
      expired := ExpireTasks(now);
      ExpireWorkers(now);
      ok := Persist(outcome);
    }

    method ExpireLeases(env: Env) returns (reply: Reply)
      requires Valid()
      modifies this, store
      ensures Valid() && (State(), reply) == Step(old(State()), Call(Expire, env))
    {
      hide Inv, ExpireMemory;
      ghost var f := State();
      StepGood(f, Call(Expire, env));
      InvIndexed(Mem());
      var m := ExpireMemory(Mem(), env.clock(0), timeout);
      var all := ExpiredIn(Mem(), env.clock(0), taskOrder);
      CommitOne(f, m, ExpiredTasks(all), env.saves, 0);
      var ok, expired := ExpireAt(env.clock(0), env.saves(0));
      reply := if ok then ExpiredTasks(expired) else Raised(PersistenceFailed);
    }

    // ---- Claiming --------------------------------------------------------------------------

    /** `_available_worker` */
    method AvailableWorker(workerId: string, now: int, outcome: SaveOutcome) returns (a: Availability)
      requires Linked() && (workerId in workers ==> workers[workerId].workerId == workerId)
      modifies this, store
      ensures Linked()
      ensures workerId !in old(workers) ==> a == NotKnown && State() == old(State())
      ensures workerId in old(workers) ==>
                var w := old(workers)[workerId];
                if w.lifecycle != Ready then a == NotAvailable && State() == old(State())
                else if HeartbeatStale(w, now, timeout) then
                  && State() == Persisted(old(State()).(memory := PutWorker(old(Mem()), w.(lifecycle := Unhealthy))),
                                          outcome)
                  && a == if SavedOk(old(State()), outcome) then NotAvailable else SaveFailed
                else a == Found(w) && State() == old(State())
    {
      hide SnapshotOf;
      if workerId !in workers {
        return NotKnown;
      }
      var w := workers[workerId];
      if w.lifecycle != Ready {
        return NotAvailable;
      }
      if HeartbeatStale(w, now, timeout) {
        SetWorker(w.(lifecycle := Unhealthy));
        var ok := Persist(outcome);
        return if ok then NotAvailable else SaveFailed;
      }
      a := Found(w);
    }

    /** The candidate loop of `claim_task`, after `used` saves. */
    method LeaseFirst(w: Registration, candidates: seq<Task>, env: Env, used: nat) returns (reply: Reply)
      requires Linked() && !failed
      modifies this, store
      ensures Linked()
      ensures var e := ScanEffect(old(Mem()), w, candidates, env, 2);
              (State(), reply) == Commit(old(State()), e.saves, e.reply, env.saves, used)
    {
      hide SnapshotOf, PutTask, FinishDeadline, LeaseTo, ScanEffect, Commit;
      ghost var f, e := State(), ScanEffect(Mem(), w, candidates, env, 2);
      var i: nat, k: nat := 0, 2;
      assert candidates[0..] == candidates;
      while i < |candidates|
        invariant i <= |candidates| && Linked() && !failed
        invariant var r := ScanEffect(Mem(), w, candidates[i..], env, k);
                  Commit(f, e.saves, e.reply, env.saves, used) == Commit(State(), r.saves, r.reply, env.saves, used + i)
      {
        var t := candidates[i];
        assert candidates[i..][1..] == candidates[i + 1..];
        ghost var here := State();
        if t.PastDeadline(env.clock(k)) {
          ScanSkips(here.memory, w, candidates[i..], env, k);
          SetTask(FinishDeadline(t));
          ghost var rest := ScanEffect(Mem(), w, candidates[i + 1..], env, k + 1);
          CommitThen(here, Mem(), rest.saves, rest.reply, env.saves, used + i);
          var ok := Persist(env.saves(used + i));
          if !ok {
            return Raised(PersistenceFailed);
          }
          i, k := i + 1, k + 1;
        } else {
          ScanLeases(here.memory, w, candidates[i..], env, k);
          var at := if t.deadline.Some? then k + 1 else k;
          var leased := LeaseTo(t, w.workerId, env.uuid, env.clock(at) + w.leaseSeconds * SECOND);
          SetTask(leased);
          CommitOne(here, Mem(), Leased(leased), env.saves, used + i);
          var ok := Persist(env.saves(used + i));
          return if ok then Leased(leased) else Raised(PersistenceFailed);
        }
      }
      assert candidates[i..] == [];
      ScanEnds(Mem(), w, env, k);
      CommitNone(State(), NoTask, env.saves, used + i);
      reply := NoTask;
    }

    method ClaimTask(workerId: string, env: Env) returns (reply: Reply)
      requires Valid()
      modifies this, store
      ensures Valid() && (State(), reply) == Step(old(State()), Call(Claim(workerId), env))
    {
      hide Inv, MemorySteps, ExpireMemory, Commit, ScanEffect, Candidates, SnapshotOf, MemoryEvolves, PutWorker;
      ghost var f := State();
      StepGood(f, Call(Claim(workerId), env));
      InvIndexed(Mem());
      ExpireSteps(Mem(), env.clock(0), timeout);
      ghost var m := ExpireMemory(Mem(), env.clock(0), timeout);
      ghost var rest := ClaimExpired(m, workerId, env, timeout);
      CommitThen(f, m, rest.saves, rest.reply, env.saves, 0);
      var ok, _ := ExpireAt(env.clock(0), env.saves(0));
      if !ok {
        return Raised(PersistenceFailed);
      }
      ghost var f1 := State();
      assert workerId in workers ==> workers[workerId].workerId == workerId by {
        if workerId in workers {
          WorkerName(m, workerId);
        }
      }
      CommitNone(f1, NoTask, env.saves, 1);
      CommitNone(f1, Raised(NotRegistered), env.saves, 1);
      if workerId in workers {
        CommitOne(f1, PutWorker(Mem(), workers[workerId].(lifecycle := Unhealthy)), NoTask, env.saves, 1);
      }
      var a := AvailableWorker(workerId, env.clock(1), env.saves(1));
      match a
      case NotKnown => reply := Raised(NotRegistered);
      case SaveFailed => reply := Raised(PersistenceFailed);
      case NotAvailable => reply := NoTask;
      case Found(w) => reply := LeaseFirst(w, Candidates(Mem(), w, taskOrder), env, 1);
    }

    // ---- Renewal, results, cancellation ------------------------------------------------------

    /** `_finish_deadline` */
    method FinishTask(t: Task, outcome: SaveOutcome) returns (ok: bool)
      requires Linked()
      modifies this, store
      ensures Linked() && State() == Persisted(old(State()).(memory := PutTask(old(Mem()), FinishDeadline(t))), outcome)
      ensures ok == SavedOk(old(State()), outcome)
    {
      hide SnapshotOf, FinishDeadline;
      SetTask(FinishDeadline(t));
      ok := Persist(outcome);
    }

    method RenewLease(id: string, workerId: string, leaseId: string, generation: int, env: Env) returns (reply: Reply)
      requires Valid()
      modifies this, store
      ensures Valid() && (State(), reply) == Step(old(State()), Call(Renew(id, workerId, leaseId, generation), env))
    {
      hide Inv, ExpireMemory, Commit, SnapshotOf, MemoryEvolves, PutWorker, PutTask, FinishDeadline, GrantOf, Indexed,
           HeartbeatStale, Step;
      ghost var f, op := State(), Renew(id, workerId, leaseId, generation);
      StepGood(f, Call(op, env));
      InvIndexed(Mem());
      ghost var effect := RenewEffect(Mem(), op, env, timeout);
      RenewStepIs(f, op, env);
      if id !in tasks {
        return Raised(UnknownTask);
      }
      var t, now := tasks[id], env.clock(0);
      if t.PastDeadline(now) {
        var ok := FinishTask(t, env.saves(0));
        return Raised(if ok then StaleLease else PersistenceFailed);
      }
      if !t.HeldBy(workerId, leaseId, generation, now) {
        var ok, _ := ExpireAt(env.clock(1), env.saves(0));
        return Raised(if ok then StaleLease else PersistenceFailed);
      }
      if workerId in workers {
        WorkerName(f.memory, workerId);
      }
      reply := ExtendLease(t, workerId, now, env);
    }

    /** The end of `renew_lease`, for a lease that is held. */
    method ExtendLease(t: Task, workerId: string, now: int, env: Env) returns (reply: Reply)
      requires Linked() && t.lease.Some? && (workerId in workers ==> workers[workerId].workerId == workerId)
      modifies this, store
      ensures Linked()
      ensures workerId !in old(workers) || old(workers)[workerId].lifecycle != Ready ==>
                State() == old(State()) && reply == Raised(NotRegistered)
      ensures workerId in old(workers) && old(workers)[workerId].lifecycle == Ready ==>
                var w := old(workers)[workerId];
                var stale := HeartbeatStale(w, env.clock(1), timeout);
                var renewed := RenewUntil(t, now + w.leaseSeconds * SECOND);
                var memory := if stale then PutWorker(old(Mem()), w.(lifecycle := Unhealthy))
                              else PutTask(PutWorker(old(Mem()), w.(lastHeartbeat := now)), renewed);
                && State() == Persisted(old(State()).(memory := memory), env.saves(0))
                && reply == (if !SavedOk(old(State()), env.saves(0)) then Raised(PersistenceFailed)
                             else if stale then Raised(NotRegistered) else Renewed(renewed.lease.value))
    {
      hide SnapshotOf, PutWorker, PutTask;
      var a := AvailableWorker(workerId, env.clock(1), env.saves(0));
      match a
      case NotKnown => reply := Raised(NotRegistered);
      case SaveFailed => reply := Raised(PersistenceFailed);
      case NotAvailable => reply := Raised(NotRegistered);
      case Found(w) =>
        SetWorker(w.(lastHeartbeat := now));
        var renewed := RenewUntil(t, now + w.leaseSeconds * SECOND);
        SetTask(renewed);
        var ok := Persist(env.saves(0));
        reply := if ok then Renewed(renewed.lease.value) else Raised(PersistenceFailed);
    }

    method SubmitResult(id: string, workerId: string, leaseId: string, generation: int, result: WorkerResult,
                        retryable: bool, env: Env) returns (reply: Reply)
      requires Valid() && Constructed(result)
      modifies this, store
      ensures Valid()
      ensures (State(), reply)
              == Step(old(State()), Call(Report(id, workerId, leaseId, generation, result, retryable), env))
    {
      hide Inv, ExpireMemory, Commit, SnapshotOf, MemoryEvolves, PutTask, FinishDeadline, CommitReport, Constructed,
           GrantOf;
      ghost var f, op := State(), Report(id, workerId, leaseId, generation, result, retryable);
      StepGood(f, Call(op, env));
      InvIndexed(Mem());
      ghost var effect := ReportEffect(Mem(), op, env, timeout);
      assert Step(f, Call(op, env)) == Commit(f, effect.saves, effect.reply, env.saves, 0);
      CommitNone(f, effect.reply, env.saves, 0);
      if effect.saves != [] {
        assert effect.saves == [effect.saves[0]];
        CommitOne(f, effect.saves[0], effect.reply, env.saves, 0);
      }
      if id !in tasks {
        return Raised(UnknownTask);
      }
      if result.workerId != workerId {
        return Raised(Conflict);
      }
      var t, now := tasks[id], env.clock(0);
      if t.Terminal() {
        return TaskReply(t);
      }
      if t.PastDeadline(now) {
        var ok := FinishTask(t, env.saves(0));
        return Raised(if ok then StaleLease else PersistenceFailed);
      }
      if !t.HeldBy(workerId, leaseId, generation, now) {
        var ok, _ := ExpireAt(env.clock(1), env.saves(0));
        return Raised(if ok then StaleLease else PersistenceFailed);
      }
      var updated := CommitReport(t, workerId, generation, result, retryable, now);
      SetTask(updated);
      var ok := Persist(env.saves(0));
      reply := if ok then TaskReply(updated) else Raised(PersistenceFailed);
    }

    method CancelTaskOf(id: string, reason: string, cause: TerminationTag, env: Env) returns (reply: Reply)
      requires Valid()
      modifies this, store
      ensures Valid() && (State(), reply) == Step(old(State()), Call(Cancel(id, reason, cause), env))
    {
      hide Inv, Commit, SnapshotOf, MemoryEvolves, PutTask, CancelTask;
      ghost var f, op := State(), Cancel(id, reason, cause);
      StepGood(f, Call(op, env));
      if PyText.Blank(reason) || cause !in CANCEL_CAUSES {
        CommitNone(f, Raised(Invalid), env.saves, 0);
        return Raised(Invalid);
      }
      if id !in tasks {
        CommitNone(f, Raised(UnknownTask), env.saves, 0);
        return Raised(UnknownTask);
      }
      var t := tasks[id];
      if t.Terminal() {
        CommitNone(f, TaskReply(t), env.saves, 0);
        return TaskReply(t);
      }
      var updated := CancelTask(t, reason, cause);
      SetTask(updated);
      CommitOne(f, Mem(), TaskReply(updated), env.saves, 0);
      var ok := Persist(env.saves(0));
      reply := if ok then TaskReply(updated) else Raised(PersistenceFailed);
    }

    /** Any public operation, as a remote caller may issue it. */
    method Perform(op: Op, env: Env) returns (reply: Reply)
      requires Valid() && WellTyped(op)
      modifies this, store
      ensures Valid() && (State(), reply) == Step(old(State()), Call(op, env))
    {
      hide Step, FleetInv, Linked;
      match op
      case Register(w, implementation, capabilities, seconds) =>
        reply := RegisterWorker(w, implementation, capabilities, seconds, env);
      case Heartbeat(w) => reply := HeartbeatWorker(w, env);
      case Drain(w) => reply := SetLifecycle(w, false, env);
      case StopWorker(w) => reply := SetLifecycle(w, true, env);
      case Submit(_, _, _, _, _, _, _) => reply := SubmitTask(op, env);
      case Claim(w) => reply := ClaimTask(w, env);
      case Renew(id, w, lease, gen) => reply := RenewLease(id, w, lease, gen, env);
      case Report(id, w, lease, gen, result, retryable) =>
        reply := SubmitResult(id, w, lease, gen, result, retryable, env);
      case Expire => reply := ExpireLeases(env);
      case Cancel(id, reason, cause) => reply := CancelTaskOf(id, reason, cause, env);
    }

    /** `observe_task` */
    method ObserveTask(id: string) returns (t: Option<Task>)
      ensures t == if id in tasks then Some(tasks[id]) else None
    {
      t := if id in tasks then Some(tasks[id]) else None;
    }
  }

  /** A renewal saves at most once. */
  lemma RenewStepIs(f: Fleet, op: Op, env: Env)
    requires op.Renew? && f.phase != Down
    ensures var e := RenewEffect(f.memory, op, env, f.timeout);
            Step(f, Call(op, env)) ==
            if e.saves == [] then (f, e.reply)
            else (Persisted(f.(memory := e.saves[0]), env.saves(0)),
                  if SavedOk(f, env.saves(0)) then e.reply else Raised(PersistenceFailed))
  {
    hide Commit, PutTask, PutWorker, ExpireMemory, FinishDeadline, Persisted, SavedOk;
    var e := RenewEffect(f.memory, op, env, f.timeout);
    CommitNone(f, e.reply, env.saves, 0);
    if e.saves != [] {
      assert e.saves == [e.saves[0]];
      CommitOne(f, e.saves[0], e.reply, env.saves, 0);
    }
  }

  lemma KeyAt(m: Memory, i: nat)
    requires Indexed(m) && i < |m.taskOrder|
    ensures m.taskOrder[i] in m.tasks
    ensures forall k | 0 <= k < |m.taskOrder| && k != i :: m.taskOrder[k] != m.taskOrder[i]
  {
    assert m.taskOrder[i] in m.taskOrder;
  }

  lemma KeyIsListed(m: Memory, id: string)
    requires Indexed(m) && id in m.tasks
    ensures exists k :: 0 <= k < |m.taskOrder| && m.taskOrder[k] == id
  {
    assert id in m.taskOrder;
  }

  lemma ExpiredNext(m: Memory, now: int, order: seq<string>, i: nat)
    requires i < |order| && order[i] in m.tasks
    ensures ExpiredIn(m, now, order[i..])
            == (if LeaseRanOut(m.tasks[order[i]], now) then [ExpireTask(m.tasks[order[i]], now)] else [])
               + ExpiredIn(m, now, order[i + 1..])
  {
    assert order[i..][1..] == order[i + 1..];
  }

  lemma ExpiredNone(m: Memory, now: int, order: seq<string>)
    ensures ExpiredIn(m, now, order[|order|..]) == []
  {
  }

  lemma ExpireLeavesAlone(t: Task, now: int)
    requires !LeaseRanOut(t, now)
    ensures ExpireTask(t, now) == t
  {
  }

  lemma ExpireIndexed(m: Memory, now: int)
    requires Indexed(m)
    ensures Indexed(m.(tasks := map id | id in m.tasks :: ExpireTask(m.tasks[id], now)))
  {
    hide ExpireTask, Distinct;
    forall id <- m.tasks ensures ExpireTask(m.tasks[id], now).taskId == id {
      ExpireKeepsId(m.tasks[id], now);
    }
  }

  lemma WorkerName(m: Memory, id: string)
    requires Inv(m) && id in m.workers
    ensures m.workers[id].workerId == id
  {
  }
}
