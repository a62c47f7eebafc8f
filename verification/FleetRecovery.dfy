/** Recovery: what restoring a stored snapshot yields. */
module FleetRecovery {
  import opened Wrappers
  import opened Worker
  import opened FleetTask
  import opened FleetOutcomes
  import opened FleetMemory
  import opened FleetSteps

  /** The same memory after a restart at `now`: every record restored, every Worker unhealthy. */
  function Revived(m: Memory, now: int): Memory {
    m.(workers := map id | id in m.workers :: RestoreWorker(m.workers[id], now),
       tasks := map id | id in m.tasks && RestoreTask(m.tasks[id], now).Ok? :: RestoreTask(m.tasks[id], now).value)
  }

  lemma NextKey(order: seq<string>, i: nat)
    requires Distinct(order) && i < |order|
    ensures order[i] !in order[..i] && order[..i + 1] == order[..i] + [order[i]]
    ensures order[i..] == [order[i]] + order[i + 1..]
  {
  }

  /** The first i Workers have been restored into `acc`. */
  ghost predicate WorkersDone(m: Memory, acc: Memory, i: nat, now: int)
    requires i <= |m.workerOrder|
  {
    && acc.workerOrder == m.workerOrder[..i]
    && (forall id :: id in acc.workers <==> id in m.workerOrder[..i])
    && (forall id <- acc.workers :: id in m.workers && acc.workers[id] == RestoreWorker(m.workers[id], now))
  }

  ghost predicate TasksDone(m: Memory, acc: Memory, i: nat, now: int)
    requires i <= |m.taskOrder|
  {
    && acc.taskOrder == m.taskOrder[..i]
    && (forall id :: id in acc.tasks <==> id in m.taskOrder[..i])
    && (forall id <- acc.tasks :: id in m.tasks && RestoreTask(m.tasks[id], now) == Ok(acc.tasks[id]))
  }

  lemma AddWorker(m: Memory, now: int, acc: Memory, i: nat)
    requires Indexed(m) && i < |m.workerOrder| && WorkersDone(m, acc, i, now)
    ensures var id := m.workerOrder[i];
            id in m.workers && id !in acc.workers && m.workers[id].workerId == id
            && WorkersDone(m, PutWorker(acc, RestoreWorker(m.workers[id], now)), i + 1, now)
  {
    hide Distinct;
    NextKey(m.workerOrder, i);
    assert m.workerOrder[i] in m.workerOrder;
  }

  lemma AddTask(m: Memory, now: int, acc: Memory, i: nat)
    requires Inv(m) && i < |m.taskOrder| && TasksDone(m, acc, i, now)
    ensures var id := m.taskOrder[i];
            id in m.tasks && id !in acc.tasks && m.tasks[id].taskId == id && RestoreTask(m.tasks[id], now).Ok?
            && TasksDone(m, PutTask(acc, RestoreTask(m.tasks[id], now).value), i + 1, now)
  {
    hide Distinct, RestoreTask, TaskInv;
    NextKey(m.taskOrder, i);
    assert m.taskOrder[i] in m.taskOrder;
    RestoreTaskOk(m, m.taskOrder[i], now);
  }

  lemma {:induction false} AddWorkersFrom(m: Memory, now: int, acc: Memory, i: nat)
    requires Indexed(m) && i <= |m.workerOrder| && WorkersDone(m, acc, i, now)
    ensures AddWorkers(acc, WorkerList(m, m.workerOrder[i..]), now)
            == Ok(acc.(workers := Revived(m, now).workers, workerOrder := m.workerOrder))
    decreases |m.workerOrder| - i
  {
    if i < |m.workerOrder| {
      var id := m.workerOrder[i];
      AddWorker(m, now, acc, i);
      AddWorkersFrom(m, now, PutWorker(acc, RestoreWorker(m.workers[id], now)), i + 1);
      NextKey(m.workerOrder, i);
      hide Indexed, WorkersDone, Distinct, PutWorker, Revived, RestoreWorker;
      assert WorkerList(m, m.workerOrder[i..]) == [m.workers[id]] + WorkerList(m, m.workerOrder[i + 1..]);
    } else {
      assert m.workerOrder[..i] == m.workerOrder;
      assert acc.workers == Revived(m, now).workers;
    }
  }

  lemma RestoreTaskOk(m: Memory, id: string, now: int)
    requires Inv(m) && id in m.tasks
    ensures RestoreTask(m.tasks[id], now).Ok? && RestoreTask(m.tasks[id], now).value.taskId == id
  {
    RestoreAdvances(m.tasks[id], now);
  }

  lemma {:induction false} AddTasksFrom(m: Memory, now: int, acc: Memory, i: nat)
    requires Inv(m) && i <= |m.taskOrder| && TasksDone(m, acc, i, now)
    ensures AddTasks(acc, TaskList(m, m.taskOrder[i..]), now)
            == Ok(acc.(tasks := Revived(m, now).tasks, taskOrder := m.taskOrder))
    decreases |m.taskOrder| - i
  {
    hide RestoreTask, TaskInv;
    if i < |m.taskOrder| {
      var id := m.taskOrder[i];
      AddTask(m, now, acc, i);
      AddTasksFrom(m, now, PutTask(acc, RestoreTask(m.tasks[id], now).value), i + 1);
      assert TaskList(m, m.taskOrder[i..]) == [m.tasks[id]] + TaskList(m, m.taskOrder[i + 1..]) by {
        NextKey(m.taskOrder, i);
      }
    } else {
      assert m.taskOrder[..i] == m.taskOrder;
      assert acc.tasks == Revived(m, now).tasks;
    }
  }

  /** Restoring the snapshot of any memory that satisfies the invariant succeeds, and gives exactly `Revived`. */
  lemma RestoreSucceeds(m: Memory, now: int)
    requires Inv(m)
    ensures Restore(SnapshotOf(m), now) == Ok(Revived(m, now))
  {
    hide Inv;
    assert Indexed(m) by { InvIndexed(m); }
    AddWorkersFrom(m, now, EMPTY, 0);
    assert m.workerOrder[0..] == m.workerOrder && m.taskOrder[0..] == m.taskOrder;
    AddTasksFrom(m, now, EMPTY.(workers := Revived(m, now).workers, workerOrder := m.workerOrder), 0);
  }

  lemma InvIndexed(m: Memory)
    requires Inv(m)
    ensures Indexed(m)
  {
  }

  // ---- Which snapshots can be restored ---------------------------------------------------------

  /** A stored record that recovery accepts. */
  predicate Restorable(t: Task) {
    t.intent.Valid() && (t.result.Some? ==> PostInit(t.result.value).Ok?) && (t.status == Running ==> t.lease.Some?)
  }

  lemma RestorableMeans(t: Task, now: int)
    ensures RestoreTask(t, now).Ok? <==> Restorable(t)
    ensures RestoreTask(t, now).Ok? ==> RestoreTask(t, now).value.taskId == t.taskId
  {
    hide PostInit, CoordinatorResult;
  }

  /** No identity is listed twice, in the list or already known. */
  predicate NewWorkers(m: Memory, workers: seq<Registration>) {
    && (forall w <- workers :: w.workerId !in m.workers)
    && forall i, j | 0 <= i < j < |workers| :: workers[i].workerId != workers[j].workerId
  }

  predicate NewTasks(m: Memory, tasks: seq<Task>) {
    && (forall t <- tasks :: t.taskId !in m.tasks)
    && forall i, j | 0 <= i < j < |tasks| :: tasks[i].taskId != tasks[j].taskId
  }

  lemma {:induction false} WorkersAdded(m: Memory, workers: seq<Registration>, now: int)
    ensures AddWorkers(m, workers, now).Ok? <==> NewWorkers(m, workers)
    ensures AddWorkers(m, workers, now).Ok? ==> AddWorkers(m, workers, now).value.tasks == m.tasks
    decreases |workers|
  {
    if workers != [] {
      var w, rest := workers[0], workers[1..];
      assert workers == [w] + rest && w in workers;
      if w.workerId !in m.workers {
        var m' := PutWorker(m, RestoreWorker(w, now));
        WorkersAdded(m', rest, now);
        assert NewWorkers(m', rest) <==> NewWorkers(m, workers) by {
          assert m'.workers.Keys == m.workers.Keys + {w.workerId};
          assert forall v <- rest :: v in workers;
          assert NewWorkers(m, workers) ==> forall j | 0 <= j < |rest| :: workers[j + 1] == rest[j];
        }
      }
    }
  }

  lemma {:induction false} TasksAdded(m: Memory, tasks: seq<Task>, now: int)
    ensures AddTasks(m, tasks, now).Ok? <==> NewTasks(m, tasks) && forall t <- tasks :: Restorable(t)
    decreases |tasks|
  {
    hide RestoreTask, Restorable;
    if tasks != [] {
      var t, rest := tasks[0], tasks[1..];
      assert tasks == [t] + rest && t in tasks;
      RestorableMeans(t, now);
      if t.taskId !in m.tasks && RestoreTask(t, now).Ok? {
        var m' := PutTask(m, RestoreTask(t, now).value);
        TasksAdded(m', rest, now);
        assert NewTasks(m', rest) <==> NewTasks(m, tasks) by {
          assert m'.tasks.Keys == m.tasks.Keys + {t.taskId};
          assert forall v <- rest :: v in tasks;
          assert NewTasks(m, tasks) ==> forall j | 0 <= j < |rest| :: tasks[j + 1] == rest[j];
        }
      }
    }
  }

  /** A snapshot is restored exactly if it names no identity twice and each of its records is acceptable. */
  lemma RestoreDecides(s: Snapshot, now: int)
    ensures Restore(s, now).Ok? <==>
            && (forall i, j | 0 <= i < j < |s.workers| :: s.workers[i].workerId != s.workers[j].workerId)
            && (forall i, j | 0 <= i < j < |s.tasks| :: s.tasks[i].taskId != s.tasks[j].taskId)
            && (forall t <- s.tasks :: Restorable(t))
  {
    hide Restorable;
    WorkersAdded(EMPTY, s.workers, now);
    if AddWorkers(EMPTY, s.workers, now).Ok? {
      TasksAdded(AddWorkers(EMPTY, s.workers, now).value, s.tasks, now);
    }
  }

  /** What recovery did to every record and every Worker. */
  lemma RevivedRecords(m: Memory, now: int)
    requires Inv(m)
    ensures var r := Revived(m, now);
            && Inv(r) && MemorySteps(m, r, NoGrant)
            && r.tasks.Keys == m.tasks.Keys && r.workers.Keys == m.workers.Keys
            && r.taskOrder == m.taskOrder && r.workerOrder == m.workerOrder
            && (forall id <- r.workers :: r.workers[id] == m.workers[id].(lifecycle := Unhealthy, lastHeartbeat := now))
            && (forall id <- m.tasks :: RestoreTask(m.tasks[id], now) == Ok(r.tasks[id])
                                        && Recovered(m.tasks[id], r.tasks[id], now))
  {
    hide TaskInv, Evolves, Licensed, RestoreTask, Recovered;
    var r := Revived(m, now);
    forall id <- m.tasks
      ensures RestoreTask(m.tasks[id], now).Ok?
      ensures var t := RestoreTask(m.tasks[id], now).value;
              t.taskId == id && Advances(m.tasks[id], t, NoGrant) && Recovered(m.tasks[id], t, now)
    {
      RestoreAdvances(m.tasks[id], now);
      RestoreTaskOk(m, id, now);
      Recovers(m.tasks[id], now);
    }
    assert r.tasks.Keys == m.tasks.Keys;
  }

  /** The lease is revoked, and the record is queued again, ended or left alone as a restart at `now` requires. */
  predicate Recovered(was: Task, t: Task, now: int) {
    t.lease.None? && t.status != Running && AfterRestart(was, t, now)
  }

  lemma Recovers(t: Task, now: int)
    requires TaskInv(t)
    ensures RestoreTask(t, now).Ok? && Recovered(t, RestoreTask(t, now).value, now)
  {
    RestoreAdvances(t, now);
    RestartMeans(t, now);
    hide RestoreTask, Advances, AfterRestart;
  }

  lemma RestoreTaskTwice(t: Task, now: int)
    requires TaskInv(t) && RestoreTask(t, now).Ok?
    ensures RestoreTask(RestoreTask(t, now).value, now) == RestoreTask(t, now)
  {
    RestoreAdvances(t, now);
    var u := RestoreTask(t, now).value;
    hide RestoreTask, Evolves, Licensed;
    RestoreAdvances(u, now);
  }

  /** Restarting twice at the same instant is restarting once. */
  lemma RecoveryIsIdempotent(m: Memory, now: int)
    requires Inv(m)
    ensures Revived(Revived(m, now), now) == Revived(m, now)
    ensures Restore(SnapshotOf(Revived(m, now)), now) == Ok(Revived(m, now))
  {
    hide TaskInv, RestoreTask, MemorySteps;
    var r := Revived(m, now);
    RevivedRecords(m, now);
    forall id <- m.tasks ensures RestoreTask(r.tasks[id], now) == Ok(r.tasks[id]) {
      RestoreTaskTwice(m.tasks[id], now);
    }
    assert Revived(r, now).tasks == r.tasks;
    assert Revived(r, now).workers == r.workers;
    RestoreSucceeds(r, now);
  }
}
