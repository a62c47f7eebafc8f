/** `claim_task` against a minimum specification. */
module FleetScheduling {
  import opened FleetTask
  import opened FleetOutcomes
  import opened FleetMemory
  import opened FleetSteps
  import PyText

  /** How many candidates the loop gives up before it leases one or runs out. */
  function Passed(candidates: seq<Task>, env: Env, k: nat): (j: nat)
    ensures j <= |candidates|
    decreases |candidates|
  {
    if candidates == [] || !candidates[0].PastDeadline(env.clock(k)) then 0
    else 1 + Passed(candidates[1..], env, k + 1)
  }

  lemma {:induction false} PassedArePast(candidates: seq<Task>, env: Env, k: nat)
    ensures var j := Passed(candidates, env, k);
            && (forall i | 0 <= i < j :: candidates[i].PastDeadline(env.clock(k + i)))
            && (j < |candidates| ==> !candidates[j].PastDeadline(env.clock(k + j)))
    decreases |candidates|
  {
    if candidates != [] && candidates[0].PastDeadline(env.clock(k)) {
      PassedArePast(candidates[1..], env, k + 1);
      forall i | 0 < i < Passed(candidates, env, k) ensures candidates[i].PastDeadline(env.clock(k + i)) {
        assert candidates[i] == candidates[1..][i - 1];
      }
    }
  }

  /** The lease the loop grants when it stops at candidate j. */
  function Granted(c: Task, w: Registration, env: Env, k: nat): Task {
    LeaseTo(c, w.workerId, env.uuid, env.clock(if c.deadline.Some? then k + 1 else k) + w.leaseSeconds * SECOND)
  }

  function FinishAll(m: Memory, tasks: seq<Task>): Memory
    decreases |tasks|
  {
    if tasks == [] then m else FinishAll(PutTask(m, FinishDeadline(tasks[0])), tasks[1..])
  }

  function LastOf(m: Memory, saves: seq<Memory>): Memory {
    if saves == [] then m else saves[|saves| - 1]
  }

  /** The loop in closed form: finish the candidates it passes, then lease the one it stops at. */
  lemma {:induction false} ScanClosedForm(m: Memory, w: Registration, candidates: seq<Task>, env: Env, k: nat)
    ensures var j := Passed(candidates, env, k);
            var e := ScanEffect(m, w, candidates, env, k);
            var passed := FinishAll(m, candidates[..j]);
            if j == |candidates| then e.reply == NoTask && LastOf(m, e.saves) == passed && |e.saves| == j
            else |e.saves| == j + 1 && e.reply == Leased(Granted(candidates[j], w, env, k + j))
                 && LastOf(m, e.saves) == PutTask(passed, Granted(candidates[j], w, env, k + j))
    decreases |candidates|
  {
    hide FinishDeadline, LeaseTo, PutTask, ScanEffect;
    var j := Passed(candidates, env, k);
    if candidates == [] {
      ScanEnds(m, w, env, k);
    } else if candidates[0].PastDeadline(env.clock(k)) {
      var m' := PutTask(m, FinishDeadline(candidates[0]));
      ScanSkips(m, w, candidates, env, k);
      ScanClosedForm(m', w, candidates[1..], env, k + 1);
      assert candidates[..j][1..] == candidates[1..][..j - 1];
    } else {
      ScanLeases(m, w, candidates, env, k);
      assert candidates[..j] == [];
    }
  }

  lemma {:induction false} FinishAllRecords(m: Memory, tasks: seq<Task>)
    requires Fresh(m, tasks)
    ensures var f := FinishAll(m, tasks);
            && f.tasks.Keys == m.tasks.Keys
            && (forall i | 0 <= i < |tasks| :: tasks[i].taskId in m.tasks
                                               && f.tasks[tasks[i].taskId] == FinishDeadline(tasks[i]))
            && (forall id <- m.tasks | forall i | 0 <= i < |tasks| :: tasks[i].taskId != id ::
                  f.tasks[id] == m.tasks[id])
    decreases |tasks|
  {
    hide FinishDeadline;
    if tasks != [] {
      assert FreshRecord(m, tasks[0]);
      FinishKeepsId(tasks[0]);
      FreshAfterPut(m, tasks, FinishDeadline(tasks[0]));
      var m' := PutTask(m, FinishDeadline(tasks[0]));
      FinishAllRecords(m', tasks[1..]);
      forall i | 0 <= i < |tasks|
        ensures tasks[i].taskId in m.tasks && FinishAll(m, tasks).tasks[tasks[i].taskId] == FinishDeadline(tasks[i])
      {
        assert FreshRecord(m, tasks[i]);
        if i > 0 {
          assert tasks[i] == tasks[1..][i - 1];
        }
      }
      forall id <- m.tasks | forall i | 0 <= i < |tasks| :: tasks[i].taskId != id
        ensures FinishAll(m, tasks).tasks[id] == m.tasks[id]
      {
        assert tasks[0].taskId != id;
        forall i | 0 <= i < |tasks[1..]| ensures tasks[1..][i].taskId != id {
          assert tasks[1..][i] == tasks[i + 1];
        }
      }
    }
  }

  // ---- The specification ------------------------------------------------------------

  /** The Worker is registered, READY, and its heartbeat is fresh when looked at. */
  predicate Available(m: Memory, worker: string, env: Env, timeout: int) {
    && worker in m.workers && m.workers[worker].lifecycle == Ready
    && !HeartbeatStale(m.workers[worker], env.clock(1), timeout)
  }

  /** The task could be leased to the Worker at instant `at`. */
  predicate Takeable(m: Memory, w: Registration, id: string, at: int) {
    id in m.tasks && Eligible(m.tasks[id], w) && !m.tasks[id].PastDeadline(at)
  }

  /** The clock reading on which the loop's outcome rests: its last deadline check. */
  function DecidedAt(m: Memory, w: Registration, env: Env): int {
    var candidates := Candidates(m, w, m.taskOrder);
    var j := Passed(candidates, env, 2);
    env.clock(if j == |candidates| then 1 + j else 2 + j)
  }

  /** The candidates, in scheduling order, are exactly the eligible records. */
  lemma CandidateAt(m: Memory, w: Registration, id: string)
    requires Inv(m)
    ensures var c := Candidates(m, w, m.taskOrder);
            && Sorted(c) && Fresh(m, c)
            && (forall i | 0 <= i < |c| :: c[i].taskId in m.tasks && m.tasks[c[i].taskId] == c[i] && Eligible(c[i], w))
            && (id in m.tasks && Eligible(m.tasks[id], w) ==> exists i :: 0 <= i < |c| && c[i] == m.tasks[id])
  {
    hide TaskInv, Candidates;
    CandidatesSorted(m, w, m.taskOrder);
    CandidatesFresh(m, w);
    var c := Candidates(m, w, m.taskOrder);
    forall i | 0 <= i < |c| ensures c[i].taskId in m.tasks && m.tasks[c[i].taskId] == c[i] && Eligible(c[i], w) {
      assert c[i] in c;
    }
    if id in m.tasks && Eligible(m.tasks[id], w) {
      assert m.tasks[id].taskId == id && id in m.taskOrder;
      assert m.tasks[id] in c;
    }
  }

  /** Deadlines already passed when a candidate was looked at have passed when the loop decides. */
  lemma PastWhenDecided(m: Memory, w: Registration, env: Env, i: nat)
    requires Forward(env.clock) && i < Passed(Candidates(m, w, m.taskOrder), env, 2)
    ensures Candidates(m, w, m.taskOrder)[i].PastDeadline(DecidedAt(m, w, env))
  {
    hide Candidates;
    var c := Candidates(m, w, m.taskOrder);
    PassedArePast(c, env, 2);
    var j := Passed(c, env, 2);
    assert env.clock(2 + i) <= env.clock(1 + j) && env.clock(2 + i) <= env.clock(2 + j);
  }

  lemma TakeableIsNotPassed(m: Memory, w: Registration, env: Env, id: string)
    requires Inv(m) && Forward(env.clock) && Takeable(m, w, id, DecidedAt(m, w, env))
    ensures var c := Candidates(m, w, m.taskOrder);
            var j := Passed(c, env, 2);
            j < |c| && (id == c[j].taskId || Before(c[j], m.tasks[id]))
  {
    hide Inv, Candidates, Fresh, Before, Passed;
    var c := Candidates(m, w, m.taskOrder);
    CandidateAt(m, w, id);
    TaskOf(m, id);
    var i :| 0 <= i < |c| && c[i] == m.tasks[id];
    if i < Passed(c, env, 2) {
      PastWhenDecided(m, w, env, i);
    }
  }

  /** A task is leased exactly if one is takeable at `at`, and then the least, for the Worker's lease duration. */
  ghost predicate TheLeast(m: Memory, worker: string, env: Env, at: int, reply: Reply)
    requires worker in m.workers
  {
    var w := m.workers[worker];
    && (reply.Leased? || reply.NoTask?)
    && (reply.Leased? <==> exists id :: Takeable(m, w, id, at))
    && (reply.Leased? ==>
          var t := reply.task;
          && Takeable(m, w, t.taskId, at)
          && t.lease.Some? && LeasedTo(m.tasks[t.taskId], t, worker, env.uuid, t.lease.value.expiresAt)
          && (exists k: nat :: at <= env.clock(k) && t.lease.value.expiresAt == env.clock(k) + w.leaseSeconds * SECOND)
          && forall id :: Takeable(m, w, id, at) && id != t.taskId ==> Before(m.tasks[t.taskId], m.tasks[id]))
  }

  /**
   `claim_task` on an available Worker refines a minimum. After the expiry pass, with
   `at` the reading of the last deadline check: it leases a task exactly if one is
   takeable at `at`, and then the takeable task that is least by (submitted_at,
   task_id), for the Worker's lease duration from a reading no earlier than `at`.
   */
  lemma ClaimLeasesTheLeast(m: Memory, worker: string, env: Env, timeout: int)
    requires Inv(m) && Forward(env.clock) && Available(m, worker, env, timeout)
    ensures TheLeast(m, worker, env, DecidedAt(m, m.workers[worker], env), ClaimExpired(m, worker, env, timeout).reply)
  {
    hide Inv, Candidates, Fresh, FinishAll, PutTask, FinishDeadline, LastOf, Passed, Sorted, LeasedTo, Granted;
    var w := m.workers[worker];
    assert w.workerId == worker by { WorkerNamed(m, worker); }
    var c := Candidates(m, w, m.taskOrder);
    var j := Passed(c, env, 2);
    var at := DecidedAt(m, w, env);
    ScanClosedForm(m, w, c, env, 2);
    PassedArePast(c, env, 2);
    forall id | Takeable(m, w, id, at) ensures j < |c| && (id == c[j].taskId || Before(c[j], m.tasks[id])) {
      TakeableIsNotPassed(m, w, env, id);
    }
    if j < |c| {
      CandidateAt(m, w, c[j].taskId);
      assert Takeable(m, w, c[j].taskId, at);
      GrantedLease(c[j], w, env, 2 + j);
    }
  }

  /** The lease granted at the k-th reading, or at the next one, lasts for the Worker's duration from there. */
  lemma GrantedLease(c: Task, w: Registration, env: Env, k: nat)
    requires Forward(env.clock)
    ensures var t := Granted(c, w, env, k);
            && t.taskId == c.taskId && t.lease.Some?
            && LeasedTo(c, t, w.workerId, env.uuid, t.lease.value.expiresAt)
            && exists i: nat :: env.clock(k) <= env.clock(i)
                                && t.lease.value.expiresAt == env.clock(i) + w.leaseSeconds * SECOND
  {
    var i := if c.deadline.Some? then k + 1 else k;
    assert env.clock(k) <= env.clock(i);
    LeaseMeans(c, w.workerId, env.uuid, env.clock(i) + w.leaseSeconds * SECOND);
  }

  lemma WorkerNamed(m: Memory, worker: string)
    requires Inv(m) && worker in m.workers
    ensures m.workers[worker].workerId == worker
  {
  }

  /** A Worker that is not available gets nothing, and no task is touched. */
  lemma UnavailableClaimsNothing(m: Memory, worker: string, env: Env, timeout: int)
    requires Inv(m) && !Available(m, worker, env, timeout)
    ensures var e := ClaimExpired(m, worker, env, timeout);
            && e.reply == (if worker in m.workers then NoTask else Raised(NotRegistered))
            && LastOf(m, e.saves).tasks == m.tasks
  {
  }

  /**
   The record after a claim: eligible tasks scheduled before the leased one are FAILED for
   their deadline, the leased one is running, all others are untouched. When nothing is
   leased, every eligible task is FAILED for its deadline.
   */
  function RecordAfter(m: Memory, w: Registration, reply: Reply, id: string): Task
    requires id in m.tasks && (reply.Leased? ==> reply.task.taskId in m.tasks)
  {
    var t := m.tasks[id];
    if reply.Leased? && id == reply.task.taskId then reply.task
    else if Eligible(t, w) && (reply.Leased? ==> Before(t, m.tasks[reply.task.taskId])) then FinishDeadline(t)
    else t
  }

  /** What a claim leaves behind, if every save succeeds. */
  lemma ClaimAftermath(m: Memory, worker: string, env: Env, timeout: int, id: string)
    requires Inv(m) && Forward(env.clock) && Available(m, worker, env, timeout) && id in m.tasks
    ensures var e := ClaimExpired(m, worker, env, timeout);
            var last := LastOf(m, e.saves).tasks;
            && (e.reply.Leased? || e.reply.NoTask?)
            && id in last && (e.reply.Leased? ==> e.reply.task.taskId in m.tasks)
            && last[id] == RecordAfter(m, m.workers[worker], e.reply, id)
  {
    hide Inv, Candidates, FinishDeadline, LeaseTo, FinishAll, Before, ScanEffect, Among, Fresh;
    var w := m.workers[worker];
    var c := Candidates(m, w, m.taskOrder);
    var j := Passed(c, env, 2);
    ScanClosedForm(m, w, c, env, 2);
    PrefixFinished(m, w, j, id);
    PrefixIsEarlier(m, w, j, id);
    if j < |c| {
      GrantKeepsId(c[j], w, env, 2 + j);
      NotBoth(c[j], c[j]);
      CandidateAt(m, w, id);
    }
  }

  /** The record is one of the first j candidates. */
  predicate Among(candidates: seq<Task>, j: nat, t: Task)
    requires j <= |candidates|
  {
    exists i | 0 <= i < j :: candidates[i] == t
  }

  lemma PrefixFinished(m: Memory, w: Registration, j: nat, id: string)
    requires Inv(m) && id in m.tasks && j <= |Candidates(m, w, m.taskOrder)|
    ensures var c := Candidates(m, w, m.taskOrder);
            var f := FinishAll(m, c[..j]);
            && id in f.tasks
            && f.tasks[id] == if Among(c, j, m.tasks[id]) then FinishDeadline(m.tasks[id]) else m.tasks[id]
  {
    hide Inv, Candidates, FinishDeadline, FinishAll, Before;
    var c := Candidates(m, w, m.taskOrder);
    CandidateAt(m, w, id);
    TaskOf(m, id);
    assert forall i | 0 <= i < j :: c[..j][i] == c[i];
    assert Fresh(m, c[..j]);
    FinishAllRecords(m, c[..j]);
    if Among(c, j, m.tasks[id]) {
      var i :| 0 <= i < j && c[i] == m.tasks[id];
      assert c[..j][i].taskId == id;
    } else {
      forall i | 0 <= i < |c[..j]| ensures c[..j][i].taskId != id {
        assert c[..j][i] == c[i] && m.tasks[c[i].taskId] == c[i];
      }
    }
  }

  /** The first j candidates are the eligible records scheduled before the next one. */
  lemma PrefixIsEarlier(m: Memory, w: Registration, j: nat, id: string)
    requires Inv(m) && id in m.tasks && j <= |Candidates(m, w, m.taskOrder)|
    ensures var c := Candidates(m, w, m.taskOrder);
            Among(c, j, m.tasks[id]) <==>
            Eligible(m.tasks[id], w) && (j < |c| ==> Before(m.tasks[id], c[j]))
  {
    hide Inv, Candidates, Before, Fresh;
    var c := Candidates(m, w, m.taskOrder);
    CandidateAt(m, w, id);
    if Eligible(m.tasks[id], w) {
      var i :| 0 <= i < |c| && c[i] == m.tasks[id];
      if j < |c| && i >= j {
        NotBoth(c[j], c[i]);
      }
    }
    if Among(c, j, m.tasks[id]) {
      var i :| 0 <= i < j && c[i] == m.tasks[id];
      assert Eligible(c[i], w);
    }
  }

  lemma GrantKeepsId(c: Task, w: Registration, env: Env, k: nat)
    ensures Granted(c, w, env, k).taskId == c.taskId
  {
  }

  lemma NotBoth(a: Task, b: Task)
    ensures !(Before(a, b) && Before(b, a))
  {
    PyText.LessIsStrictTotal(a.taskId, b.taskId);
  }
}
