/**
 What an answer is worth: a task record that a call returned, or that an observation of a
 terminal task showed, against what the store holds, now and after crashes.
 */
module FleetAnswers {
  import opened Wrappers
  import opened FleetTask
  import opened FleetMemory
  import opened FleetSteps
  import opened FleetRuns
  import opened FleetFencing
  import opened FleetRecords

  /** The memory an operation leaves if all its saves succeed. */
  function LastMemory(m: Memory, e: Effect): Memory {
    if e.saves == [] then m else e.saves[|e.saves| - 1]
  }

  lemma {:induction false} FoundIsKept(m: Memory, key: string, order: seq<string>)
    requires Inv(m)
    ensures var p := FirstWithKey(m, key, order);
            p.Some? ==> p.value.taskId in m.tasks && m.tasks[p.value.taskId] == p.value
  {
    hide TaskInv;
    if order != [] {
      FoundIsKept(m, key, order[1..]);
    }
  }

  /** A record an operation answers with is the one it leaves in memory. */
  lemma EffectAnswers(m: Memory, op: Op, env: Env, timeout: int)
    requires Inv(m) && EffectOf(m, op, env, timeout).reply.TaskReply?
    ensures var e := EffectOf(m, op, env, timeout);
            var t := e.reply.task;
            t.taskId in LastMemory(m, e).tasks && LastMemory(m, e).tasks[t.taskId] == t
  {
    hide TaskInv, ScanEffect, CommitReport, CancelTask, ExpireMemory, FirstWithKey, FinishDeadline;
    if op.Claim? {
      ClaimAnswers(m, op.workerId, env, timeout);
    } else if op.Submit? && op.key.Some? {
      FoundIsKept(m, op.key.value, m.taskOrder);
    }
  }

  lemma ClaimAnswers(m: Memory, worker: string, env: Env, timeout: int)
    ensures !ClaimEffect(m, worker, env, timeout).reply.TaskReply?
  {
    hide ScanEffect, ExpireMemory, Candidates;
    var m' := ExpireMemory(m, env.clock(0), timeout);
    if worker in m'.workers {
      ScanAnswers(m', m'.workers[worker], Candidates(m', m'.workers[worker], m'.taskOrder), env, 2);
    }
  }

  lemma {:induction false} ScanAnswers(m: Memory, w: Registration, candidates: seq<Task>, env: Env, k: nat)
    ensures !ScanEffect(m, w, candidates, env, k).reply.TaskReply?
    decreases |candidates|
  {
    if candidates != [] && candidates[0].PastDeadline(env.clock(k)) {
      var k' := if candidates[0].deadline.Some? then k + 1 else k;
      ScanAnswers(PutTask(m, FinishDeadline(candidates[0])), w, candidates[1..], env, k');
    }
  }

  /** A returned record is the one in memory, and only a coordinator that is up changes anything to return it. */
  lemma AnswerIsInMemory(f: Fleet, op: Op, env: Env)
    requires FleetInv(f) && Step(f, Call(op, env)).1.TaskReply?
    ensures var (f', r) := Step(f, Call(op, env));
            && f.phase != Down && f'.phase == f.phase
            && r.task.taskId in f'.memory.tasks && f'.memory.tasks[r.task.taskId] == r.task
            && (if f.phase == Up then f'.durable == Some(f'.memory) else f' == f)
  {
    hide Inv, MemoryEvolves, EffectOf, Commit;
    var e := EffectOf(f.memory, op, env, f.timeout);
    CommitReplies(f, e.saves, e.reply, env.saves, 0);
    EffectAnswers(f.memory, op, env, f.timeout);
    if e.saves == [] {
      CommitNothing(f, e.reply, env.saves, 0);
    } else {
      CommitAcknowledged(f, e.saves, e.reply, env.saves, 0);
    }
    if f.phase == FailStopped {
      FailStopAcknowledgesNothingNew(f, op, env);
    }
  }

  /** The store has exactly this record of the task. */
  predicate StoredAs(f: Fleet, id: string, t: Task) {
    f.durable.Some? && id in f.durable.value.tasks && f.durable.value.tasks[id] == t
  }

  /**
   When a returned record is stored: always while no save has failed; after that, exactly
   when the record the store holds of the task is the one memory held before the call.
   */
  lemma AnswerIsStored(f: Fleet, op: Op, env: Env)
    requires FleetInv(f) && Step(f, Call(op, env)).1.TaskReply?
    ensures var (f', r) := Step(f, Call(op, env));
            var id := r.task.taskId;
            Holds(f', r.task) <==>
            f.phase == Up || (id in f.memory.tasks && StoredAs(f, id, f.memory.tasks[id]))
  {
    hide Inv, MemoryEvolves, Step;
    AnswerIsInMemory(f, op, env);
  }

  /** The same of an observation, which returns the record in memory. */
  lemma ObservedIsStored(f: Fleet, id: string)
    requires FleetInv(f) && f.phase != Down && id in f.memory.tasks
    ensures Holds(f, f.memory.tasks[id]) <==> f.phase == Up || StoredAs(f, id, f.memory.tasks[id])
  {
    TaskOf(f.memory, id);
    if f.phase == Up {
      UpHolds(f, id);
    }
  }

  /**
   A terminal record that a coordinator without a failed save returned is kept through every
   continuation, with failed saves, crashes at any save point and restarts, unless a renewal
   at or after its deadline rewrites it.
   */
  lemma AnsweredRecordSurvives(f: Fleet, op: Op, env: Env, events: seq<Event>)
    requires FleetInv(f) && f.phase == Up && WellTyped(op) && Typed(events)
    requires Step(f, Call(op, env)).1.TaskReply? && Step(f, Call(op, env)).1.task.Terminal()
    requires NoLateRenewal(events, Step(f, Call(op, env)).1.task)
    ensures Holds(After(Step(f, Call(op, env)).0, events), Step(f, Call(op, env)).1.task)
  {
    hide Inv, MemoryEvolves, Step, After, LateRenewal, MemorySteps;
    AnswerIsStored(f, op, env);
    StepGood(f, Call(op, env));
    TerminalRecordSurvives(Step(f, Call(op, env)).0, events, Step(f, Call(op, env)).1.task);
  }
}
