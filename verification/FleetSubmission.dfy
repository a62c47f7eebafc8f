/** Idempotency keys over whole runs. */
module FleetSubmission {
  import opened Wrappers
  import opened FleetTask
  import opened FleetMemory
  import opened FleetSteps
  import opened FleetRuns
  import opened FleetRecovery

  /** No two tasks share an idempotency key. */
  ghost predicate KeysInjective(m: Memory) {
    forall a <- m.tasks, b <- m.tasks :: a != b ==> m.tasks[a].idempotencyKey != m.tasks[b].idempotencyKey
  }

  /** The two memories have the same tasks under the same keys. */
  ghost predicate SameKeys(a: Memory, b: Memory) {
    a.tasks.Keys == b.tasks.Keys && forall id <- a.tasks :: a.tasks[id].idempotencyKey == b.tasks[id].idempotencyKey
  }

  // ---- Only a submission adds a task ----------------------------------------------

  lemma {:induction false} ScanAddsNoTask(m: Memory, w: Registration, candidates: seq<Task>, env: Env, k: nat)
    requires forall i | 0 <= i < |candidates| :: candidates[i].taskId in m.tasks
    ensures forall s <- ScanEffect(m, w, candidates, env, k).saves :: s.tasks.Keys == m.tasks.Keys
    decreases |candidates|
  {
    hide FinishDeadline, LeaseTo, ScanEffect;
    if candidates == [] {
      ScanEnds(m, w, env, k);
    } else if candidates[0].PastDeadline(env.clock(k)) {
      FinishKeepsId(candidates[0]);
      ScanSkips(m, w, candidates, env, k);
      var m' := PutTask(m, FinishDeadline(candidates[0]));
      assert m'.tasks.Keys == m.tasks.Keys;
      ScanAddsNoTask(m', w, candidates[1..], env, k + 1);
    } else {
      ScanLeases(m, w, candidates, env, k);
      var leased := ScanEffect(m, w, candidates, env, k).reply.task;
      assert leased.taskId == candidates[0].taskId by { LeaseKeepsId(m, w, candidates, env, k); }
      assert PutTask(m, leased).tasks.Keys == m.tasks.Keys;
    }
  }

  lemma LeaseKeepsId(m: Memory, w: Registration, candidates: seq<Task>, env: Env, k: nat)
    requires candidates != [] && !candidates[0].PastDeadline(env.clock(k))
    ensures ScanEffect(m, w, candidates, env, k).reply.Leased?
    ensures ScanEffect(m, w, candidates, env, k).reply.task.taskId == candidates[0].taskId
  {
  }

  lemma ClaimAddsNoTask(m: Memory, worker: string, env: Env, timeout: int)
    requires Inv(m)
    ensures forall s <- ClaimEffect(m, worker, env, timeout).saves :: s.tasks.Keys == m.tasks.Keys
  {
    hide Inv, ScanEffect, Candidates, ExpireTask, MemorySteps;
    var m' := ExpireMemory(m, env.clock(0), timeout);
    assert m'.tasks.Keys == m.tasks.Keys;
    ExpireSteps(m, env.clock(0), timeout);
    if worker in m'.workers {
      var w := m'.workers[worker];
      var c := Candidates(m', w, m'.taskOrder);
      CandidatesFresh(m', w);
      assert forall i | 0 <= i < |c| :: FreshRecord(m', c[i]);
      ScanAddsNoTask(m', w, c, env, 2);
    }
  }

  lemma OnlySubmitAddsTasks(m: Memory, op: Op, env: Env, timeout: int)
    requires Inv(m) && !op.Submit?
    ensures forall s <- EffectOf(m, op, env, timeout).saves :: s.tasks.Keys == m.tasks.Keys
  {
    hide FinishDeadline, ExpireTask, CommitReport, CancelTask, RenewUntil, TaskInv, ClaimEffect;
    if op.Claim? {
      ClaimAddsNoTask(m, op.workerId, env, timeout);
    } else if op.Renew? || op.Report? || op.Cancel? {
      if op.id in m.tasks {
        TransitionsKeepId(m.tasks[op.id], op, env);
      }
      assert ExpireMemory(m, env.clock(1), timeout).tasks.Keys == m.tasks.Keys;
    } else {
      assert ExpireMemory(m, env.clock(0), timeout).tasks.Keys == m.tasks.Keys;
    }
  }

  lemma TransitionsKeepId(t: Task, op: Op, env: Env)
    ensures FinishDeadline(t).taskId == t.taskId
    ensures forall until | t.lease.Some? :: RenewUntil(t, until).taskId == t.taskId
    ensures op.Report? ==>
            CommitReport(t, op.workerId, op.generation, op.result, op.retryable, env.clock(0)).taskId == t.taskId
    ensures op.Cancel? ==> CancelTask(t, op.reason, op.cause).taskId == t.taskId
  {
  }

  // ---- Submissions -----------------------------------------------------------------

  /** The task a submission creates, if it creates one. */
  function Created(m: Memory, op: Op, env: Env): Option<Task>
    requires op.Submit?
  {
    var e := SubmitEffect(m, op, env);
    if e.saves != [] && e.reply.TaskReply? then Some(e.reply.task) else None
  }

  lemma SubmitCreates(m: Memory, op: Op, env: Env)
    requires op.Submit? && SubmitEffect(m, op, env).saves != []
    ensures Created(m, op, env).Some?
    ensures var t := Created(m, op, env).value;
            && t.taskId !in m.tasks && SubmitEffect(m, op, env).saves == [PutTask(m, t)]
            && t.idempotencyKey == op.key.GetOr(t.taskId)
            && (op.key.Some? ==> FirstWithKey(m, op.key.value, m.taskOrder).None?)
  {
  }

  lemma {:induction false} FirstWithKeyFinds(m: Memory, key: string, order: seq<string>)
    requires forall id <- order :: id in m.tasks
    ensures FirstWithKey(m, key, order).None? <==> forall id <- order :: m.tasks[id].idempotencyKey != key
    ensures var p := FirstWithKey(m, key, order);
            p.Some? ==> exists id <- order :: m.tasks[id] == p.value && p.value.idempotencyKey == key
  {
    if order != [] {
      assert order[0] in order && forall id <- order[1..] :: id in order;
      FirstWithKeyFinds(m, key, order[1..]);
      assert order == [order[0]] + order[1..];
    }
  }

  /**
   A submission that creates a task keeps keys injective exactly unless it gave no key
   and its task_id, which then serves as key, is already some task's key.
   */
  lemma SubmissionKeepsKeysInjective(m: Memory, op: Op, env: Env)
    requires Inv(m) && KeysInjective(m) && op.Submit? && SubmitEffect(m, op, env).saves != []
    ensures var t := Created(m, op, env);
            && t.Some? && SubmitEffect(m, op, env).saves == [PutTask(m, t.value)]
            && (KeysInjective(PutTask(m, t.value)) <==>
                !(op.key.None? && exists id <- m.tasks :: m.tasks[id].idempotencyKey == t.value.taskId))
  {
    hide TaskInv, SubmitEffect;
    SubmitCreates(m, op, env);
    var t := Created(m, op, env).value;
    if op.key.Some? {
      FirstWithKeyFinds(m, op.key.value, m.taskOrder);
    }
    var m' := PutTask(m, t);
    assert t.taskId in m'.tasks && m'.tasks[t.taskId] == t;
    forall id <- m.tasks ensures id != t.taskId && id in m'.tasks && m'.tasks[id] == m.tasks[id] {
    }
  }

  /** The exception happens: submit without a key under a task_id that some task has as its key. */
  lemma UnkeyedSubmissionClashes(m: Memory, op: Op, env: Env, id: string)
    requires Inv(m) && id in m.tasks && op.Submit? && SubmitArgumentsValid(op)
    requires op.key.None? && op.taskId == Some(m.tasks[id].idempotencyKey) && op.taskId.value !in m.tasks
    ensures var e := SubmitEffect(m, op, env); |e.saves| == 1 && e.reply.TaskReply? && !KeysInjective(e.saves[0])
  {
    hide TaskInv;
    var m' := SubmitEffect(m, op, env).saves[0];
    assert id in m'.tasks && op.taskId.value in m'.tasks;
  }

  /** Every submission of the run supplies a key. */
  ghost predicate Keyed(events: seq<Event>) {
    forall e <- events :: e.Call? && e.op.Submit? ==> e.op.key.Some?
  }

  lemma SameKeysInjective(a: Memory, b: Memory)
    requires SameKeys(a, b) && KeysInjective(a)
    ensures KeysInjective(b)
  {
  }

  lemma EffectKeepsKeys(m: Memory, op: Op, env: Env, timeout: int)
    requires Inv(m) && KeysInjective(m) && WellTyped(op) && (op.Submit? ==> op.key.Some?)
    ensures forall s <- EffectOf(m, op, env, timeout).saves | MemoryEvolves(m, s) :: KeysInjective(s)
  {
    hide Inv, KeysInjective, Evolves, EffectOf, SubmitEffect;
    if op.Submit? {
      EffectOfSubmit(m, op, env, timeout);
      if SubmitEffect(m, op, env).saves != [] {
        SubmissionKeepsKeysInjective(m, op, env);
      }
    } else {
      OnlySubmitAddsTasks(m, op, env, timeout);
      forall s <- EffectOf(m, op, env, timeout).saves | MemoryEvolves(m, s) ensures KeysInjective(s) {
        EvolvedKeys(m, s);
        SameKeysInjective(m, s);
      }
    }
  }

  lemma EffectOfSubmit(m: Memory, op: Op, env: Env, timeout: int)
    requires op.Submit?
    ensures EffectOf(m, op, env, timeout) == SubmitEffect(m, op, env)
  {
  }

  lemma EvolvedKeys(a: Memory, b: Memory)
    requires MemoryEvolves(a, b) && a.tasks.Keys == b.tasks.Keys
    ensures SameKeys(a, b)
  {
  }

  /** Commit leaves memory and store at states of the effect, or where they were. */
  lemma {:induction false} CommitReaches(f: Fleet, saves: seq<Memory>, reply: Reply, outcome: nat -> SaveOutcome,
                                         n: nat)
    ensures var f' := Commit(f, saves, reply, outcome, n).0;
            && (f'.memory == f.memory || f'.memory in saves)
            && (f'.durable == f.durable || (f'.durable.Some? && f'.durable.value in saves))
    decreases |saves|
  {
    if saves != [] && f.phase == Up && outcome(n) == Saved {
      CommitReaches(f.(memory := saves[0], durable := Some(saves[0])), saves[1..], reply, outcome, n + 1);
    }
  }

  ghost predicate FleetKeysInjective(f: Fleet) {
    && (f.phase != Down ==> KeysInjective(f.memory))
    && (f.durable.Some? ==> KeysInjective(f.durable.value))
  }

  lemma KeysStep(f: Fleet, e: Event)
    requires FleetInv(f) && Typed([e]) && Keyed([e]) && FleetKeysInjective(f)
    ensures FleetKeysInjective(Step(f, e).0)
  {
    hide Inv, KeysInjective, MemorySteps, EffectOf, Commit, Revived, Recovered, Boot;
    assert e in [e];
    StepGood(f, e);
    if e.Restart? {
      BootGood(f, e.env);
      EmptyKeys();
      if f.durable.Some? {
        RevivedKeys(f.durable.value, e.env.clock(0));
      }
    } else if f.phase != Down {
      var effect := EffectOf(f.memory, e.op, e.env, f.timeout);
      CommitReaches(f, effect.saves, effect.reply, e.env.saves, 0);
      EffectKeepsKeys(f.memory, e.op, e.env, f.timeout);
      var f' := Step(f, e).0;
      StepsEvolve(f.memory, f'.memory, GrantOf(f.memory, e.op, e.env));
      if f'.durable != f.durable {
        StepsEvolve(f.memory, f'.durable.value, GrantOf(f.memory, e.op, e.env));
      }
    }
  }

  lemma EmptyKeys()
    ensures KeysInjective(EMPTY)
  {
  }

  lemma RevivedKeys(m: Memory, now: int)
    requires Inv(m) && KeysInjective(m)
    ensures KeysInjective(Revived(m, now))
  {
    hide Inv, KeysInjective, MemorySteps, Revived, Recovered, RestoreTask;
    RevivedGood(m, now);
    RevivedRecords(m, now);
    EvolvedKeys(m, Revived(m, now));
    SameKeysInjective(m, Revived(m, now));
  }

  /**
   If every submission supplies a key, keys stay injective in memory and in the store, through failures and
   restarts.
   */
  lemma {:induction false} KeyedRunsKeepKeysInjective(f: Fleet, events: seq<Event>)
    requires FleetInv(f) && Typed(events) && Keyed(events) && FleetKeysInjective(f)
    ensures FleetInv(After(f, events)) && FleetKeysInjective(After(f, events))
    decreases |events|
  {
    hide Inv, KeysInjective, MemoryEvolves, Step, Typed;
    if events != [] {
      SplitTyped(events);
      assert Keyed([events[0]]) && Keyed(events[1..]) by {
        assert forall e <- [events[0]] :: e in events;
        assert forall e <- events[1..] :: e in events;
      }
      StepGood(f, events[0]);
      KeysStep(f, events[0]);
      KeyedRunsKeepKeysInjective(Step(f, events[0]).0, events[1..]);
    }
  }

  /**
   In any state a keyed run reaches, submitting again under a known key changes nothing:
   the same arguments are answered with the task that has the key, as it now is, and
   anything else is refused as a conflict.
   */
  lemma ResubmissionIsIdempotent(timeout: int, events: seq<Event>, op: Op, env: Env, id: string)
    requires Typed(events) && Keyed(events) && op.Submit? && SubmitArgumentsValid(op)
    requires var f := After(Nothing(timeout), events);
             f.phase != Down && id in f.memory.tasks && op.key == Some(f.memory.tasks[id].idempotencyKey)
    ensures var f := After(Nothing(timeout), events);
            var t := f.memory.tasks[id];
            Step(f, Call(op, env)) ==
            (f, if SameArguments(t, op) && (op.taskId.None? || op.taskId.value == id) then TaskReply(t)
                else Raised(Conflict))
  {
    var f := After(Nothing(timeout), events);
    KeyedRunsKeepKeysInjective(Nothing(timeout), events);
    hide After, TaskInv, MemoryEvolves, FirstWithKey;
    var t := f.memory.tasks[id];
    FirstWithKeyFinds(f.memory, t.idempotencyKey, f.memory.taskOrder);
    var p := FirstWithKey(f.memory, t.idempotencyKey, f.memory.taskOrder);
    assert p == Some(t);
    assert EffectOf(f.memory, op, env, f.timeout).saves == [];
  }
}
