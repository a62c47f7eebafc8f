/** `claim_task` as a whole: the expiry pass, the availability test, the candidate loop, and saves that may fail. */
module FleetClaims {
  import opened Wrappers
  import opened FleetTask
  import opened FleetMemory
  import opened FleetSteps
  import opened FleetRuns
  import opened FleetScheduling
  import opened FleetSubmission

  /** The first n saves all succeed. */
  predicate SavesSucceed(env: Env, n: nat) {
    forall i: nat | i < n :: env.saves(i) == Saved
  }

  lemma {:induction false} CommitDecided(f: Fleet, saves: seq<Memory>, reply: Reply, outcome: nat -> SaveOutcome,
                                         n: nat)
    requires f.phase == Up && reply != Raised(PersistenceFailed)
    ensures var (f', r) := Commit(f, saves, reply, outcome, n);
            if forall i: nat | n <= i < n + |saves| :: outcome(i) == Saved
            then r == reply && f'.phase == Up && f'.memory == LastOf(f.memory, saves)
                 && (saves != [] ==> f'.durable == Some(f'.memory))
            else r == Raised(PersistenceFailed) && f'.phase == FailStopped
    decreases |saves|
  {
    if saves != [] && outcome(n) == Saved {
      CommitDecided(f.(memory := saves[0], durable := Some(saves[0])), saves[1..], reply, outcome, n + 1);
    }
  }

  /** How many saves a claim attempts after its expiry pass left memory `m`: the pass itself, and what follows. */
  function SavesOf(m: Memory, worker: string, env: Env, timeout: int): nat {
    if Available(m, worker, env, timeout) then
      var c := Candidates(m, m.workers[worker], m.taskOrder);
      var j := Passed(c, env, 2);
      if j < |c| then j + 2 else j + 1
    else if worker in m.workers && m.workers[worker].lifecycle == Ready then 2
    else 1
  }

  lemma ClaimCounts(m: Memory, worker: string, env: Env, timeout: int)
    ensures 1 + |ClaimExpired(m, worker, env, timeout).saves| == SavesOf(m, worker, env, timeout)
  {
    hide ScanEffect, Candidates, Passed, FinishAll;
    if worker in m.workers {
      var w := m.workers[worker];
      ScanClosedForm(m, w, Candidates(m, w, m.taskOrder), env, 2);
    }
  }

  lemma AvailableIsKnown(m: Memory, worker: string, env: Env, timeout: int)
    ensures Available(m, worker, env, timeout) ==> worker in m.workers
  {
  }

  lemma ClaimRaisesNoFailure(m: Memory, worker: string, env: Env, timeout: int)
    ensures ClaimExpired(m, worker, env, timeout).reply != Raised(PersistenceFailed)
  {
    hide ScanEffect, Candidates, Passed, FinishAll;
    if worker in m.workers {
      var w := m.workers[worker];
      ScanClosedForm(m, w, Candidates(m, w, m.taskOrder), env, 2);
    }
  }

  lemma ClaimKeepsKeys(m: Memory, worker: string, env: Env, timeout: int)
    requires Inv(m)
    ensures LastOf(m, EffectOf(m, Claim(worker), env, timeout).saves).tasks.Keys == m.tasks.Keys
    ensures ExpireMemory(m, env.clock(0), timeout).tasks.Keys == m.tasks.Keys
    ensures EffectOf(m, Claim(worker), env, timeout).saves != []
  {
    hide Inv, ClaimExpired, ExpireTask;
    ClaimAddsNoTask(m, worker, env, timeout);
    var saves := ClaimEffect(m, worker, env, timeout).saves;
    assert saves[|saves| - 1] in saves;
  }

  lemma ClaimEffectIs(m: Memory, worker: string, env: Env, timeout: int)
    requires Inv(m)
    ensures var passed := ExpireMemory(m, env.clock(0), timeout);
            var rest, e := ClaimExpired(passed, worker, env, timeout), EffectOf(m, Claim(worker), env, timeout);
            && Inv(passed) && |e.saves| == SavesOf(passed, worker, env, timeout) && e.reply == rest.reply
            && LastOf(m, e.saves) == LastOf(passed, rest.saves)
  {
    hide Inv, ClaimExpired, ExpireMemory, MemorySteps, SavesOf;
    ExpireSteps(m, env.clock(0), timeout);
    ClaimCounts(ExpireMemory(m, env.clock(0), timeout), worker, env, timeout);
  }

  /**
   A claim on a coordinator that is up. It raises a persistence error exactly if one of the
   saves it comes to fails. Otherwise, with `m` what its expiry pass left: an unknown Worker
   is refused, an unavailable one gets nothing and no task is touched, and an available one
   gets the least takeable task, if there is one, with every record left as `RecordAfter`
   says; and all of it is stored.
   */
  lemma ClaimTaskTakesTheLeast(f: Fleet, worker: string, env: Env)
    requires FleetInv(f) && f.phase == Up && Forward(env.clock)
    ensures var m := ExpireMemory(f.memory, env.clock(0), f.timeout);
            var (g, reply) := Step(f, Call(Claim(worker), env));
            && (reply == Raised(PersistenceFailed) <==> !SavesSucceed(env, SavesOf(m, worker, env, f.timeout)))
            && (reply == Raised(PersistenceFailed) <==> g.phase != Up)
            && (g.phase == Up ==>
                  && g.durable == Some(g.memory) && g.memory.tasks.Keys == m.tasks.Keys
                  && (worker !in m.workers ==> reply == Raised(NotRegistered) && g.memory.tasks == m.tasks)
                  && (worker in m.workers && !Available(m, worker, env, f.timeout) ==>
                        reply == NoTask && g.memory.tasks == m.tasks)
                  && (Available(m, worker, env, f.timeout) ==>
                        && TheLeast(m, worker, env, DecidedAt(m, m.workers[worker], env), reply)
                        && forall id <- m.tasks :: g.memory.tasks[id] == RecordAfter(m, m.workers[worker], reply, id)))
  {
    hide Inv, MemoryEvolves, Commit, EffectOf, ExpireMemory, ClaimExpired, TheLeast, SavesOf, Available, LastOf,
         RecordAfter;
    var m := ExpireMemory(f.memory, env.clock(0), f.timeout);
    var e := EffectOf(f.memory, Claim(worker), env, f.timeout);
    ClaimEffectIs(f.memory, worker, env, f.timeout);
    ClaimRaisesNoFailure(m, worker, env, f.timeout);
    CommitDecided(f, e.saves, e.reply, env.saves, 0);
    var rest := ClaimExpired(m, worker, env, f.timeout);
    ClaimKeepsKeys(f.memory, worker, env, f.timeout);
    AvailableIsKnown(m, worker, env, f.timeout);
    if Available(m, worker, env, f.timeout) {
      ClaimLeasesTheLeast(m, worker, env, f.timeout);
      forall id <- m.tasks
        ensures (rest.reply.Leased? ==> rest.reply.task.taskId in m.tasks) && id in LastOf(m, rest.saves).tasks
        ensures LastOf(m, rest.saves).tasks[id] == RecordAfter(m, m.workers[worker], rest.reply, id)
      {
        ClaimAftermath(m, worker, env, f.timeout, id);
      }
    } else {
      UnavailableClaimsNothing(m, worker, env, f.timeout);
    }
  }
}
