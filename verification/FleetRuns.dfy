/**
 The coordinator with its store: saving, fail-stop, crash and restart, and the
 steps a run is made of. A crash between two saves of one operation is the run
 in which the later save is lost and a restart follows.
 */
module FleetRuns {
  import opened Wrappers
  import opened FleetTask
  import opened FleetMemory
  import opened FleetSteps
  import opened FleetRecovery

  /** Down: no coordinator object exists, because its constructor raised. */
  datatype Phase = Up | FailStopped | Down

  /** `durable` is the memory whose snapshot the store holds. */
  datatype Fleet = Fleet(timeout: int, memory: Memory, phase: Phase, durable: Option<Memory>)

  datatype Event = Call(op: Op, env: Env) | Restart(env: Env)

  /** Persist each memory in turn; the first save that fails stops the coordinator for good. */
  function Commit(f: Fleet, saves: seq<Memory>, reply: Reply, outcome: nat -> SaveOutcome, n: nat): (Fleet, Reply)
    decreases |saves|
  {
    if saves == [] then (f, reply)
    else if f.phase != Up then (f.(memory := saves[0]), Raised(PersistenceFailed))
    else
      match outcome(n)
      case Saved => Commit(f.(memory := saves[0], durable := Some(saves[0])), saves[1..], reply, outcome, n + 1)
      case LostSave => (f.(memory := saves[0], phase := FailStopped), Raised(PersistenceFailed))
      case LateFailure =>
        (f.(memory := saves[0], phase := FailStopped, durable := Some(saves[0])), Raised(PersistenceFailed))
  }

  /** The constructor: load, restore, persist. A new coordinator starts empty. */
  function Boot(f: Fleet, env: Env): (Fleet, Reply) {
    var loaded := if f.durable.None? then Ok(EMPTY) else Restore(SnapshotOf(f.durable.value), env.clock(0));
    match loaded
    case Err(_) => (f.(phase := Down), Raised(CorruptState))
    case Ok(m) =>
      match env.saves(0)
      case Saved => (f.(memory := m, phase := Up, durable := Some(m)), Started)
      case LostSave => (f.(memory := m, phase := Down), Raised(PersistenceFailed))
      case LateFailure => (f.(memory := m, phase := Down, durable := Some(m)), Raised(PersistenceFailed))
  }

  function Step(f: Fleet, e: Event): (Fleet, Reply) {
    match e
    case Restart(env) => Boot(f, env)
    case Call(op, env) =>
      if f.phase == Down then (f, Raised(Unavailable))
      else
        var effect := EffectOf(f.memory, op, env, f.timeout);
        Commit(f, effect.saves, effect.reply, env.saves, 0)
  }

  ghost function After(f: Fleet, events: seq<Event>): Fleet
    decreases |events|
  {
    if events == [] then f else After(Step(f, events[0]).0, events[1..])
  }

  /** Nothing stored, no coordinator yet. */
  function Nothing(timeout: int): Fleet {
    Fleet(timeout, EMPTY, Down, None)
  }

  ghost predicate Typed(events: seq<Event>) {
    forall e <- events :: e.Call? ==> WellTyped(e.op)
  }

  /**
   The invariant of a coordinator and its store. While no save has failed, the
   store holds the snapshot of memory; afterwards memory has only evolved from it.
   */
  ghost predicate FleetInv(f: Fleet) {
    && (f.durable.Some? ==> Inv(f.durable.value))
    && (f.phase != Down ==> Inv(f.memory) && f.durable.Some? && MemoryEvolves(f.durable.value, f.memory))
    && (f.phase == Up ==> f.durable == Some(f.memory))
  }

  ghost predicate DurableEvolves(a: Fleet, b: Fleet) {
    a.durable.Some? ==> b.durable.Some? && MemoryEvolves(a.durable.value, b.durable.value)
  }

  lemma StepsEvolve(a: Memory, b: Memory, g: Grant)
    requires MemorySteps(a, b, g)
    ensures MemoryEvolves(a, b)
  {
    hide Evolves, Licensed;
  }

  lemma {:induction false} CommitGood(f: Fleet, saves: seq<Memory>, reply: Reply, outcome: nat -> SaveOutcome, n: nat,
                                      g: Grant)
    requires FleetInv(f) && f.phase != Down && GoodChain(f.memory, saves, g)
    ensures var f' := Commit(f, saves, reply, outcome, n).0;
            && FleetInv(f') && f'.phase != Down && (f.phase != Up ==> f'.phase != Up)
            && DurableEvolves(f, f') && MemorySteps(f.memory, f'.memory, g)
            && (f'.durable == f.durable || MemorySteps(f.memory, f'.durable.value, g))
            && (f.phase == FailStopped ==> f'.durable == f.durable)
    decreases |saves|
  {
    hide Inv, MemorySteps, MemoryEvolves;
    MemoryStaysSteps(f.memory, g);
    MemoryEvolvesReflexive(f.durable.value);
    if saves != [] {
      var m := saves[0];
      StepsEvolve(f.memory, m, g);
      MemoryEvolvesTransitive(f.durable.value, f.memory, m);
      MemoryEvolvesReflexive(m);
      if f.phase == Up && outcome(n) == Saved {
        var f1 := f.(memory := m, durable := Some(m));
        CommitGood(f1, saves[1..], reply, outcome, n + 1, g);
        var f' := Commit(f1, saves[1..], reply, outcome, n + 1).0;
        MemoryStepsTransitive(f.memory, m, f'.memory, g);
        if f'.durable != f1.durable {
          MemoryStepsTransitive(f.memory, m, f'.durable.value, g);
        }
        MemoryEvolvesTransitive(f.memory, m, f'.durable.value);
      }
    }
  }

  lemma EmptyGood()
    ensures Inv(EMPTY) && MemoryEvolves(EMPTY, EMPTY)
  {
  }

  lemma RevivedGood(m: Memory, now: int)
    requires Inv(m)
    ensures var r := Revived(m, now);
            && Restore(SnapshotOf(m), now) == Ok(r) && Inv(r)
            && MemoryEvolves(m, r) && MemoryEvolves(m, m) && MemoryEvolves(r, r)
  {
    hide Inv, MemoryEvolves, MemorySteps, Revived, Restore, SnapshotOf, Recovered, RestoreTask;
    RestoreSucceeds(m, now);
    RevivedRecords(m, now);
    StepsEvolve(m, Revived(m, now), NoGrant);
    MemoryEvolvesReflexive(m);
    MemoryEvolvesReflexive(Revived(m, now));
  }

  lemma BootGood(f: Fleet, env: Env)
    requires FleetInv(f)
    ensures var f' := Boot(f, env).0;
            && FleetInv(f') && DurableEvolves(f, f')
            && f'.memory == (if f.durable.None? then EMPTY else Revived(f.durable.value, env.clock(0)))
            && (f'.durable == f.durable || f'.durable == Some(f'.memory))
    ensures Boot(f, env).1 != Raised(CorruptState)
  {
    hide Inv, MemoryEvolves, Revived, Restore, SnapshotOf;
    EmptyGood();
    if f.durable.Some? {
      RevivedGood(f.durable.value, env.clock(0));
    }
  }

  /** One step keeps the invariant; stored records and, between restarts, records in memory only evolve. */
  lemma StepGood(f: Fleet, e: Event)
    requires FleetInv(f) && Typed([e])
    ensures var f' := Step(f, e).0;
            && FleetInv(f') && DurableEvolves(f, f')
            && (e.Call? && f.phase != Down ==>
                  && f'.phase != Down
                  && MemorySteps(f.memory, f'.memory, GrantOf(f.memory, e.op, e.env))
                  && (f'.durable == f.durable
                      || MemorySteps(f.memory, f'.durable.value, GrantOf(f.memory, e.op, e.env))))
            && (e.Call? && f.phase == FailStopped ==> f'.phase == FailStopped && f'.durable == f.durable)
            && (e.Call? && f.phase == Down ==> f' == f)
  {
    hide Inv, MemoryEvolves, MemorySteps, EffectOf, GrantOf, GoodChain, Commit, Boot;
    assert e in [e];
    match e
    case Restart(env) => BootGood(f, env);
    case Call(op, env) =>
      if f.phase != Down {
        EffectGood(f.memory, op, env, f.timeout);
        var effect := EffectOf(f.memory, op, env, f.timeout);
        CommitGood(f, effect.saves, effect.reply, env.saves, 0, GrantOf(f.memory, op, env));
      } else if f.durable.Some? {
        MemoryEvolvesReflexive(f.durable.value);
      }
  }

  lemma SplitTyped(events: seq<Event>)
    requires events != [] && Typed(events)
    ensures Typed([events[0]]) && Typed(events[1..])
  {
  }

  /**
   Over a whole run, crashes and failed saves included: the invariant holds at the
   end, recovery never meets a snapshot it cannot restore, and the stored records
   have only evolved, so stored history is append-only.
   */
  lemma {:induction false} RunGood(f: Fleet, events: seq<Event>)
    requires FleetInv(f) && Typed(events)
    ensures FleetInv(After(f, events)) && DurableEvolves(f, After(f, events))
    decreases |events|
  {
    hide Inv, MemoryEvolves, Step, Typed;
    if events == [] {
      if f.durable.Some? {
        MemoryEvolvesReflexive(f.durable.value);
      }
    } else {
      SplitTyped(events);
      var f1 := Step(f, events[0]).0;
      StepGood(f, events[0]);
      RunGood(f1, events[1..]);
      if f.durable.Some? {
        MemoryEvolvesTransitive(f.durable.value, f1.durable.value, After(f1, events[1..]).durable.value);
      }
    }
  }

  /** Every state reachable from nothing satisfies the invariant. */
  lemma ReachableGood(timeout: int, events: seq<Event>)
    requires Typed(events)
    ensures FleetInv(After(Nothing(timeout), events))
  {
    RunGood(Nothing(timeout), events);
  }
}
