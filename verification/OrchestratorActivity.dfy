/**
 Executions that stay active although nobody runs them: over whole runs, exactly those
 whose last run in this process ended with a save that raised.
 */
module OrchestratorActivity {
  import opened Wrappers
  import ExecutionState
  import opened Orchestration
  import opened OrchestratorRuns

  /** Registered as active, without a run in flight. */
  predicate Idle(o: Orchestrator, id: string) {
    id in o.active && forall run <- o.flights :: o.flights[run].id != id
  }

  /** What a step says of how the last run of an execution ended; a crash forgets it, and a new run replaces it. */
  function LastEnd(o: Orchestrator, e: Event, t: Readings, save: SaveOutcome, id: string, raised: bool): bool
    requires WellTyped(e)
  {
    if e.Crash? then false
    else if e.Finish? && e.run in o.flights && o.flights[e.run].id == id then save != Saved
    else if StartsArbiter(o, e, t, save, id) then false
    else raised
  }

  /** The last run of the execution in this process has ended, and the save of its end raised. */
  function EndRaised(o: Orchestrator, events: seq<Timed>, id: string, raised: bool): bool
    requires Lawful(events, o.clock)
    decreases |events|
  {
    if events == [] then raised
    else
      var e := events[0];
      EndRaised(Step(o, e.event, e.t, e.save).0, events[1..], id, LastEnd(o, e.event, e.t, e.save, id, raised))
  }

  lemma BeginIdle(o: Orchestrator, record: ExecutionState.Execution, f: Flight, save: SaveOutcome, id: string)
    requires forall run <- o.flights :: run < o.next
    ensures var (g, reply) := BeginWith(o, record, f, save);
            Idle(g, id) == (if reply.Started? && f.id == id then false else Idle(o, id))
  {
    var (g, reply) := BeginWith(o, record, f, save);
    if reply.Started? {
      assert g.flights[o.next] == f;
      if f.id != id {
        assert forall run <- o.flights :: run in g.flights && g.flights[run] == o.flights[run];
      }
    }
  }

  lemma FinishIdle(o: Orchestrator, e: Event, t: Readings, save: SaveOutcome, id: string)
    requires Inv(o) && e.Finish? && WellTyped(e)
    ensures Idle(FinishStep(o, e, t, save).0, id)
            == (if e.run in o.flights && o.flights[e.run].id == id then save != Saved else Idle(o, id))
  {
    hide Inv, FinishRecord;
    var g := FinishStep(o, e, t, save).0;
    if e.run in o.flights {
      FlightNumber(o, e.run);
      FlightIs(o, e.run);
      forall run <- g.flights ensures run in o.flights && g.flights[run].id != o.flights[e.run].id {
        FlightNumber(o, run);
      }
      if o.flights[e.run].id != id {
        assert forall run <- o.flights :: run != e.run ==> run in g.flights;
      }
    }
  }

  lemma StepIdle(o: Orchestrator, e: Event, t: Readings, save: SaveOutcome, id: string)
    requires Inv(o) && WellTyped(e)
    ensures Idle(Step(o, e, t, save).0, id) == LastEnd(o, e, t, save, id, Idle(o, id))
  {
    hide Inv, FinishStep, BeginWith, Idle, LateRecord, InitialRecord, CancelRecord, EvaluateRecord, ContinueRecord;
    forall run <- o.flights ensures run < o.next {
      OldNumber(o, run);
    }
    var r := StepAt(o, e, t, save);
    SameIdle(r.0, r.0.(clock := t.signal), id);
    match e
    case Submit(sid, intent, deadline) =>
      var f := Flight(sid, None, intent, deadline, ExecutionState.INITIAL);
      BeginIdle(o, InitialRecord(sid, intent, deadline), f, save, id);
      SameIdle(o, r.0, id);
    case Continue(cid) =>
      if cid in o.store && ContinueRecord(o.store[cid], t).Launch? {
        var x := o.store[cid];
        var f := Flight(cid, Some(x), x.intent, x.metadata.deadline, ExecutionState.CONTINUED);
        BeginIdle(o, ContinueRecord(x, t).record, f, save, id);
      }
      SameIdle(o, r.0, id);
    case Finish(_, _) => FinishIdle(o, e, t, save, id);
    case Cancel(_, _) => SameIdle(o, r.0, id);
    case Evaluate(_, _) => SameIdle(o, r.0, id);
    case Crash => NothingIdle(r.0, id);
  }

  lemma SameIdle(o: Orchestrator, g: Orchestrator, id: string)
    ensures o.active == g.active && o.flights == g.flights ==> Idle(o, id) == Idle(g, id)
  {
  }

  lemma NothingIdle(o: Orchestrator, id: string)
    requires o.active == map[]
    ensures !Idle(o, id)
  {
  }

  lemma {:induction false} RunIdle(o: Orchestrator, events: seq<Timed>, id: string)
    requires Inv(o) && Lawful(events, o.clock)
    ensures Idle(After(o, events), id) == EndRaised(o, events, id, Idle(o, id))
    decreases |events|
  {
    hide Inv, Step, Idle, LastEnd, WellTyped;
    if events != [] {
      var e := events[0];
      StepGood(o, e.event, e.t, e.save);
      StepIdle(o, e.event, e.t, e.save, id);
      RunIdle(Step(o, e.event, e.t, e.save).0, events[1..], id);
    }
  }

  /**
   In every reachable state, an execution is active without a run in flight if and only if
   its last run in this process has ended and the save of that end raised.
   */
  lemma ActiveUnrun(o: Orchestrator, events: seq<Timed>, id: string)
    requires Fresh(o) && Lawful(events, o.clock)
    ensures Idle(After(o, events), id) <==> EndRaised(o, events, id, false)
  {
    hide After, EndRaised, Inv;
    FreshGood(o);
    RunIdle(o, events, id);
    assert !Idle(o, id);
  }
}
