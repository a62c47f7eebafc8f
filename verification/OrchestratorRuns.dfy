/**
 The Orchestrator as a step system: begins, finishes, cancellations, evaluations and
 crashes of its process, in any interleaving, with saves that may fail. A token is
 shared by reference, so `active` and a flight name it by the number of the run it
 was created for.
 */
module OrchestratorRuns {
  import opened Wrappers
  import opened Worker
  import opened ExecutionState
  import opened Orchestration
  import I = Intent
  import PyText

  /** `failed`: some save has raised since the process started. */
  datatype Orchestrator = Orchestrator(
    store: map<string, Execution>,
    active: map<string, nat>,
    tokens: map<nat, Token>,
    flights: map<nat, Flight>,
    next: nat,
    clock: int,
    failed: bool)

  datatype Event =
    | Submit(id: string, intent: I.Intent, deadline: Option<int>)
    | Continue(id: string)
    | Finish(run: nat, outcome: RunOutcome)
    | Cancel(id: string, reason: string)
    | Evaluate(id: string, evaluation: Evaluation)
    | Crash

  /** Whether the step went on to start the Arbiter, and whether its save raised. */
  datatype Reply = Started(run: nat) | Answered | Refused | SaveRaised

  function Saving(o: Orchestrator, id: string, x: Execution, save: SaveOutcome): Orchestrator {
    o.(store := if save == LostSave then o.store else o.store[id := x], failed := o.failed || save != Saved)
  }

  function ReplyTo(save: SaveOutcome): Reply {
    if save == Saved then Answered else SaveRaised
  }

  /** Save the record a run begins with, and only then make the run active. */
  function BeginWith(o: Orchestrator, record: Execution, flight: Flight, save: SaveOutcome): (Orchestrator, Reply) {
    var g := Saving(o, flight.id, record, save);
    if save != Saved then (g, SaveRaised)
    else
      (g.(active := o.active[flight.id := o.next], tokens := o.tokens[o.next := Unset],
          flights := o.flights[o.next := flight], next := o.next + 1), Started(o.next))
  }

  function TokenOf(o: Orchestrator, id: string): Option<Token> {
    if id in o.active && o.active[id] in o.tokens then Some(o.tokens[o.active[id]]) else None
  }

  /** The values an event carries are ones their constructors accept. */
  predicate WellTyped(e: Event) {
    && (e.Submit? ==> !PyText.Blank(e.id) && e.intent.Valid())
    && (e.Finish? && e.outcome.RunReturned? ==> Constructed(e.outcome.result))
  }

  function SubmitStep(o: Orchestrator, e: Event, t: Readings, save: SaveOutcome): (Orchestrator, Reply)
    requires e.Submit?
  {
    if e.id in o.store then (o, Refused)
    else if Expired(e.deadline, t.check) then
      (Saving(o, e.id, LateRecord(e.id, e.intent, e.deadline, t.signal), save), ReplyTo(save))
    else
      BeginWith(o, InitialRecord(e.id, e.intent, e.deadline), Flight(e.id, None, e.intent, e.deadline, INITIAL), save)
  }

  function ContinueStepOf(o: Orchestrator, e: Event, t: Readings, save: SaveOutcome): (Orchestrator, Reply)
    requires e.Continue?
  {
    if e.id !in o.store then (o, Refused)
    else
      var x := o.store[e.id];
      match ContinueRecord(x, t)
      case NotResumable => (o, Refused)
      case Answer(record, _) => (Saving(o, e.id, record, save), ReplyTo(save))
      case Launch(record) => BeginWith(o, record, Flight(e.id, Some(x), x.intent, x.metadata.deadline, CONTINUED), save)
  }

  /** The run is over whatever its save does, but it stays active if the save raises. */
  function FinishStep(o: Orchestrator, e: Event, t: Readings, save: SaveOutcome): (Orchestrator, Reply)
    requires e.Finish? && WellTyped(e)
  {
    if e.run !in o.flights || e.run !in o.tokens || o.flights[e.run].id !in o.store then (o, Refused)
    else
      var f := o.flights[e.run];
      var g := Saving(o, f.id, FinishRecord(f, o.store[f.id], o.tokens[e.run], e.outcome, t), save);
      (g.(active := if save == Saved then o.active - {f.id} else o.active, flights := o.flights - {e.run}),
       ReplyTo(save))
  }

  /** The token is set before the record is saved. */
  function CancelStepOf(o: Orchestrator, e: Event, t: Readings, save: SaveOutcome): (Orchestrator, Reply)
    requires e.Cancel?
  {
    if e.id !in o.store then (o, Refused)
    else
      var s := CancelRecord(o.store[e.id], TokenOf(o, e.id), e.reason, t);
      var g := o.(tokens := if s.token.Some? && e.id in o.active then o.tokens[o.active[e.id] := s.token.value]
                            else o.tokens);
      if s.saved.None? then (g, Answered) else (Saving(g, e.id, s.saved.value, save), ReplyTo(save))
  }

  function EvaluateStep(o: Orchestrator, e: Event, save: SaveOutcome): (Orchestrator, Reply)
    requires e.Evaluate?
  {
    if e.id !in o.store then (o, Refused)
    else
      var x := EvaluateRecord(o.store[e.id], e.evaluation);
      if x.None? then (o, Refused) else (Saving(o, e.id, x.value, save), ReplyTo(save))
  }

  function StepAt(o: Orchestrator, e: Event, t: Readings, save: SaveOutcome): (Orchestrator, Reply)
    requires WellTyped(e)
  {
    match e
    case Submit(_, _, _) => SubmitStep(o, e, t, save)
    case Continue(_) => ContinueStepOf(o, e, t, save)
    case Finish(_, _) => FinishStep(o, e, t, save)
    case Cancel(_, _) => CancelStepOf(o, e, t, save)
    case Evaluate(_, _) => EvaluateStep(o, e, save)
    case Crash => (o.(active := map[], flights := map[], failed := false), Answered)
  }

  /** One atomic step with its clock readings and the fate of its save. */
  function Step(o: Orchestrator, e: Event, t: Readings, save: SaveOutcome): (r: (Orchestrator, Reply))
    requires WellTyped(e)
    ensures r.0.clock == t.signal
  {
    var r := StepAt(o, e, t, save);
    (r.0.(clock := t.signal), r.1)
  }

  // ---- The invariant --------------------------------------------------------------------

  /** What a flight's token says about the stored record. */
  predicate FlightRecord(f: Flight, x: Execution, token: Token, clock: int) {
    && x.executionId == f.id && x.intent == f.intent && x.metadata.deadline == f.deadline
    && x.lifecycle == LifecycleRunning && x.status == StatusRunning
    // an untouched token: the record is still the one the run began with
    && (token.Unset? ==> x == Untouched(f))
    && Untouched(f).evidence <= x.evidence && Untouched(f).evaluations == x.evaluations
    && (token.Set? ==> token.requestedAt <= clock)
    // a recorded request has reached the token, and is pending
    && (if x.CancelRecorded() then
          token.Set? && x.metadata.cancellation.value.pending == Some(true)
          && x.metadata.cancellation.value.confirmedAt.None?
        else x.metadata.cancellation.None?)
  }

  /**
   As long as no save has raised: a recorded request is the token's, stamped no later than
   the token was, and a token set without one only announces the deadline.
   */
  predicate InStep(f: Flight, x: Execution, token: Token) {
    if x.CancelRecorded() then
      token.Set? && x.metadata.cancellation.value.reason == token.reason
      && x.metadata.cancellation.value.requestedAt.Some?
      && x.metadata.cancellation.value.requestedAt.value <= token.requestedAt
    else token.Set? ==> Expired(f.deadline, token.requestedAt)
  }

  /** The record a run began with. */
  function Untouched(f: Flight): Execution {
    if f.launched.None? then InitialRecord(f.id, f.intent, f.deadline)
    else f.launched.value.(status := StatusRunning, lifecycle := LifecycleRunning,
                           metadata := f.launched.value.metadata.(phase := CONTINUED))
  }

  predicate FlightSound(f: Flight) {
    match f.launched
    case None => f.phase == INITIAL
    case Some(x) =>
      && f.phase == CONTINUED && x.executionId == f.id && x.intent == f.intent && x.metadata.deadline == f.deadline
      && x.lifecycle == LifecycleInterrupted && x.metadata.cancellation.None?
  }

  /** A recorded cancellation is a request with its instant. */
  predicate CancellationSound(x: Execution) {
    x.metadata.cancellation.Some? ==>
      x.metadata.cancellation.value.requested && x.metadata.cancellation.value.requestedAt.Some?
  }

  predicate FlightInv(o: Orchestrator, run: nat)
    requires run in o.flights
  {
    var f := o.flights[run];
    && FlightSound(f)
    && f.id in o.active && o.active[f.id] == run
    && run in o.tokens && f.id in o.store
    && FlightRecord(f, o.store[f.id], o.tokens[run], o.clock)
    && (!o.failed ==> InStep(f, o.store[f.id], o.tokens[run]))
  }

  predicate ActiveInv(o: Orchestrator) {
    && (forall run <- o.tokens :: run < o.next)
    && (forall id <- o.active :: id in o.store && o.active[id] in o.tokens)
    && (forall a <- o.active, b <- o.active :: o.active[a] == o.active[b] ==> a == b)
    && (!o.failed ==> forall id <- o.active :: o.active[id] in o.flights && o.flights[o.active[id]].id == id)
  }

  predicate Inv(o: Orchestrator) {
    && (forall id <- o.store :: o.store[id].executionId == id && CancellationSound(o.store[id]))
    && ActiveInv(o)
    && (forall run <- o.flights :: FlightInv(o, run))
  }

  // ---- How a record may evolve -------------------------------------------------------------

  predicate OwnReference(x: Execution, v: Evaluation) {
    v.reference.Some? && v.reference == x.ResultReference()
  }

  /**
   Record x can have become y: evidence and evaluations are append-only, the deadline is
   fixed, a recorded cancellation request stays recorded, and a completed record changes
   only by gaining evaluations of its own result.
   */
  predicate Evolves(x: Execution, y: Execution) {
    && x.executionId == y.executionId && x.intent == y.intent
    && x.evidence <= y.evidence && x.evaluations <= y.evaluations
    && x.metadata.deadline == y.metadata.deadline
    && (x.CancelRecorded() ==> y.CancelRecorded())
    && (x.Terminal() ==>
          && y == x.(evaluations := y.evaluations)
          && forall i | |x.evaluations| <= i < |y.evaluations| :: OwnReference(x, y.evaluations[i]))
  }

  /** The recorded request keeps its reason, and its instant moves forward only. */
  predicate KeepsRequest(x: Execution, y: Execution) {
    x.CancelRecorded() && x.metadata.cancellation.value.requestedAt.Some? ==>
      && y.CancelRecorded() && y.metadata.cancellation.value.requestedAt.Some?
      && y.metadata.cancellation.value.reason == x.metadata.cancellation.value.reason
      && x.metadata.cancellation.value.requestedAt.value <= y.metadata.cancellation.value.requestedAt.value
  }

  lemma EvolvesTransitive(x: Execution, y: Execution, z: Execution)
    requires Evolves(x, y) && Evolves(y, z)
    ensures Evolves(x, z)
  {
    if x.Terminal() {
      assert x.ResultReference() == y.ResultReference();
      forall i | |x.evaluations| <= i < |z.evaluations| ensures OwnReference(x, z.evaluations[i]) {
        if i < |y.evaluations| {
          assert z.evaluations[i] == y.evaluations[i];
        }
      }
    }
  }

  ghost predicate StoreEvolves(a: map<string, Execution>, b: map<string, Execution>) {
    forall id <- a :: id in b && Evolves(a[id], b[id])
  }

  ghost predicate StoreKeeps(a: map<string, Execution>, b: map<string, Execution>) {
    forall id <- a :: id in b && KeepsRequest(a[id], b[id])
  }

  lemma StaysSame(a: map<string, Execution>)
    ensures StoreEvolves(a, a) && StoreKeeps(a, a)
  {
  }

  lemma StoreTransitive(a: map<string, Execution>, b: map<string, Execution>, c: map<string, Execution>)
    requires StoreEvolves(a, b) && StoreEvolves(b, c)
    ensures StoreEvolves(a, c)
    ensures StoreKeeps(a, b) && StoreKeeps(b, c) ==> StoreKeeps(a, c)
  {
    hide Evolves;
    forall id <- a ensures id in c && Evolves(a[id], c[id]) {
      EvolvesTransitive(a[id], b[id], c[id]);
    }
  }

  // ---- The records written ------------------------------------------------------------------

  /** A record built on the stored one evolves from it, unless that one was completed. */
  lemma StateFromResultEvolves(x: Execution, r: WorkerResult, phase: string, cancellation: Option<Cancellation>,
                               at: int)
    requires !x.Terminal() && CancellationSound(x)
    requires cancellation.Some? ==> cancellation.value.requested && cancellation.value.requestedAt.Some?
    ensures var y := StateFromResult(x.executionId, x.intent, r, phase, Some(x), x.metadata.deadline, cancellation, at);
            && Evolves(x, y) && CancellationSound(y)
            && (cancellation.None? || !x.CancelRecorded()
                || (cancellation.value.reason == x.metadata.cancellation.value.reason
                    && x.metadata.cancellation.value.requestedAt.value <= cancellation.value.requestedAt.value)
                ==> KeepsRequest(x, y))
  {
  }

  lemma ContinueEvolves(x: Execution, t: Readings)
    requires CancellationSound(x)
    ensures match ContinueRecord(x, t)
            case NotResumable => true
            case Answer(y, r) => Evolves(x, y) && KeepsRequest(x, y) && CancellationSound(y) && y.Terminal()
            case Launch(y) => Evolves(x, y) && KeepsRequest(x, y) && CancellationSound(y) && !x.CancelRecorded()
  {
    if x.lifecycle == LifecycleInterrupted && (x.CancelRecorded() || Expired(x.metadata.deadline, t.check)) {
      var step := ContinueRecord(x, t);
      var cancellation := if x.CancelRecorded() then x.metadata.cancellation else None;
      StateFromResultEvolves(x, step.result, CONTINUED, cancellation, t.signal);
    }
  }

  lemma CancelEvolves(x: Execution, token: Option<Token>, reason: string, t: Readings)
    requires CancellationSound(x)
    ensures var s := CancelRecord(x, token, reason, t);
            s.saved.Some? ==>
              Evolves(x, s.saved.value) && KeepsRequest(x, s.saved.value) && CancellationSound(s.saved.value)
  {
    if !x.Terminal() && DeadlineWins(x, t.check) && token.None? {
      StateFromResultEvolves(x, DeadlineOutcome([], NoOutput), x.metadata.phase, None, t.signal);
    }
  }

  /**
   A cancellation that reaches an active run keeps token and record in agreement: what is
   recorded has reached the token, whether or not the record's save went through, and if it
   did, the two carry one reason and the token's stamp is not the earlier one.
   */
  lemma CancelKeepsFlight(f: Flight, x: Execution, token: Token, clock: int, reason: string, t: Readings)
    requires FlightRecord(f, x, token, clock) && CancellationSound(x) && clock <= t.check && t.Forward()
    ensures var s := CancelRecord(x, Some(token), reason, t);
            var y := if s.saved.Some? then s.saved.value else x;
            && s.token.Some? && FlightRecord(f, y, s.token.value, t.signal)
            && FlightRecord(f, x, s.token.value, t.signal)
            && (InStep(f, x, token) ==> InStep(f, y, s.token.value))
  {
  }

  /**
   What a finish saves evolves from the latest record, even on the paths that build it
   from the record the run was launched with: those are taken only while nobody has
   touched the token, and then the stored record is still that one.
   */
  lemma FinishEvolves(f: Flight, x: Execution, token: Token, outcome: RunOutcome, clock: int, t: Readings)
    requires FlightSound(f) && FlightRecord(f, x, token, clock) && CancellationSound(x)
    requires clock <= t.check && t.Forward()
    requires outcome.RunReturned? ==> Constructed(outcome.result)
    ensures var y := FinishRecord(f, x, token, outcome, t);
            && Evolves(x, y) && CancellationSound(y) && (InStep(f, x, token) ==> KeepsRequest(x, y))
  {
    var cause := ControlCause(token, f.deadline, t.check, t.stamp);
    if outcome.RunRaised? && cause.None? {
      assert token.Unset? && x == Untouched(f);
    } else {
      var cancellation := if cause == Some(CauseCancelled) then Some(TokenCancellation(token)) else None;
      var r := match outcome
               case RunReturned(r) => FinalResult(r, token, cause)
               case RunRaised(kind) =>
                 if cause == Some(CauseCancelled) then CancelledOutcome(ExceptionOutcome(kind, f.phase), token.reason)
                 else DeadlineOutcome([ExecutionException(f.phase, kind)], NoOutput);
      StateFromResultEvolves(x, r, f.phase, cancellation, t.signal);
    }
  }

  lemma EvaluateEvolves(x: Execution, v: Evaluation)
    requires EvaluateRecord(x, v).Some?
    ensures var y := EvaluateRecord(x, v).value;
            && Evolves(x, y) && KeepsRequest(x, y) && x.Terminal()
            && y.CurrentEvaluation() == Some(y.evaluations[|y.evaluations| - 1])
  {
  }

  // ---- Steps -----------------------------------------------------------------------------

  lemma FlightLater(f: Flight, x: Execution, token: Token, clock: int, now: int)
    requires FlightRecord(f, x, token, clock) && clock <= now
    ensures FlightRecord(f, x, token, now)
  {
  }

  lemma NewFlight(f: Flight, now: int)
    requires FlightSound(f)
    ensures FlightRecord(f, Untouched(f), Unset, now) && InStep(f, Untouched(f), Unset)
  {
  }

  /** The two states differ at most in what concerns one execution. */
  predicate Elsewhere(o: Orchestrator, g: Orchestrator, id: string) {
    && o.clock <= g.clock && o.next <= g.next && (!g.failed ==> !o.failed)
    && (forall a <- o.store | a != id :: a in g.store && g.store[a] == o.store[a])
    && (forall a <- o.active | a != id :: a in g.active && g.active[a] == o.active[a])
    && (forall a <- g.active | a != id :: a in o.active)
    && (forall run <- o.tokens :: run in g.tokens)
    && (forall run <- o.tokens | id !in o.active || run != o.active[id] :: g.tokens[run] == o.tokens[run])
  }

  /** What a step does to one execution leaves the flights of all others as they were. */
  lemma OthersFly(o: Orchestrator, g: Orchestrator, id: string, run: nat)
    requires Inv(o) && Elsewhere(o, g, id)
    requires run in o.flights && o.flights[run].id != id && run in g.flights && g.flights[run] == o.flights[run]
    ensures FlightInv(g, run)
  {
    hide FlightRecord, FlightSound, CancellationSound, InStep;
    assert FlightInv(o, run);
    var f := o.flights[run];
    assert id in o.active ==> o.active[id] != run;
    FlightLater(f, o.store[f.id], o.tokens[run], o.clock, g.clock);
  }

  /** A flight of a running record is the only one of its execution. */
  lemma NoOtherFlight(o: Orchestrator, id: string)
    requires Inv(o) && (id !in o.active || id !in o.store || o.store[id].lifecycle != LifecycleRunning)
    ensures forall run <- o.flights :: o.flights[run].id != id
  {
    hide FlightSound, CancellationSound, InStep, Untouched;
    forall run <- o.flights ensures o.flights[run].id != id {
      assert FlightInv(o, run);
    }
  }

  /** Storing an evolved record for an execution that has no flight. */
  lemma StoreIdle(o: Orchestrator, id: string, y: Execution, save: SaveOutcome, now: int)
    requires Inv(o) && o.clock <= now && y.executionId == id && CancellationSound(y)
    requires forall run <- o.flights :: o.flights[run].id != id
    ensures Inv(Saving(o, id, y, save).(clock := now))
  {
    hide FlightInv, CancellationSound, Elsewhere, ActiveInv;
    var g := Saving(o, id, y, save).(clock := now);
    SavingElsewhere(o, id, y, save, now);
    forall run <- g.flights ensures FlightInv(g, run) {
      OthersFly(o, g, id, run);
    }
  }

  lemma SavingElsewhere(o: Orchestrator, id: string, y: Execution, save: SaveOutcome, now: int)
    requires ActiveInv(o) && o.clock <= now
    ensures var g := Saving(o, id, y, save).(clock := now); Elsewhere(o, g, id) && ActiveInv(g)
  {
  }

  lemma ClockInv(o: Orchestrator, now: int)
    requires Inv(o) && o.clock <= now
    ensures Inv(o.(clock := now))
  {
    hide FlightRecord, FlightSound, CancellationSound, InStep;
    var g := o.(clock := now);
    forall run <- g.flights ensures FlightInv(g, run) {
      assert FlightInv(o, run);
      FlightLater(o.flights[run], o.store[o.flights[run].id], o.tokens[run], o.clock, now);
    }
  }

  lemma LaunchInv(o: Orchestrator, record: Execution, f: Flight, save: SaveOutcome, now: int)
    requires Inv(o) && o.clock <= now && FlightSound(f)
    requires record == Untouched(f) && CancellationSound(record) && record.executionId == f.id
    requires forall run <- o.flights :: o.flights[run].id != f.id
    ensures Inv(BeginWith(o, record, f, save).0.(clock := now))
  {
    hide FlightInv, FlightSound, FlightRecord, InStep, CancellationSound, Untouched, Elsewhere, ActiveInv;
    if save != Saved {
      StoreIdle(o, f.id, record, save, now);
    } else {
      var g := BeginWith(o, record, f, save).0.(clock := now);
      NewFlightInv(o, record, f, now);
      forall run <- o.flights ensures run < o.next {
        OldNumber(o, run);
      }
      LaunchElsewhere(o, record, f, now);
      LaunchActive(o, record, f, now);
      forall run <- g.flights ensures FlightInv(g, run) {
        if run != o.next {
          OldNumber(o, run);
          OthersFly(o, g, f.id, run);
        }
      }
    }
  }

  lemma NewFlightInv(o: Orchestrator, record: Execution, f: Flight, now: int)
    requires FlightSound(f) && record == Untouched(f)
    ensures var g := BeginWith(o, record, f, Saved).0.(clock := now); o.next in g.flights && FlightInv(g, o.next)
  {
    hide FlightRecord, FlightSound, Untouched, InStep;
    NewFlight(f, now);
  }

  lemma LaunchElsewhere(o: Orchestrator, record: Execution, f: Flight, now: int)
    requires ActiveInv(o) && o.clock <= now && forall run <- o.flights :: o.flights[run].id != f.id && run < o.next
    ensures var g := BeginWith(o, record, f, Saved).0.(clock := now); Elsewhere(o, g, f.id)
  {
  }

  lemma LaunchActive(o: Orchestrator, record: Execution, f: Flight, now: int)
    requires ActiveInv(o) && forall run <- o.flights :: o.flights[run].id != f.id && run < o.next
    ensures ActiveInv(BeginWith(o, record, f, Saved).0.(clock := now))
  {
  }

  lemma OldNumber(o: Orchestrator, run: nat)
    requires Inv(o) && run in o.flights
    ensures run < o.next
  {
    assert FlightInv(o, run);
  }

  lemma FinishInv(o: Orchestrator, run: nat, y: Execution, save: SaveOutcome, now: int)
    requires Inv(o) && o.clock <= now && run in o.flights && y.executionId == o.flights[run].id && CancellationSound(y)
    ensures var id := o.flights[run].id;
            Inv(Saving(o, id, y, save).(active := if save == Saved then o.active - {id} else o.active,
                                        flights := o.flights - {run}, clock := now))
  {
    hide FlightInv, CancellationSound, Elsewhere, ActiveInv;
    var id := o.flights[run].id;
    FlightNumber(o, run);
    var g := Saving(o, id, y, save).(active := if save == Saved then o.active - {id} else o.active,
                                     flights := o.flights - {run}, clock := now);
    FinishElsewhere(o, run, y, save, now);
    forall r <- g.flights ensures FlightInv(g, r) {
      FlightNumber(o, r);
      OthersFly(o, g, id, r);
    }
  }

  lemma FlightNumber(o: Orchestrator, run: nat)
    requires Inv(o) && run in o.flights
    ensures var id := o.flights[run].id; id in o.store && id in o.active && o.active[id] == run
  {
    assert FlightInv(o, run);
  }

  lemma FinishElsewhere(o: Orchestrator, run: nat, y: Execution, save: SaveOutcome, now: int)
    requires ActiveInv(o) && o.clock <= now && run in o.flights
    requires o.flights[run].id in o.active && o.active[o.flights[run].id] == run
    ensures var id := o.flights[run].id;
            var g := Saving(o, id, y, save).(active := if save == Saved then o.active - {id} else o.active,
                                             flights := o.flights - {run}, clock := now);
            Elsewhere(o, g, id) && ActiveInv(g)
  {
  }

  /** An active execution after a cancellation: its token is now `token`, its record `y`. */
  lemma CancelInv(o: Orchestrator, g: Orchestrator, id: string)
    requires Inv(o) && Elsewhere(o, g, id) && id in o.active
    requires g.active == o.active && g.flights == o.flights && g.next == o.next
    requires g.store.Keys == o.store.Keys && g.tokens.Keys == o.tokens.Keys && g.store[id].executionId == id
             && CancellationSound(g.store[id])
    requires o.active[id] in o.flights && o.flights[o.active[id]].id == id ==>
               var run := o.active[id];
               && FlightRecord(o.flights[run], g.store[id], g.tokens[run], g.clock)
               && (!g.failed ==> InStep(o.flights[run], g.store[id], g.tokens[run]))
    ensures Inv(g)
  {
    hide FlightRecord, FlightSound, CancellationSound, Untouched, InStep;
    forall run <- g.flights ensures FlightInv(g, run) {
      assert FlightInv(o, run);
      if o.flights[run].id != id {
        OthersFly(o, g, id, run);
      }
    }
    assert ActiveInv(g);
  }

  lemma EvolvesReflexive(x: Execution)
    ensures Evolves(x, x) && KeepsRequest(x, x)
  {
  }

  lemma SameId(x: Execution, y: Execution)
    requires Evolves(x, y)
    ensures x.executionId == y.executionId
  {
  }

  /** One record replaced by one that evolves from it, or a new record added, or nothing. */
  lemma StoreReplaced(a: map<string, Execution>, b: map<string, Execution>, id: string)
    requires forall k <- a | k != id :: k in b && b[k] == a[k]
    requires id in a ==> id in b && Evolves(a[id], b[id])
    ensures StoreEvolves(a, b) && ((id in a ==> KeepsRequest(a[id], b[id])) ==> StoreKeeps(a, b))
  {
    hide Evolves, KeepsRequest;
    forall k <- a ensures k in b && Evolves(a[k], b[k]) && (k != id ==> KeepsRequest(a[k], b[k])) {
      EvolvesReflexive(a[k]);
    }
  }

  /** What every step guarantees. */
  ghost predicate Good(o: Orchestrator, g: Orchestrator) {
    Inv(g) && StoreEvolves(o.store, g.store) && (!o.failed ==> StoreKeeps(o.store, g.store))
  }

  /**
   Every step, whatever its save does, keeps the invariant and lets stored records only
   evolve; and as long as no save has raised before it, recorded requests are kept.
   */
  lemma StepGood(o: Orchestrator, e: Event, t: Readings, save: SaveOutcome)
    requires Inv(o) && WellTyped(e) && o.clock <= t.check && t.Forward()
    ensures var g := Step(o, e, t, save).0; Good(o, g) && g.clock == t.signal
  {
    hide Inv, StoreEvolves, StoreKeeps, SubmitStep, ContinueStepOf, FinishStep, CancelStepOf, EvaluateStep;
    match e
    case Submit(_, _, _) => SubmitGood(o, e, t, save);
    case Continue(_) => ContinueGood(o, e, t, save);
    case Finish(_, _) => FinishGood(o, e, t, save);
    case Cancel(_, _) => CancelGood(o, e, t, save);
    case Evaluate(_, _) => EvaluateGood(o, e, t, save);
    case Crash => CrashGood(o, t.signal);
  }

  lemma CrashGood(o: Orchestrator, now: int)
    requires Inv(o)
    ensures Good(o, o.(active := map[], flights := map[], failed := false, clock := now))
  {
    StaysSame(o.store);
  }

  lemma SubmitGood(o: Orchestrator, e: Event, t: Readings, save: SaveOutcome)
    requires Inv(o) && e.Submit? && o.clock <= t.check && t.Forward()
    ensures Good(o, SubmitStep(o, e, t, save).0.(clock := t.signal))
  {
    hide Inv, Evolves, StateFromResult, LateRecord, StoreEvolves, StoreKeeps, CancellationSound, KeepsRequest,
         InitialRecord, FlightSound;
    var g := SubmitStep(o, e, t, save).0.(clock := t.signal);
    if e.id in o.store {
      ClockInv(o, t.signal);
    } else {
      NoOtherFlight(o, e.id);
      if Expired(e.deadline, t.check) {
        LateRecordSound(e.id, e.intent, e.deadline, t.signal);
        StoreIdle(o, e.id, LateRecord(e.id, e.intent, e.deadline, t.signal), save, t.signal);
      } else {
        var f := Flight(e.id, None, e.intent, e.deadline, INITIAL);
        FirstRecord(f);
        LaunchInv(o, InitialRecord(e.id, e.intent, e.deadline), f, save, t.signal);
      }
    }
    if e.id in o.store {
      EvolvesReflexive(o.store[e.id]);
    }
    StoreReplaced(o.store, g.store, e.id);
    StaysSame(o.store);
  }

  lemma FirstRecord(f: Flight)
    requires f.launched.None? && f.phase == INITIAL
    ensures FlightSound(f) && CancellationSound(Untouched(f))
    ensures Untouched(f) == InitialRecord(f.id, f.intent, f.deadline) && Untouched(f).executionId == f.id
  {
  }

  lemma LateRecordSound(id: string, intent: I.Intent, deadline: Option<int>, at: int)
    ensures LateRecord(id, intent, deadline, at).executionId == id
            && CancellationSound(LateRecord(id, intent, deadline, at))
  {
  }

  lemma ContinueGood(o: Orchestrator, e: Event, t: Readings, save: SaveOutcome)
    requires Inv(o) && e.Continue? && o.clock <= t.check && t.Forward()
    ensures Good(o, ContinueStepOf(o, e, t, save).0.(clock := t.signal))
  {
    hide Inv, Evolves, KeepsRequest, StoreEvolves, StoreKeeps, CancellationSound, ContinueRecord;
    StaysSame(o.store);
    ClockInv(o, t.signal);
    if e.id in o.store {
      var g := ContinueStepOf(o, e, t, save).0.(clock := t.signal);
      var x := o.store[e.id];
      ContinueInv(o, e, t, save);
      StoredSound(o, e.id);
      ContinueEvolves(x, t);
      EvolvesReflexive(x);
      StoreReplaced(o.store, g.store, e.id);
    }
  }

  lemma ContinueInv(o: Orchestrator, e: Event, t: Readings, save: SaveOutcome)
    requires Inv(o) && e.Continue? && o.clock <= t.check && t.Forward() && e.id in o.store
    ensures Inv(ContinueStepOf(o, e, t, save).0.(clock := t.signal))
  {
    hide Inv, Evolves, KeepsRequest, StateFromResult, CancellationSound, FlightSound, Untouched, BeginWith, Saving;
    ClockInv(o, t.signal);
    var x := o.store[e.id];
    StoredSound(o, e.id);
    ContinueEvolves(x, t);
    match ContinueRecord(x, t)
    case NotResumable =>
    case Answer(y, _) =>
      NoOtherFlight(o, e.id);
      SameId(x, y);
      StoreIdle(o, e.id, y, save, t.signal);
    case Launch(y) =>
      NoOtherFlight(o, e.id);
      SameId(x, y);
      LaunchedSound(o, e.id, t);
      LaunchInv(o, y, Flight(e.id, Some(x), x.intent, x.metadata.deadline, CONTINUED), save, t.signal);
  }

  lemma LaunchedSound(o: Orchestrator, id: string, t: Readings)
    requires Inv(o) && id in o.store && ContinueRecord(o.store[id], t).Launch?
    ensures var f := Flight(id, Some(o.store[id]), o.store[id].intent, o.store[id].metadata.deadline, CONTINUED);
            FlightSound(f) && Untouched(f) == ContinueRecord(o.store[id], t).record
  {
  }

  lemma StoredSound(o: Orchestrator, id: string)
    requires Inv(o) && id in o.store
    ensures o.store[id].executionId == id && CancellationSound(o.store[id])
  {
  }

  /** What the invariant says of a flight. */
  lemma FlightIs(o: Orchestrator, run: nat)
    requires Inv(o) && run in o.flights
    ensures var f := o.flights[run];
            && f.id in o.store && run in o.tokens && f.id in o.active && o.active[f.id] == run
            && FlightSound(f) && FlightRecord(f, o.store[f.id], o.tokens[run], o.clock)
            && (!o.failed ==> InStep(f, o.store[f.id], o.tokens[run]))
            && CancellationSound(o.store[f.id]) && o.store[f.id].executionId == f.id
  {
    assert FlightInv(o, run);
  }

  lemma FinishGood(o: Orchestrator, e: Event, t: Readings, save: SaveOutcome)
    requires Inv(o) && e.Finish? && WellTyped(e) && o.clock <= t.check && t.Forward()
    ensures Good(o, FinishStep(o, e, t, save).0.(clock := t.signal))
  {
    hide Inv, Evolves, KeepsRequest, StateFromResult, FlightRecord, FinishRecord, CancellationSound, InStep,
         FlightSound, StoreEvolves, StoreKeeps;
    StaysSame(o.store);
    ClockInv(o, t.signal);
    if e.run in o.flights {
      FlightIs(o, e.run);
      var f := o.flights[e.run];
      var y := FinishRecord(f, o.store[f.id], o.tokens[e.run], e.outcome, t);
      FinishEvolves(f, o.store[f.id], o.tokens[e.run], e.outcome, o.clock, t);
      SameId(o.store[f.id], y);
      FinishInv(o, e.run, y, save, t.signal);
      EvolvesReflexive(o.store[f.id]);
      StoreReplaced(o.store, FinishStep(o, e, t, save).0.store, f.id);
    }
  }

  lemma CancelGood(o: Orchestrator, e: Event, t: Readings, save: SaveOutcome)
    requires Inv(o) && e.Cancel? && o.clock <= t.check && t.Forward()
    ensures Good(o, CancelStepOf(o, e, t, save).0.(clock := t.signal))
  {
    hide Inv, Evolves, KeepsRequest, CancelRecord, CancellationSound, StoreEvolves, StoreKeeps;
    StaysSame(o.store);
    ClockInv(o, t.signal);
    if e.id in o.store {
      StoredSound(o, e.id);
      var x := o.store[e.id];
      CancelEvolves(x, TokenOf(o, e.id), e.reason, t);
      EvolvesReflexive(x);
      StoreReplaced(o.store, CancelStepOf(o, e, t, save).0.store, e.id);
      if e.id in o.active {
        CancelActiveInv(o, e, t, save);
      } else {
        CancelIdleInv(o, e, t, save);
      }
    }
  }

  lemma CancelIdleInv(o: Orchestrator, e: Event, t: Readings, save: SaveOutcome)
    requires Inv(o) && e.Cancel? && o.clock <= t.check && t.Forward() && e.id in o.store && e.id !in o.active
    ensures Inv(CancelStepOf(o, e, t, save).0.(clock := t.signal))
  {
    hide Inv, Evolves, KeepsRequest, CancelRecord, CancellationSound;
    ClockInv(o, t.signal);
    StoredSound(o, e.id);
    var x := o.store[e.id];
    var s := CancelRecord(x, None, e.reason, t);
    CancelEvolves(x, None, e.reason, t);
    NoOtherFlight(o, e.id);
    if s.saved.Some? {
      SameId(x, s.saved.value);
      StoreIdle(o, e.id, s.saved.value, save, t.signal);
    }
  }

  lemma CancelActiveInv(o: Orchestrator, e: Event, t: Readings, save: SaveOutcome)
    requires Inv(o) && e.Cancel? && o.clock <= t.check && t.Forward() && e.id in o.active
    ensures Inv(CancelStepOf(o, e, t, save).0.(clock := t.signal))
  {
    hide Inv, Evolves, KeepsRequest, FlightRecord, CancelRecord, CancellationSound, InStep, FlightSound, Elsewhere;
    ActiveToken(o, e.id);
    CancelElsewhere(o, e, t, save);
    StoredSound(o, e.id);
    var x, run := o.store[e.id], o.active[e.id];
    var s := CancelRecord(x, Some(o.tokens[run]), e.reason, t);
    CancelEvolves(x, Some(o.tokens[run]), e.reason, t);
    if s.saved.Some? {
      SameId(x, s.saved.value);
    }
    if run in o.flights && o.flights[run].id == e.id {
      FlightIs(o, run);
      CancelKeepsFlight(o.flights[run], x, o.tokens[run], o.clock, e.reason, t);
    }
    CancelInv(o, CancelStepOf(o, e, t, save).0.(clock := t.signal), e.id);
  }

  lemma TokenElsewhere(o: Orchestrator, id: string, token: Token, now: int)
    requires id in o.active && o.clock <= now
    ensures Elsewhere(o, o.(tokens := o.tokens[o.active[id] := token], clock := now), id)
    ensures Elsewhere(o, o.(clock := now), id)
  {
  }

  lemma SaveElsewhere(o: Orchestrator, g: Orchestrator, id: string, x: Execution, save: SaveOutcome)
    requires Elsewhere(o, g, id)
    ensures Elsewhere(o, Saving(g, id, x, save), id)
  {
  }

  lemma CancelElsewhere(o: Orchestrator, e: Event, t: Readings, save: SaveOutcome)
    requires e.Cancel? && o.clock <= t.check && t.Forward() && e.id in o.active && e.id in o.store
    ensures Elsewhere(o, CancelStepOf(o, e, t, save).0.(clock := t.signal), e.id)
  {
    hide CancelRecord, Elsewhere;
    var s := CancelRecord(o.store[e.id], TokenOf(o, e.id), e.reason, t);
    TokenElsewhere(o, e.id, if s.token.Some? then s.token.value else Unset, t.signal);
    var tokens := if s.token.Some? then o.tokens[o.active[e.id] := s.token.value] else o.tokens;
    var g := o.(tokens := tokens, clock := t.signal);
    if s.saved.Some? {
      SaveElsewhere(o, g, e.id, s.saved.value, save);
    }
  }

  lemma ActiveToken(o: Orchestrator, id: string)
    requires Inv(o) && id in o.active
    ensures id in o.store && o.active[id] in o.tokens
  {
  }

  lemma EvaluateGood(o: Orchestrator, e: Event, t: Readings, save: SaveOutcome)
    requires Inv(o) && e.Evaluate? && o.clock <= t.check && t.Forward()
    ensures Good(o, EvaluateStep(o, e, save).0.(clock := t.signal))
  {
    hide Inv, Evolves, KeepsRequest, StoreEvolves, StoreKeeps, EvaluateRecord, CancellationSound;
    StaysSame(o.store);
    ClockInv(o, t.signal);
    if e.id in o.store && EvaluateRecord(o.store[e.id], e.evaluation).Some? {
      var x, y := o.store[e.id], EvaluateRecord(o.store[e.id], e.evaluation).value;
      StoredSound(o, e.id);
      EvaluateEvolves(x, e.evaluation);
      SameId(x, y);
      EvaluatedSound(x, e.evaluation);
      NoOtherFlight(o, e.id);
      StoreIdle(o, e.id, y, save, t.signal);
      EvolvesReflexive(x);
      StoreReplaced(o.store, EvaluateStep(o, e, save).0.store, e.id);
    }
  }

  lemma EvaluatedSound(x: Execution, v: Evaluation)
    requires CancellationSound(x) && EvaluateRecord(x, v).Some?
    ensures CancellationSound(EvaluateRecord(x, v).value)
  {
  }

  // ---- Runs ----------------------------------------------------------------------------------

  datatype Timed = Timed(event: Event, t: Readings, save: SaveOutcome)

  /** Well-typed events whose clock readings do not go back. */
  predicate Lawful(events: seq<Timed>, from: int)
    decreases |events|
  {
    events == [] ||
    var e := events[0];
    WellTyped(e.event) && from <= e.t.check && e.t.Forward() && Lawful(events[1..], e.t.signal)
  }

  function After(o: Orchestrator, events: seq<Timed>): Orchestrator
    requires Lawful(events, o.clock)
    decreases |events|
  {
    if events == [] then o
    else After(Step(o, events[0].event, events[0].t, events[0].save).0, events[1..])
  }

  predicate AllSaved(events: seq<Timed>) {
    forall e <- events :: e.save == Saved
  }

  /** A process that has just started over some store nobody else is using. */
  predicate Fresh(o: Orchestrator) {
    && o.active == map[] && o.flights == map[] && o.tokens == map[] && !o.failed
    && forall id <- o.store :: o.store[id].executionId == id && CancellationSound(o.store[id])
  }

  /**
   Over any interleaving of begins, finishes, cancellations, evaluations and crashes, with
   any saves failing: the invariant holds, and every stored record has only evolved. So
   evidence is append-only, deadlines are fixed, a recorded cancellation is never lost, and a
   completed record changes only by evaluations of its own result. If no save failed, each
   recorded request also keeps its reason, and its instant moves forward only.
   */
  lemma {:induction false} RunGood(o: Orchestrator, events: seq<Timed>)
    requires Inv(o) && Lawful(events, o.clock)
    ensures var g := After(o, events);
            && Inv(g) && StoreEvolves(o.store, g.store)
            && (!o.failed && AllSaved(events) ==> !g.failed && StoreKeeps(o.store, g.store))
    decreases |events|
  {
    hide Inv, StoreEvolves, StoreKeeps, Step, WellTyped;
    if events == [] {
      StaysSame(o.store);
    } else {
      var e := events[0];
      var o1 := Step(o, e.event, e.t, e.save).0;
      StepGood(o, e.event, e.t, e.save);
      RunGood(o1, events[1..]);
      StoreTransitive(o.store, o1.store, After(o1, events[1..]).store);
      SavedStep(o, e.event, e.t, e.save);
    }
  }

  lemma SavedStep(o: Orchestrator, e: Event, t: Readings, save: SaveOutcome)
    requires WellTyped(e)
    ensures save == Saved && !o.failed ==> !Step(o, e, t, save).0.failed
  {
    hide StateFromResult, FinishRecord, CancelRecord, ContinueRecord, EvaluateRecord, LateRecord;
  }

  lemma FreshGood(o: Orchestrator)
    requires Fresh(o)
    ensures Inv(o)
  {
  }

  /** In every reachable state at most one run is in flight per execution, and its record is stored as running. */
  lemma OneRunPerExecution(o: Orchestrator, events: seq<Timed>, a: nat, b: nat)
    requires Fresh(o) && Lawful(events, o.clock)
    requires var g := After(o, events); a in g.flights && b in g.flights && g.flights[a].id == g.flights[b].id
    ensures a == b
    ensures var g := After(o, events);
            && g.flights[a].id in g.active && g.flights[a].id in g.store
            && g.store[g.flights[a].id].lifecycle == LifecycleRunning
            && g.store[g.flights[a].id].status == StatusRunning
  {
    hide Inv, After, StoreEvolves, StoreKeeps, FlightSound, CancellationSound, InStep;
    FreshGood(o);
    RunGood(o, events);
    FlightIs(After(o, events), a);
    FlightIs(After(o, events), b);
  }

  /** As long as no save fails, an active execution has a run in flight and is stored as running. */
  lemma ActiveIsRunning(o: Orchestrator, events: seq<Timed>, id: string)
    requires Fresh(o) && Lawful(events, o.clock) && AllSaved(events) && id in After(o, events).active
    ensures var g := After(o, events);
            && g.active[id] in g.flights && g.flights[g.active[id]].id == id
            && id in g.store && g.store[id].lifecycle == LifecycleRunning
  {
    hide Inv, After, StoreEvolves, StoreKeeps, FlightSound, CancellationSound, InStep;
    FreshGood(o);
    RunGood(o, events);
    ActiveFlies(After(o, events), id);
    FlightIs(After(o, events), After(o, events).active[id]);
  }

  lemma ActiveFlies(o: Orchestrator, id: string)
    requires Inv(o) && !o.failed && id in o.active
    ensures o.active[id] in o.flights && o.flights[o.active[id]].id == id
  {
  }

  /** Which finishes leave their execution active although nobody runs it: exactly those whose save raises. */
  lemma FinishStaysActive(o: Orchestrator, run: nat, outcome: RunOutcome, t: Readings, save: SaveOutcome)
    requires Inv(o) && run in o.flights && WellTyped(Finish(run, outcome)) && o.clock <= t.check && t.Forward()
    ensures var id := o.flights[run].id;
            var g := Step(o, Finish(run, outcome), t, save).0;
            && (forall other <- g.flights :: g.flights[other].id != id)
            && (id in g.active <==> save != Saved)
  {
    hide Inv, FinishRecord, FlightRecord, FlightSound, InStep, CancellationSound;
    FlightIs(o, run);
    var g := Step(o, Finish(run, outcome), t, save).0;
    forall other <- g.flights ensures g.flights[other].id != o.flights[run].id {
      FlightIs(o, other);
    }
  }

  /** The step that starts the Arbiter for an execution, if `e` is one. */
  predicate StartsArbiter(o: Orchestrator, e: Event, t: Readings, save: SaveOutcome, id: string)
    requires WellTyped(e)
  {
    Step(o, e, t, save).1.Started? && ((e.Submit? && e.id == id) || (e.Continue? && e.id == id))
  }

  /** Once a cancellation request is recorded, no later step of any run starts the Arbiter for that execution. */
  lemma NoStartAfterCancellation(o: Orchestrator, id: string, events: seq<Timed>, e: Event, t: Readings,
                                 save: SaveOutcome)
    requires Inv(o) && Lawful(events, o.clock) && WellTyped(e)
    requires id in o.store && o.store[id].CancelRecorded()
    ensures !StartsArbiter(After(o, events), e, t, save, id)
  {
    hide Inv, After, StateFromResult;
    RunGood(o, events);
    assert Evolves(o.store[id], After(o, events).store[id]);
  }

  /** A completed execution is never resumed, cancelled or rewritten; only evaluations of its result are added. */
  lemma CompletedIsAbsorbing(o: Orchestrator, id: string, events: seq<Timed>)
    requires Inv(o) && Lawful(events, o.clock) && id in o.store && o.store[id].Terminal()
    ensures var g := After(o, events);
            && id in g.store
            && g.store[id] == o.store[id].(evaluations := g.store[id].evaluations)
            && o.store[id].evaluations <= g.store[id].evaluations
            && (forall i | |o.store[id].evaluations| <= i < |g.store[id].evaluations| ::
                  OwnReference(o.store[id], g.store[id].evaluations[i]))
  {
    hide Inv, After;
    RunGood(o, events);
    assert Evolves(o.store[id], After(o, events).store[id]);
  }
}
