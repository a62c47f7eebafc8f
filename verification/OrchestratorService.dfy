/**
 The Orchestrator as the program has it: an object over an execution store, with the
 tokens of its active runs as shared objects. Each locked region is a method, proved
 to take exactly the step that OrchestratorRuns describes.
 */
module OrchestratorService {
  import opened Wrappers
  import opened Worker
  import opened ExecutionState
  import opened Orchestration
  import opened OrchestratorRuns
  import I = Intent
  import PyText

  /** The storage port. */
  class ExecutionStore {
    var content: map<string, Execution>

    constructor ()
      ensures content == map[]
    {
      content := map[];
    }

    /** Creates only if the identity is unused; `created` only if nothing was raised. */
    method Create(x: Execution, outcome: SaveOutcome) returns (taken: bool, created: bool)
      modifies this
      ensures taken == (x.executionId in old(content)) && created == (!taken && outcome == Saved)
      ensures content == if taken || outcome == LostSave then old(content) else old(content)[x.executionId := x]
    {
      taken := x.executionId in content;
      created := !taken && outcome == Saved;
      if !taken && outcome != LostSave {
        content := content[x.executionId := x];
      }
    }

    method Save(x: Execution, outcome: SaveOutcome) returns (ok: bool)
      modifies this
      ensures ok == (outcome == Saved)
      ensures content == if outcome == LostSave then old(content) else old(content)[x.executionId := x]
    {
      ok := outcome == Saved;
      if outcome != LostSave {
        content := content[x.executionId := x];
      }
    }

    function Load(id: string): Option<Execution>
      reads this
    {
      if id in content then Some(content[id]) else None
    }
  }

  /** What a token's properties say when read. */
  function Reading(token: CancellationToken): Token
    reads token
  {
    if token.requested && token.requestedAt.Some? then Set(token.reason, token.requestedAt.value) else Unset
  }

  /** What a begin hands to the caller: the run to carry out, or nothing more to do. */
  datatype Begun = Run(flight: Flight, token: CancellationToken) | NoRun(reply: Reply)

  class Orchestrator {
    const store: ExecutionStore
    var active: map<string, CancellationToken>
    // the run numbers of OrchestratorRuns, and the token object each stands for
    ghost var numbers: map<string, nat>
    ghost var refs: map<nat, CancellationToken>
    ghost var values: map<nat, Token>
    ghost var flights: map<nat, Flight>
    ghost var next: nat
    ghost var clock: int
    ghost var failed: bool

    ghost function Tokens(): set<CancellationToken>
      reads this`refs
    {
      set r | r in refs :: refs[r]
    }

    /** `active`, `numbers` and `refs` name the same distinct tokens. */
    static ghost predicate Wired(active: map<string, CancellationToken>, numbers: map<string, nat>,
                                 refs: map<nat, CancellationToken>, values: map<nat, Token>, next: nat)
    {
      && active.Keys == numbers.Keys && refs.Keys == values.Keys
      && (forall id <- active :: numbers[id] in refs && refs[numbers[id]] == active[id])
      && (forall a <- refs, b <- refs :: a != b ==> refs[a] != refs[b])
      && (forall r <- refs :: r < next)
    }

    static lemma WiredValue(active: map<string, CancellationToken>, numbers: map<string, nat>,
                            refs: map<nat, CancellationToken>, values: map<nat, Token>, next: nat,
                            run: nat, value: Token)
      requires Wired(active, numbers, refs, values, next) && run in refs
      ensures Wired(active, numbers, refs, values[run := value], next)
    {
    }

    static lemma WiredMore(active: map<string, CancellationToken>, numbers: map<string, nat>,
                           refs: map<nat, CancellationToken>, values: map<nat, Token>, next: nat,
                           id: string, token: CancellationToken)
      requires Wired(active, numbers, refs, values, next) && forall r <- refs :: refs[r] != token
      ensures Wired(active[id := token], numbers[id := next], refs[next := token], values[next := Unset], next + 1)
      ensures next !in refs
    {
    }

    /** Every token object holds the value recorded for it. */
    static ghost predicate Matched(refs: map<nat, CancellationToken>, values: map<nat, Token>)
      reads set r | r in refs :: refs[r]
    {
      forall r <- refs :: r in values && refs[r].Valid() && refs[r].Value() == values[r]
    }

    ghost predicate Shape()
      reads this, Tokens()
    {
      Wired(active, numbers, refs, values, next) && Matched(refs, values)
    }

    ghost function State(): OrchestratorRuns.Orchestrator
      reads this, store
    {
      OrchestratorRuns.Orchestrator(store.content, numbers, values, flights, next, clock, failed)
    }

    lemma TokenShape(run: nat)
      requires Shape() && run in refs
      ensures run in values && refs[run].Valid() && refs[run].Value() == values[run]
    {
    }

    lemma ActiveShape(id: string)
      requires Shape() && id in active
      ensures id in numbers && numbers[id] in refs && refs[numbers[id]] == active[id] && active[id] in Tokens()
      ensures numbers[id] in values && active[id].Valid() && active[id].Value() == values[numbers[id]]
    {
    }

    lemma IdleShape(id: string)
      requires Shape() && id !in active
      ensures id !in numbers
    {
    }

    ghost predicate Valid()
      reads this, store, Tokens()
    {
      Shape() && Inv(State())
    }

    constructor (store: ExecutionStore, ghost now: int)
      requires forall id <- store.content :: store.content[id].executionId == id && CancellationSound(store.content[id])
      ensures Valid() && this.store == store
      ensures State() == OrchestratorRuns.Orchestrator(store.content, map[], map[], map[], 0, now, false)
      ensures fresh(Tokens())
    {
      this.store := store;
      active, numbers, refs, values, flights, next, clock, failed := map[], map[], map[], map[], map[], 0, now, false;
    }

    /** Register a new token as the active one of `id`. */
    method Activate(id: string, ghost flight: Flight) returns (token: CancellationToken)
      requires Shape()
      modifies this`active, this`numbers, this`refs, this`values, this`flights, this`next
      ensures Shape() && fresh(token) && token.Valid() && token.Value() == Unset
      ensures active == old(active)[id := token] && numbers == old(numbers)[id := old(next)]
      ensures refs == old(refs)[old(next) := token] && values == old(values)[old(next) := Unset]
      ensures flights == old(flights)[old(next) := flight] && next == old(next) + 1
    {
      hide Wired;
      assert forall r <- refs :: allocated(refs[r]);
      token := new CancellationToken();
      WiredMore(active, numbers, refs, values, next, id, token);
      active := active[id := token];
      numbers := numbers[id := next];
      refs := refs[next := token];
      values := values[next := Unset];
      flights := flights[next := flight];
      next := next + 1;
    }

    /** The run is over; its token is forgotten if its record was saved. */
    method Retire(id: string, ghost run: nat, saved: bool)
      requires Shape()
      modifies this`active, this`numbers, this`flights
      ensures Shape()
      ensures State() == old(State()).(active := if saved then old(numbers) - {id} else old(numbers),
                                       flights := old(flights) - {run})
    {
      flights := flights - {run};
      if saved {
        active := active - {id};
        numbers := numbers - {id};
      }
    }

    /** Request cancellation on the active token of `id`. */
    method Signal(id: string, why: string, now: int)
      requires Shape() && id in active
      modifies active[id], this`values
      ensures Shape() && numbers[id] in old(values)
      ensures State() == old(State()).(tokens := old(values)[numbers[id] := old(values)[numbers[id]].Cancel(why, now)])
    {
      hide Wired;
      ActiveShape(id);
      WiredValue(active, numbers, refs, values, next, numbers[id], values[numbers[id]].Cancel(why, now));
      active[id].Cancel(why, now);
      values := values[numbers[id] := values[numbers[id]].Cancel(why, now)];
    }

    ghost method Tick(now: int)
      requires Shape()
      modifies this`clock
      ensures Shape() && State() == old(State()).(clock := now)
    {
      hide Wired, Matched;
      clock := now;
    }

    /** Save a record, minding the outcome. */
    method Put(x: Execution, save: SaveOutcome) returns (ok: bool)
      requires Shape()
      modifies this`failed, store
      ensures Shape() && ok == (save == Saved)
      ensures State() == Saving(old(State()), x.executionId, x, save)
    {
      hide Wired, Matched;
      ok := store.Save(x, save);
      failed := failed || !ok;
    }

    /** Create a record, which only a new identity allows. */
    method PutNew(x: Execution, save: SaveOutcome) returns (taken: bool, ok: bool)
      requires Shape()
      modifies this`failed, store
      ensures Shape() && taken == (x.executionId in old(store.content)) && ok == (!taken && save == Saved)
      ensures State() == if taken then old(State()) else Saving(old(State()), x.executionId, x, save)
    {
      hide Wired, Matched;
      taken, ok := store.Create(x, save);
      failed := failed || (!taken && !ok);
    }

    /** A run begins once its record is saved. */
    method BeginRun(flight: Flight, ghost record: Execution, ghost o: OrchestratorRuns.Orchestrator)
        returns (begun: Begun)
      requires Shape() && State() == Saving(o, flight.id, record, Saved)
      modifies this`active, this`numbers, this`refs, this`values, this`flights, this`next
      ensures Shape() && begun.Run? && begun.flight == flight
      ensures (State(), Started(old(next))) == BeginWith(o, record, flight, Saved)
      ensures old(next) in flights && flights[old(next)] == flight && old(next) in refs
              && refs[old(next)] == begun.token
    {
      hide Wired, Matched;
      var token := Activate(flight.id, flight);
      begun := Run(flight, token);
    }

    /** `submit`, up to the unlocked Arbiter call. */
    method BeginSubmit(id: string, intent: I.Intent, deadline: Option<int>, t: Readings, save: SaveOutcome)
      returns (begun: Begun)
      requires Valid() && clock <= t.check && t.Forward() && !PyText.Blank(id) && intent.Valid()
      modifies this, store
      ensures Valid()
      ensures (State(), if begun.Run? then Started(old(next)) else begun.reply)
              == Step(old(State()), Submit(id, intent, deadline), t, save)
      ensures begun.Run? ==> old(next) in flights && flights[old(next)] == begun.flight
      ensures begun.Run? ==> old(next) in refs && refs[old(next)] == begun.token
    {
      hide Inv, LateRecord, Good, InitialRecord, Saving, BeginWith, Shape, Step;
      ghost var o := State();
      StepGood(o, Submit(id, intent, deadline), t, save);
      GoodInv(o, Step(o, Submit(id, intent, deadline), t, save).0);
      LateRecordSound(id, intent, deadline, t.signal);
      var flight := Flight(id, None, intent, deadline, INITIAL);
      FirstRecord(flight);
      SubmitStepIs(o, id, intent, deadline, t, save);
      Tick(t.signal);
      if Expired(deadline, t.check) {
        var taken, ok := PutNew(LateRecord(id, intent, deadline, t.signal), save);
        return NoRun(if ok then Answered else if taken then Refused else SaveRaised);
      }
      var taken, ok := PutNew(InitialRecord(id, intent, deadline), save);
      if !ok {
        if !taken {
          NotBegun(o.(clock := t.signal), InitialRecord(id, intent, deadline), flight, save);
        }
        return NoRun(if taken then Refused else SaveRaised);
      }
      begun := BeginRun(flight, InitialRecord(id, intent, deadline), o.(clock := t.signal));
    }

    /** `continue_execution`, up to the unlocked Arbiter call. */
    method BeginContinue(id: string, t: Readings, save: SaveOutcome) returns (begun: Begun)
      requires Valid() && clock <= t.check && t.Forward()
      modifies this, store
      ensures Valid()
      ensures (State(), if begun.Run? then Started(old(next)) else begun.reply)
              == Step(old(State()), Continue(id), t, save)
      ensures begun.Run? ==> old(next) in flights && flights[old(next)] == begun.flight
      ensures begun.Run? ==> old(next) in refs && refs[old(next)] == begun.token
    {
      hide Inv, Good, Saving, BeginWith, Shape, ContinueRecord, Step;
      ghost var o := State();
      StepGood(o, Continue(id), t, save);
      GoodInv(o, Step(o, Continue(id), t, save).0);
      ContinueStepIs(o, id, t, save);
      Tick(t.signal);
      var loaded := store.Load(id);
      if loaded.None? {
        return NoRun(Refused);
      }
      var x := loaded.value;
      StoredSound(o, id);
      ContinuedId(x, t);
      match ContinueRecord(x, t)
      case NotResumable =>
        begun := NoRun(Refused);
      case Answer(record, _) =>
        var ok := Put(record, save);
        begun := NoRun(if ok then Answered else SaveRaised);
      case Launch(record) =>
        var flight := Flight(id, Some(x), x.intent, x.metadata.deadline, CONTINUED);
        var ok := Put(record, save);
        if !ok {
          NotBegun(o.(clock := t.signal), record, flight, save);
          return NoRun(SaveRaised);
        }
        begun := BeginRun(flight, record, o.(clock := t.signal));
    }

    /** The rest of `submit` or `continue_execution`, once the Arbiter call has ended. */
    method FinishRun(ghost run: nat, flight: Flight, token: CancellationToken, outcome: RunOutcome, t: Readings,
                     save: SaveOutcome) returns (ok: bool)
      requires Valid() && clock <= t.check && t.Forward()
      requires run in flights && flights[run] == flight && run in refs && refs[run] == token
      requires outcome.RunReturned? ==> Constructed(outcome.result)
      modifies this, store
      ensures Valid()
      ensures (State(), if ok then Answered else SaveRaised) == Step(old(State()), Finish(run, outcome), t, save)
    {
      hide Inv, FinishRecord, FlightRecord, FlightSound, Evolves, CancellationSound, Good, InStep, KeepsRequest, Saving,
           Shape, Step;
      ghost var o := State();
      StepGood(o, Finish(run, outcome), t, save);
      GoodInv(o, Step(o, Finish(run, outcome), t, save).0);
      TokenShape(run);
      FlightIs(o, run);
      var value := Reading(token);
      var latest := store.Load(flight.id);
      var record := FinishRecord(flight, latest.value, value, outcome, t);
      FinishEvolves(flight, o.store[flight.id], value, outcome, o.clock, t);
      SameId(o.store[flight.id], record);
      FinishStepIs(o, run, outcome, t, save);
      Tick(t.signal);
      ok := Put(record, save);
      Retire(flight.id, run, ok);
    }

    /** `cancel`; `saved` is false if its save raised. */
    method CancelExecution(id: string, reason: string, t: Readings, save: SaveOutcome)
      returns (reply: Option<CancelStep>, saved: bool)
      requires Valid() && clock <= t.check && t.Forward()
      modifies this, store, Tokens()
      ensures Valid()
      ensures (State(), if reply.None? then Refused else if saved then Answered else SaveRaised)
              == Step(old(State()), Cancel(id, reason), t, save)
      ensures reply == if id in old(store.content)
                       then Some(CancelRecord(old(store.content)[id], TokenOf(old(State()), id), reason, t)) else None
    {
      hide Inv, CancelRecord, Evolves, CancellationSound, CancelReason, Good, KeepsRequest, Saving, Shape, Step;
      ghost var o := State();
      StepGood(o, Cancel(id, reason), t, save);
      GoodInv(o, Step(o, Cancel(id, reason), t, save).0);
      saved := true;
      var loaded := store.Load(id);
      if loaded.None? {
        UnknownCancel(o, id, reason, t, save);
        Tick(t.signal);
        return None, saved;
      }
      var x := loaded.value;
      var value := None;
      if id in active {
        ActiveShape(id);
        var token := active[id];
        value := Some(Reading(token));
      } else {
        IdleShape(id);
      }
      assert value == TokenOf(o, id);
      CancelStepIs(o, id, reason, t, save);
      StoredSound(o, id);
      CancelEvolves(x, value, reason, t);
      var step := CancelRecord(x, value, reason, t);
      if step.saved.Some? {
        SameId(x, step.saved.value);
      }
      Tick(t.signal);
      if id in active {
        CancelTokenStep(x, value.value, reason, t);
        if !x.Terminal() {
          // the token is asked to cancel with the reason this branch gives it
          Signal(id, CancelReason(x, reason, t.check), t.signal);
        }
      }
      if step.saved.Some? {
        saved := Put(step.saved.value, save);
      }
      reply := Some(step);
    }

    /** `record_evaluation`; `saved` is false if its save raised. */
    method Evaluate(id: string, v: Evaluation, t: Readings, save: SaveOutcome)
      returns (reply: Option<Execution>, saved: bool)
      requires Valid() && clock <= t.check && t.Forward()
      modifies this, store
      ensures Valid()
      ensures (State(), if reply.None? then Refused else if saved then Answered else SaveRaised)
              == Step(old(State()), OrchestratorRuns.Evaluate(id, v), t, save)
      ensures reply == if id in old(store.content) then EvaluateRecord(old(store.content)[id], v) else None
    {
      hide Inv, EvaluateRecord, CancellationSound, Good, Evolves, KeepsRequest, Saving, Shape, Step;
      ghost var o := State();
      StepGood(o, OrchestratorRuns.Evaluate(id, v), t, save);
      GoodInv(o, Step(o, OrchestratorRuns.Evaluate(id, v), t, save).0);
      EvaluateStepIs(o, id, v, t, save);
      Tick(t.signal);
      saved := true;
      var loaded := store.Load(id);
      if loaded.None? {
        return None, saved;
      }
      reply := EvaluateRecord(loaded.value, v);
      if reply.Some? {
        StoredSound(o, id);
        EvaluateEvolves(loaded.value, v);
        SameId(loaded.value, reply.value);
        saved := Put(reply.value, save);
      }
    }
  }

  /** The reason `cancel` passes to the active token. */
  function CancelReason(x: Execution, reason: string, now: int): string {
    if DeadlineWins(x, now) then "deadline exceeded"
    else if x.CancelRecorded() && x.metadata.cancellation.value.reason != "" then x.metadata.cancellation.value.reason
    else reason
  }

  lemma CancelTokenStep(x: Execution, token: Token, reason: string, t: Readings)
    ensures CancelRecord(x, Some(token), reason, t).token
            == Some(if x.Terminal() then token else token.Cancel(CancelReason(x, reason, t.check), t.signal))
  {
  }

  lemma NotBegun(o: OrchestratorRuns.Orchestrator, x: Execution, f: Flight, save: SaveOutcome)
    requires save != Saved
    ensures BeginWith(o, x, f, save) == (Saving(o, f.id, x, save), SaveRaised)
  {
  }

  /** The parts of a submission step, with the clock already advanced. */
  lemma SubmitStepIs(o: OrchestratorRuns.Orchestrator, id: string, intent: I.Intent, deadline: Option<int>, t: Readings,
                     save: SaveOutcome)
    requires !PyText.Blank(id) && intent.Valid()
    ensures var g := o.(clock := t.signal);
            Step(o, Submit(id, intent, deadline), t, save) ==
            if id in o.store then (g, Refused)
            else if Expired(deadline, t.check) then
              (Saving(g, id, LateRecord(id, intent, deadline, t.signal), save), ReplyTo(save))
            else BeginWith(g, InitialRecord(id, intent, deadline), Flight(id, None, intent, deadline, INITIAL), save)
  {
    hide LateRecord, InitialRecord;
  }

  lemma FinishStepIs(o: OrchestratorRuns.Orchestrator, run: nat, outcome: RunOutcome, t: Readings, save: SaveOutcome)
    requires run in o.flights && run in o.tokens && o.flights[run].id in o.store && WellTyped(Finish(run, outcome))
    ensures var f := o.flights[run];
            var g := Saving(o.(clock := t.signal), f.id, FinishRecord(f, o.store[f.id], o.tokens[run], outcome, t),
                            save);
            && g.active == o.active && g.flights == o.flights
            && Step(o, Finish(run, outcome), t, save) ==
               (g.(active := if save == Saved then o.active - {f.id} else o.active, flights := o.flights - {run}),
                ReplyTo(save))
  {
    hide FinishRecord;
  }

  lemma UnknownCancel(o: OrchestratorRuns.Orchestrator, id: string, reason: string, t: Readings, save: SaveOutcome)
    requires id !in o.store
    ensures Step(o, Cancel(id, reason), t, save) == (o.(clock := t.signal), Refused)
  {
    hide CancelRecord;
  }

  lemma CancelStepIs(o: OrchestratorRuns.Orchestrator, id: string, reason: string, t: Readings, save: SaveOutcome)
    requires id in o.store && (id in o.active ==> o.active[id] in o.tokens)
    ensures var x := o.store[id];
            var s := CancelRecord(x, TokenOf(o, id), reason, t);
            var why := CancelReason(x, reason, t.check);
            var g := if id in o.active && !x.Terminal() then
                       o.(clock := t.signal,
                          tokens := o.tokens[o.active[id] := o.tokens[o.active[id]].Cancel(why, t.signal)])
                     else o.(clock := t.signal);
            Step(o, Cancel(id, reason), t, save) ==
            (if s.saved.None? then (g, Answered) else (Saving(g, id, s.saved.value, save), ReplyTo(save)))
  {
    hide CancelRecord, CancelReason;
    if id in o.active {
      CancelTokenStep(o.store[id], o.tokens[o.active[id]], reason, t);
      assert o.tokens[o.active[id] := o.tokens[o.active[id]]] == o.tokens;
    }
  }

  lemma EvaluateStepIs(o: OrchestratorRuns.Orchestrator, id: string, v: Evaluation, t: Readings, save: SaveOutcome)
    ensures var g := o.(clock := t.signal);
            Step(o, OrchestratorRuns.Evaluate(id, v), t, save) ==
            if id !in o.store || EvaluateRecord(o.store[id], v).None? then (g, Refused)
            else (Saving(g, id, EvaluateRecord(o.store[id], v).value, save), ReplyTo(save))
  {
    hide EvaluateRecord;
  }

  lemma ContinueStepIs(o: OrchestratorRuns.Orchestrator, id: string, t: Readings, save: SaveOutcome)
    ensures var g := o.(clock := t.signal);
            Step(o, Continue(id), t, save) ==
            if id !in o.store then (g, Refused)
            else
              var x := o.store[id];
              match ContinueRecord(x, t)
              case NotResumable => (g, Refused)
              case Answer(record, _) => (Saving(g, id, record, save), ReplyTo(save))
              case Launch(record) =>
                BeginWith(g, record, Flight(id, Some(x), x.intent, x.metadata.deadline, CONTINUED), save)
  {
    hide ContinueRecord;
  }

  lemma GoodInv(o: OrchestratorRuns.Orchestrator, g: OrchestratorRuns.Orchestrator)
    requires Good(o, g)
    ensures Inv(g)
  {
  }

  lemma ContinuedId(x: Execution, t: Readings)
    ensures match ContinueRecord(x, t)
            case NotResumable => true
            case Answer(y, _) => y.executionId == x.executionId
            case Launch(y) => y.executionId == x.executionId
  {
  }
}
