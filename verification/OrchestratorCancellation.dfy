/**
 What becomes of cancellation requests: when one is confirmed, when its recorded instant
 moves, and what a finish stores. Record and token are stamped by separate clock readings,
 and the finish believes the token.
 */
module OrchestratorCancellation {
  import opened Wrappers
  import opened Worker
  import opened ExecutionState
  import opened Orchestration
  import opened OrchestratorRuns
  import I = Intent
  import PyText

  /** The finish takes the run for cancelled. */
  predicate CancelledAt(o: Orchestrator, run: nat, t: Readings) {
    && run in o.flights && run in o.tokens && o.tokens[run].Set?
    && ControlCause(o.tokens[run], o.flights[run].deadline, t.check, t.stamp) == Some(CauseCancelled)
  }

  /**
   A run's token is stamped after its record, and the finish looks at the token's stamp. So
   a cancellation accepted while a run is active is confirmed at that run's finish exactly
   when the token was stamped before the deadline. Otherwise the execution ends FAILED for
   its deadline, with the accepted request still pending.
   */
  lemma AcceptedIsConfirmed(o: Orchestrator, run: nat, outcome: RunOutcome, t: Readings)
    requires Inv(o) && run in o.flights && WellTyped(Finish(run, outcome)) && o.clock <= t.check && t.Forward()
    requires o.flights[run].id in o.store && o.store[o.flights[run].id].CancelRecorded()
    ensures var f := o.flights[run];
            var y := Step(o, Finish(run, outcome), t, Saved).0.store[f.id];
            && run in o.tokens && o.tokens[run].Set? && y.CancelRecorded()
            && var c := y.metadata.cancellation.value;
            && (c.confirmedAt.Some? <==> f.deadline.None? || o.tokens[run].requestedAt < f.deadline.value)
            && (if c.confirmedAt.Some? then
                  y.status == Ended(StatusCancelled) && c.pending == Some(false)
                  && c.reason == o.tokens[run].reason && c.requestedAt == Some(o.tokens[run].requestedAt)
                else y.status == Ended(StatusFailed) && y.Terminal() && c.pending == Some(true))
  {
    hide Inv, InStep, CancellationSound, Untouched, Evolves;
    FlightIs(o, run);
    var f := o.flights[run];
    FinishedCancellation(f, o.store[f.id], o.tokens[run], outcome, o.clock, t);
    hide FinishRecord, FlightRecord;
  }

  lemma FinishedCancellation(f: Flight, x: Execution, token: Token, outcome: RunOutcome, clock: int, t: Readings)
    requires FlightRecord(f, x, token, clock) && x.CancelRecorded() && clock <= t.check && t.Forward()
    requires outcome.RunReturned? ==> Constructed(outcome.result)
    ensures var y := FinishRecord(f, x, token, outcome, t);
            && token.Set? && y.CancelRecorded()
            && var c := y.metadata.cancellation.value;
            && (c.confirmedAt.Some? <==> f.deadline.None? || token.requestedAt < f.deadline.value)
            && (if c.confirmedAt.Some? then
                  y.status == Ended(StatusCancelled) && c.pending == Some(false)
                  && c.reason == token.reason && c.requestedAt == Some(token.requestedAt)
                else y.status == Ended(StatusFailed) && y.Terminal() && c.pending == Some(true))
  {
    hide Untouched;
  }

  /**
   Exactly when the recorded instant of a request changes: at a finish that takes the run
   for cancelled and reaches the store, if the token was stamped at another instant than the
   record. It is then the token's.
   */
  lemma RequestInstantMoves(o: Orchestrator, e: Event, t: Readings, save: SaveOutcome, id: string)
    requires Inv(o) && WellTyped(e) && o.clock <= t.check && t.Forward()
    requires id in o.store && o.store[id].CancelRecorded()
    ensures var was, store := o.store[id], Step(o, e, t, save).0.store;
            && id in store && store[id].CancelRecorded()
            && var before, after := was.metadata.cancellation.value, store[id].metadata.cancellation.value;
            && (after.requestedAt != before.requestedAt <==>
                  && e.Finish? && CancelledAt(o, e.run, t) && o.flights[e.run].id == id
                  && save != LostSave && before.requestedAt != Some(o.tokens[e.run].requestedAt))
            && (after.requestedAt != before.requestedAt ==> after.requestedAt == Some(o.tokens[e.run].requestedAt))
  {
    hide Step, Inv;
    if e.Finish? {
      RequestAtFinish(o, e.run, e.outcome, t, save, id);
    } else {
      RequestStays(o, e, t, save, id);
    }
  }

  /**
   Exactly when the recorded reason of a request changes: at a finish that takes the run for
   cancelled and reaches the store, if the token carries another reason than the record. It
   is then the token's.
   */
  lemma RequestReasonChanges(o: Orchestrator, e: Event, t: Readings, save: SaveOutcome, id: string)
    requires Inv(o) && WellTyped(e) && o.clock <= t.check && t.Forward()
    requires id in o.store && o.store[id].CancelRecorded()
    ensures var was, store := o.store[id], Step(o, e, t, save).0.store;
            && id in store && store[id].CancelRecorded()
            && var before, after := was.metadata.cancellation.value, store[id].metadata.cancellation.value;
            && (after.reason != before.reason <==>
                  && e.Finish? && CancelledAt(o, e.run, t) && o.flights[e.run].id == id
                  && save != LostSave && before.reason != o.tokens[e.run].reason)
            && (after.reason != before.reason ==> after.reason == o.tokens[e.run].reason)
  {
    hide Step, Inv;
    if e.Finish? {
      RequestAtFinish(o, e.run, e.outcome, t, save, id);
    } else {
      RequestStays(o, e, t, save, id);
    }
  }

  lemma RequestAtFinish(o: Orchestrator, run: nat, outcome: RunOutcome, t: Readings, save: SaveOutcome, id: string)
    requires Inv(o) && WellTyped(Finish(run, outcome)) && o.clock <= t.check && t.Forward()
    requires id in o.store && o.store[id].CancelRecorded()
    ensures var store := Step(o, Finish(run, outcome), t, save).0.store;
            && id in store && store[id].CancelRecorded()
            && var before, after := o.store[id].metadata.cancellation.value, store[id].metadata.cancellation.value;
               if CancelledAt(o, run, t) && o.flights[run].id == id && save != LostSave
               then after.requestedAt == Some(o.tokens[run].requestedAt) && after.reason == o.tokens[run].reason
               else after.requestedAt == before.requestedAt && after.reason == before.reason
  {
    hide Inv, CancellationSound, FlightSound, InStep, ControlCause, FinishRecord, FlightRecord, Untouched;
    if run in o.flights {
      FlightIs(o, run);
      var f := o.flights[run];
      if f.id == id {
        FlightLater(f, o.store[id], o.tokens[run], o.clock, t.check);
        FinishRequest(f, o.store[id], o.tokens[run], outcome, t);
      }
    }
  }

  predicate SameRequest(x: Execution, y: Execution) {
    && y.CancelRecorded()
    && (x.CancelRecorded() ==>
          && y.metadata.cancellation.value.requestedAt == x.metadata.cancellation.value.requestedAt
          && y.metadata.cancellation.value.reason == x.metadata.cancellation.value.reason)
  }

  lemma RequestStays(o: Orchestrator, e: Event, t: Readings, save: SaveOutcome, id: string)
    requires Inv(o) && WellTyped(e) && !e.Finish? && id in o.store && o.store[id].CancelRecorded()
    ensures var store := Step(o, e, t, save).0.store; id in store && SameRequest(o.store[id], store[id])
  {
    hide Inv, SubmitStep, ContinueStepOf, CancelStepOf, EvaluateStep;
    match e
    case Submit(_, _, _) => SubmitStays(o, e, t, save, id);
    case Continue(_) => ContinueStays(o, e, t, save, id);
    case Cancel(_, _) => CancelStays(o, e, t, save, id);
    case Evaluate(_, _) => EvaluateStays(o, e, save, id);
    case Crash =>
  }

  lemma SubmitStays(o: Orchestrator, e: Event, t: Readings, save: SaveOutcome, id: string)
    requires e.Submit? && id in o.store && o.store[id].CancelRecorded()
    ensures var store := SubmitStep(o, e, t, save).0.store; id in store && store[id] == o.store[id]
  {
    hide LateRecord, InitialRecord;
  }

  lemma ContinueStays(o: Orchestrator, e: Event, t: Readings, save: SaveOutcome, id: string)
    requires Inv(o) && e.Continue? && id in o.store && o.store[id].CancelRecorded()
    ensures var store := ContinueStepOf(o, e, t, save).0.store; id in store && SameRequest(o.store[id], store[id])
  {
    hide Inv, CancellationSound, ContinueRecord, SameRequest, BeginWith, Saving;
    StoredSound(o, id);
    ContinueRequest(o.store[id], t);
    ItsOwnRequest(o.store[id]);
    if e.id in o.store {
      match ContinueRecord(o.store[e.id], t)
      case NotResumable =>
      case Answer(y, _) => SavingStore(o, e.id, y, save, id);
      case Launch(y) =>
        var x := o.store[e.id];
        BeginStore(o, y, Flight(e.id, Some(x), x.intent, x.metadata.deadline, CONTINUED), save, id);
    }
  }

  lemma ItsOwnRequest(x: Execution)
    ensures x.CancelRecorded() ==> SameRequest(x, x)
  {
  }

  lemma SavingStore(o: Orchestrator, id: string, y: Execution, save: SaveOutcome, other: string)
    requires other in o.store
    ensures var store := Saving(o, id, y, save).store;
            other in store && store[other] == (if other != id || save == LostSave then o.store[other] else y)
  {
  }

  lemma BeginStore(o: Orchestrator, y: Execution, f: Flight, save: SaveOutcome, other: string)
    requires other in o.store
    ensures var store := BeginWith(o, y, f, save).0.store;
            other in store && store[other] == (if other != f.id || save == LostSave then o.store[other] else y)
  {
  }

  lemma CancelStays(o: Orchestrator, e: Event, t: Readings, save: SaveOutcome, id: string)
    requires e.Cancel? && id in o.store && o.store[id].CancelRecorded()
    ensures var store := CancelStepOf(o, e, t, save).0.store; id in store && SameRequest(o.store[id], store[id])
  {
    hide CancelRecord;
    CancelRequest(o.store[id], TokenOf(o, id), e.reason, t);
  }

  lemma EvaluateStays(o: Orchestrator, e: Event, save: SaveOutcome, id: string)
    requires e.Evaluate? && id in o.store && o.store[id].CancelRecorded()
    ensures var store := EvaluateStep(o, e, save).0.store; id in store && SameRequest(o.store[id], store[id])
  {
    hide EvaluateRecord;
    if EvaluateRecord(o.store[id], e.evaluation).Some? {
      EvaluateRequest(o.store[id], e.evaluation);
    }
  }

  lemma FinishRequest(f: Flight, x: Execution, token: Token, outcome: RunOutcome, t: Readings)
    requires outcome.RunReturned? ==> Constructed(outcome.result)
    requires FlightRecord(f, x, token, t.check) && x.metadata.cancellation.Some? && x.CancelRecorded()
    ensures var y := FinishRecord(f, x, token, outcome, t);
            && y.CancelRecorded()
            && var before, after := x.metadata.cancellation.value, y.metadata.cancellation.value;
               if ControlCause(token, f.deadline, t.check, t.stamp) == Some(CauseCancelled)
               then token.Set? && after.requestedAt == Some(token.requestedAt) && after.reason == token.reason
               else after.requestedAt == before.requestedAt && after.reason == before.reason
  {
    hide Untouched;
  }

  lemma ContinueRequest(x: Execution, t: Readings)
    requires x.CancelRecorded() && CancellationSound(x)
    ensures var s := ContinueRecord(x, t); !s.Launch? && (s.Answer? ==> SameRequest(x, s.record))
  {
  }

  lemma CancelRequest(x: Execution, token: Option<Token>, reason: string, t: Readings)
    requires x.CancelRecorded()
    ensures var s := CancelRecord(x, token, reason, t).saved;
            s.Some? ==> SameRequest(x, s.value)
  {
  }

  lemma EvaluateRequest(x: Execution, v: Evaluation)
    requires EvaluateRecord(x, v).Some?
    ensures EvaluateRecord(x, v).value.metadata == x.metadata
  {
  }

  // ---- Runs that show it ---------------------------------------------------------------------

  /** A process that holds a run of `id` and nothing else of it. */
  predicate Beginning(o: Orchestrator, id: string, intent: I.Intent, t: Readings) {
    Fresh(o) && id !in o.store && !PyText.Blank(id) && intent.Valid() && o.clock <= t.check && t.Forward()
  }

  /** The state after submitting `id` and then cancelling it, and the record that leaves. */
  function Cancelled(o: Orchestrator, id: string, intent: I.Intent, deadline: Option<int>, reason: string,
                     t0: Readings, t1: Readings, save: SaveOutcome): Orchestrator
    requires !PyText.Blank(id) && intent.Valid()
  {
    Step(Step(o, Submit(id, intent, deadline), t0, Saved).0, Cancel(id, reason), t1, save).0
  }

  /** The token is set in any case; the record shows the request if its save reached the store. */
  lemma CancelledState(o: Orchestrator, id: string, intent: I.Intent, deadline: Option<int>, reason: string,
                       t0: Readings, t1: Readings, save: SaveOutcome)
    requires Beginning(o, id, intent, t0) && !Expired(deadline, t0.check) && !Expired(deadline, t1.check)
    ensures var g := Cancelled(o, id, intent, deadline, reason, t0, t1, save);
            var x := InitialRecord(id, intent, deadline);
            var s := CancelRecord(x, Some(Unset), reason, t1);
            && s.accepted && s.pending && s.saved.Some?
            && o.next in g.flights && g.flights[o.next] == Flight(id, None, intent, deadline, INITIAL)
            && id in g.active && g.active[id] == o.next
            && o.next in g.tokens && g.tokens[o.next] == Set(reason, t1.signal)
            && id in g.store && g.store[id] == (if save == LostSave then x else s.saved.value)
            && s.saved.value.CancelRecorded() && s.saved.value.metadata.cancellation.value.reason == reason
  {
    hide Fresh, StateFromResult;
  }

  /**
   The race: a cancellation accepted before the deadline whose token is stamped at or after
   it. The run ends FAILED, the request stays pending, and nothing will ever confirm it.
   */
  lemma AcceptedThenOvertaken(o: Orchestrator, id: string, intent: I.Intent, reason: string, r: WorkerResult,
                              deadline: int, t0: Readings, t1: Readings, t2: Readings)
    requires Beginning(o, id, intent, t0) && Constructed(r)
    requires t0.check < deadline && t0.signal <= t1.check && t1.Forward() && t1.signal <= t2.check && t2.Forward()
    requires t1.stamp < deadline <= t1.signal
    ensures var g := Cancelled(o, id, intent, Some(deadline), reason, t0, t1, Saved);
            var y := Step(g, Finish(o.next, RunReturned(r)), t2, Saved).0.store;
            && id in y && y[id].Terminal() && y[id].status == Ended(StatusFailed) && y[id].CancelRecorded()
            && y[id].metadata.cancellation.value.pending == Some(true)
            && y[id].metadata.cancellation.value.confirmedAt.None?
  {
    hide Step, Inv, Fresh, StateFromResult, CancelRecord;
    var o1 := Step(o, Submit(id, intent, Some(deadline)), t0, Saved).0;
    var g := Cancelled(o, id, intent, Some(deadline), reason, t0, t1, Saved);
    FreshGood(o);
    StepGood(o, Submit(id, intent, Some(deadline)), t0, Saved);
    StepGood(o1, Cancel(id, reason), t1, Saved);
    CancelledState(o, id, intent, Some(deadline), reason, t0, t1, Saved);
    AcceptedIsConfirmed(g, o.next, RunReturned(r), t2);
    StepGood(g, Finish(o.next, RunReturned(r)), t2, Saved);
    FinishKeepsIds(g, o.next, RunReturned(r), t2, id);
  }

  lemma FinishKeepsIds(o: Orchestrator, run: nat, outcome: RunOutcome, t: Readings, id: string)
    requires WellTyped(Finish(run, outcome)) && id in o.store
    ensures id in Step(o, Finish(run, outcome), t, Saved).0.store
  {
    hide FinishRecord;
  }

  /**
   A record both cancelled and resumable is reached: cancel while the Worker runs, and let it return a partial
   result.
   */
  lemma CancelledInterruptedReachable(o: Orchestrator, id: string, intent: I.Intent, reason: string, r: WorkerResult,
                                      t0: Readings, t1: Readings, t2: Readings)
    requires Beginning(o, id, intent, t0) && Constructed(r)
    requires r.outcome == Some(PartiallySucceeded) && r.metadata.continuationPending
    ensures var g := Cancelled(o, id, intent, None, reason, t0, t1, Saved);
            var y := Step(g, Finish(o.next, RunReturned(r)), t2, Saved).0.store;
            id in y && y[id].status == Ended(StatusCancelled) && y[id].lifecycle == LifecycleInterrupted
  {
    hide Fresh, StateFromResult, CancelRecord, FinishRecord, Cancelled;
    CancelledState(o, id, intent, None, reason, t0, t1, Saved);
    var g := Cancelled(o, id, intent, None, reason, t0, t1, Saved);
    CancelledYetInterrupted(g.flights[o.next], g.store[id], g.tokens[o.next], RunReturned(r), t2);
  }

  /**
   After a failed save this happens, so a recorded request does not even keep its reason:
   the first cancellation reaches only the token, the second only the record, and the finish
   writes the token's reason over the record's.
   */
  lemma FailedSaveRewritesReason(o: Orchestrator, id: string, intent: I.Intent, first: string, second: string,
                                 r: WorkerResult, t0: Readings, t1: Readings, t2: Readings, t3: Readings)
    requires Beginning(o, id, intent, t0) && Constructed(r)
    ensures var g := Cancelled(o, id, intent, None, first, t0, t1, LostSave);
            var g2 := Step(g, Cancel(id, second), t2, Saved).0;
            var y := Step(g2, Finish(o.next, RunReturned(r)), t3, Saved).0.store;
            && id in g2.store && g2.store[id].CancelRecorded()
            && g2.store[id].metadata.cancellation.value.reason == second
            && id in y && y[id].CancelRecorded() && y[id].metadata.cancellation.value.reason == first
  {
    hide Fresh, StateFromResult, FinishRecord, Cancelled;
    CancelledState(o, id, intent, None, first, t0, t1, LostSave);
    var g := Cancelled(o, id, intent, None, first, t0, t1, LostSave);
    var g2 := Step(g, Cancel(id, second), t2, Saved).0;
    ControlledRunIsNoSuccess(g2.flights[o.next], g2.store[id], g2.tokens[o.next], RunReturned(r), t3);
  }

  // ---- What a Worker saw ---------------------------------------------------------------------

  /**
   First cause wins, from Worker to store: a cause that a Worker saw during the run is the
   one the finish acts on, whatever requests reach the token in between, and the execution
   is not stored as a success.
   */
  lemma WorkerCauseDecidesFinish(f: Flight, x: Execution, seen: Token, requests: seq<Request>, now: int,
                                 outcome: RunOutcome, t: Readings)
    requires seen.Set? ==> seen.requestedAt <= now
    requires (forall r <- requests :: now <= r.at) && now <= t.check && t.Forward()
    requires TerminationCause(seen, f.deadline, now).Some? && (outcome.RunReturned? ==> Constructed(outcome.result))
    ensures var token := CancelAll(seen, requests);
            && ControlCause(token, f.deadline, t.check, t.stamp) == TerminationCause(seen, f.deadline, now)
            && FinishRecord(f, x, token, outcome, t).status
               == Ended(if TerminationCause(seen, f.deadline, now) == Some(CauseCancelled) then StatusCancelled
                        else StatusFailed)
  {
    hide FinishRecord, TerminationCause, ControlCause;
    var token := CancelAll(seen, requests);
    CausesAgree(token, f.deadline, t.check, t.stamp);
    FirstCauseWins(seen, f.deadline, now, requests, t.check);
    FirstCauseWins(seen, f.deadline, now, requests, t.stamp);
    ControlledRunIsNoSuccess(f, x, token, outcome, t);
    match TerminationCause(seen, f.deadline, now).value
    case CauseCancelled =>
    case CauseDeadline =>
  }

  // ---- What a finish stores ------------------------------------------------------------------

  /**
   A run stopped by a control cause is never stored as a success; its status follows the
   cause, and a cancellation the Worker itself reported is left as it is.
   */
  lemma ControlledRunIsNoSuccess(f: Flight, x: Execution, token: Token, outcome: RunOutcome, t: Readings)
    requires outcome.RunReturned? ==> Constructed(outcome.result)
    ensures var cause := ControlCause(token, f.deadline, t.check, t.stamp);
            var y := FinishRecord(f, x, token, outcome, t);
            && (cause == Some(CauseCancelled) ==>
                  y.status == Ended(StatusCancelled) && y.CancelRecorded()
                  && y.metadata.cancellation.value.reason == token.reason)
            && (cause == Some(CauseDeadline) ==> y.status == Ended(StatusFailed) && y.lifecycle == LifecycleCompleted)
            && (cause.None? && outcome.RunReturned? ==>
                  y.status == Ended(outcome.result.status) && y.result == Some(outcome.result))
  {
  }

  /**
   Exactly which finishes leave a record both cancelled and resumable: the run returned
   with its continuation flag set, and either it was cancelled by request, or it reported
   CANCELLED itself and nothing else had stopped it.
   */
  lemma CancelledYetInterrupted(f: Flight, x: Execution, token: Token, outcome: RunOutcome, t: Readings)
    requires outcome.RunReturned? ==> Constructed(outcome.result)
    ensures var cause := ControlCause(token, f.deadline, t.check, t.stamp);
            var y := FinishRecord(f, x, token, outcome, t);
            y.status == Ended(StatusCancelled) && y.lifecycle == LifecycleInterrupted <==>
            && outcome.RunReturned? && outcome.result.metadata.continuationPending
            && (cause == Some(CauseCancelled) || (cause.None? && outcome.result.status == StatusCancelled))
  {
  }

  /** Resuming a record whose cancellation is recorded completes it as cancelled, without a run. */
  lemma ResumingCancelledCompletes(x: Execution, t: Readings)
    requires x.lifecycle == LifecycleInterrupted && x.CancelRecorded()
    ensures var s := ContinueRecord(x, t);
            && s.Answer? && s.record.Terminal() && s.record.status == Ended(StatusCancelled)
            && s.record.metadata.cancellation.value.pending == Some(false)
            && s.record.metadata.cancellation.value.confirmedAt.Some?
  {
  }
}
