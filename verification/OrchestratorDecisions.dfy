/**
 What the Orchestrator's steps decide: which runs are stored as resumable and which are
 over, when an Arbiter is started, and what a cancellation does to an execution that is
 running, waiting or over.
 */
module OrchestratorDecisions {
  import opened Wrappers
  import opened Worker
  import opened ExecutionState
  import opened Orchestration
  import opened OrchestratorRuns
  import I = Intent
  import PyText

  // ---- The cause a finish acts on ----------------------------------------------------------------

  /** A request was stamped on the token before the deadline, if there is one. */
  predicate RequestedInTime(token: Token, deadline: Option<int>) {
    token.Set? && (deadline.Some? ==> token.requestedAt < deadline.value)
  }

  /** The deadline came first: it has passed at `now`, and no request was stamped before it. */
  predicate DeadlineFirst(token: Token, deadline: Option<int>, now: int) {
    deadline.Some? && deadline.value <= now && !RequestedInTime(token, deadline)
  }

  /** The finish acts on the request or the deadline, whichever was first by its last look at the clock. */
  lemma CauseOfFinish(token: Token, deadline: Option<int>, t: Readings)
    requires t.check <= t.stamp && (token.Set? ==> token.requestedAt <= t.check)
    ensures ControlCause(token, deadline, t.check, t.stamp)
            == (if RequestedInTime(token, deadline) then Some(CauseCancelled)
                else if DeadlineFirst(token, deadline, t.stamp) then Some(CauseDeadline)
                else None)
  {
  }

  // ---- Finishing a run -----------------------------------------------------------------------------

  /** What the finished run itself left: its result, or the exception it ended with. */
  function RunEvidence(f: Flight, outcome: RunOutcome): seq<Evidence> {
    match outcome
    case RunReturned(r) => r.evidence
    case RunRaised(kind) => [ExecutionException(f.phase, kind)]
  }

  /** The run asked to be continued. */
  predicate AsksToContinue(outcome: RunOutcome) {
    outcome.RunReturned? && outcome.result.metadata.continuationPending
  }

  /** The status and flag the run itself ended with. */
  function RunStatus(outcome: RunOutcome): WorkerStatus {
    match outcome
    case RunReturned(r) => r.status
    case RunRaised(_) => StatusFailed
  }

  /** Resumable exactly if the run asked for it and the deadline did not end it; over otherwise. */
  predicate FinishedLifecycle(f: Flight, y: Execution, token: Token, outcome: RunOutcome, t: Readings) {
    var overdue := DeadlineFirst(token, f.deadline, t.stamp);
    && (y.lifecycle == LifecycleInterrupted <==> AsksToContinue(outcome) && !overdue)
    && (y.lifecycle == LifecycleCompleted <==> !(AsksToContinue(outcome) && !overdue))
  }

  /** The status follows the first cause; without one the result of the run is kept, and so is its own cancellation. */
  predicate FinishedResult(f: Flight, y: Execution, token: Token, outcome: RunOutcome, t: Readings) {
    var cancelled, overdue := RequestedInTime(token, f.deadline), DeadlineFirst(token, f.deadline, t.stamp);
    && y.status == Ended(if cancelled then StatusCancelled else if overdue then StatusFailed else RunStatus(outcome))
    && y.result.Some? && y.result.value.status == y.status.status
    && (outcome.RunReturned? && !overdue && (cancelled ==> RunStatus(outcome) == StatusCancelled) ==>
          y.result == Some(outcome.result))
    && (overdue ==> y.metadata.terminationCause == Some(TagDeadlineExceeded))
  }

  /** The evidence of the run, then the markers of what stopped it; a request that stopped it is confirmed. */
  predicate FinishedEvidence(f: Flight, x: Execution, y: Execution, token: Token, outcome: RunOutcome, t: Readings) {
    var cancelled, overdue := RequestedInTime(token, f.deadline), DeadlineFirst(token, f.deadline, t.stamp);
    var before := x.evidence + [ExecutionPhase(f.phase, f.id)] + RunEvidence(f, outcome);
    if cancelled then
      && y.evidence == before
                       + (if RunStatus(outcome) == StatusCancelled then [] else [CancellationObserved(token.reason)])
                       + [CancellationConfirmed(t.signal)]
      && y.metadata.cancellation
         == Some(Cancellation(true, token.reason, Some(token.requestedAt), Some(false), Some(t.signal)))
    else
      && y.evidence == before + (if overdue then [DeadlinePassed] else [])
      && y.metadata.cancellation == x.metadata.cancellation
  }

  /** Record `x` after the finish of its run, with the token as it was. */
  predicate AfterFinish(f: Flight, x: Execution, y: Execution, token: Token, outcome: RunOutcome, t: Readings) {
    && y.executionId == x.executionId && y.intent == x.intent && y.evaluations == x.evaluations
    && y.metadata.deadline == x.metadata.deadline && y.metadata.phase == f.phase
    && FinishedLifecycle(f, y, token, outcome, t) && FinishedResult(f, y, token, outcome, t)
    && FinishedEvidence(f, x, y, token, outcome, t)
  }

  /** What is recorded is one result: the run's own, or the one its first cause put in its place. */
  function Recorded(f: Flight, token: Token, outcome: RunOutcome, t: Readings): (r: WorkerResult)
    requires outcome.RunReturned? ==> Constructed(outcome.result)
    ensures Constructed(r)
  {
    var own := match outcome
               case RunReturned(r) => r
               case RunRaised(kind) => ExceptionOutcome(kind, f.phase);
    if RequestedInTime(token, f.deadline) then
      if own.status == StatusCancelled then own else CancelledOutcome(own, token.reason)
    else if DeadlineFirst(token, f.deadline, t.stamp) then DeadlineOutcome(own.evidence, own.output)
    else own
  }

  /** A run nobody touched is recorded alike from the record it began with and from the stored one. */
  lemma UntouchedPrior(f: Flight, r: WorkerResult, at: int)
    requires FlightSound(f)
    ensures StateFromResult(f.id, f.intent, r, f.phase, f.launched, f.deadline, None, at)
            == StateFromResult(f.id, f.intent, r, f.phase, Some(Untouched(f)), f.deadline, None, at)
  {
  }

  lemma FinishIs(f: Flight, x: Execution, token: Token, outcome: RunOutcome, clock: int, t: Readings)
    requires FlightSound(f) && FlightRecord(f, x, token, clock) && clock <= t.check && t.Forward()
    requires outcome.RunReturned? ==> Constructed(outcome.result)
    ensures FinishRecord(f, x, token, outcome, t)
            == StateFromResult(f.id, f.intent, Recorded(f, token, outcome, t), f.phase, Some(x), f.deadline,
                               if RequestedInTime(token, f.deadline) then Some(TokenCancellation(token)) else None,
                               t.signal)
  {
    CauseOfFinish(token, f.deadline, t);
    if outcome.RunRaised? {
      UntouchedPrior(f, ExceptionOutcome(outcome.kind, f.phase), t.signal);
    }
    hide StateFromResult, CancelledOutcome, DeadlineOutcome, ExceptionOutcome, ControlCause, Untouched;
  }

  /** Status, flag, evidence and cause of what is recorded. */
  lemma RecordedMeans(f: Flight, token: Token, outcome: RunOutcome, t: Readings)
    requires outcome.RunReturned? ==> Constructed(outcome.result)
    ensures var r := Recorded(f, token, outcome, t);
            var cancelled, overdue := RequestedInTime(token, f.deadline), DeadlineFirst(token, f.deadline, t.stamp);
            && r.status == (if cancelled then StatusCancelled else if overdue then StatusFailed else RunStatus(outcome))
            && r.metadata.continuationPending == (AsksToContinue(outcome) && !overdue)
            && (outcome.RunReturned? && !overdue && (cancelled ==> RunStatus(outcome) == StatusCancelled) ==>
                  r == outcome.result)
            && (overdue ==> r.metadata.terminationCause == Some(TagDeadlineExceeded))
            && r.evidence == RunEvidence(f, outcome)
                             + (if cancelled && RunStatus(outcome) != StatusCancelled
                                then [CancellationObserved(token.reason)]
                                else if overdue then [DeadlinePassed] else [])
  {
    hide CancelledOutcome, DeadlineOutcome, ExceptionOutcome, Constructed;
  }

  /** The record a result leads to: its status, its flag, and what else is carried over. */
  lemma StateMeans(f: Flight, x: Execution, r: WorkerResult, c: Option<Cancellation>, at: int)
    requires x.executionId == f.id && x.intent == f.intent && x.metadata.deadline == f.deadline
    ensures var y := StateFromResult(f.id, f.intent, r, f.phase, Some(x), f.deadline, c, at);
            && y.executionId == x.executionId && y.intent == x.intent && y.evaluations == x.evaluations
            && y.metadata.deadline == x.metadata.deadline && y.metadata.phase == f.phase
            && y.result == Some(r) && y.status == Ended(r.status)
            && y.lifecycle == (if r.metadata.continuationPending then LifecycleInterrupted else LifecycleCompleted)
            && (r.metadata.terminationCause.Some? ==> y.metadata.terminationCause == r.metadata.terminationCause)
            && (r.metadata.terminationCause.None? ==> y.metadata.terminationCause == x.metadata.terminationCause)
            && y.metadata.workerId == r.workerId && y.metadata.resultMetadata == r.metadata
            && y.state == PhaseState(f.phase, r.workerId, Some(r.status), x.state.cancellationRequested)
  {
  }

  /**
   What a record says of a cancellation: a newer entry replaces an older one, but keeps the
   instants it does not know; it is confirmed, once, by a result that was cancelled.
   */
  predicate CancellationAfter(was: Option<Cancellation>, c: Option<Cancellation>, now: Option<Cancellation>,
                              cancelled: bool, at: int) {
    if c.None? then now == was
    else
      && now.Some? && now.value.requested == c.value.requested && now.value.reason == c.value.reason
      && (c.value.requestedAt.Some? ==> now.value.requestedAt == c.value.requestedAt)
      && (c.value.requestedAt.None? && was.Some? ==> now.value.requestedAt == was.value.requestedAt)
      && now.value.pending == Some(!cancelled)
      && var known := if c.value.confirmedAt.Some? || was.None? then c.value.confirmedAt else was.value.confirmedAt;
        now.value.confirmedAt == (if known.None? && cancelled then Some(at) else known)
  }

  /** Its evidence, which ends with the confirmation if there is one. */
  lemma StateEvidence(f: Flight, x: Execution, r: WorkerResult, c: Option<Cancellation>, at: int)
    ensures var y := StateFromResult(f.id, f.intent, r, f.phase, Some(x), f.deadline, c, at);
            && CancellationAfter(x.metadata.cancellation, c, y.metadata.cancellation, r.status == StatusCancelled, at)
            && y.evidence == x.evidence + [ExecutionPhase(f.phase, f.id)] + r.evidence
                             + (if c.Some? && r.status == StatusCancelled
                                then [CancellationConfirmed(y.metadata.cancellation.value.confirmedAt.GetOr(at))]
                                else [])
  {
  }

  lemma Regroup(a: seq<Evidence>, b: seq<Evidence>, c: seq<Evidence>, d: seq<Evidence>)
    ensures a + (b + c) + d == a + b + c + d && a + [] == a
  {
  }

  lemma EvidenceMeans(f: Flight, x: Execution, token: Token, outcome: RunOutcome, clock: int, t: Readings)
    requires FlightRecord(f, x, token, clock) && (outcome.RunReturned? ==> Constructed(outcome.result))
    ensures var c := if RequestedInTime(token, f.deadline) then Some(TokenCancellation(token)) else None;
            var y := StateFromResult(f.id, f.intent, Recorded(f, token, outcome, t), f.phase, Some(x), f.deadline, c,
                                     t.signal);
            FinishedEvidence(f, x, y, token, outcome, t)
  {
    hide StateFromResult, Untouched, Recorded, Constructed, RunEvidence, CancelledOutcome, DeadlineOutcome;
    RecordedMeans(f, token, outcome, t);
    var r := Recorded(f, token, outcome, t);
    var c := if RequestedInTime(token, f.deadline) then Some(TokenCancellation(token)) else None;
    StateEvidence(f, x, r, c, t.signal);
    var marker := if c.Some? then (if RunStatus(outcome) == StatusCancelled then []
                                   else [CancellationObserved(token.reason)])
                  else if DeadlineFirst(token, f.deadline, t.stamp) then [DeadlinePassed] else [];
    var confirmed := if c.Some? then [CancellationConfirmed(t.signal)] else [];
    Regroup(x.evidence + [ExecutionPhase(f.phase, f.id)], RunEvidence(f, outcome), marker, confirmed);
    hide RequestedInTime, DeadlineFirst;
  }

  lemma FinishMeans(f: Flight, x: Execution, token: Token, outcome: RunOutcome, clock: int, t: Readings)
    requires FlightSound(f) && FlightRecord(f, x, token, clock) && clock <= t.check && t.Forward()
    requires outcome.RunReturned? ==> Constructed(outcome.result)
    ensures AfterFinish(f, x, FinishRecord(f, x, token, outcome, t), token, outcome, t)
  {
    FinishIs(f, x, token, outcome, clock, t);
    RecordedMeans(f, token, outcome, t);
    var c := if RequestedInTime(token, f.deadline) then Some(TokenCancellation(token)) else None;
    StateMeans(f, x, Recorded(f, token, outcome, t), c, t.signal);
    EvidenceMeans(f, x, token, outcome, clock, t);
    hide FinishRecord, StateFromResult, Untouched, Recorded, Constructed, RunEvidence, FinishedEvidence;
  }

  /**
   A finish ends its run whatever becomes of its save; the record it stores is resumable
   exactly if the run returned with its continuation flag and the deadline did not come
   first, and over otherwise.
   */
  lemma FinishDecides(o: Orchestrator, run: nat, outcome: RunOutcome, t: Readings, save: SaveOutcome)
    requires Inv(o) && run in o.flights && WellTyped(Finish(run, outcome)) && o.clock <= t.check && t.Forward()
    ensures var (g, reply) := Step(o, Finish(run, outcome), t, save);
            var f := o.flights[run];
            && f.id in o.store && run in o.tokens && run !in g.flights
            && reply == (if save == Saved then Answered else SaveRaised)
            && f.id in g.store && g.store == o.store[f.id := g.store[f.id]]
            && (if save == LostSave then g.store[f.id] == o.store[f.id]
                else AfterFinish(f, o.store[f.id], g.store[f.id], o.tokens[run], outcome, t))
  {
    hide Inv, FinishRecord, FlightRecord, FlightSound, InStep, CancellationSound, AfterFinish;
    FlightIs(o, run);
    FinishMeans(o.flights[run], o.store[o.flights[run].id], o.tokens[run], outcome, o.clock, t);
  }

  // ---- Submitting ------------------------------------------------------------------------------------

  /** The record of an execution that waits for its run to end. */
  predicate NewRecord(x: Execution, id: string, intent: I.Intent, deadline: Option<int>) {
    && x.executionId == id && x.intent == intent && x.metadata.deadline == deadline && x.evidence == []
    && x.status == StatusRunning && x.lifecycle == LifecycleRunning && x.result.None? && x.evaluations == []
    && x.metadata.cancellation.None? && x.metadata.terminationCause.None? && x.metadata.phase == INITIAL
    && x.state == PhaseState(INITIAL, "", None, false)
  }

  /** The record of a submission that came after its deadline. */
  predicate LateFor(y: Execution, id: string, intent: I.Intent, deadline: Option<int>) {
    && OverForDeadline(y) && y.executionId == id && y.intent == intent && y.metadata.deadline == deadline
    && y.metadata.phase == INITIAL && y.evidence == [ExecutionPhase(INITIAL, id), DeadlinePassed]
    && y.evaluations == [] && y.metadata.cancellation.None?
  }

  /** Over for its deadline, as FAILED. */
  predicate OverForDeadline(y: Execution) {
    && y.lifecycle == LifecycleCompleted && y.status == Ended(StatusFailed) && y.result.Some?
    && y.metadata.terminationCause == Some(TagDeadlineExceeded) && y.result.value.status == StatusFailed
    && y.result.value.metadata.terminationCause == Some(TagDeadlineExceeded)
  }

  /** A run has begun, with a token of its own that nobody has touched. */
  predicate BegunFor(o: Orchestrator, g: Orchestrator, run: nat, id: string, launched: Option<Execution>,
                     deadline: Option<int>) {
    && run == o.next && run in g.flights && g.flights[run].id == id && g.flights[run].launched == launched
    && g.flights[run].deadline == deadline && g.flights == o.flights[run := g.flights[run]]
    && g.active == o.active[id := run] && g.tokens == o.tokens[run := Unset] && g.next == o.next + 1
  }

  /** What saving the record a run begins with leads to. */
  lemma BeginMeans(o: Orchestrator, record: Execution, f: Flight, save: SaveOutcome)
    ensures var (g, reply) := BeginWith(o, record, f, save);
            && reply == (if save == Saved then Started(o.next) else SaveRaised) && g.clock == o.clock
            && g.store == (if save == LostSave then o.store else o.store[f.id := record])
            && (if save == Saved then BegunFor(o, g, o.next, f.id, f.launched, f.deadline)
                else g.flights == o.flights && g.active == o.active && g.tokens == o.tokens)
  {
  }

  lemma FirstMeans(id: string, intent: I.Intent, deadline: Option<int>)
    ensures NewRecord(InitialRecord(id, intent, deadline), id, intent, deadline)
  {
  }

  lemma LateMeans(id: string, intent: I.Intent, deadline: Option<int>, at: int)
    ensures var y := LateRecord(id, intent, deadline, at);
            LateFor(y, id, intent, deadline)
  {
    hide DeadlineOutcome;
  }

  /**
   A submission starts the Arbiter exactly if its identity is new, its deadline has not
   passed, and its first record is saved; a late one is recorded as FAILED for its deadline,
   and nothing runs.
   */
  lemma SubmitDecides(o: Orchestrator, id: string, intent: I.Intent, deadline: Option<int>, t: Readings,
                      save: SaveOutcome)
    requires WellTyped(Submit(id, intent, deadline))
    ensures var (g, reply) := Step(o, Submit(id, intent, deadline), t, save);
            var late := deadline.Some? && deadline.value <= t.check;
            && (reply.Started? <==> id !in o.store && !late && save == Saved)
            && (id in o.store ==> reply == Refused && g == o.(clock := t.signal))
            && (id !in o.store && save == LostSave ==> g.store == o.store)
            && (id !in o.store && save != LostSave ==>
                  && id in g.store && g.store == o.store[id := g.store[id]]
                  && (if late then LateFor(g.store[id], id, intent, deadline)
                      else NewRecord(g.store[id], id, intent, deadline)))
            && (if reply.Started? then BegunFor(o, g, reply.run, id, None, deadline)
                else g.flights == o.flights && g.active == o.active && g.tokens == o.tokens)
  {
    hide BeginWith, BegunFor, NewRecord, LateFor, LateRecord, InitialRecord;
    FirstMeans(id, intent, deadline);
    LateMeans(id, intent, deadline, t.signal);
    BeginMeans(o, InitialRecord(id, intent, deadline), Flight(id, None, intent, deadline, INITIAL), save);
    BegunLater(o, BeginWith(o, InitialRecord(id, intent, deadline), Flight(id, None, intent, deadline, INITIAL),
                            save).0,
               o.next, id, None, deadline, t.signal);
  }

  lemma BegunLater(o: Orchestrator, g: Orchestrator, run: nat, id: string, launched: Option<Execution>,
                   deadline: Option<int>, now: int)
    ensures BegunFor(o, g.(clock := now), run, id, launched, deadline) == BegunFor(o, g, run, id, launched, deadline)
  {
  }

  // ---- Continuing --------------------------------------------------------------------------------------

  /** The record of a continuation that is under way: what was recorded before, running again. */
  predicate RunningAgain(x: Execution, y: Execution) {
    && y.status == StatusRunning && y.lifecycle == LifecycleRunning && y.metadata.phase == CONTINUED
    && x == y.(status := x.status, lifecycle := x.lifecycle, metadata := y.metadata.(phase := x.metadata.phase))
  }

  /** A continuation answered without a run, for the request recorded or for the deadline. */
  predicate AnsweredUnrun(x: Execution, y: Execution, t: Readings) {
    && y.executionId == x.executionId && y.intent == x.intent && y.metadata.deadline == x.metadata.deadline
    && y.evaluations == x.evaluations && x.evidence + [ExecutionPhase(CONTINUED, x.executionId)] <= y.evidence
    && y.metadata.phase == CONTINUED && y.state.phase == CONTINUED
    && var markers := y.evidence[|x.evidence| + 1..];
      if x.CancelRecorded() then
        && y.lifecycle == LifecycleCompleted && y.status == Ended(StatusCancelled) && y.CancelRecorded()
        && CancellationAfter(x.metadata.cancellation, x.metadata.cancellation, y.metadata.cancellation, true, t.signal)
        && y.metadata.cancellation.value.confirmedAt.Some?
        && markers == [CancellationObserved("cancellation requested"),
                       CancellationConfirmed(y.metadata.cancellation.value.confirmedAt.value)]
      else OverForDeadline(y) && y.metadata.cancellation == x.metadata.cancellation && markers == [DeadlinePassed]
  }

  /** The execution waits to be continued, nobody asked to cancel it, and there is time left. */
  predicate MayContinue(o: Orchestrator, id: string, now: int) {
    && id in o.store && o.store[id].lifecycle == LifecycleInterrupted && !o.store[id].CancelRecorded()
    && (o.store[id].metadata.deadline.Some? ==> now < o.store[id].metadata.deadline.value)
  }

  /** A record completed in answer to a continuation, with result `r` and for the recorded request if `c` is it. */
  lemma AnswerMeans(x: Execution, r: WorkerResult, c: Option<Cancellation>, t: Readings)
    requires !r.metadata.continuationPending
    requires if x.CancelRecorded() then
               c == x.metadata.cancellation && r.status == StatusCancelled
               && r.evidence == [CancellationObserved("cancellation requested")]
             else
               c.None? && r.status == StatusFailed && r.evidence == [DeadlinePassed]
               && r.metadata.terminationCause == Some(TagDeadlineExceeded)
    ensures var y := StateFromResult(x.executionId, x.intent, r, CONTINUED, Some(x), x.metadata.deadline, c, t.signal);
            AnsweredUnrun(x, y, t)
  {
    var f := Flight(x.executionId, None, x.intent, x.metadata.deadline, CONTINUED);
    StateMeans(f, x, r, c, t.signal);
    StateEvidence(f, x, r, c, t.signal);
    hide StateFromResult;
  }

  lemma ContinueMeans(x: Execution, t: Readings)
    ensures match ContinueRecord(x, t)
            case NotResumable => x.lifecycle != LifecycleInterrupted
            case Answer(y, _) =>
              && x.lifecycle == LifecycleInterrupted && AnsweredUnrun(x, y, t)
              && (x.CancelRecorded() || (x.metadata.deadline.Some? && x.metadata.deadline.value <= t.check))
            case Launch(y) =>
              && x.lifecycle == LifecycleInterrupted && RunningAgain(x, y) && !x.CancelRecorded()
              && (x.metadata.deadline.Some? ==> t.check < x.metadata.deadline.value)
  {
    hide StateFromResult, AnsweredUnrun, DeadlineOutcome, CancelledOutcome;
    var s := ContinueRecord(x, t);
    if s.Answer? {
      AnswerMeans(x, s.result, if x.CancelRecorded() then x.metadata.cancellation else None, t);
    }
  }

  /**
   A continuation starts the Arbiter exactly if the stored record is resumable, carries no
   request, has time left, and its save succeeds; it is refused exactly if the record is not
   resumable, and answered without a run otherwise.
   */
  lemma ContinueDecides(o: Orchestrator, id: string, t: Readings, save: SaveOutcome)
    ensures var (g, reply) := Step(o, Continue(id), t, save);
            var resumable := id in o.store && o.store[id].lifecycle == LifecycleInterrupted;
            && (reply.Started? <==> MayContinue(o, id, t.check) && save == Saved)
            && (reply == Refused <==> !resumable) && (!resumable ==> g == o.(clock := t.signal))
            && (reply == Answered <==> resumable && !MayContinue(o, id, t.check) && save == Saved)
            && (resumable && save == LostSave ==> g.store == o.store)
            && (resumable && save != LostSave ==>
                  && id in g.store && g.store == o.store[id := g.store[id]]
                  && (if MayContinue(o, id, t.check) then RunningAgain(o.store[id], g.store[id])
                      else AnsweredUnrun(o.store[id], g.store[id], t)))
            && (if reply.Started? then
                  BegunFor(o, g, reply.run, id, Some(o.store[id]), o.store[id].metadata.deadline)
                else g.flights == o.flights && g.active == o.active && g.tokens == o.tokens)
  {
    hide ContinueRecord, RunningAgain, AnsweredUnrun, BeginWith, BegunFor;
    if id in o.store {
      var x := o.store[id];
      ContinueMeans(x, t);
      if ContinueRecord(x, t).Launch? {
        var f := Flight(id, Some(x), x.intent, x.metadata.deadline, CONTINUED);
        BeginMeans(o, ContinueRecord(x, t).record, f, save);
        BegunLater(o, BeginWith(o, ContinueRecord(x, t).record, f, save).0, o.next, id, Some(x), x.metadata.deadline,
                   t.signal);
      }
    }
  }

  // ---- Cancelling --------------------------------------------------------------------------------------

  /** A request comes too late: the deadline has passed at `now`, and none was recorded before it. */
  predicate TooLate(x: Execution, now: int) {
    && x.metadata.deadline.Some? && x.metadata.deadline.value <= now
    && (x.metadata.cancellation.Some? && x.metadata.cancellation.value.requestedAt.Some? ==>
          x.metadata.deadline.value <= x.metadata.cancellation.value.requestedAt.value)
  }

  /** Record `x` after a first request while its run goes on: the request is written down, and pending. */
  predicate Requested(x: Execution, y: Execution, reason: string, at: int) {
    && y.evidence == x.evidence + [CancellationRequested(reason, at)] && y.state.cancellationRequested
    && y.metadata.cancellation == Some(Cancellation(true, reason, Some(at), Some(true), None))
    && x == y.(evidence := x.evidence, state := y.state.(cancellationRequested := x.state.cancellationRequested),
               metadata := y.metadata.(cancellation := x.metadata.cancellation))
  }

  /** Record `x` after a request that came too late for its run: only the deadline is written down. */
  predicate Overdue(x: Execution, y: Execution) {
    && y.evidence == x.evidence + [DeadlinePassed] && y.metadata.terminationCause == Some(TagDeadlineExceeded)
    && x == y.(evidence := x.evidence,
               metadata := y.metadata.(terminationCause := x.metadata.terminationCause))
  }

  /** Record `x` after the cancellation of an execution nobody runs: over as CANCELLED, and confirmed. */
  predicate CancelledIdle(x: Execution, y: Execution, reason: string, t: Readings) {
    && y.lifecycle == LifecycleCompleted && y.status == Ended(StatusCancelled) && y.result == x.result
    && y.state == x.state.(lastStatus := Some(StatusCancelled),
                           cancellationRequested := !x.CancelRecorded() || x.state.cancellationRequested)
    && y.executionId == x.executionId && y.intent == x.intent && y.evaluations == x.evaluations
    && y.metadata == x.metadata.(cancellation := y.metadata.cancellation) && y.CancelRecorded()
    && var c := y.metadata.cancellation.value;
      && c.pending == Some(false) && c.confirmedAt == Some(if x.CancelRecorded() then t.stamp else t.signal)
      && y.evidence == x.evidence
                       + (if x.CancelRecorded() then [] else [CancellationRequested(reason, t.stamp)])
                       + [CancellationConfirmed(c.confirmedAt.value)]
      && (if x.CancelRecorded() then
            && c.reason == x.metadata.cancellation.value.reason
            && c.requestedAt == x.metadata.cancellation.value.requestedAt
          else c.reason == reason && c.requestedAt == Some(t.stamp))
  }

  /** A cancellation that meets a running execution. */
  predicate AfterRunningCancel(x: Execution, token: Token, s: CancelStep, reason: string, t: Readings) {
    && s.token.Some? && s.pending && (s.accepted <==> !TooLate(x, t.check) && !x.CancelRecorded())
    && (token.Set? ==> s.token == Some(token))
    && (token.Unset? ==>
          && s.token.value.Set? && s.token.value.requestedAt == t.signal
          && (TooLate(x, t.check) ==> s.token.value.reason == "deadline exceeded")
          && (s.accepted ==> s.token.value.reason == reason))
    && (s.saved.None? <==> !TooLate(x, t.check) && x.CancelRecorded())
    && (s.saved.Some? ==>
          if TooLate(x, t.check) then Overdue(x, s.saved.value) else Requested(x, s.saved.value, reason, t.stamp))
  }

  /** A cancellation that meets an execution that waits to be continued. */
  predicate AfterIdleCancel(x: Execution, s: CancelStep, reason: string, t: Readings) {
    && s.token.None? && s.saved.Some? && !s.pending && (s.accepted <==> !TooLate(x, t.check) && !x.CancelRecorded())
    && (if TooLate(x, t.check) then
          && OverForDeadline(s.saved.value) && s.saved.value.metadata.cancellation == x.metadata.cancellation
          && s.saved.value.evidence
             == x.evidence + [ExecutionPhase(x.metadata.phase, x.executionId), DeadlinePassed]
        else CancelledIdle(x, s.saved.value, reason, t))
  }

  lemma RunningCancelMeans(x: Execution, token: Token, reason: string, t: Readings)
    requires !x.Terminal() && CancellationSound(x)
    ensures AfterRunningCancel(x, token, CancelRecord(x, Some(token), reason, t), reason, t)
  {
  }

  lemma IdleCancelMeans(x: Execution, reason: string, t: Readings)
    requires !x.Terminal() && CancellationSound(x)
    ensures AfterIdleCancel(x, CancelRecord(x, None, reason, t), reason, t)
  {
    hide DeadlineOutcome, StateFromResult;
    LateCancelMeans(x, t.signal);
  }

  lemma LateCancelMeans(x: Execution, at: int)
    ensures var y := StateFromResult(x.executionId, x.intent, DeadlineOutcome([], NoOutput), x.metadata.phase, Some(x),
                                     x.metadata.deadline, None, at);
            && OverForDeadline(y) && y.metadata.cancellation == x.metadata.cancellation
            && y.evidence == x.evidence + [ExecutionPhase(x.metadata.phase, x.executionId), DeadlinePassed]
  {
    hide DeadlineOutcome;
  }

  /**
   The step has done what the cancellation of a live execution decides: to the token at once, to the store if
   saved.
   */
  predicate Carries(o: Orchestrator, g: Orchestrator, reply: Reply, id: string, s: CancelStep, reason: string,
                    t: Readings, save: SaveOutcome) {
    && id in o.store
    && (if id in o.active then
          && o.active[id] in o.tokens && AfterRunningCancel(o.store[id], o.tokens[o.active[id]], s, reason, t)
          && g.tokens == o.tokens[o.active[id] := s.token.value]
        else AfterIdleCancel(o.store[id], s, reason, t) && g.tokens == o.tokens)
    && g.store == (if s.saved.None? || save == LostSave then o.store else o.store[id := s.saved.value])
    && reply == (if s.saved.None? || save == Saved then Answered else SaveRaised)
  }

  /**
   A cancellation leaves an unknown or completed execution as it is. On a running one it
   sets the token and writes the request down; one that waits is over at once, CANCELLED and
   confirmed. If the deadline came first it is the deadline that is announced or recorded.
   */
  lemma CancelDecides(o: Orchestrator, id: string, reason: string, t: Readings, save: SaveOutcome)
    requires Inv(o)
    ensures var (g, reply) := Step(o, Cancel(id, reason), t, save);
            && g.flights == o.flights && g.active == o.active
            && (id !in o.store ==> reply == Refused && g == o.(clock := t.signal))
            && (id in o.store && o.store[id].Terminal() ==> reply == Answered && g == o.(clock := t.signal))
            && (id in o.store && !o.store[id].Terminal() ==>
                  exists s: CancelStep :: Carries(o, g, reply, id, s, reason, t, save))
  {
    hide Inv, CancelRecord, Carries, CancellationSound;
    if id in o.store {
      var x, token := o.store[id], TokenOf(o, id);
      if id in o.active {
        ActiveToken(o, id);
      }
      if x.Terminal() {
        TerminalCancelMeans(x, token, reason, t);
        assert token.Some? ==> o.tokens[o.active[id] := token.value] == o.tokens;
      } else {
        LiveCancelCarries(o, id, reason, t, save);
      }
    }
  }

  lemma LiveCancelCarries(o: Orchestrator, id: string, reason: string, t: Readings, save: SaveOutcome)
    requires Inv(o) && id in o.store && !o.store[id].Terminal()
    ensures var (g, reply) := Step(o, Cancel(id, reason), t, save);
            && g.flights == o.flights && g.active == o.active
            && Carries(o, g, reply, id, CancelRecord(o.store[id], TokenOf(o, id), reason, t), reason, t, save)
  {
    hide Inv, CancelRecord, AfterRunningCancel, AfterIdleCancel, CancellationSound;
    StoredSound(o, id);
    var x := o.store[id];
    var s := CancelRecord(x, TokenOf(o, id), reason, t);
    if id in o.active {
      ActiveToken(o, id);
      RunningCancelMeans(x, o.tokens[o.active[id]], reason, t);
      RunningToken(x, o.tokens[o.active[id]], s, reason, t);
    } else {
      IdleCancelMeans(x, reason, t);
      IdleToken(x, s, reason, t);
    }
  }

  lemma TerminalCancelMeans(x: Execution, token: Option<Token>, reason: string, t: Readings)
    requires x.Terminal()
    ensures CancelRecord(x, token, reason, t) == CancelStep(None, token, false, false)
  {
  }

  lemma RunningToken(x: Execution, token: Token, s: CancelStep, reason: string, t: Readings)
    requires AfterRunningCancel(x, token, s, reason, t)
    ensures s.token.Some?
  {
  }

  lemma IdleToken(x: Execution, s: CancelStep, reason: string, t: Readings)
    requires AfterIdleCancel(x, s, reason, t)
    ensures s.token.None?
  {
  }

  // ---- Evaluating --------------------------------------------------------------------------------------

  /**
   The evaluation is about this execution, its Intent and its result, as far as it says, and the execution is
   over.
   */
  predicate Accepts(x: Execution, v: Evaluation) {
    && x.lifecycle == LifecycleCompleted && x.result.Some?
    && (v.executionId.Some? ==> v.executionId.value == x.executionId)
    && (v.intentId.Some? ==> v.intentId.value == x.intent.intentId)
    && (v.reference.Some? ==> v.reference == x.ResultReference())
  }

  /** One evaluation more, bound to execution, Intent and result, and the one that now applies; nothing else. */
  predicate Evaluated(x: Execution, y: Execution, v: Evaluation) {
    var bound := Evaluation(v.verdict, Some(x.executionId), Some(x.intent.intentId), x.ResultReference());
    y == x.(evaluations := x.evaluations + [bound]) && y.CurrentEvaluation() == Some(bound)
  }

  lemma EvaluationMeans(x: Execution, v: Evaluation)
    ensures EvaluateRecord(x, v).Some? <==> Accepts(x, v)
    ensures Accepts(x, v) ==> Evaluated(x, EvaluateRecord(x, v).value, v)
  {
  }

  /** Which evaluation applies: the latest, unless it names another result. */
  lemma EvaluationApplies(x: Execution)
    ensures x.CurrentEvaluation().Some? <==>
            && x.result.Some? && x.evaluations != []
            && x.evaluations[|x.evaluations| - 1].reference in {None, x.ResultReference()}
    ensures x.CurrentEvaluation().Some? ==> x.CurrentEvaluation().value == x.evaluations[|x.evaluations| - 1]
  {
  }

  /** An evaluation is recorded exactly if the stored execution accepts it, and then changes nothing else. */
  lemma EvaluateDecides(o: Orchestrator, id: string, v: Evaluation, t: Readings, save: SaveOutcome)
    ensures var (g, reply) := Step(o, Evaluate(id, v), t, save);
            && g.flights == o.flights && g.active == o.active && g.tokens == o.tokens
            && (if id in o.store && Accepts(o.store[id], v) then
                  && reply == (if save == Saved then Answered else SaveRaised)
                  && id in g.store && g.store == o.store[id := g.store[id]]
                  && (if save == LostSave then g.store == o.store else Evaluated(o.store[id], g.store[id], v))
                else reply == Refused && g.store == o.store)
  {
    hide EvaluateRecord, Accepts, Evaluated;
    if id in o.store {
      EvaluationMeans(o.store[id], v);
    }
  }

  // ---- From one step to the next -----------------------------------------------------------------------

  /** Nobody cancels or continues this execution. */
  predicate LeftAlone(events: seq<Timed>, id: string) {
    forall e <- events :: !(e.event.Cancel? && e.event.id == id) && !(e.event.Continue? && e.event.id == id)
  }

  lemma FlightIsRunning(o: Orchestrator, run: nat)
    requires Inv(o) && run in o.flights
    ensures o.flights[run].id in o.store && o.store[o.flights[run].id].lifecycle == LifecycleRunning
  {
    hide Inv, FlightSound, InStep, Untouched, CancellationSound;
    FlightIs(o, run);
  }

  lemma OnlyTerminalIsEvaluated(x: Execution, v: Evaluation)
    ensures EvaluateRecord(x, v).Some? ==> x.Terminal()
  {
  }

  lemma SubmitKeeps(o: Orchestrator, e: Event, t: Readings, save: SaveOutcome, id: string)
    requires e.Submit? && id in o.store
    ensures var g := SubmitStep(o, e, t, save).0; id in g.store && g.store[id] == o.store[id]
  {
    hide LateRecord, InitialRecord;
  }

  lemma ContinueKeeps(o: Orchestrator, e: Event, t: Readings, save: SaveOutcome, id: string)
    requires e.Continue? && e.id != id && id in o.store
    ensures var g := ContinueStepOf(o, e, t, save).0; id in g.store && g.store[id] == o.store[id]
  {
    hide ContinueRecord;
  }

  lemma FinishKeeps(o: Orchestrator, e: Event, t: Readings, save: SaveOutcome, id: string)
    requires e.Finish? && WellTyped(e) && id in o.store && (e.run in o.flights ==> o.flights[e.run].id != id)
    ensures var g := FinishStep(o, e, t, save).0; id in g.store && g.store[id] == o.store[id]
  {
    hide FinishRecord, WellTyped;
  }

  lemma CancelKeeps(o: Orchestrator, e: Event, t: Readings, save: SaveOutcome, id: string)
    requires e.Cancel? && e.id != id && id in o.store
    ensures var g := CancelStepOf(o, e, t, save).0; id in g.store && g.store[id] == o.store[id]
  {
    hide CancelRecord;
  }

  lemma EvaluateKeeps(o: Orchestrator, e: Event, save: SaveOutcome, id: string)
    requires e.Evaluate? && id in o.store && !o.store[id].Terminal()
    ensures var g := EvaluateStep(o, e, save).0; id in g.store && g.store[id] == o.store[id]
  {
    OnlyTerminalIsEvaluated(o.store[id], e.evaluation);
    hide EvaluateRecord;
  }

  lemma WaitsThrough(o: Orchestrator, e: Event, t: Readings, save: SaveOutcome, id: string)
    requires Inv(o) && WellTyped(e) && !(e.Cancel? && e.id == id) && !(e.Continue? && e.id == id)
    requires id in o.store && o.store[id].lifecycle == LifecycleInterrupted
    ensures var g := Step(o, e, t, save).0; id in g.store && g.store[id] == o.store[id]
  {
    hide Inv, SubmitStep, ContinueStepOf, FinishStep, CancelStepOf, EvaluateStep, WellTyped;
    match e
    case Submit(_, _, _) => SubmitKeeps(o, e, t, save, id);
    case Continue(_) => ContinueKeeps(o, e, t, save, id);
    case Finish(run, _) =>
      if run in o.flights {
        FlightIsRunning(o, run);
      }
      FinishKeeps(o, e, t, save, id);
    case Cancel(_, _) => CancelKeeps(o, e, t, save, id);
    case Evaluate(_, _) => EvaluateKeeps(o, e, save, id);
    case Crash =>
  }

  lemma {:induction false} Waits(o: Orchestrator, events: seq<Timed>, id: string)
    requires Inv(o) && Lawful(events, o.clock) && LeftAlone(events, id)
    requires id in o.store && o.store[id].lifecycle == LifecycleInterrupted
    ensures var g := After(o, events); id in g.store && g.store[id] == o.store[id]
    decreases |events|
  {
    hide Inv, Step, WellTyped;
    if events != [] {
      var e := events[0];
      assert e in events && forall other <- events[1..] :: other in events;
      StepGood(o, e.event, e.t, e.save);
      WaitsThrough(o, e.event, e.t, e.save, id);
      Waits(Step(o, e.event, e.t, e.save).0, events[1..], id);
    }
  }

  /**
   A run that asks to be continued can be. Its finish stores it as resumable unless the
   deadline came first; whatever else happens, crashes and failed saves included, the record
   stays exactly that until somebody cancels or continues it; and a continuation then starts
   the Arbiter on that record, with the finished run's result in it, as long as there is
   time left and its own save succeeds.
   */
  lemma InterruptedRunResumes(o: Orchestrator, run: nat, r: WorkerResult, t: Readings, events: seq<Timed>,
                              later: Readings, save: SaveOutcome)
    requires Inv(o) && run in o.flights && Constructed(r) && o.clock <= t.check && t.Forward()
    requires r.metadata.continuationPending && o.tokens[run] == Unset
    requires !Expired(o.flights[run].deadline, t.stamp)
    requires Lawful(events, t.signal) && LeftAlone(events, o.flights[run].id)
    ensures var f := o.flights[run];
            var o1 := Step(o, Finish(run, RunReturned(r)), t, Saved).0;
            var o2 := After(o1, events);
            var (g, reply) := Step(o2, Continue(f.id), later, save);
            && f.id in o1.store && f.id in o2.store && o2.store[f.id] == o1.store[f.id]
            && o1.store[f.id].lifecycle == LifecycleInterrupted && o1.store[f.id].result == Some(r)
            && o1.store[f.id].evidence == o.store[f.id].evidence + [ExecutionPhase(f.phase, f.id)] + r.evidence
            && (reply.Started? <==> !Expired(f.deadline, later.check) && save == Saved)
            && (reply.Started? ==> reply.run in g.flights && g.flights[reply.run].launched == Some(o1.store[f.id]))
  {
    hide Inv, Step, After, BegunFor, RunningAgain, AnsweredUnrun;
    var f := o.flights[run];
    NobodyAsked(o, run);
    FinishDecides(o, run, RunReturned(r), t, Saved);
    StepGood(o, Finish(run, RunReturned(r)), t, Saved);
    var o1 := Step(o, Finish(run, RunReturned(r)), t, Saved).0;
    Waits(o1, events, f.id);
    var o2 := After(o1, events);
    ContinueDecides(o2, f.id, later, save);
    var (g, reply) := Step(o2, Continue(f.id), later, save);
    if reply.Started? {
      BegunLaunched(o2, g, reply.run, f.id, Some(o2.store[f.id]), o2.store[f.id].metadata.deadline);
    }
  }

  lemma NobodyAsked(o: Orchestrator, run: nat)
    requires Inv(o) && run in o.flights && o.tokens[run] == Unset
    ensures o.flights[run].id in o.store
    ensures var x := o.store[o.flights[run].id];
            x.metadata.cancellation.None? && x.metadata.deadline == o.flights[run].deadline
  {
    hide Inv, FlightSound, InStep, Untouched, CancellationSound;
    FlightIs(o, run);
  }

  lemma BegunLaunched(o: Orchestrator, g: Orchestrator, run: nat, id: string, launched: Option<Execution>,
                      deadline: Option<int>)
    requires BegunFor(o, g, run, id, launched, deadline)
    ensures run in g.flights && g.flights[run].launched == launched
  {
  }
}
