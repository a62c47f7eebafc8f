/**
 The bridge from an Orchestrator's Worker call to the fleet: submit one task, poll
 it until it is terminal, and relay its result. Between any two actions of the
 loop, other callers may issue arbitrary operations to the same coordinator.
 */
module FleetDispatch {
  import opened Wrappers
  import opened Worker
  import opened FleetTask
  import opened FleetOutcomes
  import opened FleetMemory
  import opened FleetSteps
  import opened FleetRuns
  import opened FleetFencing
  import opened FleetCoordinator
  import opened FleetRecords
  import opened FleetAnswers
  import opened FleetDecisions
  import I = Intent

  /** The context of the call, at each poll. */
  datatype Surroundings = Surroundings(
    deadline: Option<int>,
    token: nat -> Token,
    wallClock: nat -> int,
    monotonic: nat -> int,
    others: nat -> seq<Event>,
    env: nat -> Env)

  /** Others only call the coordinator, with well-typed values; every poll takes time. */
  ghost predicate Lawful(s: Surroundings) {
    && (forall i: nat :: Typed(s.others(i)) && forall e <- s.others(i) :: e.Call?)
    && (forall i: nat :: s.monotonic(i) < s.monotonic(i + 1))
  }

  /** What `execute` returns, or the exception it lets through. */
  datatype Outcome = Returned(result: WorkerResult) | Propagated(error: FleetError)

  /** The result handed on for a terminal task. */
  function Relay(t: Task): WorkerResult
    requires t.result.Some?
  {
    var r := t.result.value;
    var rest := r.metadata.rest["fleet_task_id" := t.taskId]["fleet_execution_id" := t.executionId];
    r.(metadata := r.metadata.(rest := rest))
  }

  /** Everything a result says, but for the entries the dispatcher adds to its metadata. */
  predicate CarriesOver(a: WorkerResult, b: WorkerResult) {
    && b.status == a.status && b.outcome == a.outcome && b.output == a.output && b.workerId == a.workerId
    && b.evidence == a.evidence && b.error == a.error && b.errorCode == a.errorCode && b.retryable == a.retryable
    && b.artifacts == a.artifacts && b.observations == a.observations && b.eventIds == a.eventIds
    && b.metadata.terminationCause == a.metadata.terminationCause
    && b.metadata.continuationPending == a.metadata.continuationPending
  }

  lemma RelayIsConstructed(t: Task)
    requires TaskInv(t) && t.Terminal()
    ensures t.result.Some? && Constructed(Relay(t))
  {
    hide LeaseMatches, HistoryFits;
    PostInitIsStable(t.result.value);
  }

  /** Calls keep a terminal task terminal, every task known, and what it was submitted with. */
  lemma TaskStays(f: Fleet, e: Event, id: string)
    requires FleetInv(f) && f.phase != Down && Typed([e]) && e.Call? && id in f.memory.tasks
    ensures var g := Step(f, e).0;
            && g.phase != Down && id in g.memory.tasks && SameSubmission(f.memory.tasks[id], g.memory.tasks[id])
            && (f.memory.tasks[id].Terminal() ==> g.memory.tasks[id].Terminal())
  {
    hide Inv, MemoryEvolves, Step, GrantOf;
    StepGood(f, e);
    assert Evolves(f.memory.tasks[id], Step(f, e).0.memory.tasks[id]);
  }

  /** A cancellation that does not raise leaves the task terminal. */
  lemma CancelEnds(f: Fleet, id: string, reason: string, cause: TerminationTag, env: Env)
    requires FleetInv(f) && f.phase != Down && id in f.memory.tasks
    requires !Step(f, Call(Cancel(id, reason, cause), env)).1.Raised?
    ensures var g := Step(f, Call(Cancel(id, reason, cause), env)).0;
            id in g.memory.tasks && g.memory.tasks[id].Terminal()
  {
    hide Inv, MemoryEvolves, Commit, CancelTask, TaskInv, PutTask;
    TaskOf(f.memory, id);
    CancelTaskEnds(f.memory.tasks[id], reason, cause);
    var op := Cancel(id, reason, cause);
    var e := CancelEffect(f.memory, op);
    CommitReplies(f, e.saves, e.reply, env.saves, 0);
    AnswerIsInMemory(f, op, env);
  }

  lemma CancelTaskEnds(t: Task, reason: string, cause: TerminationTag)
    ensures CancelTask(t, reason, cause).Terminal() && CancelTask(t, reason, cause).taskId == t.taskId
  {
  }

  /** The record is that of this submission: its identity, its key and its arguments. */
  predicate IsSubmission(t: Task, op: Op)
    requires op.Submit?
  {
    op.taskId == Some(t.taskId) && op.key == Some(t.idempotencyKey) && SameArguments(t, op)
  }

  lemma SubmitEffectIsSubmission(m: Memory, op: Op, env: Env)
    requires op.Submit? && op.taskId.Some? && op.key.Some? && !SubmitEffect(m, op, env).reply.Raised?
    requires Inv(m)
    ensures var r := SubmitEffect(m, op, env).reply; r.TaskReply? && IsSubmission(r.task, op)
  {
    hide TaskInv, FirstWithKey, PutTask, Indexed;
    FoundHasKey(m, op.key.value, m.taskOrder);
    if op.taskId.value in m.tasks {
      TaskOf(m, op.taskId.value);
    }
  }

  /** A submission that names its task and does not raise leaves that task known, with these arguments. */
  lemma SubmitKnows(f: Fleet, op: Op, env: Env)
    requires FleetInv(f) && f.phase != Down && op.Submit? && op.taskId.Some? && op.key.Some?
    requires !Step(f, Call(op, env)).1.Raised?
    ensures var (g, r) := Step(f, Call(op, env));
            && r.TaskReply? && op.taskId == Some(r.task.taskId) && r.task.taskId in g.memory.tasks
            && IsSubmission(g.memory.tasks[r.task.taskId], op)
  {
    hide Inv, MemoryEvolves, Commit, SubmitEffect, IsSubmission, FleetInv;
    assert Inv(f.memory) by { MemoryInv(f); }
    var e := SubmitEffect(f.memory, op, env);
    CommitReplies(f, e.saves, e.reply, env.saves, 0);
    SubmitEffectIsSubmission(f.memory, op, env);
    AnswerIsInMemory(f, op, env);
    SubmissionNamed(e.reply.task, op);
  }

  lemma SubmissionNamed(t: Task, op: Op)
    requires op.Submit? && IsSubmission(t, op)
    ensures op.taskId == Some(t.taskId)
  {
  }

  lemma SubmissionStays(a: Task, b: Task, op: Op)
    requires op.Submit? && IsSubmission(a, op) && SameSubmission(a, b)
    ensures IsSubmission(b, op)
  {
  }

  /** At the k-th poll the call has to end: its context shows a cause, or its time to wait is over. */
  predicate GivesUp(s: Surroundings, waitTimeout: int, k: nat) {
    || TerminationCause(s.token(k), s.deadline, s.wallClock(k)).Some?
    || s.monotonic(k + 1) >= s.monotonic(0) + waitTimeout
  }

  // ---- What a poll asks for --------------------------------------------------------------------

  /** The cause the context shows at the k-th poll. */
  function CauseAt(s: Surroundings, k: nat): Option<Cause> {
    TerminationCause(s.token(k), s.deadline, s.wallClock(k))
  }

  /** The termination the k-th poll asks for, if any: for the cause shown, else because the time to wait is over. */
  function Asked(s: Surroundings, waitTimeout: int, id: string, k: nat): Option<Op> {
    match CauseAt(s, k)
    case Some(CauseDeadline) => Some(Cancel(id, "execution deadline exceeded", TagDeadlineExceeded))
    case Some(CauseCancelled) => Some(Cancel(id, s.token(k).reason, TagCancelled))
    case None =>
      if s.monotonic(k + 1) >= s.monotonic(0) + waitTimeout
      then Some(Cancel(id, "fleet Worker result timed out", TagWorkerTimeout)) else None
  }

  lemma AskedWhenDue(s: Surroundings, waitTimeout: int, id: string, k: nat)
    ensures Asked(s, waitTimeout, id, k).Some? <==> GivesUp(s, waitTimeout, k)
    ensures var a := Asked(s, waitTimeout, id, k); a.Some? ==> a.value.Cancel? && a.value.id == id
  {
  }

  /** The call the k-th poll makes. */
  function OwnCall(s: Surroundings, waitTimeout: int, id: string, k: nat): seq<Event> {
    var a := Asked(s, waitTimeout, id, k);
    if a.Some? then [Call(a.value, s.env(2 * k + 1))] else []
  }

  /** All that is asked of the coordinator, by this call and by others, before the k-th poll. */
  ghost function Story(op: Op, s: Surroundings, waitTimeout: int, id: string, k: nat): seq<Event> {
    if k == 0 then [Call(op, s.env(0))]
    else
      Story(op, s, waitTimeout, id, k - 1) + s.others(2 * (k - 1)) + s.others(2 * (k - 1) + 1)
      + OwnCall(s, waitTimeout, id, k - 1)
  }

  /** The coordinator as the k-th poll finds it when it may ask for termination. */
  ghost function FoundAt(f: Fleet, op: Op, s: Surroundings, waitTimeout: int, id: string, k: nat): Fleet {
    After(f, Story(op, s, waitTimeout, id, k) + s.others(2 * k) + s.others(2 * k + 1))
  }

  /**
   A result that says what the k-th poll saw: CANCELLED with the token's reason if that was
   the first cause, otherwise FAILED, for the deadline or because the wait was over.
   */
  predicate SaysWhatPollSaw(r: WorkerResult, s: Surroundings, k: nat) {
    match CauseAt(s, k)
    case Some(CauseDeadline) =>
      r.status == StatusFailed && WrittenFor(r, TagDeadlineExceeded, [FleetTaskTerminated(TagDeadlineExceeded)])
    case Some(CauseCancelled) =>
      && r.status == StatusCancelled && WrittenFor(r, TagCancelled, [FleetTaskTerminated(TagCancelled)])
      && s.token(k).Set? && r.error == s.token(k).reason
    case None => r.status == StatusFailed && WrittenFor(r, TagWorkerTimeout, [FleetTaskTerminated(TagWorkerTimeout)])
  }

  /** The store has the record, if no save has failed; otherwise it has that or an earlier state of it, if any. */
  ghost predicate StoredOrEarlier(f: Fleet, t: Task) {
    && (f.phase == Up ==> Holds(f, t))
    && (f.durable.Some? && t.taskId in f.durable.value.tasks ==> Evolves(f.durable.value.tasks[t.taskId], t))
  }

  /** The result is that of the submitted task, which is terminal and no longer leased. */
  ghost predicate Relayed(f: Fleet, id: string, op: Op, r: WorkerResult)
    requires op.Submit?
  {
    && id in f.memory.tasks
    && var t := f.memory.tasks[id];
      && IsSubmission(t, op) && t.Terminal() && t.lease.None? && t.result.Some?
      && Constructed(r) && CarriesOver(t.result.value, r) && StoredOrEarlier(f, t)
      && r.metadata.rest
         == t.result.value.metadata.rest["fleet_task_id" := id]["fleet_execution_id" := op.executionId]
  }

  // ---- What becomes of the task afterwards -----------------------------------------------------

  /** Some of the events is a renewal of this task at or after its deadline. */
  ghost predicate RenewedLate(events: seq<Event>, t: Task) {
    exists e <- events :: e.Call? && LateRenewal(e.op, e.env, t)
  }

  /** A terminal record in memory stays as it is under calls, but for a renewal after its deadline. */
  lemma {:induction false} TerminalInMemory(f: Fleet, events: seq<Event>, id: string)
    requires FleetInv(f) && f.phase != Down && Typed(events) && forall e <- events :: e.Call?
    requires id in f.memory.tasks && f.memory.tasks[id].Terminal()
    ensures var t, g := f.memory.tasks[id], After(f, events);
            && id in g.memory.tasks
            && g.memory.tasks[id] == (if RenewedLate(events, t) then FinishDeadline(t) else t)
    decreases |events|
  {
    hide Inv, MemoryEvolves, Step, Typed, LateRenewal, FleetInv, FinishDeadline, MemorySteps;
    if events != [] {
      var t, f1 := f.memory.tasks[id], Step(f, events[0]).0;
      SplitTyped(events);
      assert events[0] in events && forall e <- events[1..] :: e in events;
      StepGood(f, events[0]);
      assert WellTyped(events[0].op) by { FirstTyped(events); }
      TerminalStep(f, events[0].op, events[0].env, id);
      LateAgain(t);
      TerminalInMemory(f1, events[1..], id);
      assert events == [events[0]] + events[1..];
    }
  }

  lemma FirstTyped(events: seq<Event>)
    requires events != [] && Typed(events) && events[0].Call?
    ensures WellTyped(events[0].op)
  {
  }

  lemma TerminalStep(f: Fleet, op: Op, env: Env, id: string)
    requires FleetInv(f) && WellTyped(op) && f.phase != Down && id in f.memory.tasks && f.memory.tasks[id].Terminal()
    ensures var t, g := f.memory.tasks[id], Step(f, Call(op, env)).0;
            && id in g.memory.tasks
            && g.memory.tasks[id] == (if LateRenewal(op, env, t) then FinishDeadline(t) else t)
  {
    hide Inv, MemoryEvolves, Step, LateRenewal, FleetInv, FinishDeadline;
    TerminalRecordChanges(f, op, env, id);
  }

  /** Finishing for the deadline once is finishing for good. */
  lemma LateAgain(t: Task)
    ensures FinishDeadline(FinishDeadline(t)) == FinishDeadline(t) && FinishDeadline(t).Terminal()
    ensures forall op, env :: LateRenewal(op, env, FinishDeadline(t)) == LateRenewal(op, env, t)
  {
  }

  lemma {:induction false} AfterBoth(f: Fleet, a: seq<Event>, b: seq<Event>)
    ensures After(f, a + b) == After(After(f, a), b)
    decreases |a|
  {
    hide Step;
    if a == [] {
      assert a + b == b;
    } else {
      assert (a + b)[1..] == a[1..] + b;
      AfterBoth(Step(f, a[0]).0, a[1..], b);
    }
  }

  lemma AfterOne(f: Fleet, e: Event)
    ensures After(f, [e]) == Step(f, e).0
  {
    hide Step;
    assert [e][1..] == [];
    assert After(Step(f, e).0, []) == Step(f, e).0;
  }

  /** If this cancellation found the task live and did not raise, the record it left says what the poll saw. */
  lemma CancelSays(f: Fleet, s: Surroundings, waitTimeout: int, id: string, k: nat)
    requires FleetInv(f) && f.phase != Down && id in f.memory.tasks && !f.memory.tasks[id].Terminal()
    requires var a := Asked(s, waitTimeout, id, k); a.Some? && !Step(f, Call(a.value, s.env(2 * k + 1))).1.Raised?
    ensures var g := Step(f, Call(Asked(s, waitTimeout, id, k).value, s.env(2 * k + 1))).0;
            && id in g.memory.tasks && g.memory.tasks[id].result.Some?
            && SaysWhatPollSaw(g.memory.tasks[id].result.value, s, k)
  {
    hide FleetInv, Step, SavedAs, Asked, AfterCancel, SaysWhatPollSaw;
    var op := Asked(s, waitTimeout, id, k).value;
    AskedWhenDue(s, waitTimeout, id, k);
    CancelDecides(f, op, s.env(2 * k + 1));
    RecordSays(f.memory.tasks[id], Step(f, Call(op, s.env(2 * k + 1))).0.memory.tasks[id], s, waitTimeout, id, k);
  }

  lemma RecordSays(t: Task, u: Task, s: Surroundings, waitTimeout: int, id: string, k: nat)
    requires var a := Asked(s, waitTimeout, id, k);
             a.Some? && a.value.Cancel? && !t.Terminal() && AfterCancel(t, u, a.value.reason, a.value.cause)
    ensures u.result.Some? && SaysWhatPollSaw(u.result.value, s, k)
  {
    hide TerminationCause;
    CancelledIsSet(s, k);
  }

  lemma CancelledIsSet(s: Surroundings, k: nat)
    ensures CauseAt(s, k) == Some(CauseCancelled) ==> s.token(k).Set?
  {
  }

  /**
   What a call that cancelled at its k-th poll returns, if that cancellation found the task
   live: what the poll saw, unless somebody then renewed the task after its deadline.
   */
  ghost predicate DecidedByPoll(f: Fleet, op: Op, s: Surroundings, waitTimeout: int, id: string, k: nat,
                                r: WorkerResult) {
    var found := FoundAt(f, op, s, waitTimeout, id, k);
    && id in found.memory.tasks
    && (!found.memory.tasks[id].Terminal() ==>
          if RenewedLate(s.others(2 * (k + 1)), found.memory.tasks[id])
          then r.status == StatusFailed && WrittenFor(r, TagDeadlineExceeded, [TaskDeadlineExpired])
          else SaysWhatPollSaw(r, s, k))
  }

  /** Right after the cancellation of the k-th poll: the record says what the poll saw, if it was live before. */
  ghost predicate JustDecided(found: Fleet, g: Fleet, s: Surroundings, id: string, k: nat) {
    && id in found.memory.tasks && id in g.memory.tasks
    && SameSubmission(found.memory.tasks[id], g.memory.tasks[id])
    && (!found.memory.tasks[id].Terminal() ==>
          g.memory.tasks[id].result.Some? && SaysWhatPollSaw(g.memory.tasks[id].result.value, s, k))
  }

  lemma CancelDecidesNow(found: Fleet, s: Surroundings, waitTimeout: int, id: string, k: nat)
    requires FleetInv(found) && found.phase != Down && id in found.memory.tasks && Asked(s, waitTimeout, id, k).Some?
    requires !Step(found, OwnCall(s, waitTimeout, id, k)[0]).1.Raised?
    ensures JustDecided(found, Step(found, OwnCall(s, waitTimeout, id, k)[0]).0, s, id, k)
  {
    hide FleetInv, Step, SaysWhatPollSaw, Asked, SameSubmission;
    AskedWhenDue(s, waitTimeout, id, k);
    TaskStays(found, OwnCall(s, waitTimeout, id, k)[0], id);
    if !found.memory.tasks[id].Terminal() {
      CancelSays(found, s, waitTimeout, id, k);
    }
  }

  lemma SaysCarries(a: WorkerResult, b: WorkerResult, s: Surroundings, k: nat)
    requires CarriesOver(a, b)
    ensures SaysWhatPollSaw(a, s, k) ==> SaysWhatPollSaw(b, s, k)
    ensures forall tag, evidence :: WrittenFor(a, tag, evidence) ==> WrittenFor(b, tag, evidence)
  {
    hide TerminationCause;
    CancelledIsSet(s, k);
  }

  lemma SameLateness(a: Task, b: Task, events: seq<Event>)
    requires SameSubmission(a, b)
    ensures RenewedLate(events, a) == RenewedLate(events, b)
  {
    assert forall op, env :: LateRenewal(op, env, a) == LateRenewal(op, env, b);
  }

  /** From the cancellation to what the loop returns, over what others do in between. */
  lemma DecisionHolds(found: Fleet, g: Fleet, s: Surroundings, id: string, k: nat, events: seq<Event>)
    requires FleetInv(g) && g.phase != Down && Typed(events) && forall e <- events :: e.Call?
    requires JustDecided(found, g, s, id, k) && g.memory.tasks[id].Terminal()
    ensures var h := After(g, events);
            && id in h.memory.tasks && h.memory.tasks[id].result.Some?
            && (!found.memory.tasks[id].Terminal() ==>
                  var r := Relay(h.memory.tasks[id]);
                  if RenewedLate(events, found.memory.tasks[id])
                  then r.status == StatusFailed && WrittenFor(r, TagDeadlineExceeded, [TaskDeadlineExpired])
                  else SaysWhatPollSaw(r, s, k))
  {
    hide FleetInv, SaysWhatPollSaw, WrittenFor, After, Typed, RenewedLate, TaskInv, Inv;
    TerminalInMemory(g, events, id);
    MemoryInv(g);
    TaskOf(g.memory, id);
    var t, h := g.memory.tasks[id], After(g, events);
    SameLateness(found.memory.tasks[id], t, events);
    TerminalHasResult(t);
    DeadlineMeans(t);
    SaysCarries(h.memory.tasks[id].result.value, Relay(h.memory.tasks[id]), s, k);
    FinishedFails(t);
  }

  lemma TerminalHasResult(t: Task)
    requires TaskInv(t) && t.Terminal()
    ensures t.result.Some?
  {
  }

  lemma FinishedFails(t: Task)
    ensures FinishDeadline(t).result.Some?
    ensures WrittenFor(FinishDeadline(t).result.value, TagDeadlineExceeded, [TaskDeadlineExpired])
    ensures Relay(FinishDeadline(t)).status == StatusFailed
  {
    hide WrittenFor;
    DeadlineMeans(t);
  }

  /**
   Before the k-th poll: the coordinator has been told this story, and a cancellation was decided by the poll
   before.
   */
  ghost predicate Told(f: Fleet, g: Fleet, op: Op, s: Surroundings, waitTimeout: int, id: string, k: nat,
                       cancels: nat) {
    && g == After(f, Story(op, s, waitTimeout, id, k))
    && (cancels == 1 ==>
          && k > 0 && g.phase != Down && id in g.memory.tasks && g.memory.tasks[id].Terminal()
          && JustDecided(FoundAt(f, op, s, waitTimeout, id, k - 1), g, s, id, k - 1))
  }

  lemma ToldStarts(f: Fleet, g: Fleet, op: Op, s: Surroundings, waitTimeout: int, id: string)
    requires g == Step(f, Call(op, s.env(0))).0
    ensures Told(f, g, op, s, waitTimeout, id, 0, 0)
  {
    hide Step, After, JustDecided, FoundAt;
    AfterOne(f, Call(op, s.env(0)));
  }

  /** What the loop observes once others have acted, if it returns. */
  lemma ToldEnds(f: Fleet, g: Fleet, op: Op, s: Surroundings, waitTimeout: int, id: string, k: nat, cancels: nat)
    requires Told(f, g, op, s, waitTimeout, id, k, cancels) && FleetInv(g) && Lawful(s)
    ensures var h := After(g, s.others(2 * k));
            && h == After(f, Story(op, s, waitTimeout, id, k) + s.others(2 * k))
            && (cancels == 1 ==>
                  && k > 0 && id in h.memory.tasks && h.memory.tasks[id].result.Some?
                  && DecidedByPoll(f, op, s, waitTimeout, id, k - 1, Relay(h.memory.tasks[id])))
  {
    hide FleetInv, After, JustDecided, SaysWhatPollSaw, WrittenFor, Relay, FoundAt, Story, Typed, RenewedLate;
    AfterBoth(f, Story(op, s, waitTimeout, id, k), s.others(2 * k));
    if cancels == 1 {
      var found := FoundAt(f, op, s, waitTimeout, id, k - 1);
      FoundKnows(found, g, s, id, k - 1);
      DecisionHolds(found, g, s, id, k - 1, s.others(2 * k));
    }
  }

  lemma FoundKnows(found: Fleet, g: Fleet, s: Surroundings, id: string, k: nat)
    requires JustDecided(found, g, s, id, k)
    ensures id in found.memory.tasks
  {
  }

  /** What the loop finds when it may ask for termination. */
  lemma ToldFound(f: Fleet, g: Fleet, op: Op, s: Surroundings, waitTimeout: int, id: string, k: nat, cancels: nat)
    requires Told(f, g, op, s, waitTimeout, id, k, cancels)
    ensures After(After(g, s.others(2 * k)), s.others(2 * k + 1)) == FoundAt(f, op, s, waitTimeout, id, k)
  {
    hide After, JustDecided;
    AfterBoth(f, Story(op, s, waitTimeout, id, k), s.others(2 * k));
    AfterBoth(f, Story(op, s, waitTimeout, id, k) + s.others(2 * k), s.others(2 * k + 1));
  }

  /** A poll that asked for nothing, or whose cancellation did not raise, leads to the next. */
  lemma ToldNext(f: Fleet, g: Fleet, op: Op, s: Surroundings, waitTimeout: int, id: string, k: nat)
    requires var found, a := FoundAt(f, op, s, waitTimeout, id, k), Asked(s, waitTimeout, id, k);
             && FleetInv(found) && found.phase != Down && id in found.memory.tasks
             && (if a.None? then g == found
                 else
                   var (h, reply) := Step(found, OwnCall(s, waitTimeout, id, k)[0]);
                   g == h && !reply.Raised? && g.phase != Down && id in g.memory.tasks && g.memory.tasks[id].Terminal())
    ensures Told(f, g, op, s, waitTimeout, id, k + 1, if Asked(s, waitTimeout, id, k).Some? then 1 else 0)
  {
    hide FleetInv, Step, After, JustDecided, Asked;
    var found := FoundAt(f, op, s, waitTimeout, id, k);
    var told := Story(op, s, waitTimeout, id, k) + s.others(2 * k) + s.others(2 * k + 1);
    AfterBoth(f, told, OwnCall(s, waitTimeout, id, k));
    if Asked(s, waitTimeout, id, k).Some? {
      AfterOne(found, OwnCall(s, waitTimeout, id, k)[0]);
      CancelDecidesNow(found, s, waitTimeout, id, k);
    } else {
      AfterNone(found);
    }
  }

  /**
   The whole account of a call that found the coordinator at `f` and left it at `g`. If it
   returns, the coordinator was told exactly this story, and a result of its own
   cancellation says what the last poll saw. An exception is the coordinator's answer to
   that cancellation or, without one, to the submission.
   */
  ghost predicate Accounted(f: Fleet, g: Fleet, op: Op, s: Surroundings, waitTimeout: int, id: string, polls: nat,
                            cancels: nat, r: Outcome) {
    match r
    case Returned(result) =>
      && g == After(f, Story(op, s, waitTimeout, id, polls) + s.others(2 * polls))
      && (cancels == 1 ==> polls > 0 && DecidedByPoll(f, op, s, waitTimeout, id, polls - 1, result))
    case Propagated(error) =>
      if cancels == 1 then
        && GivesUp(s, waitTimeout, polls)
        && Asked(s, waitTimeout, id, polls).Some?
        && Step(FoundAt(f, op, s, waitTimeout, id, polls), OwnCall(s, waitTimeout, id, polls)[0]).1 == Raised(error)
      else Step(f, Call(op, s.env(0))).1 == Raised(error)
  }

  lemma RefusedAccount(f: Fleet, op: Op, s: Surroundings, waitTimeout: int, id: string, error: FleetError)
    requires Step(f, Call(op, s.env(0))).1 == Raised(error)
    ensures forall g :: Accounted(f, g, op, s, waitTimeout, id, 0, 0, Propagated(error))
  {
    hide Step, After;
  }

  lemma ReturnedAccount(f: Fleet, g: Fleet, op: Op, s: Surroundings, waitTimeout: int, id: string, k: nat,
                        cancels: nat)
    requires Told(f, g, op, s, waitTimeout, id, k, cancels) && FleetInv(g) && Lawful(s)
    ensures var h := After(g, s.others(2 * k));
            id in h.memory.tasks && h.memory.tasks[id].result.Some? ==>
              Accounted(f, h, op, s, waitTimeout, id, k, cancels, Returned(Relay(h.memory.tasks[id])))
  {
    hide FleetInv, Step, After, Story, FoundAt, Told, DecidedByPoll, Relay;
    ToldEnds(f, g, op, s, waitTimeout, id, k, cancels);
  }

  lemma RaisedAccount(f: Fleet, op: Op, s: Surroundings, waitTimeout: int, id: string, k: nat, error: FleetError)
    requires Asked(s, waitTimeout, id, k).Some?
    requires Step(FoundAt(f, op, s, waitTimeout, id, k), OwnCall(s, waitTimeout, id, k)[0]).1 == Raised(error)
    ensures forall g :: Accounted(f, g, op, s, waitTimeout, id, k, 1, Propagated(error))
  {
    hide Step, FoundAt, Asked, GivesUp;
    AskedWhenDue(s, waitTimeout, id, k);
  }

  class FleetDispatchWorker {
    const coordinator: Coordinator
    const required: seq<string>
    const maxAttempts: int
    const waitTimeout: int

    constructor (coordinator: Coordinator, required: seq<string>, maxAttempts: int, waitTimeout: int)
      requires maxAttempts >= 1 && waitTimeout > 0
      ensures this.coordinator == coordinator && this.required == required
      ensures this.maxAttempts == maxAttempts && this.waitTimeout == waitTimeout
    {
      this.coordinator := coordinator;
      this.required := required;
      this.maxAttempts := maxAttempts;
      this.waitTimeout := waitTimeout;
    }

    /** The coordinator knows the task of this submission. */
    ghost predicate Follows(id: string, op: Op)
      requires op.Submit?
      reads coordinator, coordinator.store
    {
      coordinator.Valid() && id in coordinator.Mem().tasks && IsSubmission(coordinator.Mem().tasks[id], op)
    }

    /** The task is known and terminal. */
    ghost predicate Over(id: string)
      reads coordinator
    {
      id in coordinator.Mem().tasks && coordinator.Mem().tasks[id].Terminal()
    }

    /** Everything other callers do before the loop acts again. */
    method Interfere(events: seq<Event>, ghost id: string, ghost op: Op)
      requires op.Submit? && Follows(id, op) && Typed(events) && forall e <- events :: e.Call?
      modifies coordinator, coordinator.store
      ensures Follows(id, op) && (old(Over(id)) ==> Over(id))
      ensures coordinator.State() == After(old(coordinator.State()), events)
    {
      hide Step, IsSubmission, SameSubmission, FleetInv, After;
      var i := 0;
      ghost var start := coordinator.State();
      AfterNone(start);
      assert events[..0] == [];
      while i < |events|
        invariant 0 <= i <= |events| && Follows(id, op) && (old(Over(id)) ==> Over(id))
        invariant coordinator.State() == After(start, events[..i])
      {
        assert events[i] in events;
        ghost var f := coordinator.State();
        AfterSnoc(start, events[..i], events[i]);
        assert events[..i + 1] == events[..i] + [events[i]];
        TaskStays(f, events[i], id);
        SubmissionStays(f.memory.tasks[id], Step(f, events[i]).0.memory.tasks[id], op);
        var _ := coordinator.Perform(events[i].op, events[i].env);
        i := i + 1;
      }
      assert events[..|events|] == events;
    }

    /** Ask for termination; an exception of `cancel_task` goes through. */
    method Terminate(id: string, reason: string, cause: TerminationTag, env: Env, ghost op: Op)
      returns (error: Option<FleetError>)
      requires op.Submit? && Follows(id, op)
      modifies coordinator, coordinator.store
      ensures coordinator.Valid() && Follows(id, op) && (error.None? ==> Over(id))
      ensures var (g, reply) := Step(old(coordinator.State()), Call(Cancel(id, reason, cause), env));
              coordinator.State() == g && error == (if reply.Raised? then Some(reply.error) else None)
    {
      hide Step, IsSubmission, SameSubmission, FleetInv;
      ghost var f, e := coordinator.State(), Call(Cancel(id, reason, cause), env);
      TaskStays(f, e, id);
      SubmissionStays(f.memory.tasks[id], Step(f, e).0.memory.tasks[id], op);
      var reply := coordinator.CancelTaskOf(id, reason, cause, env);
      if reply.Raised? {
        return Some(reply.error);
      }
      CancelEnds(f, id, reason, cause, env);
      error := None;
    }

    /** The middle of a poll: ask for termination if the call has to give up. */
    method EndIfDue(id: string, s: Surroundings, k: nat, expiresAt: int, ghost op: Op)
      returns (asked: bool, error: Option<FleetError>)
      requires op.Submit? && Follows(id, op) && expiresAt == s.monotonic(0) + waitTimeout
      modifies coordinator, coordinator.store
      ensures coordinator.Valid() && Follows(id, op) && asked == GivesUp(s, waitTimeout, k) && (error.Some? ==> asked)
      ensures if asked then error.None? ==> Over(id) else s.monotonic(k + 1) < expiresAt
      ensures asked == Asked(s, waitTimeout, id, k).Some?
      ensures if asked then
                var (g, reply) := Step(old(coordinator.State()), OwnCall(s, waitTimeout, id, k)[0]);
                coordinator.State() == g && error == (if reply.Raised? then Some(reply.error) else None)
              else coordinator.State() == old(coordinator.State())
    {
      hide IsSubmission, FleetInv, Step;
      asked, error := true, None;
      var cause := TerminationCause(s.token(k), s.deadline, s.wallClock(k));
      var remaining := expiresAt - s.monotonic(k + 1);
      if cause == Some(CauseDeadline) {
        error := Terminate(id, "execution deadline exceeded", TagDeadlineExceeded, s.env(2 * k + 1), op);
      } else if cause == Some(CauseCancelled) {
        error := Terminate(id, s.token(k).reason, TagCancelled, s.env(2 * k + 1), op);
      } else if remaining <= 0 {
        error := Terminate(id, "fleet Worker result timed out", TagWorkerTimeout, s.env(2 * k + 1), op);
      } else {
        asked := false;
      }
    }

    /** The rest of a poll that found the task live: others act again, then the call gives up if it is due to. */
    method GiveUpIfDue(id: string, s: Surroundings, k: nat, expiresAt: int, ghost op: Op, ghost f: Fleet,
                       ghost g: Fleet)
      returns (asked: bool, error: Option<FleetError>)
      requires op.Submit? && Follows(id, op) && expiresAt == s.monotonic(0) + waitTimeout && Lawful(s)
      requires Told(f, g, op, s, waitTimeout, id, k, 0) && coordinator.State() == After(g, s.others(2 * k))
      modifies coordinator, coordinator.store
      ensures coordinator.Valid() && Follows(id, op) && asked == GivesUp(s, waitTimeout, k) && (error.Some? ==> asked)
      ensures if asked then error.None? ==> Over(id) else s.monotonic(k + 1) < expiresAt
      ensures match error
              case None => Told(f, coordinator.State(), op, s, waitTimeout, id, k + 1, if asked then 1 else 0)
              case Some(e) => Accounted(f, coordinator.State(), op, s, waitTimeout, id, k, 1, Propagated(e))
    {
      hide Step, Follows, Over, GivesUp, IsSubmission, FleetInv, SnapshotOf, After, FoundAt, Told, Asked, Accounted;
      ToldFound(f, g, op, s, waitTimeout, id, k, 0);
      Interfere(s.others(2 * k + 1), id, op);
      FollowsGood(id, op);
      asked, error := EndIfDue(id, s, k, expiresAt, op);
      FollowsGood(id, op);
      if error.Some? {
        RaisedAccount(f, op, s, waitTimeout, id, k, error.value);
      } else {
        ToldNext(f, coordinator.State(), op, s, waitTimeout, id, k);
      }
    }

    lemma Observes(id: string, op: Op)
      requires op.Submit? && Follows(id, op)
      ensures id in coordinator.tasks && coordinator.Valid()
      ensures coordinator.tasks[id].Terminal() <==> Over(id)
      ensures Over(id) ==> coordinator.tasks[id].result.Some?
                           && Relayed(coordinator.State(), id, op, Relay(coordinator.tasks[id]))
    {
      hide Inv, CarriesOver, Relay, Constructed, StoredOrEarlier, TaskInv, MemoryEvolves;
      if Over(id) {
        FinalTask(coordinator.State(), id);
      }
    }

    /** The submission `execute` makes. */
    function Submission(intent: I.Intent, executionId: string, taskId: string, key: string, deadline: Option<int>): Op {
      Submit(intent, executionId, required, Some(taskId), Some(key), maxAttempts, deadline)
    }

    /**
     `execute`. A returned result is that of the submitted task: it has the identity, the
     key and the arguments of this submission, is at that moment terminal, without a lease
     and with exactly this result in the coordinator. Unless one of the coordinator's saves
     has failed it is stored so; otherwise the store has at most an earlier state of it. The
     task is cancelled exactly if the call had to give up at a poll, then once; `Accounted`
     says what else the coordinator was asked, what a result of that cancellation says, and
     where an exception comes from.
     */
    method Execute(intent: I.Intent, executionId: string, taskId: string, key: string, s: Surroundings)
      returns (r: Outcome, cancels: nat, polls: nat)
      requires coordinator.Valid() && intent.Valid() && Lawful(s) && waitTimeout > 0
      modifies coordinator, coordinator.store
      ensures coordinator.Valid()
      ensures cancels <= 1 && polls <= waitTimeout + 1
      ensures r.Returned? ==>
                Relayed(coordinator.State(), taskId, Submission(intent, executionId, taskId, key, s.deadline), r.result)
      ensures r.Returned? ==> (cancels == 1 <==> exists k: nat :: k < polls && GivesUp(s, waitTimeout, k))
      ensures Accounted(old(coordinator.State()), coordinator.State(),
                        Submission(intent, executionId, taskId, key, s.deadline), s, waitTimeout, taskId, polls,
                        cancels, r)
    {
      hide Step, Follows, Over, Relayed, Relay, GivesUp, IsSubmission, FleetInv, SnapshotOf, After, Story, FoundAt,
           Told, DecidedByPoll, Asked, Accounted;
      cancels, polls := 0, 0;
      var op := Submission(intent, executionId, taskId, key, s.deadline);
      ghost var f := coordinator.State();
      var reply := coordinator.SubmitTask(op, s.env(0));
      if reply.Raised? {
        RefusedAccount(f, op, s, waitTimeout, taskId, reply.error);
        return Propagated(reply.error), cancels, polls;
      }
      SubmitKnows(f, op, s.env(0));
      var id := reply.task.taskId;
      StartsFollowing(id, op);
      ToldStarts(f, coordinator.State(), op, s, waitTimeout, id);
      var expiresAt := s.monotonic(0) + waitTimeout;
      while true
        invariant id == taskId && Follows(id, op)
        invariant cancels <= 1 && (cancels == 1 ==> Over(id))
        invariant cancels == 1 <==> exists k: nat :: k < polls && GivesUp(s, waitTimeout, k)
        invariant Told(f, coordinator.State(), op, s, waitTimeout, id, polls, cancels)
        invariant polls <= s.monotonic(polls) - s.monotonic(0)
        invariant polls <= waitTimeout + 1 && (!Over(id) ==> polls <= waitTimeout)
        decreases if Over(id) then 0 else 1 + (waitTimeout + 1 - polls)
      {
        ghost var g := coordinator.State();
        FollowsGood(id, op);
        Interfere(s.others(2 * polls), id, op);
        Observes(id, op);
        var observed := coordinator.ObserveTask(id);
        var t := observed.value;
        if t.Terminal() {
          if t.result.None? {
            // The program's "terminal state without a result" answer: never reached.
            assert false;
          }
          ReturnedAccount(f, g, op, s, waitTimeout, id, polls, cancels);
          return Returned(Relay(t)), cancels, polls;
        }
        var asked, error := GiveUpIfDue(id, s, polls, expiresAt, op, f, g);
        if asked {
          cancels := cancels + 1;
        }
        if error.Some? {
          return Propagated(error.value), cancels, polls;
        }
        polls := polls + 1;
      }
    }

    lemma FollowsGood(id: string, op: Op)
      requires op.Submit? && Follows(id, op)
      ensures FleetInv(coordinator.State()) && coordinator.State().phase != Down
      ensures id in coordinator.State().memory.tasks
      ensures coordinator.State().memory.tasks[id].Terminal() <==> Over(id)
    {
    }

    lemma StartsFollowing(id: string, op: Op)
      requires op.Submit? && coordinator.Valid() && id in coordinator.Mem().tasks
      requires IsSubmission(coordinator.Mem().tasks[id], op)
      ensures Follows(id, op) && coordinator.Valid()
    {
    }
  }

  /** What holds of a terminal task the loop observes. */
  lemma FinalTask(f: Fleet, id: string)
    requires FleetInv(f) && f.phase != Down && id in f.memory.tasks && f.memory.tasks[id].Terminal()
    ensures var t := f.memory.tasks[id];
            && t.lease.None? && t.result.Some? && Constructed(Relay(t)) && CarriesOver(t.result.value, Relay(t))
            && StoredOrEarlier(f, t) && t.taskId == id
            && Relay(t).metadata.rest
               == t.result.value.metadata.rest["fleet_task_id" := id]["fleet_execution_id" := t.executionId]
  {
    hide Inv, Holds, Evolves;
    TaskOf(f.memory, id);
    RelayIsConstructed(f.memory.tasks[id]);
    if f.phase == Up {
      UpHolds(f, id);
    }
  }
}
