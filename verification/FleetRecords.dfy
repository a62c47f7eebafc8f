/**
 What runs do to task records: where results come from, when a terminal record
 can change, that acknowledged terminal records survive crashes, that a
 fail-stopped coordinator leaves its store alone, and how often a task's status
 can change.
 */
module FleetRecords {
  import opened Wrappers
  import opened Worker
  import opened FleetTask
  import opened FleetMemory
  import opened FleetSteps
  import opened FleetRuns
  import opened FleetRecovery
  import opened FleetFencing

  // ---- Where results come from -------------------------------------------------

  /** The event is a report of `r` by the current lease holder, before the lease expiry and the task deadline. */
  ghost predicate AcceptedReport(f: Fleet, e: Event, id: string, r: WorkerResult) {
    && f.phase != Down && e.Call? && e.op.Report? && e.op.id == id && e.op.result == r && r.workerId == e.op.workerId
    && id in f.memory.tasks
    && var t := f.memory.tasks[id];
       var now := e.env.clock(0);
       && t.status == Running && t.lease.Some?
       && t.lease.value.workerId == e.op.workerId
       && t.lease.value.leaseId == e.op.leaseId
       && t.lease.value.generation == e.op.generation
       && now < t.lease.value.expiresAt
       && (t.deadline.Some? ==> now < t.deadline.value)
  }

  ghost predicate AcceptedIn(start: Fleet, events: seq<Event>, id: string, r: WorkerResult) {
    exists i | 0 <= i < |events| :: AcceptedReport(After(start, events[..i]), events[i], id, r)
  }

  ghost predicate ResultsFrom(m: Memory, start: Fleet, events: seq<Event>) {
    forall id <- m.tasks | m.tasks[id].result.Some? ::
      CoordinatorAuthored(m.tasks[id].result.value) || AcceptedIn(start, events, id, m.tasks[id].result.value)
  }

  lemma {:induction false} AfterSnoc(f: Fleet, events: seq<Event>, e: Event)
    ensures After(f, events + [e]) == Step(After(f, events), e).0
    decreases |events|
  {
    if events == [] {
      assert (events + [e])[1..] == [];
    } else {
      assert (events + [e])[1..] == events[1..] + [e];
      AfterSnoc(Step(f, events[0]).0, events[1..], e);
    }
  }

  lemma AcceptedStays(start: Fleet, events: seq<Event>, e: Event, id: string, r: WorkerResult)
    requires AcceptedIn(start, events, id, r)
    ensures AcceptedIn(start, events + [e], id, r)
  {
    hide AcceptedReport, After;
    var i :| 0 <= i < |events| && AcceptedReport(After(start, events[..i]), events[i], id, r);
    assert (events + [e])[..i] == events[..i];
    assert AcceptedReport(After(start, (events + [e])[..i]), (events + [e])[i], id, r);
  }

  /** A step carries the property from the memory it starts in to any memory it leaves or stores. */
  lemma ResultsStep(m: Memory, m': Memory, g: Grant, start: Fleet, events: seq<Event>, e: Event)
    requires Inv(m) && Inv(m') && MemorySteps(m, m', g) && ResultsFrom(m, start, events)
    requires forall id, r :: g == ReportOf(id, r) ==> AcceptedReport(After(start, events), e, id, r)
    ensures ResultsFrom(m', start, events + [e])
  {
    hide After, AcceptedReport, AcceptedIn, Evolves, CoordinatorAuthored;
    forall id <- m'.tasks | m'.tasks[id].result.Some?
      ensures CoordinatorAuthored(m'.tasks[id].result.value)
              || AcceptedIn(start, events + [e], id, m'.tasks[id].result.value)
    {
      var r := m'.tasks[id].result.value;
      TaskOf(m', id);
      if g == ReportOf(id, r) {
        AcceptedNow(start, events, e, id, r);
      } else if id in m.tasks && m.tasks[id].result == Some(r) && !CoordinatorAuthored(r) {
        AcceptedStays(start, events, e, id, r);
      } else if id in m.tasks {
        TaskOf(m, id);
      }
    }
  }

  lemma AcceptedNow(start: Fleet, events: seq<Event>, e: Event, id: string, r: WorkerResult)
    requires AcceptedReport(After(start, events), e, id, r)
    ensures AcceptedIn(start, events + [e], id, r)
  {
    hide AcceptedReport, After;
    assert (events + [e])[..|events|] == events && (events + [e])[|events|] == e;
  }

  lemma GrantIsAccepted(f: Fleet, e: Event, id: string, r: WorkerResult)
    requires f.phase != Down && e.Call? && GrantOf(f.memory, e.op, e.env) == ReportOf(id, r)
    ensures AcceptedReport(f, e, id, r)
  {
  }

  lemma ResultsAfterStep(f: Fleet, start: Fleet, events: seq<Event>, e: Event)
    requires FleetInv(f) && Typed([e]) && f == After(start, events)
    requires f.phase != Down ==> ResultsFrom(f.memory, start, events)
    requires f.durable.Some? ==> ResultsFrom(f.durable.value, start, events)
    ensures var f' := Step(f, e).0;
            && (f'.phase != Down ==> ResultsFrom(f'.memory, start, events + [e]))
            && (f'.durable.Some? ==> ResultsFrom(f'.durable.value, start, events + [e]))
  {
    hide After, Inv, MemorySteps, MemoryEvolves, ResultsFrom, Step, GrantOf, Revived, Recovered, AcceptedReport;
    var f' := Step(f, e).0;
    StepGood(f, e);
    if f.durable.Some? {
      MemoryStaysSteps(f.durable.value, NoGrant);
      ResultsStep(f.durable.value, f.durable.value, NoGrant, start, events, e);
    }
    if e.Call? && f.phase != Down {
      var g := GrantOf(f.memory, e.op, e.env);
      forall id, r | g == ReportOf(id, r) ensures AcceptedReport(f, e, id, r) {
        GrantIsAccepted(f, e, id, r);
      }
      ResultsStep(f.memory, f'.memory, g, start, events, e);
      if f'.durable != f.durable {
        ResultsStep(f.memory, f'.durable.value, g, start, events, e);
      }
    } else if e.Restart? {
      StepBoots(f, e.env);
      BootGood(f, e.env);
      EmptyResults(start, events + [e]);
      if f.durable.Some? {
        RevivedGood(f.durable.value, e.env.clock(0));
        RevivedRecords(f.durable.value, e.env.clock(0));
        ResultsStep(f.durable.value, Revived(f.durable.value, e.env.clock(0)), NoGrant, start, events, e);
      }
    }
  }

  lemma EmptyResults(start: Fleet, events: seq<Event>)
    ensures ResultsFrom(EMPTY, start, events)
  {
  }

  lemma StepBoots(f: Fleet, env: Env)
    ensures Step(f, Restart(env)) == Boot(f, env)
  {
  }

  /**
   In every reachable state, each result in memory or in the store was either written
   by the coordinator or reported earlier in the run by the Worker that then held the
   task's current lease, strictly before its expiry and before the task's deadline.
   */
  lemma {:induction false} ResultsAreEarned(timeout: int, events: seq<Event>)
    requires Typed(events)
    ensures var start := Nothing(timeout);
            var f := After(start, events);
            && (f.phase != Down ==> ResultsFrom(f.memory, start, events))
            && (f.durable.Some? ==> ResultsFrom(f.durable.value, start, events))
    decreases |events|
  {
    hide After, Inv, ResultsFrom, Step;
    var start := Nothing(timeout);
    if events == [] {
      assert After(start, []) == start by { AfterNone(start); }
    } else {
      var n := |events| - 1;
      assert events == events[..n] + [events[n]];
      ResultsAreEarned(timeout, events[..n]);
      ReachableGood(timeout, events[..n]);
      AfterSnoc(start, events[..n], events[n]);
      ResultsAfterStep(After(start, events[..n]), start, events[..n], events[n]);
    }
  }

  lemma AfterNone(f: Fleet)
    ensures After(f, []) == f
  {
  }

  // ---- Reports that are not accepted -------------------------------------------------

  /** A report that is not accepted is ignored, its result included, even if it looks like the coordinator's own. */
  lemma UnacceptedReportIsIgnored(f: Fleet, op: Op, env: Env)
    requires FleetInv(f) && op.Report? && !AcceptedReport(f, Call(op, env), op.id, op.result)
    ensures Ignored(f, op, env)
  {
    hide Inv, MemoryEvolves, Ignored, AcceptedReport, GrantOf;
    if f.phase != Down && GrantOf(f.memory, op, env) == ReportOf(op.id, op.result) {
      GrantIsAccepted(f, Call(op, env), op.id, op.result);
    }
    NotActingIsIgnored(f, op, env, op.id, op.generation);
  }

  /** The two events differ at most in what a report carries that is not accepted in this state. */
  ghost predicate Alike(f: Fleet, a: Event, b: Event) {
    a == b ||
    (&& a.Call? && b.Call? && a.op.Report? && b.op.Report? && a.env == b.env
     && b.op == a.op.(result := b.op.result, retryable := b.op.retryable)
     && b.op.result.workerId == a.op.result.workerId
     && !AcceptedReport(f, a, a.op.id, a.op.result))
  }

  ghost predicate AlikeRuns(f: Fleet, a: seq<Event>, b: seq<Event>)
    decreases |a|
  {
    && |a| == |b|
    && (a != [] ==> Alike(f, a[0], b[0]) && AlikeRuns(Step(f, a[0]).0, a[1..], b[1..]))
  }

  /**
   Results of reports that are not accepted do not matter: two runs that differ only in
   those, and in their requests for a retry, end in the same state of coordinator and store.
   */
  lemma {:induction false} UnacceptedResultsDoNotMatter(f: Fleet, a: seq<Event>, b: seq<Event>)
    requires FleetInv(f) && Typed(a) && AlikeRuns(f, a, b)
    ensures After(f, a) == After(f, b)
    decreases |a|
  {
    hide Inv, MemoryEvolves, Step, Typed, FleetInv, AcceptedReport;
    if a != [] {
      SplitTyped(a);
      if a[0] != b[0] {
        UnacceptedReportIsIgnored(f, a[0].op, a[0].env);
        assert Step(f, b[0]) == Step(f, a[0]);
      }
      StepGood(f, a[0]);
      UnacceptedResultsDoNotMatter(Step(f, a[0]).0, a[1..], b[1..]);
    }
  }

  // ---- Terminal records ---------------------------------------------------------------

  predicate LateRenewal(op: Op, env: Env, t: Task) {
    op.Renew? && op.id == t.taskId && t.PastDeadline(env.clock(0))
  }

  lemma LateRenewalRewrites(f: Fleet, op: Op, env: Env, id: string)
    requires f.phase != Down && id in f.memory.tasks && f.memory.tasks[id].taskId == id
             && LateRenewal(op, env, f.memory.tasks[id])
    ensures Step(f, Call(op, env)).0.memory == PutTask(f.memory, FinishDeadline(f.memory.tasks[id]))
    ensures Step(f, Call(op, env)).1.Raised?
  {
    hide FinishDeadline, PutTask;
    var m' := PutTask(f.memory, FinishDeadline(f.memory.tasks[id]));
    assert EffectOf(f.memory, op, env, f.timeout) == Effect([m'], Raised(StaleLease));
    hide EffectOf;
    assert Commit(f, [m'], Raised(StaleLease), env.saves, 0).0.memory == m';
  }

  /**
   A committed terminal record is not immutable: `renew_lease` looks at the deadline
   before anything else. A call changes a terminal record exactly when it is a renewal
   of that task, by anyone, at or after the deadline, and the record does not already
   have the deadline's form; it then becomes FAILED with the deadline result.
   */
  lemma TerminalRecordChanges(f: Fleet, op: Op, env: Env, id: string)
    requires FleetInv(f) && WellTyped(op) && f.phase != Down && id in f.memory.tasks && f.memory.tasks[id].Terminal()
    ensures var t := f.memory.tasks[id];
            var f' := Step(f, Call(op, env)).0;
            && id in f'.memory.tasks
            && (f'.memory.tasks[id] != t <==> LateRenewal(op, env, t) && FinishDeadline(t) != t)
            && (f'.memory.tasks[id] != t ==> f'.memory.tasks[id] == FinishDeadline(t))
  {
    hide Inv, MemoryEvolves, Step, FinishDeadline;
    StepGood(f, Call(op, env));
    TaskOf(f.memory, id);
    var t := f.memory.tasks[id];
    hide TaskInv, ResultEarned;
    if LateRenewal(op, env, t) {
      LateRenewalRewrites(f, op, env, id);
      FinishKeepsId(t);
    } else {
      TerminalLicense(f.memory, op, env, t);
    }
  }

  /** No renewal of this task is attempted at or after its deadline. */
  ghost predicate NoLateRenewal(events: seq<Event>, t: Task) {
    forall e <- events :: e.Call? ==> !LateRenewal(e.op, e.env, t)
  }

  /** The record is stored as `t`, and is `t` in memory if there is a coordinator. */
  ghost predicate Holds(f: Fleet, t: Task) {
    && f.durable.Some? && t.taskId in f.durable.value.tasks && f.durable.value.tasks[t.taskId] == t
    && (f.phase != Down ==> t.taskId in f.memory.tasks && f.memory.tasks[t.taskId] == t)
  }

  lemma HoldsStep(f: Fleet, e: Event, t: Task)
    requires FleetInv(f) && Typed([e]) && NoLateRenewal([e], t) && t.Terminal() && Holds(f, t)
    ensures Holds(Step(f, e).0, t)
  {
    hide Inv, MemoryEvolves, Step, Evolves, Revived, Recovered, RestoreTask;
    StepGood(f, e);
    assert e in [e];
    if e.Restart? {
      StepBoots(f, e.env);
      BootGood(f, e.env);
      RevivedTerminal(f.durable.value, e.env.clock(0), t);
    } else if f.phase != Down {
      TaskOf(f.memory, t.taskId);
      TerminalLicense(f.memory, e.op, e.env, t);
    }
  }

  lemma TerminalLicense(m: Memory, op: Op, env: Env, t: Task)
    requires t.taskId in m.tasks && m.tasks[t.taskId] == t && !LateRenewal(op, env, t) && Inv(m)
    ensures GrantOf(m, op, env) != LateRenewOf(t.taskId)
  {
    if op.Renew? && op.id in m.tasks {
      TaskOf(m, op.id);
    }
  }

  lemma RevivedTerminal(m: Memory, now: int, t: Task)
    requires Inv(m) && t.taskId in m.tasks && m.tasks[t.taskId] == t && t.Terminal()
    ensures t.taskId in Revived(m, now).tasks && Revived(m, now).tasks[t.taskId] == t
  {
    RevivedRecords(m, now);
    hide Revived, RestoreTask, MemorySteps, Inv;
    assert Recovered(m.tasks[t.taskId], Revived(m, now).tasks[t.taskId], now);
  }

  /**
   A terminal record held by a coordinator that has not failed survives every
   continuation: failed saves, fail-stops, crashes at any save, and restarts. Only a
   renewal at or after its deadline is excluded, and TerminalRecordChanges says that is exact.
   */
  lemma {:induction false} TerminalRecordSurvives(f: Fleet, events: seq<Event>, t: Task)
    requires FleetInv(f) && Typed(events) && NoLateRenewal(events, t) && t.Terminal() && Holds(f, t)
    ensures Holds(After(f, events), t)
    decreases |events|
  {
    hide Inv, MemoryEvolves, Step, Typed, Holds, FleetInv, LateRenewal;
    if events != [] {
      SplitTyped(events);
      assert forall e <- [events[0]] :: e in events;
      assert forall e <- events[1..] :: e in events;
      StepGood(f, events[0]);
      HoldsStep(f, events[0], t);
      TerminalRecordSurvives(Step(f, events[0]).0, events[1..], t);
    }
  }

  /** What a coordinator that is up holds in memory, it holds in the store. */
  lemma UpHolds(f: Fleet, id: string)
    requires FleetInv(f) && f.phase == Up && id in f.memory.tasks
    ensures Holds(f, f.memory.tasks[id])
  {
    TaskOf(f.memory, id);
  }

  // ---- Fail-stop --------------------------------------------------------------------

  /** After its first failed save a coordinator never writes its store again. */
  lemma {:induction false} FailStopFreezesStore(f: Fleet, events: seq<Event>)
    requires FleetInv(f) && Typed(events) && f.phase == FailStopped && forall e <- events :: e.Call?
    ensures After(f, events).durable == f.durable && After(f, events).phase == FailStopped
    decreases |events|
  {
    hide Inv, MemoryEvolves, Step, Typed, FleetInv;
    if events != [] {
      SplitTyped(events);
      assert events[0] in events && forall e <- events[1..] :: e in events;
      StepGood(f, events[0]);
      FailStopFreezesStore(Step(f, events[0]).0, events[1..]);
    }
  }

  /** A fail-stopped coordinator acknowledges only operations that change nothing. */
  lemma FailStopAcknowledgesNothingNew(f: Fleet, op: Op, env: Env)
    requires f.phase == FailStopped && Step(f, Call(op, env)).1 != Raised(PersistenceFailed)
    ensures Step(f, Call(op, env)).0 == f
  {
    hide EffectOf;
  }

  /**
   Yet it answers from memory: after a report whose save was lost, observing the task gives
   its result, and cancelling it is answered with the terminal record, although the store
   still has the task running.
   */
  lemma FailStopReadsUnsavedRecord(f: Fleet, report: Op, env: Env, cancel: Op, later: Env)
    requires FleetInv(f) && f.phase == Up && report.Report?
             && AcceptedReport(f, Call(report, env), report.id, report.result)
    requires report.result.status == StatusSuccess && env.saves(0) == LostSave
    requires cancel.Cancel? && cancel.id == report.id && cancel.cause in CANCEL_CAUSES
             && CancelEffect(f.memory, cancel).reply != Raised(Invalid)
    ensures var (f1, r1) := Step(f, Call(report, env));
            && r1 == Raised(PersistenceFailed) && f1.phase == FailStopped
            && f1.memory.tasks[report.id].result == Some(report.result)
            && Step(f1, Call(cancel, later)).1.TaskReply?
            && Step(f1, Call(cancel, later)).1.task.Terminal()
            && f1.durable.value.tasks[report.id].status == Running
  {
    hide MemoryEvolves, Inv;
    TaskOf(f.memory, report.id);
    var t := CommitReport(f.memory.tasks[report.id], report.workerId, report.generation, report.result,
                          report.retryable, env.clock(0));
    assert EffectOf(f.memory, report, env, f.timeout) == Effect([PutTask(f.memory, t)], TaskReply(t));
    assert Step(f, Call(report, env)).0.memory == PutTask(f.memory, t);
  }

  // ---- How often a status can change --------------------------------------------------

  /** One save changes the stored status or attempt of the task: 1 if it does, else 0. */
  function Moved(stored: Option<Memory>, saved: Memory, id: string): nat {
    if stored.Some? && id in stored.value.tasks && id in saved.tasks
       && (stored.value.tasks[id].status != saved.tasks[id].status
           || stored.value.tasks[id].attempt != saved.tasks[id].attempt)
    then 1 else 0
  }

  /** The changes `Commit` makes in the store, counted save by save. */
  function CommitMoves(f: Fleet, saves: seq<Memory>, outcome: nat -> SaveOutcome, n: nat, id: string): nat
    decreases |saves|
  {
    if saves == [] || f.phase != Up then 0
    else
      match outcome(n)
      case Saved =>
        Moved(f.durable, saves[0], id)
        + CommitMoves(f.(memory := saves[0], durable := Some(saves[0])), saves[1..], outcome, n + 1, id)
      case LostSave => 0
      case LateFailure => Moved(f.durable, saves[0], id)
  }

  /** The changes one event makes in the store. */
  function StoredMoves(f: Fleet, e: Event, id: string): nat {
    match e
    case Restart(env) =>
      var g := Boot(f, env).0;
      if g.durable.None? then 0 else Moved(f.durable, g.durable.value, id)
    case Call(op, env) =>
      if f.phase == Down then 0 else CommitMoves(f, EffectOf(f.memory, op, env, f.timeout).saves, env.saves, 0, id)
  }

  ghost function StoredChanges(f: Fleet, events: seq<Event>, id: string): nat
    decreases |events|
  {
    if events == [] then 0 else StoredMoves(f, events[0], id) + StoredChanges(Step(f, events[0]).0, events[1..], id)
  }

  lemma WeightFalls(a: Task, b: Task)
    requires Evolves(a, b)
    ensures Weight(b) <= Weight(a)
    ensures a.status != b.status || a.attempt != b.attempt ==> Weight(b) < Weight(a)
  {
  }

  lemma MovedUsesWeight(stored: Option<Memory>, saved: Memory, id: string)
    requires stored.Some? && MemoryEvolves(stored.value, saved) && id in stored.value.tasks
    ensures id in saved.tasks && Moved(stored, saved, id) + Weight(saved.tasks[id]) <= Weight(stored.value.tasks[id])
  {
    hide Evolves, Weight;
    WeightFalls(stored.value.tasks[id], saved.tasks[id]);
  }

  lemma {:induction false} CommitUsesWeight(f: Fleet, saves: seq<Memory>, reply: Reply, outcome: nat -> SaveOutcome,
                                            n: nat, g: Grant, id: string)
    requires f.phase != Down && f.durable.Some? && (f.phase == Up ==> f.durable == Some(f.memory))
    requires GoodChain(f.memory, saves, g) && id in f.durable.value.tasks
    ensures var f' := Commit(f, saves, reply, outcome, n).0;
            && f'.durable.Some? && id in f'.durable.value.tasks
            && CommitMoves(f, saves, outcome, n, id) + Weight(f'.durable.value.tasks[id])
               <= Weight(f.durable.value.tasks[id])
    decreases |saves|
  {
    hide Inv, Weight, MemorySteps, Moved, MemoryEvolves;
    if saves != [] && f.phase == Up && outcome(n) != LostSave {
      StepsEvolve(f.memory, saves[0], g);
      MovedUsesWeight(f.durable, saves[0], id);
      if outcome(n) == Saved {
        CommitUsesWeight(f.(memory := saves[0], durable := Some(saves[0])), saves[1..], reply, outcome, n + 1, g, id);
      }
    }
  }

  lemma StepUsesWeight(f: Fleet, e: Event, id: string)
    requires FleetInv(f) && Typed([e]) && f.durable.Some? && id in f.durable.value.tasks
    ensures var f' := Step(f, e).0;
            && f'.durable.Some? && id in f'.durable.value.tasks
            && StoredMoves(f, e, id) + Weight(f'.durable.value.tasks[id]) <= Weight(f.durable.value.tasks[id])
  {
    hide Inv, MemoryEvolves, MemorySteps, EffectOf, GrantOf, GoodChain, Commit, CommitMoves, Boot, Weight, Moved;
    StepGood(f, e);
    assert e in [e];
    match e
    case Restart(env) =>
      MovedUsesWeight(f.durable, Boot(f, env).0.durable.value, id);
    case Call(op, env) =>
      if f.phase != Down {
        EffectGood(f.memory, op, env, f.timeout);
        var effect := EffectOf(f.memory, op, env, f.timeout);
        CommitUsesWeight(f, effect.saves, effect.reply, env.saves, 0, GrantOf(f.memory, op, env), id);
      }
  }

  /** Each change of the stored status or attempt uses up weight, save by save, in any run whatsoever. */
  lemma {:induction false} ChangesUseWeight(f: Fleet, events: seq<Event>, id: string)
    requires FleetInv(f) && Typed(events) && f.durable.Some? && id in f.durable.value.tasks
    ensures var g := After(f, events);
            && g.durable.Some? && id in g.durable.value.tasks
            && StoredChanges(f, events, id) + Weight(g.durable.value.tasks[id]) <= Weight(f.durable.value.tasks[id])
    decreases |events|
  {
    hide Inv, Step, Typed, FleetInv, Weight, StoredMoves;
    if events != [] {
      SplitTyped(events);
      StepGood(f, events[0]);
      StepUsesWeight(f, events[0], id);
      ChangesUseWeight(Step(f, events[0]).0, events[1..], id);
    }
  }

  /** A stored task changes status or attempt at most 2 * max_attempts + 1 times, whatever fails and restarts. */
  lemma StatusChangesBounded(f: Fleet, events: seq<Event>, id: string)
    requires FleetInv(f) && Typed(events) && f.durable.Some? && id in f.durable.value.tasks
    ensures StoredChanges(f, events, id) <= 2 * f.durable.value.tasks[id].maxAttempts + 1
  {
    hide StoredChanges, After;
    RunGood(f, events);
    ChangesUseWeight(f, events, id);
    TaskOf(After(f, events).durable.value, id);
    TaskOf(f.durable.value, id);
  }
}
