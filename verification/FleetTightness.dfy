/**
 The bound on status changes is met: for every max_attempts M there is a run without any
 failure in which a stored task changes status 2M + 1 times. Its one Worker lets every
 lease but the last run out, succeeds, and is overtaken by a renewal at the deadline.
 Each claim but the first changes the status twice.
 */
module FleetTightness {
  import opened Wrappers
  import opened FleetTask
  import opened FleetMemory
  import opened FleetRuns
  import opened FleetRecords
  import opened FleetWitness

  /** Its leases last one second. */
  const BRIEF := Registration("w", "m", {}, Ready, 0, 1)

  function QueuedFor(m: nat): Task {
    NewTask("t", "x", "k", INTENT, {}, m, Some((m + 1) * SECOND), 0)
  }

  function Serving(t: Task): Memory {
    Memory(map["w" := BRIEF], ["w"], map["t" := t], ["t"])
  }

  function Patient(m: nat, memory: Memory): Fleet {
    Fleet(m, memory, Up, Some(memory))
  }

  /** The record after the k-th claim, made when k - 1 seconds have passed. */
  function LeasedFor(m: nat, k: nat): Task
    requires k >= 1
  {
    LeaseTo(if k == 1 then QueuedFor(m) else ExpireTask(LeasedFor(m, k - 1), (k - 1) * SECOND), "w", "l", k * SECOND)
  }

  function DoneFor(m: nat): Task
    requires m >= 1
  {
    Close(LeasedFor(m, m), "w", m, Reported(REPORTED), TaskSucceeded, Some(REPORTED))
  }

  function ClaimAt(k: nat): Event {
    Call(Claim("w"), At(k * SECOND, "l"))
  }

  function ClaimsFrom(m: nat, k: nat): seq<Event>
    decreases m - k
  {
    if k >= m then [] else [ClaimAt(k)] + ClaimsFrom(m, k + 1)
  }

  function ReportAt(m: nat): Event
    requires m >= 1
  {
    Call(Report("t", "w", "l", m, REPORTED, false), At((m - 1) * SECOND, ""))
  }

  function RenewAt(m: nat): Event {
    Call(Renew("t", "", "", 0), At((m + 1) * SECOND, ""))
  }

  /** What the k-th lease looks like. */
  lemma {:induction false} LeasedIs(m: nat, k: nat)
    requires 1 <= k <= m
    ensures var t := LeasedFor(m, k);
            && t.taskId == "t" && t.status == Running && t.attempt == k && t.generation == k && t.maxAttempts == m
            && t.required == {} && t.deadline == Some((m + 1) * SECOND)
            && t.lease == Some(Lease("t", "l", "w", k, k, k * SECOND))
  {
    if k > 1 {
      LeasedIs(m, k - 1);
    }
  }

  lemma CommitTwo(f: Fleet, a: Memory, b: Memory, reply: Reply, env: Env, id: string)
    requires f.phase == Up && env.saves(0) == Saved && env.saves(1) == Saved
    ensures Commit(f, [a, b], reply, env.saves, 0) == (f.(memory := b, durable := Some(b)), reply)
    ensures CommitMoves(f, [a, b], env.saves, 0, id) == Moved(f.durable, a, id) + Moved(Some(a), b, id)
  {
    assert [a, b][1..] == [b];
    CommitLast(f.(memory := a, durable := Some(a)), b, reply, env.saves, 1);
    MovesLast(f.(memory := a, durable := Some(a)), b, env.saves, 1, id);
  }

  lemma MovesLast(f: Fleet, a: Memory, outcome: nat -> SaveOutcome, n: nat, id: string)
    requires f.phase == Up && outcome(n) == Saved
    ensures CommitMoves(f, [a], outcome, n, id) == Moved(f.durable, a, id)
  {
    assert [a][1..] == [];
    assert CommitMoves(f.(memory := a, durable := Some(a)), [], outcome, n + 1, id) == 0;
  }

  lemma OneSaved(f: Fleet, op: Op, env: Env, m: Memory, reply: Reply, id: string)
    requires f.phase == Up && EffectOf(f.memory, op, env, f.timeout) == Effect([m], reply) && env.saves(0) == Saved
    ensures Step(f, Call(op, env)).0 == f.(memory := m, durable := Some(m))
    ensures StoredMoves(f, Call(op, env), id) == Moved(f.durable, m, id)
  {
    hide EffectOf;
    Commits(f, op, env, m, reply);
    MovesLast(f, m, env.saves, 0, id);
  }

  /** One claim: the record as the expiry pass leaves it is leased. */
  lemma ClaimEffectIs(m: nat, t: Task, k: nat)
    requires t.taskId == "t" && t.required == {} && k <= m && t.deadline.Some? && k * SECOND < t.deadline.value
    requires ExpireTask(t, k * SECOND).status == Queued
    ensures var u := ExpireTask(t, k * SECOND);
            var leased := LeaseTo(u, "w", "l", (k + 1) * SECOND);
            EffectOf(Serving(t), ClaimAt(k).op, ClaimAt(k).env, m)
            == Effect([Serving(u), Serving(leased)], Leased(leased))
  {
    var env, u := ClaimAt(k).env, ExpireTask(t, k * SECOND);
    var leased := LeaseTo(u, "w", "l", (k + 1) * SECOND);
    assert ExpireMemory(Serving(t), k * SECOND, m) == Serving(u) by {
      var e := ExpireMemory(Serving(t), k * SECOND, m);
      assert e.tasks == Serving(u).tasks && e.workers == Serving(u).workers;
    }
    ScanServes(u, env, leased, k);
    hide ExpireTask, ScanEffect, ExpireMemory, Candidates, LeaseTo;
    assert [Serving(u)] + [Serving(leased)] == [Serving(u), Serving(leased)];
  }

  lemma ScanServes(u: Task, env: Env, leased: Task, k: nat)
    requires u.taskId == "t" && u.status == Queued && u.required == {} && u.deadline.Some?
             && k * SECOND < u.deadline.value
    requires env == ClaimAt(k).env && leased == LeaseTo(u, "w", "l", (k + 1) * SECOND)
    ensures Candidates(Serving(u), BRIEF, Serving(u).taskOrder) == [u]
    ensures ScanEffect(Serving(u), BRIEF, [u], env, 2) == Effect([Serving(leased)], Leased(leased))
  {
    assert Serving(u).taskOrder[1..] == [];
    assert Insert(u, []) == [u];
    assert PutTask(Serving(u), leased) == Serving(leased);
  }

  lemma ClaimMoves(m: nat, t: Task, k: nat)
    requires t.taskId == "t" && t.required == {} && k <= m && t.deadline.Some? && k * SECOND < t.deadline.value
    requires ExpireTask(t, k * SECOND).status == Queued
    ensures var u := ExpireTask(t, k * SECOND);
            var f, leased := Patient(m, Serving(t)), LeaseTo(u, "w", "l", (k + 1) * SECOND);
            && Step(f, ClaimAt(k)).0 == Patient(m, Serving(leased))
            && StoredMoves(f, ClaimAt(k), "t")
               == Moved(f.durable, Serving(u), "t") + Moved(Some(Serving(u)), Serving(leased), "t")
  {
    hide EffectOf, ExpireTask, LeaseTo;
    var u := ExpireTask(t, k * SECOND);
    var leased := LeaseTo(u, "w", "l", (k + 1) * SECOND);
    ClaimEffectIs(m, t, k);
    CommitTwo(Patient(m, Serving(t)), Serving(u), Serving(leased), Leased(leased), ClaimAt(k).env, "t");
  }

  lemma FirstClaim(m: nat)
    requires m >= 1
    ensures var f := Patient(m, Serving(QueuedFor(m)));
            Step(f, ClaimAt(0)).0 == Patient(m, Serving(LeasedFor(m, 1))) && StoredMoves(f, ClaimAt(0), "t") == 1
  {
    hide Step, StoredMoves;
    assert ExpireTask(QueuedFor(m), 0) == QueuedFor(m);
    ClaimMoves(m, QueuedFor(m), 0);
  }

  lemma ClaimAgain(m: nat, k: nat)
    requires 1 <= k < m
    ensures var f := Patient(m, Serving(LeasedFor(m, k)));
            Step(f, ClaimAt(k)).0 == Patient(m, Serving(LeasedFor(m, k + 1))) && StoredMoves(f, ClaimAt(k), "t") == 2
  {
    hide Step, StoredMoves;
    LeasedIs(m, k);
    ClaimMoves(m, LeasedFor(m, k), k);
  }

  lemma ReportMoves(m: nat)
    requires m >= 1
    ensures var f, g := Patient(m, Serving(LeasedFor(m, m))), Patient(m, Serving(DoneFor(m)));
            Step(f, ReportAt(m)).0 == g && StoredMoves(f, ReportAt(m), "t") == 1
  {
    LeasedIs(m, m);
    var t, done := LeasedFor(m, m), DoneFor(m);
    hide LeasedFor;
    assert PutTask(Serving(t), done) == Serving(done);
    var report := ReportAt(m);
    assert EffectOf(Serving(t), report.op, report.env, m) == Effect([Serving(done)], TaskReply(done));
    hide EffectOf, Step, StoredMoves;
    OneSaved(Patient(m, Serving(t)), report.op, report.env, Serving(done), TaskReply(done), "t");
  }

  lemma RenewMoves(m: nat)
    requires m >= 1
    ensures StoredMoves(Patient(m, Serving(DoneFor(m))), RenewAt(m), "t") == 1
  {
    LeasedIs(m, m);
    var done, renew := DoneFor(m), RenewAt(m);
    var late := FinishDeadline(done);
    hide LeasedFor;
    assert PutTask(Serving(done), late) == Serving(late);
    assert EffectOf(Serving(done), renew.op, renew.env, m) == Effect([Serving(late)], Raised(StaleLease));
    hide EffectOf, Step, StoredMoves;
    OneSaved(Patient(m, Serving(done)), renew.op, renew.env, Serving(late), Raised(StaleLease), "t");
  }

  lemma {:induction false} RestOfRun(m: nat, k: nat)
    requires 1 <= k <= m
    ensures var f := Patient(m, Serving(LeasedFor(m, k)));
            StoredChanges(f, ClaimsFrom(m, k) + [ReportAt(m), RenewAt(m)], "t") == 2 * (m - k) + 2
    decreases m - k
  {
    hide Step, StoredMoves, LeasedFor, DoneFor;
    var f, tail := Patient(m, Serving(LeasedFor(m, k))), [ReportAt(m), RenewAt(m)];
    if k < m {
      ClaimAgain(m, k);
      RestOfRun(m, k + 1);
      var events := ClaimsFrom(m, k) + tail;
      assert events[0] == ClaimAt(k) && events[1..] == ClaimsFrom(m, k + 1) + tail;
    } else {
      ReportMoves(m);
      RenewMoves(m);
      assert ClaimsFrom(m, k) + tail == tail;
      var g := Patient(m, Serving(DoneFor(m)));
      assert tail[0] == ReportAt(m) && tail[1..] == [RenewAt(m)] && [RenewAt(m)][1..] == [];
      assert StoredChanges(Step(g, RenewAt(m)).0, [], "t") == 0;
      assert StoredChanges(g, [RenewAt(m)], "t") == 1;
    }
  }

  /** From the state after submitting the task, these events change its stored status 2M + 1 times. */
  lemma StatusBoundAttained(m: nat)
    requires m >= 1
    ensures var f := Patient(m, Serving(QueuedFor(m)));
            && QueuedFor(m).maxAttempts == m
            && StoredChanges(f, ClaimsFrom(m, 0) + [ReportAt(m), RenewAt(m)], "t") == 2 * m + 1
  {
    hide Step, StoredMoves, LeasedFor, DoneFor;
    FirstClaim(m);
    RestOfRun(m, 1);
    var tail := [ReportAt(m), RenewAt(m)];
    var events := ClaimsFrom(m, 0) + tail;
    assert events[0] == ClaimAt(0) && events[1..] == ClaimsFrom(m, 1) + tail;
  }

  function RegisterEvent(): Event {
    Call(Register("w", "m", [], 1), At(0, ""))
  }

  function SubmitEvent(m: nat): Event {
    Call(Submit(INTENT, "x", [], Some("t"), Some("k"), m, Some((m + 1) * SECOND)), At(0, ""))
  }

  function OneWorker(): Memory {
    Memory(map["w" := BRIEF], ["w"], map[], [])
  }

  /** That state is reached from nothing by starting, registering and submitting. */
  lemma StartIsReachable(m: nat)
    requires m >= 1
    ensures Step(Step(Step(Nothing(m), BOOT).0, RegisterEvent()).0, SubmitEvent(m)).0
            == Patient(m, Serving(QueuedFor(m)))
  {
    hide Step;
    StartedAt(m);
    RegisteredAt(m);
    SubmittedAt(m);
  }

  lemma StartedAt(m: nat)
    ensures Step(Nothing(m), BOOT).0 == Patient(m, EMPTY)
  {
  }

  lemma RegisteredAt(m: nat)
    ensures Step(Patient(m, EMPTY), RegisterEvent()).0 == Patient(m, OneWorker())
  {
    assert "w"[0] in "w" && "m"[0] in "m";
    assert AsSet([]) == {};
    assert PutWorker(EMPTY, BRIEF) == OneWorker();
    Commits(Patient(m, EMPTY), RegisterEvent().op, RegisterEvent().env, OneWorker(), WorkerReply(BRIEF));
  }

  lemma SubmittedAt(m: nat)
    requires m >= 1
    ensures Step(Patient(m, OneWorker()), SubmitEvent(m)).0 == Patient(m, Serving(QueuedFor(m)))
  {
    assert "x"[0] in "x" && "t"[0] in "t" && "k"[0] in "k";
    assert AsSet([]) == {};
    assert PutTask(OneWorker(), QueuedFor(m)) == Serving(QueuedFor(m));
    var submit := SubmitEvent(m);
    Commits(Patient(m, OneWorker()), submit.op, submit.env, Serving(QueuedFor(m)), TaskReply(QueuedFor(m)));
  }
}
