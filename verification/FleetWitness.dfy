/**
 Concrete runs from nothing and without any failure: a task that succeeded is later
 rewritten to FAILED by a renewal nobody authorised, and two tasks come to share a key.
 */
module FleetWitness {
  import opened Wrappers
  import opened Worker
  import opened FleetTask
  import opened FleetMemory
  import opened FleetRuns
  import opened FleetRecords
  import opened FleetSubmission
  import I = Intent

  const INTENT := I.Intent("g", [], [], [], "t", "i", map[])
  const REPORTED :=
    WorkerResult("w", StatusSuccess, NoOutput, [], "", NO_METADATA, "", false, Some(Succeeded), [], [], [])
  const W := Registration("w", "m", {}, Ready, 0, 60)

  /** All clocks read `now` and no save fails. */
  function At(now: int, uuid: string): Env {
    Env(_ => now, _ => Saved, uuid)
  }

  const BOOT := Restart(At(0, ""))
  const REGISTER := Call(Register("w", "m", [], 60), At(0, ""))
  const SUBMIT := Call(Submit(INTENT, "x", [], Some("t"), Some("k"), 1, Some(10)), At(0, ""))
  const CLAIM := Call(Claim("w"), At(0, "l"))
  const REPORT := Call(Report("t", "w", "l", 1, REPORTED, false), At(5, ""))
  const RENEW := Call(Renew("t", "", "", 0), At(10, ""))

  const QUEUED := NewTask("t", "x", "k", INTENT, {}, 1, Some(10), 0)
  const LEASED := LeaseTo(QUEUED, "w", "l", 60 * SECOND)
  const DONE := Close(LEASED, "w", 1, Reported(REPORTED), TaskSucceeded, Some(REPORTED))

  function Registered(): Memory {
    Memory(map["w" := W], ["w"], map[], [])
  }

  function With(t: Task): Memory {
    Memory(map["w" := W], ["w"], map["t" := t], ["t"])
  }

  /** A coordinator that has saved what it holds. */
  function Holding(m: Memory): Fleet {
    Fleet(30, m, Up, Some(m))
  }

  lemma Booted()
    ensures Step(Nothing(30), BOOT).0 == Holding(EMPTY)
  {
  }

  lemma Commits(f: Fleet, op: Op, env: Env, m: Memory, reply: Reply)
    requires f.phase == Up && EffectOf(f.memory, op, env, f.timeout) == Effect([m], reply) && env.saves(0) == Saved
    ensures Step(f, Call(op, env)) == (f.(memory := m, durable := Some(m)), reply)
  {
    hide EffectOf;
    CommitLast(f, m, reply, env.saves, 0);
  }

  lemma CommitLast(f: Fleet, m: Memory, reply: Reply, outcome: nat -> SaveOutcome, n: nat)
    requires f.phase == Up && outcome(n) == Saved
    ensures Commit(f, [m], reply, outcome, n) == (f.(memory := m, durable := Some(m)), reply)
  {
    var saves := [m];
    assert saves[1..] == [];
    assert Commit(f.(memory := m, durable := Some(m)), [], reply, outcome, n + 1)
           == (f.(memory := m, durable := Some(m)), reply);
  }

  lemma DidRegister()
    ensures Step(Holding(EMPTY), REGISTER).0 == Holding(Registered())
  {
    assert "w"[0] in "w" && "m"[0] in "m";
    assert PutWorker(EMPTY, W) == Registered();
    assert AsSet([]) == {};
    Commits(Holding(EMPTY), REGISTER.op, REGISTER.env, Registered(), WorkerReply(W));
  }

  lemma DidSubmit()
    ensures Step(Holding(Registered()), SUBMIT).0 == Holding(With(QUEUED))
  {
    assert "x"[0] in "x" && "t"[0] in "t" && "k"[0] in "k";
    assert PutTask(Registered(), QUEUED) == With(QUEUED);
    assert AsSet([]) == {};
    Commits(Holding(Registered()), SUBMIT.op, SUBMIT.env, With(QUEUED), TaskReply(QUEUED));
  }

  lemma DidClaim()
    ensures Step(Holding(With(QUEUED)), CLAIM).0 == Holding(With(LEASED))
  {
    var m := With(QUEUED);
    var e := ExpireMemory(m, 0, 30);
    assert e.tasks == m.tasks && e.workers == m.workers;
    assert Candidates(m, W, m.taskOrder) == [QUEUED] by {
      assert m.taskOrder[1..] == [];
      assert Insert(QUEUED, []) == [QUEUED];
    }
    assert PutTask(m, LEASED) == With(LEASED);
    var scan := ScanEffect(m, W, [QUEUED], CLAIM.env, 2);
    assert scan == Effect([With(LEASED)], Leased(LEASED));
    var effect := EffectOf(m, CLAIM.op, CLAIM.env, 30);
    assert effect == Effect([m] + [With(LEASED)], Leased(LEASED));
    hide EffectOf, ScanEffect, Candidates, ExpireMemory;
    assert effect.saves[0] == m && effect.saves[1..] == [With(LEASED)];
    CommitLast(Holding(m), With(LEASED), Leased(LEASED), CLAIM.env.saves, 1);
  }

  lemma DidReport()
    ensures Step(Holding(With(LEASED)), REPORT).0 == Holding(With(DONE))
  {
    assert PutTask(With(LEASED), DONE) == With(DONE);
    Commits(Holding(With(LEASED)), REPORT.op, REPORT.env, With(DONE), TaskReply(DONE));
  }

  lemma DidRenew()
    ensures Step(Holding(With(DONE)), RENEW).0 == Holding(With(FinishDeadline(DONE)))
  {
    assert PutTask(With(DONE), FinishDeadline(DONE)) == With(FinishDeadline(DONE));
    Commits(Holding(With(DONE)), RENEW.op, RENEW.env, With(FinishDeadline(DONE)), Raised(StaleLease));
  }

  /** From nothing, in six events and without any failure: the stored record goes from SUCCEEDED to FAILED. */
  lemma SucceededThenFailed()
    ensures Typed([BOOT, REGISTER, SUBMIT, CLAIM, REPORT, RENEW])
    ensures var done := After(Nothing(30), [BOOT, REGISTER, SUBMIT, CLAIM, REPORT]);
            && done == Holding(With(DONE)) && DONE.status == TaskSucceeded
            && Step(done, RENEW).0 == Holding(With(FinishDeadline(DONE))) && FinishDeadline(DONE).status == TaskFailed
  {
    Booted();
    DidRegister();
    DidSubmit();
    DidClaim();
    DidReport();
    DidRenew();
    hide Step, With, Holding, Registered;
    var nothing := Nothing(30);
    assert [BOOT, REGISTER, SUBMIT, CLAIM, REPORT] == [BOOT] + [REGISTER] + [SUBMIT] + [CLAIM] + [REPORT];
    AfterNone(nothing);
    assert [] + [BOOT] == [BOOT];
    AfterSnoc(nothing, [], BOOT);
    AfterSnoc(nothing, [BOOT], REGISTER);
    AfterSnoc(nothing, [BOOT] + [REGISTER], SUBMIT);
    AfterSnoc(nothing, [BOOT] + [REGISTER] + [SUBMIT], CLAIM);
    AfterSnoc(nothing, [BOOT] + [REGISTER] + [SUBMIT] + [CLAIM], REPORT);
    assert Constructed(REPORTED) && INTENT.Valid() by { WitnessIsTyped(); }
  }

  lemma WitnessIsTyped()
    ensures Constructed(REPORTED) && INTENT.Valid()
  {
    assert "w"[0] in "w" && "g"[0] in "g";
  }

  // ---- Two tasks, one key -------------------------------------------------------------------

  const UNKEYED := Call(Submit(INTENT, "y", [], Some("k"), None, 1, None), At(0, ""))
  const SECOND_TASK := NewTask("k", "y", "k", INTENT, {}, 1, None, 0)

  function Alone(): Memory {
    Memory(map[], [], map["t" := QUEUED], ["t"])
  }

  function Both(): Memory {
    Memory(map[], [], map["t" := QUEUED, "k" := SECOND_TASK], ["t", "k"])
  }

  lemma DidSubmitFirst()
    ensures Step(Holding(EMPTY), SUBMIT).0 == Holding(Alone())
  {
    assert "x"[0] in "x" && "t"[0] in "t" && "k"[0] in "k";
    assert PutTask(EMPTY, QUEUED) == Alone();
    assert AsSet([]) == {};
    Commits(Holding(EMPTY), SUBMIT.op, SUBMIT.env, Alone(), TaskReply(QUEUED));
  }

  lemma DidSubmitUnkeyed()
    ensures Step(Holding(Alone()), UNKEYED) == (Holding(Both()), TaskReply(SECOND_TASK))
  {
    assert "y"[0] in "y" && "k"[0] in "k";
    assert "t" != "k";
    assert PutTask(Alone(), SECOND_TASK) == Both();
    assert AsSet([]) == {};
    Commits(Holding(Alone()), UNKEYED.op, UNKEYED.env, Both(), TaskReply(SECOND_TASK));
  }

  /** Submit "t" under the key "k", then "k" without a key: both are accepted, and keys are no longer injective. */
  lemma TwoTasksOneKey()
    ensures var f := Step(Step(Step(Nothing(30), BOOT).0, SUBMIT).0, UNKEYED).0;
            && f == Holding(Both()) && !KeysInjective(f.memory)
            && Both().tasks["t"].idempotencyKey == Both().tasks["k"].idempotencyKey
  {
    Booted();
    DidSubmitFirst();
    DidSubmitUnkeyed();
    hide Step;
    assert "t" != "k" && "t" in Both().tasks && "k" in Both().tasks;
  }
}
