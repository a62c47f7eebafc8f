/**
 How the model Worker's turns, attempts and runs end: which limit, cause or failure each
 one reports, in the order in which they are looked at, and when another attempt is made.
 */
module ConfiguredEndings {
  import opened Wrappers
  import opened Worker
  import opened ConfiguredWorker

  /** A failure of this kind over these notes. */
  predicate FailedAs(r: Report, ending: Ending, notes: seq<Note>) {
    r.status == StatusFailed && r.ending == ending && r.notes == notes && r.output == ""
  }

  /** Stopped by a cause: CANCELLED for a cancellation, FAILED for the deadline. */
  predicate StoppedBy(r: Report, cause: Cause, notes: seq<Note>) {
    && r.ending == EndedBy(cause) && r.notes == notes && r.output == ""
    && (r.status == StatusCancelled <==> cause == CauseCancelled)
    && (r.status == StatusFailed <==> cause == CauseDeadline)
  }

  /** The response comes from the configured provider, and its provenance does not say otherwise. */
  predicate Genuine(c: Config, r: Response) {
    && r.provider == c.providerId
    && ("provider" in r.provenance ==> r.provenance["provider"] == r.provider)
    && ("model" in r.provenance ==> r.provenance["model"] == r.model)
  }

  // ---- A batch of tool calls ------------------------------------------------------------------

  /** The i-th call of a batch names a configured tool, which answers within the limit. */
  predicate Works(c: Config, e: Env, calls: seq<ToolCall>, invoked: nat, i: nat)
    requires i < |calls|
  {
    && calls[i].toolName in c.tools && e.tool(invoked + i, calls[i]).ToolValue?
    && e.bytes(e.tool(invoked + i, calls[i]).encoded) <= c.maxOutputBytes
  }

  /** What the i-th call of a batch answered. */
  function Answer(e: Env, calls: seq<ToolCall>, invoked: nat, i: nat): string
    requires i < |calls|
  {
    match e.tool(invoked + i, calls[i])
    case ToolRaised => ""
    case ToolValue(encoded) => encoded
  }

  /** The notes of the first n calls of a batch, and the results kept of them. */
  function Completed(e: Env, calls: seq<ToolCall>, invoked: nat, n: nat): seq<Note>
    requires n <= |calls|
  {
    seq(n, i requires 0 <= i < n =>
      ToolCompleted(calls[i].callId, calls[i].toolName, e.bytes(Answer(e, calls, invoked, i))))
  }

  function Kept(e: Env, calls: seq<ToolCall>, invoked: nat, n: nat): seq<ToolResult>
    requires n <= |calls|
  {
    seq(n, i requires 0 <= i < n => ToolResult(calls[i].callId, calls[i].toolName, Answer(e, calls, invoked, i)))
  }

  /** How a batch fails at its n-th call, the ones before having worked. */
  predicate FailsAt(c: Config, e: Env, calls: seq<ToolCall>, invoked: nat, n: nat, r: Report, notes: seq<Note>)
    requires n < |calls|
  {
    var call := calls[n];
    if call.toolName !in c.tools then FailedAs(r, UnknownToolName, notes + [ToolRejected(call.callId)])
    else
      match e.tool(invoked + n, call)
      case ToolRaised =>
        FailedAs(r, ToolInvocationFailed, notes + [ToolFailed(call.callId, c.tools[call.toolName])])
      case ToolValue(encoded) =>
        FailedAs(r, ToolOutputLimit, notes + [ToolOversized(call.callId, e.bytes(encoded))])
  }

  /**
   A batch over from `p`: the calls that worked, in order, each counted against the budget
   and its result kept; then nothing more, or the failure of the first that did not work.
   */
  ghost predicate AfterBatch(c: Config, e: Env, calls: seq<ToolCall>, p: Progress, q: Progress, n: nat) {
    var invoked := p.tally.invokes;
    && n <= |calls| && (forall i: nat | i < n :: Works(c, e, calls, invoked, i))
    && q.tally.used == p.tally.used + n && q.tally.asks == p.tally.asks && q.tally.looks == p.tally.looks
    && q.results == p.results + Kept(e, calls, invoked, n)
    && (if n == |calls| then
          q.stop.None? && q.tally.invokes == invoked + n && q.notes == p.notes + Completed(e, calls, invoked, n)
        else
          && !Works(c, e, calls, invoked, n) && q.stop.Some?
          && FailsAt(c, e, calls, invoked, n, q.stop.value, p.notes + Completed(e, calls, invoked, n))
          && q.tally.invokes == invoked + n + (if calls[n].toolName in c.tools then 1 else 0))
  }

  /** A batch over from `p`, after some number of calls. */
  ghost predicate BatchDone(c: Config, e: Env, calls: seq<ToolCall>, p: Progress, q: Progress) {
    exists n :: AfterBatch(c, e, calls, p, q, n)
  }

  lemma NextCompleted(e: Env, calls: seq<ToolCall>, invoked: nat, n: nat)
    requires n < |calls|
    ensures var answer := Answer(e, calls, invoked, n);
            && Completed(e, calls, invoked, n + 1)
               == Completed(e, calls, invoked, n)
                  + [ToolCompleted(calls[n].callId, calls[n].toolName, e.bytes(answer))]
            && Kept(e, calls, invoked, n + 1)
               == Kept(e, calls, invoked, n) + [ToolResult(calls[n].callId, calls[n].toolName, answer)]
  {
    hide Answer;
  }

  lemma {:induction false} BatchFrom(c: Config, e: Env, calls: seq<ToolCall>, i: nat, p: Progress, at: Progress)
    requires i <= |calls| && p.stop.None? && at.stop.None?
    requires forall k: nat | k < i :: Works(c, e, calls, p.tally.invokes, k)
    requires at.tally == p.tally.(invokes := p.tally.invokes + i, used := p.tally.used + i)
    requires at.notes == p.notes + Completed(e, calls, p.tally.invokes, i)
    requires at.results == p.results + Kept(e, calls, p.tally.invokes, i)
    ensures BatchDone(c, e, calls, p, Batch(c, e, calls, i, at))
    decreases |calls| - i
  {
    if i < |calls| && Works(c, e, calls, p.tally.invokes, i) {
      var encoded := e.tool(p.tally.invokes + i, calls[i]).encoded;
      var next := Progress(
        None, at.tally.(invokes := at.tally.invokes + 1, used := at.tally.used + 1),
        at.notes + [ToolCompleted(calls[i].callId, calls[i].toolName, e.bytes(encoded))],
        at.results + [ToolResult(calls[i].callId, calls[i].toolName, encoded)]);
      NextCompleted(e, calls, p.tally.invokes, i);
      assert Batch(c, e, calls, i, at) == Batch(c, e, calls, i + 1, next);
      BatchFrom(c, e, calls, i + 1, p, next);
    } else {
      assert AfterBatch(c, e, calls, p, Batch(c, e, calls, i, at), i);
    }
  }

  /** Every batch runs its calls in order up to the first that does not work. */
  lemma BatchDecides(c: Config, e: Env, calls: seq<ToolCall>, p: Progress)
    requires p.stop.None?
    ensures BatchDone(c, e, calls, p, Batch(c, e, calls, 0, p))
  {
    hide Batch;
    assert p.notes + Completed(e, calls, p.tally.invokes, 0) == p.notes;
    assert p.results + Kept(e, calls, p.tally.invokes, 0) == p.results;
    BatchFrom(c, e, calls, 0, p, p);
  }

  // ---- A turn ---------------------------------------------------------------------------------

  /** Stopped at a look that leaves no time before the provider is asked: any shortage of time is the duration limit. */
  predicate StoppedBefore(c: Config, l: Look, r: Report, notes: seq<Note>) {
    match l.cause
    case Some(cause) => StoppedBy(r, cause, notes)
    case None => FailedAs(r, DurationLimit, notes + [DurationReached])
  }

  /** Stopped at a look that leaves no time afterwards: the cause first, then the time limit, then the deadline. */
  predicate StoppedAfter(c: Config, l: Look, r: Report, notes: seq<Note>) {
    match l.cause
    case Some(cause) => StoppedBy(r, cause, notes)
    case None =>
      if c.maxDuration <= l.elapsed then FailedAs(r, DurationLimit, notes + [DurationReached])
      else FailedAs(r, EndedBy(CauseDeadline), notes + [DeadlineReached])
  }

  /** A turn over from `p`, by what the looks around its one provider call showed and what the provider answered. */
  ghost predicate AfterTurn(c: Config, e: Env, p: Progress, q: Progress) {
    var before, after, reply := e.look(p.tally.looks), e.look(p.tally.looks + 1), e.reply(p.tally.asks, p.results);
    if !InTime(c, before) then q.stop.Some? && StoppedBefore(c, before, q.stop.value, p.notes)
    else if reply.Raised? || !Genuine(c, reply.response) then
      q.stop.Some? && FailedAs(q.stop.value, ProviderFailure, p.notes)
    else if !InTime(c, after) then q.stop.Some? && StoppedAfter(c, after, q.stop.value, p.notes)
    else
      var r := reply.response;
      var notes := p.notes + [ModelResponse(r.provider, r.model, r.body.Final?)];
      match r.body
      case Final(text) =>
        && q.stop.Some?
        && (if e.bytes(text) <= c.maxOutputBytes then q.stop.value == Report(StatusSuccess, Answered, text, notes)
            else FailedAs(q.stop.value, OutputLimit, notes + [OutputOversized(e.bytes(text))]))
      case Tools(calls) =>
        if p.tally.used + |calls| <= c.maxAttempts then
          var asked := Progress(None, Tally(p.tally.looks + 2, p.tally.asks + 1, p.tally.invokes, p.tally.used), notes,
                                p.results);
          BatchDone(c, e, calls, asked, q)
        else q.stop.Some? && FailedAs(q.stop.value, ToolCallBudget, notes + [BudgetExhausted])
  }

  lemma TurnDecides(c: Config, e: Env, p: Progress)
    requires p.stop.None?
    ensures AfterTurn(c, e, p, OneTurn(c, e, p))
  {
    hide Batch, BatchDone;
    var reply := e.reply(p.tally.asks, p.results);
    if reply.Replied? && reply.response.body.Tools? {
      var r := reply.response;
      var asked := Progress(None, Tally(p.tally.looks + 2, p.tally.asks + 1, p.tally.invokes, p.tally.used),
                            p.notes + [ModelResponse(r.provider, r.model, false)], p.results);
      BatchDecides(c, e, r.body.calls, asked);
    }
  }

  // ---- An attempt -----------------------------------------------------------------------------

  /**
   Another attempt may follow: nothing was seen that forbids it, the provider failed, and no tool has had its
   effect.
   */
  predicate TriesAgain(c: Config, l: Look, report: Report, used: nat) {
    l.cause.None? && l.elapsed <= c.maxDuration && report.ending == ProviderFailure && used == 0
  }

  /** What an attempt leaves, told by the look before it, its model loop, and the look after it. */
  ghost predicate AfterAttempted(c: Config, e: Env, attempt: nat, q: Course, r: Course) {
    var before := e.look(q.tally.looks);
    if !InTime(c, before) then
      && r.log == q.log && r.stop.Some?
      && StoppedAfter(c, before, r.stop.value,
                      q.notes + (if before.cause.Some? then [Terminated(before.cause.value)] else []))
    else
      && r.tally.looks > 0 && |r.log| == |q.log| + 1 && q.log <= r.log
      && var report, after := r.log[|q.log|].report, e.look(r.tally.looks - 1);
        && r.notes == q.notes + report.notes + [Attempted(attempt, report.status)]
        && (r.stop.None? <==> TriesAgain(c, after, report, r.tally.used))
        && (after.cause.Some? ==>
              r.stop.Some? && StoppedBy(r.stop.value, after.cause.value, r.notes + [Terminated(after.cause.value)]))
        && (after.cause.None? && c.maxDuration < after.elapsed ==>
              r.stop.Some? && FailedAs(r.stop.value, DurationLimit, r.notes + [DurationReached]))
        && (after.cause.None? && after.elapsed <= c.maxDuration && r.stop.Some? ==>
              r.stop.value == report.(notes := r.notes))
  }

  lemma AttemptDecides(c: Config, e: Env, attempt: nat, q: Course)
    requires Lawful(e) && c.Valid() && q.stop.None? && q.tally.used <= c.maxAttempts
    ensures AfterAttempted(c, e, attempt, q, OneAttempt(c, e, attempt, q))
  {
    hide Turns, Lawful;
    var looked := q.tally.(looks := q.tally.looks + 1);
    TurnsBounds(c, e, 1, Progress(None, looked, [], []));
  }

  // ---- A run ----------------------------------------------------------------------------------

  lemma {:induction false} AttemptsExhaust(c: Config, e: Env, attempt: nat, q: Course)
    requires Lawful(e) && c.Valid() && 1 <= attempt <= c.maxAttempts + 1 && q.stop.None? && |q.log| == attempt - 1
    requires q.tally.used <= c.maxAttempts
    requires attempt > 1 ==> q.tally.used == 0
    ensures var r := Attempts(c, e, attempt, q);
            r.stop.Some? && r.stop.value.ending == ProviderFailure && r.tally.used == 0 ==> |r.log| == c.maxAttempts
    decreases c.maxAttempts + 1 - attempt
  {
    hide OneAttempt, Lawful, AfterAttempted;
    if attempt <= c.maxAttempts {
      AttemptDecides(c, e, attempt, q);
      var r := OneAttempt(c, e, attempt, q);
      AttemptGoesOn(c, e, attempt, q, r);
      if r.stop.None? {
        AttemptsExhaust(c, e, attempt + 1, r);
      }
    }
  }

  lemma AttemptGoesOn(c: Config, e: Env, attempt: nat, q: Course, r: Course)
    requires AfterAttempted(c, e, attempt, q, r)
    ensures r.stop.None? ==> |r.log| == |q.log| + 1 && r.tally.used == 0
    ensures r.stop.Some? && r.stop.value.ending == ProviderFailure ==> r.tally.used != 0
  {
  }

  /** A failing provider is given up only after the last attempt, as long as no tool has had its effect. */
  lemma GivesUpLast(c: Config, e: Env)
    requires Lawful(e) && c.Valid()
    ensures var r := Execution(c, e);
            r.stop.Some? && r.stop.value.ending == ProviderFailure && r.tally.used == 0 ==> |r.log| == c.maxAttempts
  {
    hide Attempts;
    AttemptsExhaust(c, e, 1, Course(None, Tally(0, 0, 0, 0), [], []));
  }
}
