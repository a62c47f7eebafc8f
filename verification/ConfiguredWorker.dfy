/**
 The model Worker activated from configuration: a retry loop around a loop of provider
 turns, each of which may invoke a batch of tools, all sharing one tool budget. The
 provider, the tools, the clock and the causes seen are arbitrary.
 */
module ConfiguredWorker {
  import opened Wrappers
  import opened Worker

  /** The validated limits, the provider's own name, and the capability behind each tool name. */
  datatype Config = Config(
    maxAttempts: nat,
    maxDuration: int,
    maxOutputBytes: nat,
    providerId: string,
    tools: map<string, string>)
  {
    predicate Valid() {
      maxAttempts >= 1 && maxDuration >= 1 && maxOutputBytes >= 1
    }
  }

  datatype ToolCall = ToolCall(callId: string, toolName: string, arguments: map<string, string>)
  datatype ToolResult = ToolResult(callId: string, toolName: string, value: string)
  datatype ToolReply = ToolRaised | ToolValue(encoded: string)

  datatype Body = Final(text: string) | Tools(calls: seq<ToolCall>)
  datatype Response = Response(provider: string, model: string, provenance: map<string, string>, body: Body)
  datatype Reply = Raised | Replied(response: Response)

  /** One look at the context and the clock: the cause, the time spent, and the time left to the deadline. */
  datatype Look = Look(cause: Option<Cause>, elapsed: int, left: Option<int>)

  /** Everything outside: looks, provider replies and tool replies, each numbered in the order they happen. */
  datatype Env = Env(
    look: nat -> Look,
    reply: (nat, seq<ToolResult>) -> Reply,
    tool: (nat, ToolCall) -> ToolReply,
    bytes: string -> nat)

  /** `ModelResponse.__post_init__`: a tool-call response has calls. */
  ghost predicate Lawful(e: Env) {
    forall n: nat, results :: e.reply(n, results).Replied? && e.reply(n, results).response.body.Tools? ==>
                                e.reply(n, results).response.body.calls != []
  }

  /** The "termination_cause" of a result, or that the model answered. */
  datatype Ending =
    | Answered
    | EndedBy(cause: Cause)
    | DurationLimit
    | ProviderFailure
    | OutputLimit
    | ToolCallBudget
    | UnknownToolName
    | ToolInvocationFailed
    | ToolOutputLimit
    | TurnLimit

  datatype Note =
    | ModelResponse(provider: string, model: string, final: bool)
    | ToolCompleted(callId: string, toolName: string, bytes: nat)
    | ToolRejected(callId: string)
    | ToolFailed(callId: string, capabilityRef: string)
    | ToolOversized(callId: string, bytes: nat)
    | BudgetExhausted
    | DurationReached
    | DeadlineReached
    | OutputOversized(bytes: nat)
    | Attempted(attempt: nat, status: WorkerStatus)
    | Terminated(cause: Cause)

  /** The part of the returned WorkerResult that the loops decide. */
  datatype Report = Report(status: WorkerStatus, ending: Ending, output: string, notes: seq<Note>)

  function Failed(ending: Ending, notes: seq<Note>): Report {
    Report(StatusFailed, ending, "", notes)
  }

  function Controlled(cause: Cause, notes: seq<Note>): Report {
    Report(if cause == CauseCancelled then StatusCancelled else StatusFailed, EndedBy(cause), "", notes)
  }

  /** How many looks, provider calls and tool invocations there were, and how much of the budget is used. */
  datatype Tally = Tally(looks: nat, asks: nat, invokes: nat, used: nat)

  // ---- One provider turn -----------------------------------------------------------------

  /** Where a model loop stands; it is over when there is a report. */
  datatype Progress = Progress(stop: Option<Report>, tally: Tally, notes: seq<Note>, results: seq<ToolResult>)

  function BeforeAsking(c: Config, l: Look, notes: seq<Note>): Option<Report> {
    var remaining := c.maxDuration - l.elapsed;
    if l.cause.Some? then Some(Controlled(l.cause.value, notes))
    else if (if l.left.Some? && l.left.value < remaining then l.left.value else remaining) <= 0 then
      Some(Failed(DurationLimit, notes + [DurationReached]))
    else None
  }

  function AfterAsking(c: Config, l: Look, notes: seq<Note>): Option<Report> {
    if l.cause.Some? then Some(Controlled(l.cause.value, notes))
    else if l.elapsed >= c.maxDuration then Some(Failed(DurationLimit, notes + [DurationReached]))
    else if l.left.Some? && l.left.value <= 0 then Some(Failed(EndedBy(CauseDeadline), notes + [DeadlineReached]))
    else None
  }

  /** The provider raised, or its response does not prove where it comes from. */
  predicate ProviderFailed(c: Config, reply: Reply) {
    reply.Raised? ||
    var r := reply.response;
    || r.provider != c.providerId
    || ("provider" in r.provenance && r.provenance["provider"] != r.provider)
    || ("model" in r.provenance && r.provenance["model"] != r.model)
  }

  /** The tool calls of one response from the i-th on. */
  function Batch(c: Config, e: Env, calls: seq<ToolCall>, i: nat, p: Progress): Progress
    decreases |calls| - i
  {
    if i >= |calls| then p
    else
      var call := calls[i];
      if call.toolName !in c.tools then p.(stop := Some(Failed(UnknownToolName, p.notes + [ToolRejected(call.callId)])))
      else
        var invoked := p.tally.(invokes := p.tally.invokes + 1);
        match e.tool(p.tally.invokes, call)
        case ToolRaised =>
          var note := ToolFailed(call.callId, c.tools[call.toolName]);
          p.(stop := Some(Failed(ToolInvocationFailed, p.notes + [note])), tally := invoked)
        case ToolValue(encoded) =>
          var size := e.bytes(encoded);
          if size > c.maxOutputBytes then
            p.(stop := Some(Failed(ToolOutputLimit, p.notes + [ToolOversized(call.callId, size)])), tally := invoked)
          else
            Batch(c, e, calls, i + 1, Progress(
                    None, invoked.(used := invoked.used + 1),
                    p.notes + [ToolCompleted(call.callId, call.toolName, size)],
                    p.results + [ToolResult(call.callId, call.toolName, encoded)]))
  }

  function OneTurn(c: Config, e: Env, p: Progress): Progress {
    var before := BeforeAsking(c, e.look(p.tally.looks), p.notes);
    var looked := p.tally.(looks := p.tally.looks + 1);
    if before.Some? then p.(stop := before, tally := looked)
    else
      var reply := e.reply(looked.asks, p.results);
      var asked := looked.(asks := looked.asks + 1);
      if ProviderFailed(c, reply) then p.(stop := Some(Failed(ProviderFailure, p.notes)), tally := asked)
      else
        var after := AfterAsking(c, e.look(asked.looks), p.notes);
        var done := asked.(looks := asked.looks + 1);
        if after.Some? then p.(stop := after, tally := done)
        else
          var r := reply.response;
          var notes := p.notes + [ModelResponse(r.provider, r.model, r.body.Final?)];
          match r.body
          case Final(text) =>
            var report :=
              if e.bytes(text) > c.maxOutputBytes then Failed(OutputLimit, notes + [OutputOversized(e.bytes(text))])
              else Report(StatusSuccess, Answered, text, notes);
            Progress(Some(report), done, notes, p.results)
          case Tools(calls) =>
            if done.used + |calls| > c.maxAttempts then
              Progress(Some(Failed(ToolCallBudget, notes + [BudgetExhausted])), done, notes, p.results)
            else Batch(c, e, calls, 0, Progress(None, done, notes, p.results))
  }

  /** The model loop from a turn on. */
  function Turns(c: Config, e: Env, turn: nat, p: Progress): Progress
    decreases c.maxAttempts + 1 - turn
  {
    if p.stop.Some? then p
    else if turn > c.maxAttempts then p.(stop := Some(Failed(TurnLimit, p.notes)))
    else Turns(c, e, turn + 1, OneTurn(c, e, p))
  }

  function ModelLoop(c: Config, e: Env, tally: Tally): Progress {
    Turns(c, e, 1, Progress(None, tally, [], []))
  }

  // ---- The retry loop ---------------------------------------------------------------------

  /** One attempt: the tally its model loop started from, and that loop's report. */
  datatype Attempt = Attempt(start: Tally, report: Report)

  datatype Course = Course(stop: Option<Report>, tally: Tally, notes: seq<Note>, log: seq<Attempt>)

  function BeforeAttempt(c: Config, l: Look, notes: seq<Note>): Option<Report> {
    if l.cause.Some? then Some(Controlled(l.cause.value, notes + [Terminated(l.cause.value)]))
    else AfterAsking(c, l, notes)
  }

  function AfterAttempt(c: Config, e: Env, l: Look, report: Report, used: nat, notes: seq<Note>): Option<Report> {
    if l.cause.Some? then Some(Controlled(l.cause.value, notes + [Terminated(l.cause.value)]))
    else if l.elapsed > c.maxDuration then Some(Failed(DurationLimit, notes + [DurationReached]))
    else if report.status == StatusFailed && (report.ending != ProviderFailure || used > 0) then
      Some(report.(notes := notes))
    else if report.status == StatusCancelled then Some(report.(notes := notes))
    else if report.status == StatusSuccess then
      var size := e.bytes(report.output);
      Some(if size > c.maxOutputBytes then Failed(OutputLimit, notes + [OutputOversized(size)])
           else report.(notes := notes))
    else None
  }

  function OneAttempt(c: Config, e: Env, attempt: nat, q: Course): Course {
    var before := BeforeAttempt(c, e.look(q.tally.looks), q.notes);
    var looked := q.tally.(looks := q.tally.looks + 1);
    if before.Some? then q.(stop := before, tally := looked)
    else
      LoopEnds(c, e, 1, Progress(None, looked, [], []));
      var loop := ModelLoop(c, e, looked);
      var report := loop.stop.value;
      var notes := q.notes + report.notes + [Attempted(attempt, report.status)];
      Course(AfterAttempt(c, e, e.look(loop.tally.looks), report, loop.tally.used, notes),
             loop.tally.(looks := loop.tally.looks + 1), notes, q.log + [Attempt(looked, report)])
  }

  /** The retry loop from an attempt on. */
  function Attempts(c: Config, e: Env, attempt: nat, q: Course): Course
    decreases c.maxAttempts + 1 - attempt
  {
    if q.stop.Some? then q
    else if attempt <= c.maxAttempts then Attempts(c, e, attempt + 1, OneAttempt(c, e, attempt, q))
    else if q.log == [] then q
    else q.(stop := Some(q.log[|q.log| - 1].report.(notes := q.notes)))
  }

  /** The whole of `execute`. */
  function Execution(c: Config, e: Env): Course {
    Attempts(c, e, 1, Course(None, Tally(0, 0, 0, 0), [], []))
  }

  lemma {:induction false} LoopEnds(c: Config, e: Env, turn: nat, p: Progress)
    ensures Turns(c, e, turn, p).stop.Some?
    decreases c.maxAttempts + 1 - turn
  {
    if p.stop.None? && turn <= c.maxAttempts {
      LoopEnds(c, e, turn + 1, OneTurn(c, e, p));
    }
  }

  // ---- The loops themselves --------------------------------------------------------------

  /** `_execute_model_loop` */
  method ExecuteModelLoop(c: Config, e: Env, started: Tally) returns (report: Report, tally: Tally)
    ensures ModelLoop(c, e, started).stop == Some(report) && ModelLoop(c, e, started).tally == tally
  {
    tally := started;
    var notes: seq<Note> := [];
    var results: seq<ToolResult> := [];
    for turn := 1 to c.maxAttempts + 1
      invariant ModelLoop(c, e, started) == Turns(c, e, turn, Progress(None, tally, notes, results))
    {
      ghost var at := Progress(None, tally, notes, results);
      var before := BeforeAsking(c, e.look(tally.looks), notes);
      tally := tally.(looks := tally.looks + 1);
      if before.Some? {
        return before.value, tally;
      }
      var reply := e.reply(tally.asks, results);
      tally := tally.(asks := tally.asks + 1);
      if ProviderFailed(c, reply) {
        return Failed(ProviderFailure, notes), tally;
      }
      var after := AfterAsking(c, e.look(tally.looks), notes);
      tally := tally.(looks := tally.looks + 1);
      if after.Some? {
        return after.value, tally;
      }
      var response := reply.response;
      notes := notes + [ModelResponse(response.provider, response.model, response.body.Final?)];
      if response.body.Final? {
        var size := e.bytes(response.body.text);
        if size > c.maxOutputBytes {
          return Failed(OutputLimit, notes + [OutputOversized(size)]), tally;
        }
        return Report(StatusSuccess, Answered, response.body.text, notes), tally;
      }
      var calls := response.body.calls;
      if tally.used + |calls| > c.maxAttempts {
        return Failed(ToolCallBudget, notes + [BudgetExhausted]), tally;
      }
      for i := 0 to |calls|
        invariant OneTurn(c, e, at) == Batch(c, e, calls, i, Progress(None, tally, notes, results))
      {
        var call := calls[i];
        if call.toolName !in c.tools {
          return Failed(UnknownToolName, notes + [ToolRejected(call.callId)]), tally;
        }
        var value := e.tool(tally.invokes, call);
        tally := tally.(invokes := tally.invokes + 1);
        if value.ToolRaised? {
          return Failed(ToolInvocationFailed, notes + [ToolFailed(call.callId, c.tools[call.toolName])]), tally;
        }
        var size := e.bytes(value.encoded);
        if size > c.maxOutputBytes {
          return Failed(ToolOutputLimit, notes + [ToolOversized(call.callId, size)]), tally;
        }
        tally := tally.(used := tally.used + 1);
        results := results + [ToolResult(call.callId, call.toolName, value.encoded)];
        notes := notes + [ToolCompleted(call.callId, call.toolName, size)];
      }
    }
    report := Failed(TurnLimit, notes);
  }

  /** `execute`: the report and the tally of a run, and the attempts it made. */
  method Execute(c: Config, e: Env) returns (report: Report, tally: Tally, ghost log: seq<Attempt>)
    requires c.Valid()
    ensures Execution(c, e).stop == Some(report) && Execution(c, e).tally == tally
    ensures Execution(c, e).log == log
  {
    hide ModelLoop, BeforeAttempt, AfterAttempt;
    tally := Tally(0, 0, 0, 0);
    log := [];
    var notes: seq<Note> := [];
    var last: Option<Report> := None;
    for attempt := 1 to c.maxAttempts + 1
      invariant Execution(c, e) == Attempts(c, e, attempt, Course(None, tally, notes, log))
      invariant |log| == attempt - 1 && last == (if log == [] then None else Some(log[|log| - 1].report))
    {
      ghost var at := Course(None, tally, notes, log);
      var before := BeforeAttempt(c, e.look(tally.looks), notes);
      tally := tally.(looks := tally.looks + 1);
      if before.Some? {
        return before.value, tally, log;
      }
      ghost var start := tally;
      var result;
      result, tally := ExecuteModelLoop(c, e, tally);
      last := Some(result);
      log := log + [Attempt(start, result)];
      notes := notes + result.notes + [Attempted(attempt, result.status)];
      var after := AfterAttempt(c, e, e.look(tally.looks), result, tally.used, notes);
      tally := tally.(looks := tally.looks + 1);
      assert OneAttempt(c, e, attempt, at) == Course(after, tally, notes, log);
      if after.Some? {
        return after.value, tally, log;
      }
    }
    assert last.Some?;
    report := last.value.(notes := notes);
  }

  // ---- Bounds on one model loop ------------------------------------------------------------

  /** Tools are invoked within what the budget leaves, and each success uses one unit of it. */
  ghost predicate Spent(c: Config, from: Tally, to: Tally) {
    && from.used <= to.used <= c.maxAttempts
    && to.used - from.used <= to.invokes - from.invokes <= c.maxAttempts - from.used
  }

  /** A stop other than by the provider; a success is a text within the limit. */
  ghost predicate Sound(c: Config, e: Env, report: Report) {
    && (report.status == StatusSuccess <==> report.ending == Answered)
    && (report.status == StatusSuccess ==> e.bytes(report.output) <= c.maxOutputBytes)
    && (report.status == StatusCancelled <==> report.ending == EndedBy(CauseCancelled))
  }

  lemma {:induction false} BatchBounds(c: Config, e: Env, calls: seq<ToolCall>, i: nat, p: Progress)
    requires p.stop.None? && i <= |calls| && p.tally.used + |calls| - i <= c.maxAttempts
    ensures var q := Batch(c, e, calls, i, p);
            && Spent(c, p.tally, q.tally) && q.tally.asks == p.tally.asks
            && (q.stop.None? ==>
                  q.tally.used == p.tally.used + |calls| - i && q.tally.invokes - p.tally.invokes == |calls| - i)
            && (q.stop.Some? ==> Sound(c, e, q.stop.value) && q.stop.value.ending != ProviderFailure)
    decreases |calls| - i
  {
    if i < |calls| && calls[i].toolName in c.tools {
      match e.tool(p.tally.invokes, calls[i])
      case ToolRaised =>
      case ToolValue(encoded) =>
        var size := e.bytes(encoded);
        if size <= c.maxOutputBytes {
          BatchBounds(c, e, calls, i + 1, Progress(
                        None, p.tally.(invokes := p.tally.invokes + 1, used := p.tally.used + 1),
                        p.notes + [ToolCompleted(calls[i].callId, calls[i].toolName, size)],
                        p.results + [ToolResult(calls[i].callId, calls[i].toolName, encoded)]));
        }
    }
  }

  /** A turn asks the provider at most once, and a turn that leads to another uses the budget. */
  lemma TurnBounds(c: Config, e: Env, p: Progress)
    requires Lawful(e) && p.stop.None? && p.tally.used <= c.maxAttempts
    ensures var q := OneTurn(c, e, p);
            && Spent(c, p.tally, q.tally) && p.tally.asks <= q.tally.asks <= p.tally.asks + 1
            && (q.stop.None? ==>
                  q.tally.used > p.tally.used && q.tally.used - p.tally.used == q.tally.invokes - p.tally.invokes)
            && (q.stop.Some? ==> Sound(c, e, q.stop.value))
            && (q.stop.Some? && q.stop.value.ending == ProviderFailure ==>
                  q.tally.(looks := 0) == p.tally.(asks := p.tally.asks + 1, looks := 0)
                  && ProviderFailed(c, e.reply(p.tally.asks, p.results)))
  {
    hide Batch, ProviderFailed;
    var reply := e.reply(p.tally.asks, p.results);
    if !ProviderFailed(c, reply) {
      assert reply.Replied? by { Answers(c, reply); }
      var r := reply.response;
      if r.body.Tools? && p.tally.used + |r.body.calls| <= c.maxAttempts {
        BatchBounds(c, e, r.body.calls, 0, Progress(
                      None, p.tally.(looks := p.tally.looks + 2, asks := p.tally.asks + 1),
                      p.notes + [ModelResponse(r.provider, r.model, false)], p.results));
      }
    }
  }

  /** What was seen leaves time to act: no cause, and neither the time limit nor the deadline reached. */
  predicate InTime(c: Config, l: Look) {
    l.cause.None? && l.elapsed < c.maxDuration && (l.left.Some? ==> l.left.value > 0)
  }

  /**
   The provider is asked exactly when the look before it leaves time, tools are invoked only
   when the look after the answer still does, and then only if the whole batch fits the budget.
   */
  lemma ActsOnlyInTime(c: Config, e: Env, p: Progress)
    requires Lawful(e) && p.stop.None?
    ensures var q := OneTurn(c, e, p);
            && (q.tally.asks == p.tally.asks + 1 <==> InTime(c, e.look(p.tally.looks)))
            && (q.tally.asks == p.tally.asks <==> !InTime(c, e.look(p.tally.looks)))
            && (q.tally.invokes != p.tally.invokes ==>
                  var reply := e.reply(p.tally.asks, p.results);
                  && InTime(c, e.look(p.tally.looks)) && InTime(c, e.look(p.tally.looks + 1))
                  && reply.Replied? && reply.response.provider == c.providerId && reply.response.body.Tools?
                  && p.tally.used + |reply.response.body.calls| <= c.maxAttempts)
  {
    hide Batch;
    var reply := e.reply(p.tally.asks, p.results);
    if reply.Replied? && reply.response.body.Tools? && p.tally.used + |reply.response.body.calls| <= c.maxAttempts {
      var r := reply.response;
      BatchBounds(c, e, r.body.calls, 0, Progress(
                    None, p.tally.(looks := p.tally.looks + 2, asks := p.tally.asks + 1),
                    p.notes + [ModelResponse(r.provider, r.model, false)], p.results));
    }
  }

  lemma Answers(c: Config, reply: Reply)
    requires !ProviderFailed(c, reply)
    ensures reply.Replied?
  {
  }

  /**
   From a turn on, the model loop asks at most once per remaining turn and invokes at
   most what the budget leaves. If it ends with a provider failure and an unused budget,
   that was its first turn and no tool was invoked.
   */
  lemma {:induction false} TurnsBounds(c: Config, e: Env, turn: nat, p: Progress)
    requires Lawful(e) && p.stop.None? && p.tally.used <= c.maxAttempts && turn <= c.maxAttempts + 1
    ensures var q := Turns(c, e, turn, p);
            && q.stop.Some? && Sound(c, e, q.stop.value)
            && Spent(c, p.tally, q.tally) && p.tally.asks <= q.tally.asks <= p.tally.asks + c.maxAttempts + 1 - turn
            && (q.stop.value.ending == ProviderFailure && q.tally.used == p.tally.used ==>
                  q.tally.asks == p.tally.asks + 1 && q.tally.invokes == p.tally.invokes
                  && ProviderFailed(c, e.reply(p.tally.asks, p.results)))
    decreases c.maxAttempts + 1 - turn
  {
    hide OneTurn, Lawful, ProviderFailed;
    if turn <= c.maxAttempts {
      TurnBounds(c, e, p);
      var q := OneTurn(c, e, p);
      if q.stop.None? {
        TurnsBounds(c, e, turn + 1, q);
      }
    }
  }

  // ---- Bounds on the whole run --------------------------------------------------------------

  /** Every attempt started with one provider call and one failure per attempt before it, and no tool invoked. */
  ghost predicate Untouched(c: Config, e: Env, log: seq<Attempt>) {
    forall i :: 0 <= i < |log| ==>
                  && log[i].start.asks == i && log[i].start.invokes == 0 && log[i].start.used == 0
                  && (i < |log| - 1 ==> log[i].report.ending == ProviderFailure && ProviderFailed(c, e.reply(i, [])))
  }

  /** What each attempt leaves: nothing touched if there may be another, else at most one full model loop. */
  ghost predicate Within(c: Config, e: Env, attempt: nat, q: Course) {
    && Untouched(c, e, q.log)
    && |q.log| <= c.maxAttempts
    && (q.stop.None? ==>
          && |q.log| == attempt - 1 && q.tally.asks == attempt - 1 && q.tally.invokes == 0 && q.tally.used == 0
          && forall i :: 0 <= i < |q.log| ==> q.log[i].report.ending == ProviderFailure
                                              && ProviderFailed(c, e.reply(i, []))
                                              && q.log[i].report.status == StatusFailed)
    && (q.log == [] ==> q.tally.asks == 0 && q.tally.invokes == 0)
    && (q.log != [] ==> q.tally.asks <= |q.log| - 1 + c.maxAttempts && q.tally.invokes <= c.maxAttempts)
    && (forall a <- q.log :: Sound(c, e, a.report))
  }

  lemma AttemptWithin(c: Config, e: Env, attempt: nat, q: Course)
    requires Lawful(e) && c.Valid() && 1 <= attempt <= c.maxAttempts && q.stop.None? && Within(c, e, attempt, q)
    ensures Within(c, e, attempt + 1, OneAttempt(c, e, attempt, q))
  {
    hide Turns, Lawful, ProviderFailed, BeforeAttempt;
    var looked := q.tally.(looks := q.tally.looks + 1);
    TurnsBounds(c, e, 1, Progress(None, looked, [], []));
    var r := OneAttempt(c, e, attempt, q);
    if r.log != q.log {
      assert r.log[..|q.log|] == q.log;
    }
  }

  /** The notes of the attempts, in order, each attempt closed by one marker. */
  function Trail(log: seq<Attempt>): seq<Note> {
    if log == [] then []
    else
      var last := log[|log| - 1];
      Trail(log[..|log| - 1]) + last.report.notes + [Attempted(|log|, last.report.status)]
  }

  /**
   What is reported: the evidence of all attempts and at most one note more; success exactly when the last
   attempt earned it.
   */
  ghost predicate Reported(e: Env, c: Config, q: Course) {
    && q.notes == Trail(q.log)
    && (q.stop.Some? ==>
          && var r := q.stop.value;
          && Trail(q.log) <= r.notes && |r.notes| <= |Trail(q.log)| + 1
          && q.tally.looks > 0
          && var l := e.look(q.tally.looks - 1);
          && (r.status == StatusSuccess <==>
                && q.log != [] && q.log[|q.log| - 1].report.status == StatusSuccess
                && l.cause.None? && l.elapsed <= c.maxDuration)
          && (r.status == StatusSuccess ==> r.output == q.log[|q.log| - 1].report.output))
  }

  /** How an attempt that ends the run is reported. */
  lemma AfterAttemptMeans(c: Config, e: Env, l: Look, report: Report, used: nat, notes: seq<Note>)
    requires Sound(c, e, report)
    ensures var stop := AfterAttempt(c, e, l, report, used, notes);
            stop.Some? ==>
              && notes <= stop.value.notes && |stop.value.notes| <= |notes| + 1
              && (stop.value.status == StatusSuccess <==>
                    report.status == StatusSuccess && l.cause.None? && l.elapsed <= c.maxDuration)
              && (stop.value.status == StatusSuccess ==> stop.value.output == report.output)
  {
  }

  lemma BeforeAttemptMeans(c: Config, l: Look, notes: seq<Note>)
    ensures var stop := BeforeAttempt(c, l, notes);
            stop.Some? ==>
              notes <= stop.value.notes && |stop.value.notes| <= |notes| + 1 && stop.value.status != StatusSuccess
  {
  }

  lemma AttemptReported(c: Config, e: Env, attempt: nat, q: Course)
    requires Lawful(e) && c.Valid() && 1 <= attempt <= c.maxAttempts && q.stop.None?
    requires Within(c, e, attempt, q) && Reported(e, c, q)
    ensures Reported(e, c, OneAttempt(c, e, attempt, q))
  {
    hide Turns, Lawful, ProviderFailed, Untouched, BeforeAttempt, AfterAttempt, Sound, Spent;
    var looked := q.tally.(looks := q.tally.looks + 1);
    TurnsBounds(c, e, 1, Progress(None, looked, [], []));
    BeforeAttemptMeans(c, e.look(q.tally.looks), q.notes);
    var r := OneAttempt(c, e, attempt, q);
    if BeforeAttempt(c, e.look(q.tally.looks), q.notes).None? {
      var loop := ModelLoop(c, e, looked);
      assert r.log[..|q.log|] == q.log;
      assert r.notes == Trail(r.log);
      AfterAttemptMeans(c, e, e.look(loop.tally.looks), loop.stop.value, loop.tally.used, r.notes);
    } else {
      assert r.log == q.log;
      assert q.log != [] ==> q.log[|q.log| - 1].report.status == StatusFailed;
    }
  }

  lemma {:induction false} AttemptsBounds(c: Config, e: Env, attempt: nat, q: Course)
    requires Lawful(e) && c.Valid() && 1 <= attempt <= c.maxAttempts + 1
    requires q.stop.None? && Within(c, e, attempt, q) && Reported(e, c, q) && (q.log != [] ==> q.tally.looks > 0)
    ensures var r := Attempts(c, e, attempt, q);
            r.stop.Some? && (exists n: nat :: Within(c, e, n, r)) && Reported(e, c, r)
    decreases c.maxAttempts + 1 - attempt
  {
    hide OneAttempt, Lawful, ProviderFailed, Sound, Untouched;
    if attempt <= c.maxAttempts {
      AttemptWithin(c, e, attempt, q);
      AttemptReported(c, e, attempt, q);
      var r := OneAttempt(c, e, attempt, q);
      AttemptLooks(c, e, attempt, q);
      if r.stop.None? {
        AttemptsBounds(c, e, attempt + 1, r);
      } else {
        assert Attempts(c, e, attempt, q) == r;
      }
    } else {
      assert Within(c, e, attempt, Attempts(c, e, attempt, q));
    }
  }

  lemma AttemptLooks(c: Config, e: Env, attempt: nat, q: Course)
    ensures OneAttempt(c, e, attempt, q).tally.looks > 0
  {
  }

  /**
   One `execute`, whatever the provider, the tools and the clock do: a report; at most
   2M - 1 provider calls and M tool invocations, M being `max_attempts`; no attempt but
   the last invokes a tool, and each earlier one was a single failed provider call; the
   evidence is that of the attempts in order; and success exactly when the last attempt
   succeeded and neither a cause nor the time limit was seen after it.
   */
  lemma ExecutionBounds(c: Config, e: Env)
    requires Lawful(e) && c.Valid()
    ensures var q := Execution(c, e);
            && q.stop.Some? && |q.log| <= c.maxAttempts
            && q.tally.asks <= 2 * c.maxAttempts - 1 && q.tally.invokes <= c.maxAttempts
            && Untouched(c, e, q.log) && Reported(e, c, q)
  {
    hide Attempts, Reported;
    var start := Course(None, Tally(0, 0, 0, 0), [], []);
    assert Reported(e, c, start) by { NothingReported(c, e); }
    AttemptsBounds(c, e, 1, start);
  }

  lemma NothingReported(c: Config, e: Env)
    ensures Reported(e, c, Course(None, Tally(0, 0, 0, 0), [], []))
  {
  }

  // ---- The bounds are met -------------------------------------------------------------------

  /** A provider that fails M - 1 times and then asks for one tool per turn, for ever. */
  function Stubborn(c: Config, tool: string): Env {
    Env(_ => Look(None, 0, None),
        (n, _) => if n + 1 < c.maxAttempts then Raised
          else Replied(Response(c.providerId, "", map[], Tools([ToolCall("", tool, map[])]))),
        (_, _) => ToolValue(""),
        _ => 0)
  }

  lemma {:induction false} StubbornTurns(c: Config, tool: string, turn: nat, p: Progress)
    requires c.Valid() && tool in c.tools && 1 <= turn <= c.maxAttempts + 1 && p.stop.None?
    requires p.tally.asks + 1 >= c.maxAttempts && p.tally.used == p.tally.invokes == turn - 1
    ensures var q := Turns(c, Stubborn(c, tool), turn, p);
            && q.stop.Some? && q.stop.value.status == StatusFailed && q.stop.value.ending == TurnLimit
            && q.tally.asks == p.tally.asks + c.maxAttempts + 1 - turn && q.tally.invokes == c.maxAttempts
    decreases c.maxAttempts + 1 - turn
  {
    if turn <= c.maxAttempts {
      StubbornTurn(c, tool, p);
      StubbornTurns(c, tool, turn + 1, OneTurn(c, Stubborn(c, tool), p));
    }
  }

  lemma StubbornTurn(c: Config, tool: string, p: Progress)
    requires c.Valid() && tool in c.tools && p.stop.None?
    requires p.tally.asks + 1 >= c.maxAttempts && p.tally.used < c.maxAttempts
    ensures var q := OneTurn(c, Stubborn(c, tool), p);
            q.stop.None? && q.tally == Tally(p.tally.looks + 2, p.tally.asks + 1, p.tally.invokes + 1, p.tally.used + 1)
  {
    var e := Stubborn(c, tool);
    var calls := [ToolCall("", tool, map[])];
    assert e.reply(p.tally.asks, p.results) == Replied(Response(c.providerId, "", map[], Tools(calls)));
    var q := Progress(None, p.tally.(looks := p.tally.looks + 2, asks := p.tally.asks + 1),
                      p.notes + [ModelResponse(c.providerId, "", false)], p.results);
    assert OneTurn(c, e, p) == Batch(c, e, calls, 0, q);
  }

  lemma {:induction false} StubbornAttempts(c: Config, tool: string, attempt: nat, q: Course)
    requires c.Valid() && tool in c.tools && 1 <= attempt <= c.maxAttempts && q.stop.None?
    requires q.tally.asks == attempt - 1 && q.tally.used == q.tally.invokes == 0
    ensures var r := Attempts(c, Stubborn(c, tool), attempt, q);
            r.tally.asks == 2 * c.maxAttempts - 1 && r.tally.invokes == c.maxAttempts
    decreases c.maxAttempts - attempt
  {
    hide OneTurn;
    var e := Stubborn(c, tool);
    var start := Progress(None, q.tally.(looks := q.tally.looks + 1), [], []);
    if attempt < c.maxAttempts {
      StubbornFailure(c, tool, start);
      assert Turns(c, e, 1, start) == OneTurn(c, e, start);
      StubbornAttempts(c, tool, attempt + 1, OneAttempt(c, e, attempt, q));
    } else {
      StubbornTurns(c, tool, 1, start);
    }
  }

  lemma StubbornFailure(c: Config, tool: string, p: Progress)
    requires c.Valid() && p.tally.asks + 1 < c.maxAttempts
    ensures OneTurn(c, Stubborn(c, tool), p) ==
            p.(stop := Some(Failed(ProviderFailure, p.notes)),
               tally := p.tally.(looks := p.tally.looks + 1, asks := p.tally.asks + 1))
  {
  }

  /** Both bounds of `ExecutionBounds` are attained, for every configuration with a tool. */
  lemma BoundsAttained(c: Config, tool: string)
    requires c.Valid() && tool in c.tools
    ensures var q := Execution(c, Stubborn(c, tool));
            Lawful(Stubborn(c, tool)) && q.tally.asks == 2 * c.maxAttempts - 1 && q.tally.invokes == c.maxAttempts
  {
    hide Attempts;
    StubbornAttempts(c, tool, 1, Course(None, Tally(0, 0, 0, 0), [], []));
  }
}
