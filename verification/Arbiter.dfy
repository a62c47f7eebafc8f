/**
 The Arbiter: a Worker that runs a queue of Workers, evaluating each result and
 retrying, replanning or stopping. Workers, evaluator and control causes are
 arbitrary; everything is stated for all their behaviours.
 */
module Arbiter {
  import opened Wrappers
  import opened Worker
  import PyText

  datatype Decision =
    | Complete(reason: string)
    | Interrupt(reason: string)
    | Continue
    | Retry
    | Replan(workers: seq<string>)

  /** What happens around the k-th Worker call: the causes seen before and after it, its result, and its evaluation. */
  datatype Surroundings = Surroundings(
    before: nat -> Option<Cause>,
    result: nat -> WorkerResult,
    after: nat -> Option<Cause>,
    decision: nat -> Decision,
    cancelReason: string)

  ghost predicate Lawful(s: Surroundings) {
    forall k: nat :: Constructed(s.result(k))
  }

  // ---- The result an Arbiter returns ------------------------------------------------

  datatype EndStatus = EndComplete | EndInterrupted | EndPartial | EndFailed | EndCancelled | EndPolicyDenied

  function StatusFor(status: EndStatus): WorkerStatus {
    match status
    case EndComplete => StatusSuccess
    case EndPartial => StatusSuccess
    case EndCancelled => StatusCancelled
    case _ => StatusFailed
  }

  function OutcomeFor(status: EndStatus, cause: Option<TerminationTag>): WorkerOutcome {
    match status
    case EndComplete => Succeeded
    case EndInterrupted => OutcomeFailed
    case EndPartial => PartiallySucceeded
    case EndFailed => if cause == Some(TagDeadlineExceeded) then DeadlineExceeded else OutcomeFailed
    case EndCancelled => OutcomeCancelled
    case EndPolicyDenied => PolicyDenied
  }

  function CodeFor(status: EndStatus, cause: Option<TerminationTag>): string {
    if cause == Some(TagDeadlineExceeded) then "deadline_exceeded"
    else if cause == Some(TagInterrupted) then "execution_interrupted"
    else if status == EndPolicyDenied then "policy_denied"
    else if StatusFor(status) == StatusFailed then "execution_failed"
    else ""
  }

  function ArtifactsOf(outputs: seq<WorkerResult>): seq<seq<string>> {
    seq(|outputs|, i requires 0 <= i < |outputs| => outputs[i].artifacts)
  }

  function ObservationsOf(outputs: seq<WorkerResult>): seq<seq<string>> {
    seq(|outputs|, i requires 0 <= i < |outputs| => outputs[i].observations)
  }

  function EventIdsOf(outputs: seq<WorkerResult>): seq<seq<string>> {
    seq(|outputs|, i requires 0 <= i < |outputs| => outputs[i].eventIds)
  }

  function Concat<T>(parts: seq<seq<T>>): seq<T> {
    if parts == [] then [] else parts[0] + Concat(parts[1..])
  }

  /** `dict.fromkeys`: each item once, at its first place. */
  function FirstOccurrences(items: seq<string>): seq<string> {
    if items == [] then []
    else
      var rest := FirstOccurrences(items[..|items| - 1]);
      if items[|items| - 1] in rest then rest else rest + [items[|items| - 1]]
  }

  /** `_result` */
  function ArbiterResult(arbiterId: string, outputs: seq<WorkerResult>, evidence: seq<Evidence>, status: EndStatus,
                         reason: string, cause: Option<TerminationTag>): (r: WorkerResult)
    requires !PyText.Blank(arbiterId)
    ensures Constructed(r) && r.outcome == Some(OutcomeFor(status, cause)) && r.status == StatusFor(status)
    ensures r.metadata.terminationCause == cause
            && r.metadata.continuationPending == (status in {EndInterrupted, EndPartial})
    ensures r.evidence == evidence && r.output == Outputs(outputs)
    ensures r.error == (if r.status == StatusFailed then reason else "")
  {
    var raw := WorkerResult(
                 arbiterId, StatusFor(status), Outputs(outputs), evidence,
                 if StatusFor(status) == StatusFailed then reason else "",
                 Metadata(cause, status in {EndInterrupted, EndPartial}, map["reason" := reason]),
                 CodeFor(status, cause), false, Some(OutcomeFor(status, cause)),
                 Concat(ArtifactsOf(outputs)),
                 Concat(ObservationsOf(outputs)),
                 FirstOccurrences(Concat(EventIdsOf(outputs))));
    PostInitIsStable(raw);
    PostInit(raw).value
  }

  /** Where an item first stands. */
  function FirstAt(items: seq<string>, item: string): (i: nat)
    requires item in items
    ensures i < |items| && items[i] == item && item !in items[..i]
  {
    var front := items[..|items| - 1];
    if item in front then assert forall i | 0 <= i <= |front| :: front[..i] == items[..i]; FirstAt(front, item)
    else |items| - 1
  }

  /** The deduplication loses no item, repeats none, and orders them by their first places. */
  lemma {:induction false} FirstOccurrencesOnce(items: seq<string>)
    ensures var firsts := FirstOccurrences(items);
            && (forall x :: x in firsts <==> x in items)
            && (forall i, j :: 0 <= i < j < |firsts| ==>
                  firsts[i] in items && firsts[j] in items && FirstAt(items, firsts[i]) < FirstAt(items, firsts[j]))
  {
    if items != [] {
      var front, last := items[..|items| - 1], items[|items| - 1];
      FirstOccurrencesOnce(front);
      assert items == front + [last];
      var rest, firsts := FirstOccurrences(front), FirstOccurrences(items);
      forall i, j | 0 <= i < j < |firsts|
        ensures firsts[i] in items && firsts[j] in items && FirstAt(items, firsts[i]) < FirstAt(items, firsts[j])
      {
        assert firsts[i] == rest[i] && rest[i] in front;
        if j < |rest| {
          assert rest[j] in front;
        }
      }
    }
  }

  lemma {:induction false} ConcatAppend<T>(parts: seq<seq<T>>, part: seq<T>)
    ensures Concat(parts + [part]) == Concat(parts) + part
  {
    if parts == [] {
      assert parts + [part] == [part] && [part][1..] == [];
    } else {
      assert (parts + [part])[1..] == parts[1..] + [part];
      ConcatAppend(parts[1..], part);
    }
  }

  lemma {:induction false} FirstOccurrencesAppend(items: seq<string>, more: seq<string>)
    ensures FirstOccurrences(items) <= FirstOccurrences(items + more)
  {
    if more == [] {
      assert items + more == items;
    } else {
      assert (items + more)[..|items + more| - 1] == items + more[..|more| - 1];
      FirstOccurrencesAppend(items, more[..|more| - 1]);
    }
  }

  /**
   Every executed call contributes, in call order: its artifacts and observations are
   appended, and its event ids that are new come after those already there.
   */
  lemma ResultCollects(arbiterId: string, outputs: seq<WorkerResult>, next: WorkerResult, evidence: seq<Evidence>,
                       status: EndStatus, reason: string, cause: Option<TerminationTag>)
    requires !PyText.Blank(arbiterId)
    ensures var before := ArbiterResult(arbiterId, outputs, evidence, status, reason, cause);
            outputs == [] ==> before.artifacts == [] && before.observations == [] && before.eventIds == []
    ensures var before, r := ArbiterResult(arbiterId, outputs, evidence, status, reason, cause),
                             ArbiterResult(arbiterId, outputs + [next], evidence, status, reason, cause);
            && r.artifacts == before.artifacts + next.artifacts
            && r.observations == before.observations + next.observations
            && before.eventIds <= r.eventIds
            && (forall id :: id in r.eventIds <==> id in before.eventIds || id in next.eventIds)
  {
    hide Constructed, Concat, FirstOccurrences, ArtifactsOf, ObservationsOf, EventIdsOf;
    NextOutput(outputs, next);
    ConcatAppend(ArtifactsOf(outputs), next.artifacts);
    ConcatAppend(ObservationsOf(outputs), next.observations);
    ConcatAppend(EventIdsOf(outputs), next.eventIds);
    var ids := Concat(EventIdsOf(outputs));
    FirstOccurrencesAppend(ids, next.eventIds);
    FirstOccurrencesOnce(ids);
    FirstOccurrencesOnce(ids + next.eventIds);
  }

  lemma NextOutput(outputs: seq<WorkerResult>, next: WorkerResult)
    ensures ArtifactsOf(outputs + [next]) == ArtifactsOf(outputs) + [next.artifacts]
    ensures ObservationsOf(outputs + [next]) == ObservationsOf(outputs) + [next.observations]
    ensures EventIdsOf(outputs + [next]) == EventIdsOf(outputs) + [next.eventIds]
    ensures outputs == [] ==> Concat(ArtifactsOf(outputs)) == [] && Concat(ObservationsOf(outputs)) == []
    ensures outputs == [] ==> FirstOccurrences(Concat(EventIdsOf(outputs))) == []
  {
  }

  // ---- When the loop stops --------------------------------------------------------------

  /** An immediate return: how the result is labelled, and the control marker it appends. */
  datatype Stop = Stop(status: EndStatus, reason: string, cause: Option<TerminationTag>, marker: seq<Evidence>)

  function ControlStop(cause: Option<Cause>, why: string): Option<Stop> {
    match cause
    case None => None
    case Some(CauseCancelled) => Some(Stop(EndCancelled, why, None, [CancellationObserved(why)]))
    case Some(CauseDeadline) => Some(Stop(EndFailed, "deadline exceeded", Some(TagDeadlineExceeded), [DeadlinePassed]))
  }

  function Or(text: string, otherwise: string): string {
    if text != "" then text else otherwise
  }

  /** Outcomes that end the Arbiter without asking its evaluator. */
  function OutcomeStop(r: WorkerResult): Option<Stop> {
    match r.outcome
    case Some(OutcomeCancelled) => Some(Stop(EndCancelled, "", None, []))
    case Some(DeadlineExceeded) =>
      Some(Stop(EndFailed, Or(r.error, "deadline exceeded"), Some(TagDeadlineExceeded), []))
    case Some(PolicyDenied) => Some(Stop(EndPolicyDenied, Or(r.error, "policy denied"), None, []))
    case Some(OutcomeFailed) =>
      if r.metadata.terminationCause == Some(TagInterrupted) then
        Some(Stop(EndInterrupted, Or(r.error, "nested execution interrupted"), Some(TagInterrupted), []))
      else None
    case Some(PartiallySucceeded) =>
      var reason := if "reason" in r.metadata.rest then r.metadata.rest["reason"] else "";
      Some(Stop(EndPartial, Or(reason, "nested Arbiter partially succeeded"), None, []))
    case _ => None
  }

  /** The evaluator's decision, for the Worker's `attempts`-th attempt. */
  function DecisionStop(r: WorkerResult, d: Decision, attempts: nat, maxRetries: nat): Option<Stop> {
    match d
    case Complete(reason) => Some(Stop(EndComplete, reason, None, []))
    case Interrupt(reason) => Some(Stop(EndInterrupted, Or(reason, "execution interrupted"), Some(TagInterrupted), []))
    case Retry =>
      if r.outcome in {Some(PolicyDenied), Some(OutcomeCancelled), Some(DeadlineExceeded)} then
        Some(Stop(EndFailed, Or(r.error, "outcome is terminal"),
                  if r.outcome == Some(DeadlineExceeded) then Some(TagDeadlineExceeded) else None, []))
      else if r.status == StatusFailed && !r.retryable then
        Some(Stop(EndFailed, Or(r.error, "failure is not retryable"), None, []))
      else if attempts >= maxRetries + 1 then Some(Stop(EndFailed, "retry limit exceeded", None, []))
      else None
    case _ => None
  }

  /** The evaluator is asked about the k-th call. */
  predicate Evaluated(s: Surroundings, k: nat) {
    s.after(k).None? && OutcomeStop(s.result(k)).None?
  }

  /** What follows the k-th call, if not another turn of the loop. */
  function StopAfter(s: Surroundings, k: nat, attempts: nat, maxRetries: nat): Option<Stop> {
    if s.after(k).Some? then ControlStop(s.after(k), s.cancelReason)
    else if OutcomeStop(s.result(k)).Some? then OutcomeStop(s.result(k))
    else DecisionStop(s.result(k), s.decision(k), attempts, maxRetries)
  }

  /** `outputs[-1].status` decides how a run out of the queue ends. */
  function QueueDone(outputs: seq<WorkerResult>): Stop {
    if outputs != [] && outputs[|outputs| - 1].status == StatusFailed
    then Stop(EndFailed, "worker failed without subsequent recovery", None, [])
    else Stop(EndComplete, "", None, [])
  }

  // ---- What a run collects -----------------------------------------------------------------

  function Collected(s: Surroundings, calls: nat): seq<WorkerResult> {
    seq(calls, i requires 0 <= i < calls => s.result(i))
  }

  /** Per call: the Worker's evidence, then one marker. */
  function Trail(s: Surroundings, calls: nat, arbiterId: string): seq<Evidence> {
    if calls == 0 then []
    else
      var r := s.result(calls - 1);
      Trail(s, calls - 1, arbiterId) + r.evidence + [WorkerResultNoted(r.workerId, r.status, arbiterId)]
  }

  /** How many Workers the first k evaluations insert. */
  function Inserted(s: Surroundings, k: nat): nat {
    if k == 0 then 0
    else Inserted(s, k - 1)
         + (if Evaluated(s, k - 1) && s.decision(k - 1).Replan? then |s.decision(k - 1).workers| else 0)
  }

  function Ids(queue: seq<string>): set<string> {
    set w | w in queue
  }

  /** At most `limit` retries of each of finitely many Workers: pairs (id, attempt) with 1 <= attempt <= limit. */
  lemma {:induction false} PairsBounded(pairs: set<(string, nat)>, ids: set<string>, limit: nat)
    requires forall p <- pairs :: p.0 in ids && 1 <= p.1 <= limit
    ensures |pairs| <= |ids| * limit
    decreases |ids|
  {
    if ids == {} {
      assert pairs == {};
    } else {
      var id :| id in ids;
      var mine := set p <- pairs | p.0 == id;
      AttemptsBounded(mine, id, limit);
      PairsBounded(pairs - mine, ids - {id}, limit);
      assert |pairs| == |pairs - mine| + |mine|;
      assert |ids| * limit == |ids - {id}| * limit + limit;
    }
  }

  lemma {:induction false} AttemptsBounded(pairs: set<(string, nat)>, id: string, limit: nat)
    requires forall p <- pairs :: p.0 == id && 1 <= p.1 <= limit
    ensures |pairs| <= limit
    decreases limit
  {
    if limit == 0 {
      assert pairs == {};
    } else {
      AttemptsBounded(pairs - {(id, limit)}, id, limit - 1);
    }
  }

  // ---- Where the loop stands --------------------------------------------------------------

  /** The queue and the position in it. */
  datatype Place = Place(queue: seq<string>, index: nat)

  /** The place after k calls, none of which stopped the loop. */
  function PlaceAfter(s: Surroundings, workers: seq<string>, k: nat): Place {
    if k == 0 then Place(workers, 0)
    else
      var p := PlaceAfter(s, workers, k - 1);
      match s.decision(k - 1)
      case Retry => p
      case Replan(more) =>
        if p.index < |p.queue| then Place(p.queue[..p.index + 1] + more + p.queue[p.index + 1..], p.index + 1)
        else Place(p.queue, p.index + 1)
      case _ => Place(p.queue, p.index + 1)
  }

  /** The Worker of the k-th call. */
  function Called(s: Surroundings, workers: seq<string>, k: nat): string {
    var p := PlaceAfter(s, workers, k);
    if p.index < |p.queue| then p.queue[p.index] else ""
  }

  /** How often a Worker was called in the first k calls. */
  function Calls(s: Surroundings, workers: seq<string>, k: nat, id: string): nat {
    if k == 0 then 0 else Calls(s, workers, k - 1, id) + (if Called(s, workers, k - 1) == id then 1 else 0)
  }

  /** What the k-th call leads to, this being the Worker's n-th attempt. */
  function StopAt(s: Surroundings, workers: seq<string>, k: nat, maxRetries: nat): Option<Stop> {
    StopAfter(s, k, Calls(s, workers, k + 1, Called(s, workers, k)), maxRetries)
  }

  /** The loop makes a k-th call: it has not stopped before, nothing controls it, and the queue is not done. */
  predicate Reaches(s: Surroundings, workers: seq<string>, k: nat, maxRetries: nat) {
    && (k == 0 || (Reaches(s, workers, k - 1, maxRetries) && StopAt(s, workers, k - 1, maxRetries).None?))
    && s.before(k).None?
    && PlaceAfter(s, workers, k).index < |PlaceAfter(s, workers, k).queue|
  }

  /** The way a run of exactly `calls` calls ends. */
  function EndOf(s: Surroundings, workers: seq<string>, calls: nat, maxRetries: nat): Stop {
    if calls > 0 && StopAt(s, workers, calls - 1, maxRetries).Some? then StopAt(s, workers, calls - 1, maxRetries).value
    else if PlaceAfter(s, workers, calls).index < |PlaceAfter(s, workers, calls).queue| && s.before(calls).Some?
    then ControlStop(s.before(calls), s.cancelReason).value
    else QueueDone(Collected(s, calls))
  }

  /** A call that does not stop the loop was evaluated, and a retry it leads to is within the limit. */
  lemma GoesOn(s: Surroundings, workers: seq<string>, k: nat, maxRetries: nat)
    requires StopAt(s, workers, k, maxRetries).None?
    ensures Evaluated(s, k) && !s.decision(k).Complete? && !s.decision(k).Interrupt?
    ensures s.decision(k).Retry? ==> Calls(s, workers, k + 1, Called(s, workers, k)) <= maxRetries
  {
  }

  /** At most one control marker ends the evidence. */
  lemma OneMarker(s: Surroundings, workers: seq<string>, calls: nat, maxRetries: nat)
    ensures |EndOf(s, workers, calls, maxRetries).marker| <= 1
  {
  }

  // ---- How many calls there can be -------------------------------------------------------

  /** The retries among the first k calls, each with the attempt it followed. */
  ghost function Retries(s: Surroundings, workers: seq<string>, k: nat): set<(string, nat)> {
    if k == 0 then {}
    else if s.decision(k - 1).Retry? then
      Retries(s, workers, k - 1) + {(Called(s, workers, k - 1), Calls(s, workers, k, Called(s, workers, k - 1)))}
    else Retries(s, workers, k - 1)
  }

  /** The first k calls were made and none of them stopped the loop. */
  predicate Went(s: Surroundings, workers: seq<string>, k: nat, maxRetries: nat) {
    k == 0 || (Reaches(s, workers, k - 1, maxRetries) && StopAt(s, workers, k - 1, maxRetries).None?)
  }

  /** Every call but the retries moves on in the queue; the retries are distinct pairs within the limit. */
  ghost predicate Counted(s: Surroundings, workers: seq<string>, k: nat, maxRetries: nat) {
    var p := PlaceAfter(s, workers, k);
    && p.index <= |p.queue| == |workers| + Inserted(s, k)
    && k == p.index + |Retries(s, workers, k)|
    && forall r <- Retries(s, workers, k) ::
         r.0 in Ids(p.queue) && 1 <= r.1 <= maxRetries && r.1 <= Calls(s, workers, k, r.0)
  }

  lemma {:induction false} RetriesCounted(s: Surroundings, workers: seq<string>, k: nat, maxRetries: nat)
    requires Went(s, workers, k, maxRetries)
    ensures Counted(s, workers, k, maxRetries)
  {
    hide StopAt, Evaluated, PlaceAfter, Calls, Called, Inserted, Retries, Counted, Reaches;
    if k == 0 {
      NothingCounted(s, workers, maxRetries);
    } else {
      ReachesMeans(s, workers, k - 1, maxRetries);
      RetriesCounted(s, workers, k - 1, maxRetries);
      GoesOn(s, workers, k - 1, maxRetries);
      if s.decision(k - 1).Retry? {
        RetryCounted(s, workers, k - 1, maxRetries);
      } else {
        MoveCounted(s, workers, k - 1, maxRetries);
      }
    }
  }

  lemma ReachesMeans(s: Surroundings, workers: seq<string>, k: nat, maxRetries: nat)
    requires Reaches(s, workers, k, maxRetries)
    ensures Went(s, workers, k, maxRetries) && s.before(k).None?
    ensures PlaceAfter(s, workers, k).index < |PlaceAfter(s, workers, k).queue|
  {
    hide StopAt, PlaceAfter;
  }

  lemma NothingCounted(s: Surroundings, workers: seq<string>, maxRetries: nat)
    ensures Counted(s, workers, 0, maxRetries)
  {
  }

  lemma RetryCounted(s: Surroundings, workers: seq<string>, k: nat, maxRetries: nat)
    requires Counted(s, workers, k, maxRetries) && s.decision(k).Retry?
    requires PlaceAfter(s, workers, k).index < |PlaceAfter(s, workers, k).queue|
    requires Calls(s, workers, k + 1, Called(s, workers, k)) <= maxRetries
    ensures Counted(s, workers, k + 1, maxRetries)
  {
    hide StopAt, Evaluated, PlaceAfter;
    var w := Called(s, workers, k);
    var n := Calls(s, workers, k + 1, w);
    assert PlaceAfter(s, workers, k + 1) == PlaceAfter(s, workers, k) by { PlaceSteps(s, workers, k); }
    assert n == Calls(s, workers, k, w) + 1;
    assert (w, n) !in Retries(s, workers, k);
    assert Retries(s, workers, k + 1) == Retries(s, workers, k) + {(w, n)};
  }

  lemma MoveCounted(s: Surroundings, workers: seq<string>, k: nat, maxRetries: nat)
    requires Counted(s, workers, k, maxRetries) && !s.decision(k).Retry? && Evaluated(s, k)
    requires PlaceAfter(s, workers, k).index < |PlaceAfter(s, workers, k).queue|
    ensures Counted(s, workers, k + 1, maxRetries)
  {
    hide StopAt, Evaluated, PlaceAfter, Called;
    PlaceSteps(s, workers, k);
    PlaceKeepsIds(s, workers, k);
    assert Retries(s, workers, k + 1) == Retries(s, workers, k);
    assert Inserted(s, k + 1) == Inserted(s, k) + (if s.decision(k).Replan? then |s.decision(k).workers| else 0);
  }

  lemma PlaceSteps(s: Surroundings, workers: seq<string>, k: nat)
    requires PlaceAfter(s, workers, k).index < |PlaceAfter(s, workers, k).queue|
    ensures var p, q := PlaceAfter(s, workers, k), PlaceAfter(s, workers, k + 1);
            match s.decision(k)
            case Retry => q == p
            case Replan(more) =>
              q.queue == p.queue[..p.index + 1] + more + p.queue[p.index + 1..] && q.index == p.index + 1
            case _ => q.queue == p.queue && q.index == p.index + 1
  {
  }

  lemma PlaceKeepsIds(s: Surroundings, workers: seq<string>, k: nat)
    ensures Ids(PlaceAfter(s, workers, k).queue) <= Ids(PlaceAfter(s, workers, k + 1).queue)
  {
    var p, q := PlaceAfter(s, workers, k), PlaceAfter(s, workers, k + 1);
    forall id <- Ids(p.queue) ensures id in q.queue {
      var i :| 0 <= i < |p.queue| && p.queue[i] == id;
      if q.queue != p.queue {
        var more := s.decision(k).workers;
        assert q.queue[if i <= p.index then i else i + |more|] == id;
      }
    }
  }

  /** The queue when a run of `calls` calls ends: a call that stops the loop inserts nothing. */
  function QueueAt(s: Surroundings, workers: seq<string>, calls: nat, maxRetries: nat): seq<string> {
    if calls > 0 && StopAt(s, workers, calls - 1, maxRetries).Some? then PlaceAfter(s, workers, calls - 1).queue
    else PlaceAfter(s, workers, calls).queue
  }

  /**
   A run makes at most one call per place in the queue and `maxRetries` retries per
   distinct Worker in it; the queue holds the given Workers and the inserted ones.
   */
  lemma CallsBounded(s: Surroundings, workers: seq<string>, calls: nat, maxRetries: nat)
    requires calls == 0 || Reaches(s, workers, calls - 1, maxRetries)
    ensures var queue := QueueAt(s, workers, calls, maxRetries);
            && |queue| == |workers| + Inserted(s, calls)
            && calls <= |queue| + |Ids(queue)| * maxRetries
  {
    hide StopAt, Retries, PlaceAfter, Ids, Reaches, Evaluated, Inserted;
    var queue := QueueAt(s, workers, calls, maxRetries);
    if calls > 0 && StopAt(s, workers, calls - 1, maxRetries).Some? {
      ReachesMeans(s, workers, calls - 1, maxRetries);
      RetriesCounted(s, workers, calls - 1, maxRetries);
      PairsBounded(Retries(s, workers, calls - 1), Ids(queue), maxRetries);
      StoppedInsertsNothing(s, workers, calls - 1, maxRetries);
    } else {
      RetriesCounted(s, workers, calls, maxRetries);
      PairsBounded(Retries(s, workers, calls), Ids(queue), maxRetries);
    }
  }

  lemma StoppedInsertsNothing(s: Surroundings, workers: seq<string>, k: nat, maxRetries: nat)
    requires StopAt(s, workers, k, maxRetries).Some?
    ensures Inserted(s, k + 1) == Inserted(s, k)
  {
    hide Calls, Called;
  }

  // ---- What a run ends with ---------------------------------------------------------------

  /** What a result tells the Arbiters around it, whatever their evaluators think. */
  datatype Signal = SignalCancelled | SignalDeadline | SignalDenied | SignalInterrupted | SignalPartial

  function SignalOf(r: WorkerResult): Option<Signal> {
    match r.outcome
    case Some(OutcomeCancelled) => Some(SignalCancelled)
    case Some(DeadlineExceeded) => Some(SignalDeadline)
    case Some(PolicyDenied) => Some(SignalDenied)
    case Some(PartiallySucceeded) => Some(SignalPartial)
    case Some(OutcomeFailed) =>
      if r.metadata.terminationCause == Some(TagInterrupted) then Some(SignalInterrupted) else None
    case _ => None
  }

  /** The result states one outcome, cause and reason, in all its fields, over this evidence. */
  predicate Says(r: WorkerResult, outcome: WorkerOutcome, cause: Option<TerminationTag>, reason: string,
                 evidence: seq<Evidence>) {
    && r.outcome == Some(outcome) && r.status == StatusOf(outcome) && r.evidence == evidence && !r.retryable
    && r.metadata == Metadata(cause, outcome == PartiallySucceeded || cause == Some(TagInterrupted),
                              map["reason" := reason])
    && r.error == (if r.status == StatusFailed then reason else "")
    && r.errorCode == (match outcome
                       case Succeeded => ""
                       case PartiallySucceeded => ""
                       case OutcomeFailed =>
                         if cause == Some(TagInterrupted) then "execution_interrupted" else "execution_failed"
                       case PolicyDenied => "policy_denied"
                       case OutcomeCancelled => "cancelled"
                       case DeadlineExceeded => "deadline_exceeded")
  }

  /** Ended by a cause of the Arbiter's own context, with one marker for it. */
  predicate Controlled(r: WorkerResult, cause: Cause, why: string, trail: seq<Evidence>) {
    match cause
    case CauseCancelled => Says(r, OutcomeCancelled, None, why, trail + [CancellationObserved(why)])
    case CauseDeadline =>
      Says(r, DeadlineExceeded, Some(TagDeadlineExceeded), "deadline exceeded", trail + [DeadlinePassed])
  }

  /** The reason is the text, unless that is empty. */
  predicate Reasoned(reason: string, text: string, otherwise: string) {
    (text != "" ==> reason == text) && (text == "" ==> reason == otherwise)
  }

  /** The reason a result carries. */
  function ReasonOf(r: WorkerResult): string {
    if "reason" in r.metadata.rest then r.metadata.rest["reason"] else ""
  }

  /** Ended by the outcome of the last call, which is handed on without asking the evaluator. */
  predicate HandsOn(r: WorkerResult, last: WorkerResult, trail: seq<Evidence>)
    requires SignalOf(last).Some?
  {
    var reason := ReasonOf(r);
    match SignalOf(last).value
    case SignalCancelled => Says(r, OutcomeCancelled, None, "", trail)
    case SignalDeadline =>
      && Says(r, DeadlineExceeded, Some(TagDeadlineExceeded), reason, trail)
      && Reasoned(reason, last.error, "deadline exceeded")
    case SignalDenied => Says(r, PolicyDenied, None, reason, trail) && Reasoned(reason, last.error, "policy denied")
    case SignalInterrupted =>
      && Says(r, OutcomeFailed, Some(TagInterrupted), reason, trail)
      && Reasoned(reason, last.error, "nested execution interrupted")
    case SignalPartial =>
      && Says(r, PartiallySucceeded, None, reason, trail)
      && Reasoned(reason, ReasonOf(last), "nested Arbiter partially succeeded")
  }

  /** How many of the first k calls were not retried: the places of the queue that are behind. */
  function Moves(s: Surroundings, k: nat): nat {
    if k == 0 then 0 else Moves(s, k - 1) + (if s.decision(k - 1).Retry? then 0 else 1)
  }

  /**
   The evaluator was asked about the k-th call: no cause was seen after it, and its outcome ends nothing by
   itself.
   */
  predicate AskedAbout(s: Surroundings, k: nat) {
    s.after(k).None? && SignalOf(s.result(k)).None?
  }

  /** The queue ran out: every place is behind, and the last call, if any, was to be followed by the next place. */
  predicate RanOut(s: Surroundings, calls: nat, places: nat) {
    && Moves(s, calls) == places
    && (calls > 0 ==> AskedAbout(s, calls - 1) && (s.decision(calls - 1).Continue? || s.decision(calls - 1).Replan?))
  }

  /** A retry was asked for that the Arbiter does not make: a permanent failure, or the limit is reached. */
  predicate RetryDenied(s: Surroundings, workers: seq<string>, k: nat, maxRetries: nat) {
    && s.decision(k).Retry?
    && ((s.result(k).status == StatusFailed && !s.result(k).retryable)
        || Calls(s, workers, k + 1, Called(s, workers, k)) > maxRetries)
  }

  /**
   When a run of `calls` calls over `places` places in the queue succeeds: no cause was seen
   after its last call, and that call was partial, or judged complete, or the queue ran out
   after a call that did not fail, or after none.
   */
  predicate Succeeds(s: Surroundings, calls: nat, places: nat) {
    || (calls > 0 && s.after(calls - 1).None? && s.result(calls - 1).outcome == Some(PartiallySucceeded))
    || (calls > 0 && AskedAbout(s, calls - 1) && s.decision(calls - 1).Complete?)
    || (RanOut(s, calls, places) && (calls > 0 ==> s.result(calls - 1).status != StatusFailed))
  }

  /** How a run ends, by what was seen at its last call and what became of the queue. */
  predicate EndsAs(s: Surroundings, workers: seq<string>, calls: nat, places: nat, maxRetries: nat,
                   trail: seq<Evidence>, r: WorkerResult) {
    if calls > 0 && s.after(calls - 1).Some? then Controlled(r, s.after(calls - 1).value, s.cancelReason, trail)
    else if calls > 0 && SignalOf(s.result(calls - 1)).Some? then HandsOn(r, s.result(calls - 1), trail)
    else if calls > 0 && s.decision(calls - 1).Complete? then
      Says(r, Succeeded, None, s.decision(calls - 1).reason, trail)
    else if calls > 0 && s.decision(calls - 1).Interrupt? then
      && Says(r, OutcomeFailed, Some(TagInterrupted), ReasonOf(r), trail)
      && Reasoned(ReasonOf(r), s.decision(calls - 1).reason, "execution interrupted")
    else if calls > 0 && RetryDenied(s, workers, calls - 1, maxRetries) then
      var last := s.result(calls - 1);
      var permanent := last.status == StatusFailed && !last.retryable;
      && Says(r, OutcomeFailed, None, ReasonOf(r), trail)
      && (if permanent then Reasoned(ReasonOf(r), last.error, "failure is not retryable")
          else ReasonOf(r) == "retry limit exceeded")
    else if RanOut(s, calls, places) then
      if calls > 0 && s.result(calls - 1).status == StatusFailed
      then Says(r, OutcomeFailed, None, "worker failed without subsequent recovery", trail)
      else Says(r, Succeeded, None, "", trail)
    else s.before(calls).Some? && Controlled(r, s.before(calls).value, s.cancelReason, trail)
  }

  lemma EndsAsSucceeds(s: Surroundings, workers: seq<string>, calls: nat, places: nat, maxRetries: nat,
                       trail: seq<Evidence>, r: WorkerResult)
    requires Lawful(s) && EndsAs(s, workers, calls, places, maxRetries, trail, r)
    ensures r.status == StatusSuccess <==> Succeeds(s, calls, places)
  {
    hide Moves, Calls, Called;
  }

  lemma MovesAreIndex(s: Surroundings, workers: seq<string>, k: nat)
    ensures PlaceAfter(s, workers, k).index == Moves(s, k)
  {
  }

  /** The labels a stop carries agree with each other. */
  predicate Labelled(stop: Stop) {
    match stop.status
    case EndInterrupted => stop.cause == Some(TagInterrupted)
    case EndFailed => stop.cause in {None, Some(TagDeadlineExceeded)}
    case _ => stop.cause.None?
  }

  lemma ResultSays(arbiterId: string, outputs: seq<WorkerResult>, evidence: seq<Evidence>, stop: Stop)
    requires !PyText.Blank(arbiterId) && Labelled(stop)
    ensures var r := ArbiterResult(arbiterId, outputs, evidence, stop.status, stop.reason, stop.cause);
            Says(r, OutcomeFor(stop.status, stop.cause), stop.cause, stop.reason, evidence)
  {
    hide Concat, FirstOccurrences, ArtifactsOf, ObservationsOf, EventIdsOf;
  }

  lemma StopMeans(s: Surroundings, workers: seq<string>, calls: nat, places: nat, maxRetries: nat,
                  trail: seq<Evidence>, r: WorkerResult)
    requires calls > 0 && StopAt(s, workers, calls - 1, maxRetries).Some?
    requires var stop := StopAt(s, workers, calls - 1, maxRetries).value;
             Says(r, OutcomeFor(stop.status, stop.cause), stop.cause, stop.reason, trail + stop.marker)
    ensures EndsAs(s, workers, calls, places, maxRetries, trail, r)
  {
    hide Calls, Called, Moves, StatusOf;
    assert trail + [] == trail;
  }

  lemma StopLabelled(s: Surroundings, workers: seq<string>, calls: nat, maxRetries: nat)
    ensures Labelled(EndOf(s, workers, calls, maxRetries))
  {
    hide Calls, Called, PlaceAfter, Collected;
  }

  /** The loop went on after its last call, but a cause stopped it before the next. */
  lemma CauseMeans(s: Surroundings, workers: seq<string>, calls: nat, places: nat, maxRetries: nat,
                   trail: seq<Evidence>, r: WorkerResult)
    requires Went(s, workers, calls, maxRetries) && s.before(calls).Some? && Moves(s, calls) < places
    requires var stop := ControlStop(s.before(calls), s.cancelReason).value;
             Says(r, OutcomeFor(stop.status, stop.cause), stop.cause, stop.reason, trail + stop.marker)
    ensures EndsAs(s, workers, calls, places, maxRetries, trail, r)
  {
    hide Says, Calls, Called, Moves, StopAt, Reaches;
    if calls > 0 {
      WentOnAsked(s, workers, calls - 1, maxRetries);
    }
  }

  /** A call after which the loop goes on was judged, and neither ended the run nor asked for a retry that is denied. */
  lemma WentOnAsked(s: Surroundings, workers: seq<string>, k: nat, maxRetries: nat)
    requires StopAt(s, workers, k, maxRetries).None?
    ensures AskedAbout(s, k) && !s.decision(k).Complete? && !s.decision(k).Interrupt?
    ensures !RetryDenied(s, workers, k, maxRetries)
  {
    hide Calls, Called;
  }

  lemma DrainedMeans(s: Surroundings, workers: seq<string>, calls: nat, places: nat, maxRetries: nat,
                     trail: seq<Evidence>, r: WorkerResult)
    requires Went(s, workers, calls, maxRetries) && Moves(s, calls) == places
    requires calls > 0 ==> Moves(s, calls - 1) < places
    requires var stop := QueueDone(Collected(s, calls));
             Says(r, OutcomeFor(stop.status, stop.cause), stop.cause, stop.reason, trail + stop.marker)
    ensures EndsAs(s, workers, calls, places, maxRetries, trail, r)
  {
    hide Says, Calls, Called, StopAt, Reaches;
    assert trail + [] == trail;
    if calls > 0 {
      WentOnAsked(s, workers, calls - 1, maxRetries);
    }
  }

  /** The place a run of `calls` calls stands at when it cannot make another. */
  lemma WhereItEnds(s: Surroundings, workers: seq<string>, calls: nat, maxRetries: nat)
    requires Went(s, workers, calls, maxRetries) && !Reaches(s, workers, calls, maxRetries)
    ensures var queue := PlaceAfter(s, workers, calls).queue;
            && QueueAt(s, workers, calls, maxRetries) == queue && Moves(s, calls) <= |queue|
            && (if Moves(s, calls) < |queue| then
                  && s.before(calls).Some?
                  && EndOf(s, workers, calls, maxRetries) == ControlStop(s.before(calls), s.cancelReason).value
                else
                  && EndOf(s, workers, calls, maxRetries) == QueueDone(Collected(s, calls))
                  && (calls > 0 ==> Moves(s, calls - 1) < |queue|))
  {
    hide StopAt, PlaceAfter, Calls, Called, Moves, Evaluated, Retries, Ids, Inserted, QueueDone, ControlStop;
    MovesAreIndex(s, workers, calls);
    RetriesCounted(s, workers, calls, maxRetries);
    if calls > 0 {
      MovesAreIndex(s, workers, calls - 1);
      ReachesMeans(s, workers, calls - 1, maxRetries);
      PlaceSteps(s, workers, calls - 1);
    }
  }

  lemma EndMeans(arbiterId: string, s: Surroundings, workers: seq<string>, calls: nat, maxRetries: nat)
    requires !PyText.Blank(arbiterId)
    requires (calls == 0 || Reaches(s, workers, calls - 1, maxRetries)) && !Reaches(s, workers, calls, maxRetries)
    ensures var stop, trail := EndOf(s, workers, calls, maxRetries), Trail(s, calls, arbiterId);
            EndsAs(s, workers, calls, |QueueAt(s, workers, calls, maxRetries)|, maxRetries, trail,
                   ArbiterResult(arbiterId, Collected(s, calls), trail + stop.marker, stop.status, stop.reason,
                                 stop.cause))
  {
    hide ArbiterResult, StopAt, Reaches, Says, EndsAs, PlaceAfter, Moves, Trail, Collected, OutcomeFor, Labelled,
         ControlStop, QueueDone;
    var stop, trail := EndOf(s, workers, calls, maxRetries), Trail(s, calls, arbiterId);
    var places := |QueueAt(s, workers, calls, maxRetries)|;
    var r := ArbiterResult(arbiterId, Collected(s, calls), trail + stop.marker, stop.status, stop.reason, stop.cause);
    StopLabelled(s, workers, calls, maxRetries);
    ResultSays(arbiterId, Collected(s, calls), trail + stop.marker, stop);
    if calls > 0 && StopAt(s, workers, calls - 1, maxRetries).Some? {
      StopMeans(s, workers, calls, places, maxRetries, trail, r);
    } else {
      hide EndOf, QueueAt;
      WhereItEnds(s, workers, calls, maxRetries);
      if Moves(s, calls) < places {
        CauseMeans(s, workers, calls, places, maxRetries, trail, r);
      } else {
        DrainedMeans(s, workers, calls, places, maxRetries, trail, r);
      }
    }
  }

  // ---- The loop ------------------------------------------------------------------------------

  function AttemptsOf(attempts: map<string, nat>, id: string): nat {
    if id in attempts then attempts[id] else 0
  }

  /**
   `execute` on a queue of Worker ids. It makes exactly the calls `Reaches` allows, at
   most one per Worker given or inserted and `max_retries` more per distinct Worker. The
   result carries the outputs of these calls, in order, their evidence with one marker
   per call, and at most one control marker, and is labelled by the way the run ends.
   `limit` is any bound on the insertions the evaluator makes in the calls of the run.
   */
  method Execute(arbiterId: string, workers: seq<string>, maxRetries: nat, s: Surroundings, ghost limit: nat)
    returns (r: WorkerResult, calls: nat, queue: seq<string>)
    requires Lawful(s) && !PyText.Blank(arbiterId)
    requires forall k: nat | Went(s, workers, k, maxRetries) :: Inserted(s, k) <= limit
    ensures forall k: nat :: k < calls <==> Reaches(s, workers, k, maxRetries)
    ensures |queue| == |workers| + Inserted(s, calls) && calls <= |queue| + |Ids(queue)| * maxRetries
    ensures queue == QueueAt(s, workers, calls, maxRetries)
    ensures var stop := EndOf(s, workers, calls, maxRetries);
            && |stop.marker| <= 1
            && r == ArbiterResult(arbiterId, Collected(s, calls), Trail(s, calls, arbiterId) + stop.marker,
                                  stop.status, stop.reason, stop.cause)
    ensures EndsAs(s, workers, calls, |queue|, maxRetries, Trail(s, calls, arbiterId), r)
    ensures r.status == StatusSuccess <==> Succeeds(s, calls, |queue|)
  {
    hide EndsAs, Succeeds, ArbiterResult, StopAfter, Evaluated, ControlStop, QueueDone, StopAt, Reaches, EndOf, Went,
        PlaceAfter,
         Calls, Ids, Inserted, Lawful, QueueAt, Constructed;
    queue := workers;
    var evidence: seq<Evidence> := [];
    var attempts: map<string, nat> := map[];
    var outputs: seq<WorkerResult> := [];
    var index := 0;
    calls := 0;
    Begins(s, workers, maxRetries);
    while index < |queue|
      invariant PlaceAfter(s, workers, calls) == Place(queue, index) && index <= |queue| <= |workers| + limit
      invariant outputs == Collected(s, calls) && evidence == Trail(s, calls, arbiterId)
      invariant forall id :: Calls(s, workers, calls, id) == AttemptsOf(attempts, id)
      invariant Went(s, workers, calls, maxRetries)
      decreases |workers| + limit - index,
                maxRetries + 1 - (if index < |queue| then AttemptsOf(attempts, queue[index]) else 0)
    {
      if s.before(calls).Some? {
        EndsControlled(s, workers, calls, maxRetries);
        Settles(arbiterId, s, workers, calls, maxRetries);
        var stop := ControlStop(s.before(calls), s.cancelReason).value;
        evidence := evidence + stop.marker;
        r := ArbiterResult(arbiterId, outputs, evidence, stop.status, stop.reason, stop.cause);
        return;
      }
      ReachesNext(s, workers, calls, maxRetries);
      var worker := queue[index];
      ghost var before := attempts;
      attempts := attempts[worker := AttemptsOf(attempts, worker) + 1];
      var result := s.result(calls);
      outputs := outputs + [result];
      evidence := evidence + result.evidence + [WorkerResultNoted(result.workerId, result.status, arbiterId)];
      CallsStep(s, workers, calls);
      forall id ensures Calls(s, workers, calls + 1, id) == AttemptsOf(attempts, id) {
        assert Calls(s, workers, calls, id) == AttemptsOf(before, id);
      }
      calls := calls + 1;
      assert outputs == Collected(s, calls) && evidence == Trail(s, calls, arbiterId);
      var ended := StopAfter(s, calls - 1, attempts[worker], maxRetries);
      StopAtIs(s, workers, calls - 1, attempts[worker], maxRetries);
      if ended.Some? {
        EndsStopped(s, workers, calls, maxRetries);
        Settles(arbiterId, s, workers, calls, maxRetries);
        assert EndOf(s, workers, calls, maxRetries) == ended.value;
        evidence := evidence + ended.value.marker;
        r := ArbiterResult(arbiterId, outputs, evidence, ended.value.status, ended.value.reason, ended.value.cause);
        return;
      }
      GoesOn(s, workers, calls - 1, maxRetries);
      WentOn(s, workers, calls, maxRetries);
      PlaceSteps(s, workers, calls - 1);
      var decision := s.decision(calls - 1);
      if !decision.Retry? {
        if decision.Replan? {
          queue := queue[..index + 1] + decision.workers + queue[index + 1..];
        }
        index := index + 1;
      }
    }
    EndsDrained(s, workers, calls, maxRetries);
    Settles(arbiterId, s, workers, calls, maxRetries);
    var stop := QueueDone(outputs);
    assert evidence + stop.marker == evidence;
    r := ArbiterResult(arbiterId, outputs, evidence, stop.status, stop.reason, stop.cause);
  }

  lemma Begins(s: Surroundings, workers: seq<string>, maxRetries: nat)
    ensures PlaceAfter(s, workers, 0) == Place(workers, 0) && Went(s, workers, 0, maxRetries)
    ensures forall id :: Calls(s, workers, 0, id) == 0
  {
  }

  lemma CallsStep(s: Surroundings, workers: seq<string>, k: nat)
    ensures forall id :: Calls(s, workers, k + 1, id) ==
                         Calls(s, workers, k, id) + (if Called(s, workers, k) == id then 1 else 0)
  {
    hide Called;
  }

  lemma StopAtIs(s: Surroundings, workers: seq<string>, k: nat, attempts: nat, maxRetries: nat)
    requires Calls(s, workers, k + 1, Called(s, workers, k)) == attempts
    ensures StopAt(s, workers, k, maxRetries) == StopAfter(s, k, attempts, maxRetries)
  {
  }

  lemma ReachesNext(s: Surroundings, workers: seq<string>, k: nat, maxRetries: nat)
    requires Went(s, workers, k, maxRetries) && s.before(k).None?
    requires PlaceAfter(s, workers, k).index < |PlaceAfter(s, workers, k).queue|
    ensures Reaches(s, workers, k, maxRetries)
  {
    hide StopAt, PlaceAfter;
  }

  /** A call that does not stop the loop leaves the queue no longer than what was given and inserted. */
  lemma WentOn(s: Surroundings, workers: seq<string>, calls: nat, maxRetries: nat)
    requires calls > 0 && Reaches(s, workers, calls - 1, maxRetries) && StopAt(s, workers, calls - 1, maxRetries).None?
    ensures Went(s, workers, calls, maxRetries)
    ensures |PlaceAfter(s, workers, calls).queue| == |workers| + Inserted(s, calls)
  {
    hide StopAt, PlaceAfter, Reaches, Inserted, Ids, Calls;
    RetriesCounted(s, workers, calls, maxRetries);
  }

  /** Reaching a call means reaching all calls before it. */
  lemma {:induction false} ReachesAll(s: Surroundings, workers: seq<string>, calls: nat, k: nat, maxRetries: nat)
    requires k <= calls && Reaches(s, workers, calls, maxRetries)
    ensures Reaches(s, workers, k, maxRetries)
  {
    hide StopAt, PlaceAfter;
    if k < calls {
      ReachesAll(s, workers, calls - 1, k, maxRetries);
    }
  }

  /** What holds of a run that made `calls` calls and cannot make another. */
  ghost predicate Ended(s: Surroundings, workers: seq<string>, calls: nat, maxRetries: nat) {
    && (forall k: nat :: k < calls <==> Reaches(s, workers, k, maxRetries))
    && |EndOf(s, workers, calls, maxRetries).marker| <= 1
    && var queue := QueueAt(s, workers, calls, maxRetries);
      && |queue| == |workers| + Inserted(s, calls)
      && calls <= |queue| + |Ids(queue)| * maxRetries
  }

  lemma Ends(s: Surroundings, workers: seq<string>, calls: nat, maxRetries: nat)
    requires (calls == 0 || Reaches(s, workers, calls - 1, maxRetries)) && !Reaches(s, workers, calls, maxRetries)
    ensures Ended(s, workers, calls, maxRetries)
  {
    hide Reaches, EndOf, QueueAt, Inserted, Ids;
    CallsBounded(s, workers, calls, maxRetries);
    OneMarker(s, workers, calls, maxRetries);
    forall k: nat ensures k < calls <==> Reaches(s, workers, k, maxRetries) {
      if k < calls {
        ReachesAll(s, workers, calls - 1, k, maxRetries);
      } else if Reaches(s, workers, k, maxRetries) {
        ReachesAll(s, workers, k, calls, maxRetries);
      }
    }
  }

  lemma EndsControlled(s: Surroundings, workers: seq<string>, calls: nat, maxRetries: nat)
    requires Went(s, workers, calls, maxRetries) && s.before(calls).Some?
    requires PlaceAfter(s, workers, calls).index < |PlaceAfter(s, workers, calls).queue|
    ensures Ended(s, workers, calls, maxRetries)
    ensures QueueAt(s, workers, calls, maxRetries) == PlaceAfter(s, workers, calls).queue
    ensures Some(EndOf(s, workers, calls, maxRetries)) == ControlStop(s.before(calls), s.cancelReason)
  {
    hide StopAt, PlaceAfter, Ended;
    Ends(s, workers, calls, maxRetries);
  }

  lemma EndsStopped(s: Surroundings, workers: seq<string>, calls: nat, maxRetries: nat)
    requires calls > 0 && Reaches(s, workers, calls - 1, maxRetries) && StopAt(s, workers, calls - 1, maxRetries).Some?
    ensures Ended(s, workers, calls, maxRetries)
    ensures QueueAt(s, workers, calls, maxRetries) == PlaceAfter(s, workers, calls - 1).queue
    ensures Some(EndOf(s, workers, calls, maxRetries)) == StopAt(s, workers, calls - 1, maxRetries)
  {
    hide StopAt, PlaceAfter, Ended;
    Ends(s, workers, calls, maxRetries);
  }

  lemma EndsDrained(s: Surroundings, workers: seq<string>, calls: nat, maxRetries: nat)
    requires Went(s, workers, calls, maxRetries)
    requires PlaceAfter(s, workers, calls).index >= |PlaceAfter(s, workers, calls).queue|
    ensures Ended(s, workers, calls, maxRetries)
    ensures QueueAt(s, workers, calls, maxRetries) == PlaceAfter(s, workers, calls).queue
    ensures EndOf(s, workers, calls, maxRetries) == QueueDone(Collected(s, calls))
    ensures EndOf(s, workers, calls, maxRetries).marker == []
  {
    hide StopAt, PlaceAfter, Ended;
    Ends(s, workers, calls, maxRetries);
  }

  /** A run that made all its calls ends in the way those calls and the queue decide. */
  lemma Settles(arbiterId: string, s: Surroundings, workers: seq<string>, calls: nat, maxRetries: nat)
    requires Lawful(s) && !PyText.Blank(arbiterId) && Ended(s, workers, calls, maxRetries)
    ensures var stop, trail := EndOf(s, workers, calls, maxRetries), Trail(s, calls, arbiterId);
            var places := |QueueAt(s, workers, calls, maxRetries)|;
            var r := ArbiterResult(arbiterId, Collected(s, calls), trail + stop.marker, stop.status, stop.reason,
                                   stop.cause);
            && EndsAs(s, workers, calls, places, maxRetries, trail, r)
            && (r.status == StatusSuccess <==> Succeeds(s, calls, places))
  {
    hide ArbiterResult, Reaches, EndsAs, Succeeds, EndOf, QueueAt, Trail, Collected, Inserted, Ids, Lawful;
    EndMeans(arbiterId, s, workers, calls, maxRetries);
    var stop, trail := EndOf(s, workers, calls, maxRetries), Trail(s, calls, arbiterId);
    EndsAsSucceeds(s, workers, calls, |QueueAt(s, workers, calls, maxRetries)|, maxRetries, trail,
                   ArbiterResult(arbiterId, Collected(s, calls), trail + stop.marker, stop.status, stop.reason,
                                 stop.cause));
  }

  // ---- Arbiters within Arbiters ----------------------------------------------------------

  /** A run of an Arbiter that makes a k-th call. */
  datatype Run = Run(arbiterId: string, workers: seq<string>, maxRetries: nat, s: Surroundings, k: nat) {
    ghost predicate Valid() {
      Lawful(s) && !PyText.Blank(arbiterId) && Reaches(s, workers, k, maxRetries)
    }

    /** What `Execute` returns when the k-th call is its last. */
    function Result(): WorkerResult
      requires !PyText.Blank(arbiterId)
    {
      var stop := EndOf(s, workers, k + 1, maxRetries);
      ArbiterResult(arbiterId, Collected(s, k + 1), Trail(s, k + 1, arbiterId) + stop.marker, stop.status,
                    stop.reason, stop.cause)
    }

    /** The k-th call ends the run, and its evaluator is not asked. */
    predicate EndsUnasked() {
      !Reaches(s, workers, k + 1, maxRetries) && !Evaluated(s, k)
    }
  }

  /** Each run's k-th call is the run below it, and no run sees a cause of its own after that call. */
  ghost predicate Nested(leaf: WorkerResult, runs: seq<Run>)
    decreases |runs|
  {
    runs == [] ||
    var inner, top := runs[..|runs| - 1], runs[|runs| - 1];
    && Nested(leaf, inner)
    && top.Valid() && top.s.after(top.k).None?
    && top.s.result(top.k) == ResultOf(leaf, inner)
  }

  /** The result of the outermost run. */
  ghost function ResultOf(leaf: WorkerResult, runs: seq<Run>): WorkerResult {
    if runs == [] || PyText.Blank(runs[|runs| - 1].arbiterId) then leaf else runs[|runs| - 1].Result()
  }

  /**
   A result with a signal at any depth reaches the root with the same signal, an outcome of
   the same class and the continuation flag of that class; no Arbiter on the way makes
   another call or asks its evaluator.
   */
  lemma {:induction false} SignalReachesRoot(leaf: WorkerResult, runs: seq<Run>)
    requires Nested(leaf, runs) && SignalOf(leaf).Some?
    ensures forall run <- runs :: run.EndsUnasked()
    ensures var root := ResultOf(leaf, runs);
            && SignalOf(root) == SignalOf(leaf) && root.outcome == leaf.outcome
            && (runs != [] ==> Constructed(root))
            && (runs != [] ==>
                  root.metadata.continuationPending == (SignalOf(leaf).value in {SignalInterrupted, SignalPartial}))
    decreases |runs|
  {
    hide ArbiterResult, EndOf, Constructed;
    if runs != [] {
      var inner, top := runs[..|runs| - 1], runs[|runs| - 1];
      SignalReachesRoot(leaf, inner);
      SignalClimbs(top);
      assert runs == inner + [top];
    }
  }

  lemma SignalClimbs(run: Run)
    requires run.Valid() && run.s.after(run.k).None? && SignalOf(run.s.result(run.k)).Some?
    ensures run.EndsUnasked()
    ensures var r, inner := run.Result(), run.s.result(run.k);
            && SignalOf(r) == SignalOf(inner) && r.outcome == inner.outcome && Constructed(r)
            && r.metadata.continuationPending == (SignalOf(inner).value in {SignalInterrupted, SignalPartial})
  {
    hide Calls, Called, PlaceAfter, Collected, Trail, Constructed, Lawful, ArbiterResult;
  }

  /** A cause seen after a call decides the run, whatever the Worker returned and the evaluator would have said. */
  lemma CauseDecides(run: Run)
    requires run.Valid() && run.s.after(run.k).Some?
    ensures run.EndsUnasked() && !run.Result().metadata.continuationPending
    ensures run.Result().outcome
            == Some(if run.s.after(run.k) == Some(CauseCancelled) then OutcomeCancelled else DeadlineExceeded)
    ensures run.Result().evidence == Trail(run.s, run.k + 1, run.arbiterId) +
                                     [if run.s.after(run.k) == Some(CauseCancelled) then
                                      CancellationObserved(run.s.cancelReason)
                                      else DeadlinePassed]
  {
    hide Calls, Called, PlaceAfter, Collected, Trail, Constructed, Lawful, ArbiterResult;
  }

  /**
   Conversely, the signal of a run's result is the signal of its last call, unless a cause
   was seen around that run or its evaluator asked for the interruption.
   */
  lemma SignalComesFromBelow(run: Run)
    requires run.Valid() && !Reaches(run.s, run.workers, run.k + 1, run.maxRetries)
    ensures var s := run.s;
            || SignalOf(run.Result()) == SignalOf(s.result(run.k))
            || s.after(run.k).Some? || s.before(run.k + 1).Some?
            || (s.decision(run.k).Interrupt? && SignalOf(run.Result()) == Some(SignalInterrupted))
  {
    hide Calls, Called, PlaceAfter, Collected, Trail, Constructed, Lawful, ArbiterResult;
  }
}
