/**
 The bound on Worker calls is met: for any queue and any Workers the evaluator inserts, a
 run in which every result is a retryable failure and the evaluator retries each Worker to
 its limit before it goes on makes exactly as many calls as the bound allows.
 */
module ArbiterTightness {
  import opened Wrappers
  import opened Worker
  import opened Arbiter

  const FAILURE :=
    WorkerResult("w", StatusFailed, NoOutput, [], "", NO_METADATA, "execution_failed", true, Some(OutcomeFailed),
                 [], [], [])

  /** Where the loop stands and how often it has called each Worker. */
  datatype Standing = Standing(place: Place, attempts: map<string, nat>) {
    predicate Busy() {
      place.index < |place.queue|
    }

    function Calling(): string
      requires Busy()
    {
      place.queue[place.index]
    }
  }

  /** Retry while the limit allows it, insert `more` after the first Worker, and otherwise go on. */
  function Insist(p: Standing, more: seq<string>, limit: nat): Decision {
    if !p.Busy() then Continue
    else if AttemptsOf(p.attempts, p.Calling()) < limit then Retry
    else if p.place.index == 0 then Replan(more)
    else Continue
  }

  function Advance(p: Standing, more: seq<string>, limit: nat): Standing
    requires p.Busy()
  {
    var q, i := p.place.queue, p.place.index;
    Standing(match Insist(p, more, limit)
             case Retry => p.place
             case Replan(_) => Place(q[..i + 1] + more + q[i + 1..], i + 1)
             case _ => Place(q, i + 1),
             p.attempts[p.Calling() := AttemptsOf(p.attempts, p.Calling()) + 1])
  }

  /** The standing after k calls. */
  function StandingAt(workers: seq<string>, more: seq<string>, limit: nat, k: nat): Standing {
    if k == 0 then Standing(Place(workers, 0), map[])
    else
      var p := StandingAt(workers, more, limit, k - 1);
      if p.Busy() then Advance(p, more, limit) else p
  }

  function Insistent(workers: seq<string>, more: seq<string>, limit: nat): Surroundings {
    Surroundings(_ => None, _ => FAILURE, _ => None,
                 (k: nat) => Insist(StandingAt(workers, more, limit, k), more, limit), "")
  }

  /** The queue once `more` is inserted. */
  function FullQueue(workers: seq<string>, more: seq<string>): seq<string>
    requires workers != []
  {
    workers[..1] + more + workers[1..]
  }

  /** The queue is the given or the full one, holds every Worker called, and those passed are exhausted. */
  ghost predicate Orderly(p: Standing, workers: seq<string>, more: seq<string>, limit: nat)
    requires workers != []
  {
    var q, i := p.place.queue, p.place.index;
    && i <= |q| && q == (if i == 0 then workers else FullQueue(workers, more))
    && (forall id :: AttemptsOf(p.attempts, id) > 0 ==> id in q)
    && (forall j | 0 <= j < i :: AttemptsOf(p.attempts, q[j]) > limit)
  }

  /** Exactly the attempts within the limit were followed by a retry. */
  ghost predicate Followed(retries: set<(string, nat)>, attempts: map<string, nat>, limit: nat) {
    forall id, n: nat :: (id, n) in retries <==> 1 <= n <= limit && n <= AttemptsOf(attempts, id)
  }

  /** The run of the insistent evaluator is where StandingAt says. */
  ghost predicate Agrees(s: Surroundings, workers: seq<string>, k: nat, p: Standing) {
    PlaceAfter(s, workers, k) == p.place && forall id :: Calls(s, workers, k, id) == AttemptsOf(p.attempts, id)
  }

  ghost predicate InStep(workers: seq<string>, more: seq<string>, limit: nat, k: nat)
    requires workers != []
  {
    var s, p := Insistent(workers, more, limit), StandingAt(workers, more, limit, k);
    Agrees(s, workers, k, p) && Orderly(p, workers, more, limit) && Followed(Retries(s, workers, k), p.attempts, limit)
  }

  lemma NeverStops(workers: seq<string>, more: seq<string>, limit: nat, k: nat)
    requires workers != [] && InStep(workers, more, limit, k) && StandingAt(workers, more, limit, k).Busy()
    ensures StopAt(Insistent(workers, more, limit), workers, k, limit).None?
  {
    var s := Insistent(workers, more, limit);
    hide Retries, StandingAt, Followed, Orderly;
    assert OutcomeStop(FAILURE).None?;
    CallsStep(s, workers, k);
    assert s.after(k).None? && s.result(k) == FAILURE;
  }

  lemma OneMoreAttempt(p: Standing, more: seq<string>, limit: nat)
    requires p.Busy()
    ensures forall id :: AttemptsOf(Advance(p, more, limit).attempts, id)
                         == AttemptsOf(p.attempts, id) + (if id == p.Calling() then 1 else 0)
  {
  }

  lemma AdvanceAgrees(s: Surroundings, workers: seq<string>, k: nat, p: Standing, more: seq<string>, limit: nat)
    requires Agrees(s, workers, k, p) && p.Busy() && s.decision(k) == Insist(p, more, limit)
    ensures Agrees(s, workers, k + 1, Advance(p, more, limit)) && Called(s, workers, k) == p.Calling()
  {
    hide Calls, PlaceAfter, AttemptsOf;
    CallsStep(s, workers, k);
    PlaceSteps(s, workers, k);
    OneMoreAttempt(p, more, limit);
  }

  lemma AdvanceOrderly(p: Standing, workers: seq<string>, more: seq<string>, limit: nat)
    requires workers != [] && p.Busy() && Orderly(p, workers, more, limit)
    ensures Orderly(Advance(p, more, limit), workers, more, limit)
  {
    hide AttemptsOf;
    OneMoreAttempt(p, more, limit);
    QueueGrows(p, more, limit);
    var r := Advance(p, more, limit);
    hide Advance;
    var q := r.place.queue;
    forall j | 0 <= j < r.place.index ensures AttemptsOf(r.attempts, q[j]) > limit {
      assert q[j] == p.place.queue[j];
    }
  }

  lemma AdvanceFollowed(retries: set<(string, nat)>, p: Standing, more: seq<string>, limit: nat)
    requires p.Busy() && Followed(retries, p.attempts, limit)
    ensures var w, r := p.Calling(), Advance(p, more, limit);
            Followed(if Insist(p, more, limit).Retry? then retries + {(w, AttemptsOf(r.attempts, w))} else retries,
                     r.attempts, limit)
  {
    hide AttemptsOf;
    OneMoreAttempt(p, more, limit);
    hide Advance;
  }

  lemma AdvanceKeepsStep(workers: seq<string>, more: seq<string>, limit: nat, k: nat)
    requires workers != [] && InStep(workers, more, limit, k) && StandingAt(workers, more, limit, k).Busy()
    ensures InStep(workers, more, limit, k + 1)
  {
    hide Retries, Agrees, Orderly, Followed, Advance, Insist, AttemptsOf;
    var s, p := Insistent(workers, more, limit), StandingAt(workers, more, limit, k);
    assert StandingAt(workers, more, limit, k + 1) == Advance(p, more, limit);
    assert s.decision(k) == Insist(p, more, limit);
    hide StandingAt, Insistent;
    AdvanceAgrees(s, workers, k, p, more, limit);
    AdvanceOrderly(p, workers, more, limit);
    AdvanceFollowed(Retries(s, workers, k), p, more, limit);
    RetriesStep(s, workers, k);
    AgreesMeans(s, workers, k + 1, Advance(p, more, limit), p.Calling());
  }

  lemma AgreesMeans(s: Surroundings, workers: seq<string>, k: nat, p: Standing, id: string)
    requires Agrees(s, workers, k, p)
    ensures PlaceAfter(s, workers, k) == p.place && Calls(s, workers, k, id) == AttemptsOf(p.attempts, id)
  {
    hide PlaceAfter, Calls;
  }

  lemma RetriesStep(s: Surroundings, workers: seq<string>, k: nat)
    ensures Retries(s, workers, k + 1) ==
            if s.decision(k).Retry? then
              Retries(s, workers, k) + {(Called(s, workers, k), Calls(s, workers, k + 1, Called(s, workers, k)))}
            else Retries(s, workers, k)
  {
    hide Calls, Called;
  }

  /** Advancing keeps what was passed where it is, and nothing leaves the queue. */
  lemma QueueGrows(p: Standing, more: seq<string>, limit: nat)
    requires p.Busy()
    ensures var q, r := p.place, Advance(p, more, limit).place;
            && (forall id <- q.queue :: id in r.queue)
            && (forall j | 0 <= j <= q.index :: j < |r.queue| && r.queue[j] == q.queue[j])
            && r.index <= q.index + 1 && r.index <= |r.queue|
  {
    var q, r := p.place, Advance(p, more, limit).place;
    forall id <- q.queue ensures id in r.queue {
      var i :| 0 <= i < |q.queue| && q.queue[i] == id;
      if r.queue != q.queue {
        assert r.queue[if i <= q.index then i else i + |more|] == id;
      }
    }
  }

  lemma {:induction false} WentInStep(workers: seq<string>, more: seq<string>, limit: nat, k: nat)
    requires workers != [] && Went(Insistent(workers, more, limit), workers, k, limit)
    ensures InStep(workers, more, limit, k)
  {
    hide StandingAt, PlaceAfter, StopAt, Calls, InStep, Insistent;
    var s := Insistent(workers, more, limit);
    if k == 0 {
      StartInStep(workers, more, limit);
    } else {
      ReachesMeans(s, workers, k - 1, limit);
      WentInStep(workers, more, limit, k - 1);
      InStepMeans(workers, more, limit, k - 1);
      AdvanceKeepsStep(workers, more, limit, k - 1);
    }
  }

  lemma StartInStep(workers: seq<string>, more: seq<string>, limit: nat)
    requires workers != []
    ensures InStep(workers, more, limit, 0)
  {
  }

  lemma InStepMeans(workers: seq<string>, more: seq<string>, limit: nat, k: nat)
    requires workers != [] && InStep(workers, more, limit, k)
    ensures PlaceAfter(Insistent(workers, more, limit), workers, k) == StandingAt(workers, more, limit, k).place
  {
    hide StandingAt, PlaceAfter, Calls, Retries;
  }

  /** All pairs of a Worker and an attempt within the limit. */
  lemma {:induction false} PairsCounted(pairs: set<(string, nat)>, ids: set<string>, limit: nat)
    requires forall id, n: nat :: (id, n) in pairs <==> id in ids && 1 <= n <= limit
    ensures |pairs| == |ids| * limit
    decreases |ids|
  {
    if ids == {} {
      forall p: (string, nat) ensures p !in pairs {
        assert p == (p.0, p.1);
      }
      assert pairs == {};
    } else {
      var id :| id in ids;
      var mine := set p <- pairs | p.0 == id;
      AttemptsCounted(mine, id, limit);
      PairsCounted(pairs - mine, ids - {id}, limit);
      assert |pairs| == |pairs - mine| + |mine|;
      assert |ids| * limit == |ids - {id}| * limit + limit;
    }
  }

  lemma {:induction false} AttemptsCounted(pairs: set<(string, nat)>, id: string, limit: nat)
    requires forall other, n: nat :: (other, n) in pairs <==> other == id && 1 <= n <= limit
    ensures |pairs| == limit
    decreases limit
  {
    if limit == 0 {
      forall p: (string, nat) ensures p !in pairs {
        assert p == (p.0, p.1);
      }
      assert pairs == {};
    } else {
      assert (id, limit) in pairs;
      AttemptsCounted(pairs - {(id, limit)}, id, limit - 1);
    }
  }

  function CallBound(workers: seq<string>, more: seq<string>, limit: nat): nat
    requires workers != []
  {
    |FullQueue(workers, more)| + |Ids(FullQueue(workers, more))| * limit
  }

  /** The loop is out of work after exactly as many calls as the bound allows, and not before. */
  lemma DrainedAtBound(workers: seq<string>, more: seq<string>, limit: nat, k: nat)
    requires workers != [] && Went(Insistent(workers, more, limit), workers, k, limit)
    ensures var p := PlaceAfter(Insistent(workers, more, limit), workers, k);
            if p.index < |p.queue| then k < CallBound(workers, more, limit)
            else k == CallBound(workers, more, limit) && p.queue == FullQueue(workers, more)
  {
    hide StandingAt, PlaceAfter, Calls, StopAt;
    var s, full := Insistent(workers, more, limit), FullQueue(workers, more);
    var p := StandingAt(workers, more, limit, k);
    WentInStep(workers, more, limit, k);
    RetriesCounted(s, workers, k, limit);
    var retries := Retries(s, workers, k);
    hide Retries, Insistent;
    InFull(workers, more);
    if p.Busy() {
      forall r <- retries ensures r.0 in Ids(full) && 1 <= r.1 <= limit {
        assert (r.0, r.1) in retries;
      }
      PairsBounded(retries, Ids(full), limit);
    } else {
      forall id, n: nat ensures (id, n) in retries <==> id in Ids(full) && 1 <= n <= limit {
      }
      PairsCounted(retries, Ids(full), limit);
    }
  }

  lemma InFull(workers: seq<string>, more: seq<string>)
    requires workers != []
    ensures |workers| <= |FullQueue(workers, more)| && forall id <- workers :: id in FullQueue(workers, more)
  {
    var full := FullQueue(workers, more);
    forall id <- workers ensures id in full {
      var i :| 0 <= i < |workers| && workers[i] == id;
      assert full[if i == 0 then 0 else i + |more|] == id;
    }
  }

  lemma {:induction false} WentToBound(workers: seq<string>, more: seq<string>, limit: nat, k: nat)
    requires workers != [] && k <= CallBound(workers, more, limit)
    ensures Went(Insistent(workers, more, limit), workers, k, limit)
  {
    hide StandingAt, PlaceAfter, StopAt, CallBound, InStep, Reaches, FullQueue;
    if k > 0 {
      var s := Insistent(workers, more, limit);
      WentToBound(workers, more, limit, k - 1);
      DrainedAtBound(workers, more, limit, k - 1);
      WentInStep(workers, more, limit, k - 1);
      InStepMeans(workers, more, limit, k - 1);
      assert s.before(k - 1).None?;
      ReachesNext(s, workers, k - 1, limit);
      NeverStops(workers, more, limit, k - 1);
    }
  }

  /**
   For every nonempty queue and every list of Workers to insert, the run makes exactly the
   calls of the bound: one per Worker in the full queue, and `limit` more per distinct one.
   */
  lemma BoundAttained(workers: seq<string>, more: seq<string>, limit: nat)
    requires workers != []
    ensures var s := Insistent(workers, more, limit);
            var bound := |FullQueue(workers, more)| + |Ids(FullQueue(workers, more))| * limit;
            && Lawful(s)
            && (forall k: nat :: Reaches(s, workers, k, limit) <==> k < bound)
            && QueueAt(s, workers, bound, limit) == FullQueue(workers, more)
            && |FullQueue(workers, more)| == |workers| + |more|
  {
    hide StandingAt, PlaceAfter, StopAt, Reaches;
    var s, bound := Insistent(workers, more, limit), CallBound(workers, more, limit);
    assert Constructed(FAILURE) by { FailureIsConstructed(); }
    WentToBound(workers, more, limit, bound);
    DrainedAtBound(workers, more, limit, bound);
    NotReached(s, workers, bound, limit);
    forall k: nat ensures Reaches(s, workers, k, limit) <==> k < bound {
      if k < bound {
        WentToBound(workers, more, limit, k + 1);
      } else if Reaches(s, workers, k, limit) {
        ReachesAll(s, workers, k, bound, limit);
      }
    }
  }

  lemma NotReached(s: Surroundings, workers: seq<string>, k: nat, limit: nat)
    requires PlaceAfter(s, workers, k).index >= |PlaceAfter(s, workers, k).queue|
    ensures !Reaches(s, workers, k, limit)
  {
    hide PlaceAfter, StopAt;
  }

  lemma FailureIsConstructed()
    ensures Constructed(FAILURE)
  {
    assert "w"[0] in "w";
  }
}
