/**
 What a coordinator holds in memory, what it stores, and what each public
 operation does. An operation is described by its effect: the memory states it
 goes through, each of which it persists before going on, and its final reply.
 */
module FleetMemory {
  import opened Wrappers
  import opened Worker
  import opened FleetTask
  import I = Intent
  import PyText

  datatype Lifecycle = Starting | Ready | Draining | Stopped | Unhealthy

  /** `capabilities` is the sorted, duplicate-free tuple of the program, kept as a set. */
  datatype Registration = Registration(
    workerId: string, implementationId: string, capabilities: set<string>, lifecycle: Lifecycle,
    lastHeartbeat: int, leaseSeconds: int)

  /** The two dictionaries, each with its insertion order. */
  datatype Memory = Memory(
    workers: map<string, Registration>, workerOrder: seq<string>,
    tasks: map<string, Task>, taskOrder: seq<string>)

  const EMPTY := Memory(map[], [], map[], [])

  /** What is stored: the two dictionaries' values as lists. */
  datatype Snapshot = Snapshot(workers: seq<Registration>, tasks: seq<Task>)

  predicate Distinct(ids: seq<string>) {
    forall i, j | 0 <= i < j < |ids| :: ids[i] != ids[j]
  }

  /** The lists name each key exactly once, and records carry their own key. */
  ghost predicate Indexed(m: Memory) {
    && Distinct(m.workerOrder) && Distinct(m.taskOrder)
    && (forall id :: id in m.workerOrder <==> id in m.workers)
    && (forall id :: id in m.taskOrder <==> id in m.tasks)
    && (forall id <- m.workers :: m.workers[id].workerId == id)
    && (forall id <- m.tasks :: m.tasks[id].taskId == id)
  }

  /** The coordinator invariant. */
  ghost predicate Inv(m: Memory) {
    Indexed(m) && forall id <- m.tasks :: TaskInv(m.tasks[id])
  }

  function PutTask(m: Memory, t: Task): Memory {
    m.(tasks := m.tasks[t.taskId := t],
       taskOrder := if t.taskId in m.tasks then m.taskOrder else m.taskOrder + [t.taskId])
  }

  function PutWorker(m: Memory, w: Registration): Memory {
    m.(workers := m.workers[w.workerId := w],
       workerOrder := if w.workerId in m.workers then m.workerOrder else m.workerOrder + [w.workerId])
  }

  // ---- Snapshots ---------------------------------------------------------------

  function WorkerList(m: Memory, order: seq<string>): seq<Registration> {
    if order == [] then []
    else (if order[0] in m.workers then [m.workers[order[0]]] else []) + WorkerList(m, order[1..])
  }

  function TaskList(m: Memory, order: seq<string>): seq<Task> {
    if order == [] then []
    else (if order[0] in m.tasks then [m.tasks[order[0]]] else []) + TaskList(m, order[1..])
  }

  /** `_snapshot_locked` */
  function SnapshotOf(m: Memory): Snapshot {
    Snapshot(WorkerList(m, m.workerOrder), TaskList(m, m.taskOrder))
  }

  /** Stored Workers come back UNHEALTHY, with the restart as their last heartbeat. */
  function RestoreWorker(w: Registration, now: int): Registration {
    w.(lifecycle := Unhealthy, lastHeartbeat := now)
  }

  function AddWorkers(m: Memory, workers: seq<Registration>, now: int): Result<Memory, string>
    decreases |workers|
  {
    if workers == [] then Ok(m)
    else if workers[0].workerId in m.workers then Err("duplicate worker identity")
    else AddWorkers(PutWorker(m, RestoreWorker(workers[0], now)), workers[1..], now)
  }

  function AddTasks(m: Memory, tasks: seq<Task>, now: int): Result<Memory, string>
    decreases |tasks|
  {
    if tasks == [] then Ok(m)
    else if tasks[0].taskId in m.tasks then Err("duplicate task identity")
    else
      match RestoreTask(tasks[0], now)
      case Err(e) => Err(e)
      case Ok(t) => AddTasks(PutTask(m, t), tasks[1..], now)
  }

  /** `_restore_snapshot` at instant `now`. */
  function Restore(s: Snapshot, now: int): Result<Memory, string> {
    match AddWorkers(EMPTY, s.workers, now)
    case Err(e) => Err(e)
    case Ok(m) => AddTasks(m, s.tasks, now)
  }

  // ---- Requests and replies ------------------------------------------------------

  /** `Unavailable` stands for calling a coordinator that was never constructed. */
  datatype FleetError =
    | Invalid | Conflict | NotRegistered | StaleLease | UnknownTask | PersistenceFailed | CorruptState | Unavailable

  datatype Reply =
    | Started
    | WorkerReply(worker: Registration)
    | TaskReply(task: Task)
    | Leased(task: Task)
    | NoTask
    | Renewed(lease: Lease)
    | ExpiredTasks(tasks: seq<Task>)
    | Raised(error: FleetError)

  datatype Op =
    | Register(workerId: string, implementationId: string, capabilities: seq<string>, leaseSeconds: int)
    | Heartbeat(workerId: string)
    | Drain(workerId: string)
    | StopWorker(workerId: string)
    | Submit(intent: I.Intent, executionId: string, required: seq<string>, taskId: Option<string>,
             key: Option<string>, maxAttempts: int, deadline: Option<int>)
    | Claim(workerId: string)
    | Renew(id: string, workerId: string, leaseId: string, generation: int)
    | Report(id: string, workerId: string, leaseId: string, generation: int, result: WorkerResult, retryable: bool)
    | Expire
    | Cancel(id: string, reason: string, cause: TerminationTag)

  /**
   What the surroundings supply to one operation: its successive clock readings,
   the fate of its successive saves, and the uuid4 it draws if it draws one.
   */
  datatype Env = Env(clock: nat -> int, saves: nat -> SaveOutcome, uuid: string)

  /** Clock readings of one operation never go back. */
  ghost predicate Forward(clock: nat -> int) {
    forall i: nat, j: nat | i <= j :: clock(i) <= clock(j)
  }

  datatype Effect = Effect(saves: seq<Memory>, reply: Reply)

  function Refuse(e: FleetError): Effect {
    Effect([], Raised(e))
  }

  const SECOND := 1_000_000

  // ---- Effects -----------------------------------------------------------------------

  function AsSet(items: seq<string>): set<string> {
    set item | item in items
  }

  function RegisterEffect(m: Memory, op: Op, env: Env): Effect
    requires op.Register?
  {
    if PyText.Blank(op.workerId) || PyText.Blank(op.implementationId) || op.leaseSeconds < 1
       || exists c <- op.capabilities :: PyText.Blank(c) then Refuse(Invalid)
    else if op.workerId in m.workers && m.workers[op.workerId].implementationId != op.implementationId then
      Refuse(Conflict)
    else
      var w := Registration(op.workerId, op.implementationId, AsSet(op.capabilities), Ready, env.clock(0),
                            op.leaseSeconds);
      Effect([PutWorker(m, w)], WorkerReply(w))
  }

  function HeartbeatEffect(m: Memory, workerId: string, env: Env): Effect {
    if workerId !in m.workers then Refuse(NotRegistered)
    else
      var w := m.workers[workerId];
      if w.lifecycle in {Stopped, Unhealthy} then Refuse(NotRegistered)
      else
        var updated := w.(lastHeartbeat := env.clock(0),
                          lifecycle := if w.lifecycle == Draining then Draining else Ready);
        Effect([PutWorker(m, updated)], WorkerReply(updated))
  }

  function LifecycleEffect(m: Memory, workerId: string, lifecycle: Lifecycle, env: Env): Effect {
    if workerId !in m.workers then Refuse(NotRegistered)
    else
      var updated := m.workers[workerId].(lifecycle := lifecycle, lastHeartbeat := env.clock(0));
      Effect([PutWorker(m, updated)], WorkerReply(updated))
  }

  /** A stored task was submitted with exactly these arguments. */
  predicate SameArguments(t: Task, op: Op)
    requires op.Submit?
  {
    && t.executionId == op.executionId && t.intent == op.intent && t.required == AsSet(op.required)
    && t.maxAttempts == op.maxAttempts && t.deadline == op.deadline
  }

  /** The first task, in insertion order, that carries the key. */
  function FirstWithKey(m: Memory, key: string, order: seq<string>): Option<Task> {
    if order == [] then None
    else if order[0] in m.tasks && m.tasks[order[0]].idempotencyKey == key then Some(m.tasks[order[0]])
    else FirstWithKey(m, key, order[1..])
  }

  predicate SubmitArgumentsValid(op: Op)
    requires op.Submit?
  {
    && !PyText.Blank(op.executionId) && op.maxAttempts >= 1
    && (op.taskId.Some? ==> !PyText.Blank(op.taskId.value))
    && (op.key.Some? ==> !PyText.Blank(op.key.value))
    && forall c <- op.required :: !PyText.Blank(c)
  }

  function SubmitEffect(m: Memory, op: Op, env: Env): Effect
    requires op.Submit?
  {
    if !SubmitArgumentsValid(op) then Refuse(Invalid)
    else
      var prior := if op.key.Some? then FirstWithKey(m, op.key.value, m.taskOrder) else None;
      if prior.Some? then
        if !SameArguments(prior.value, op) || (op.taskId.Some? && op.taskId.value != prior.value.taskId) then
          Refuse(Conflict)
        else Effect([], TaskReply(prior.value))
      else
        var id := op.taskId.GetOr(env.uuid);
        var key := op.key.GetOr(id);
        if id in m.tasks then
          if m.tasks[id].idempotencyKey == key && SameArguments(m.tasks[id], op) then Effect([], TaskReply(m.tasks[id]))
          else Refuse(Conflict)
        else
          var t := NewTask(id, op.executionId, key, op.intent, AsSet(op.required), op.maxAttempts, op.deadline,
                           env.clock(0));
          Effect([PutTask(m, t)], TaskReply(t))
  }

  predicate HeartbeatStale(w: Registration, now: int, timeout: int) {
    now - w.lastHeartbeat > timeout * SECOND
  }

  function ExpireWorker(w: Registration, now: int, timeout: int): Registration {
    if w.lifecycle == Ready && HeartbeatStale(w, now, timeout) then w.(lifecycle := Unhealthy) else w
  }

  /** Memory after `expire_leases` at `now`: every record on its own. */
  function ExpireMemory(m: Memory, now: int, timeout: int): Memory {
    m.(tasks := map id | id in m.tasks :: ExpireTask(m.tasks[id], now),
       workers := map id | id in m.workers :: ExpireWorker(m.workers[id], now, timeout))
  }

  /** The records `expire_leases` returns, in insertion order. */
  function ExpiredIn(m: Memory, now: int, order: seq<string>): seq<Task> {
    if order == [] then []
    else (if order[0] in m.tasks && LeaseRanOut(m.tasks[order[0]], now) then [ExpireTask(m.tasks[order[0]], now)]
          else [])
         + ExpiredIn(m, now, order[1..])
  }

  function ExpireEffect(m: Memory, env: Env, timeout: int): Effect {
    Effect([ExpireMemory(m, env.clock(0), timeout)], ExpiredTasks(ExpiredIn(m, env.clock(0), m.taskOrder)))
  }

  /** `sorted(..., key=(submitted_at, task_id))` puts a before b. */
  predicate Before(a: Task, b: Task) {
    a.submittedAt < b.submittedAt || (a.submittedAt == b.submittedAt && PyText.Less(a.taskId, b.taskId))
  }

  function Insert(t: Task, sorted: seq<Task>): seq<Task> {
    if sorted == [] || Before(t, sorted[0]) then [t] + sorted else [sorted[0]] + Insert(t, sorted[1..])
  }

  predicate Eligible(t: Task, w: Registration) {
    t.status == Queued && t.required <= w.capabilities
  }

  /** The tasks a Worker could take, in scheduling order. */
  function Candidates(m: Memory, w: Registration, order: seq<string>): seq<Task> {
    if order == [] then []
    else
      var rest := Candidates(m, w, order[1..]);
      if order[0] in m.tasks && Eligible(m.tasks[order[0]], w) then Insert(m.tasks[order[0]], rest) else rest
  }

  /** The candidate loop of `claim_task`; `k` is the next clock reading. */
  function ScanEffect(m: Memory, w: Registration, candidates: seq<Task>, env: Env, k: nat): Effect
    decreases |candidates|
  {
    if candidates == [] then Effect([], NoTask)
    else
      var t := candidates[0];
      var k' := if t.deadline.Some? then k + 1 else k;
      if t.PastDeadline(env.clock(k)) then
        var m' := PutTask(m, FinishDeadline(t));
        var rest := ScanEffect(m', w, candidates[1..], env, k');
        Effect([m'] + rest.saves, rest.reply)
      else
        var leased := LeaseTo(t, w.workerId, env.uuid, env.clock(k') + w.leaseSeconds * SECOND);
        Effect([PutTask(m, leased)], Leased(leased))
  }

  /** `claim_task` after its lease expiry step, on the memory that step left. */
  function ClaimExpired(m: Memory, workerId: string, env: Env, timeout: int): Effect {
    if workerId !in m.workers then Refuse(NotRegistered)
    else
      var w := m.workers[workerId];
      if w.lifecycle != Ready then Effect([], NoTask)
      else if HeartbeatStale(w, env.clock(1), timeout) then
        Effect([PutWorker(m, w.(lifecycle := Unhealthy))], NoTask)
      else ScanEffect(m, w, Candidates(m, w, m.taskOrder), env, 2)
  }

  function ClaimEffect(m: Memory, workerId: string, env: Env, timeout: int): Effect {
    var m' := ExpireMemory(m, env.clock(0), timeout);
    var rest := ClaimExpired(m', workerId, env, timeout);
    Effect([m'] + rest.saves, rest.reply)
  }

  function RenewEffect(m: Memory, op: Op, env: Env, timeout: int): Effect
    requires op.Renew?
  {
    if op.id !in m.tasks then Refuse(UnknownTask)
    else
      var t := m.tasks[op.id];
      var now := env.clock(0);
      if t.PastDeadline(now) then Effect([PutTask(m, FinishDeadline(t))], Raised(StaleLease))
      else if !t.HeldBy(op.workerId, op.leaseId, op.generation, now) then
        Effect([ExpireMemory(m, env.clock(1), timeout)], Raised(StaleLease))
      else if op.workerId !in m.workers || m.workers[op.workerId].lifecycle != Ready then Refuse(NotRegistered)
      else
        var w := m.workers[op.workerId];
        if HeartbeatStale(w, env.clock(1), timeout) then
          Effect([PutWorker(m, w.(lifecycle := Unhealthy))], Raised(NotRegistered))
        else
          var renewed := RenewUntil(t, now + w.leaseSeconds * SECOND);
          Effect([PutTask(PutWorker(m, w.(lastHeartbeat := now)), renewed)], Renewed(renewed.lease.value))
  }

  function ReportEffect(m: Memory, op: Op, env: Env, timeout: int): Effect
    requires op.Report?
  {
    if op.id !in m.tasks then Refuse(UnknownTask)
    else if op.result.workerId != op.workerId then Refuse(Conflict)
    else
      var t := m.tasks[op.id];
      var now := env.clock(0);
      if t.Terminal() then Effect([], TaskReply(t))
      else if t.PastDeadline(now) then Effect([PutTask(m, FinishDeadline(t))], Raised(StaleLease))
      else if !t.HeldBy(op.workerId, op.leaseId, op.generation, now) then
        Effect([ExpireMemory(m, env.clock(1), timeout)], Raised(StaleLease))
      else
        var updated := CommitReport(t, op.workerId, op.generation, op.result, op.retryable, now);
        Effect([PutTask(m, updated)], TaskReply(updated))
  }

  function CancelEffect(m: Memory, op: Op): Effect
    requires op.Cancel?
  {
    if PyText.Blank(op.reason) || op.cause !in CANCEL_CAUSES then Refuse(Invalid)
    else if op.id !in m.tasks then Refuse(UnknownTask)
    else
      var t := m.tasks[op.id];
      if t.Terminal() then Effect([], TaskReply(t))
      else
        var updated := CancelTask(t, op.reason, op.cause);
        Effect([PutTask(m, updated)], TaskReply(updated))
  }

  /** Arguments that are values of Python types whose constructors already validated them. */
  predicate WellTyped(op: Op) {
    match op
    case Submit(intent, _, _, _, _, _, _) => intent.Valid()
    case Report(_, _, _, _, result, _) => Constructed(result)
    case _ => true
  }

  function EffectOf(m: Memory, op: Op, env: Env, timeout: int): Effect {
    match op
    case Register(_, _, _, _) => RegisterEffect(m, op, env)
    case Heartbeat(w) => HeartbeatEffect(m, w, env)
    case Drain(w) => LifecycleEffect(m, w, Draining, env)
    case StopWorker(w) => LifecycleEffect(m, w, Stopped, env)
    case Submit(_, _, _, _, _, _, _) => SubmitEffect(m, op, env)
    case Claim(w) => ClaimEffect(m, w, env, timeout)
    case Renew(_, _, _, _) => RenewEffect(m, op, env, timeout)
    case Report(_, _, _, _, _, _) => ReportEffect(m, op, env, timeout)
    case Expire => ExpireEffect(m, env, timeout)
    case Cancel(_, _, _) => CancelEffect(m, op)
  }
}
