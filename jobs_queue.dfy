/** Per-topic FIFO queues served by per-topic worker pools under one global semaphore,
    a registry of queued and running jobs by placeholder message id, cancellation
    before start, and per-user counters of jobs that have not started yet
    (app/infra/jobs_queue.py).

    The queue state is first described as a value, QState, with one function per
    operation; the JobsQueue class at the bottom keeps the same state in fields and
    each of its methods is proved to perform exactly that function's step.

    Job objects are shared between the registry, the topic queues and the workers: a
    cancel through the registry is seen by the worker that dequeues the job. The model
    keeps every job object in `jobs` and refers to it by its index (JobRef). A worker
    coroutine is one entry of `workers`, with the point of its loop it is at; the
    semaphore's permits are held by the Running workers. */
module Jobs {
  import opened Wrappers
  import opened Models
  import opened Counting

  type JobRef = nat

  /** An entry of a topic queue: a job or the shutdown pill (None). */
  datatype QItem = Pill | Item(ref: JobRef)

  /** Where a worker coroutine is in _worker_loop: blocked in q.get(), holding a
      dequeued job while it waits for the global semaphore, running the processor
      inside the semaphore, or finished. */
  datatype WorkerState = Idle | Holding(ref: JobRef) | Running(ref: JobRef) | Exited

  datatype Worker = Worker(alias: string, state: WorkerState)

  datatype QState = QState(
    closed: bool,
    hasProcessor: bool,
    perTopicLimit: int,
    maxWorkers: int,
    queues: map<string, seq<QItem>>,
    workers: seq<Worker>,
    jobs: seq<GenerateJob>,
    registry: map<int, JobRef>,
    pending: map<int, int>,
    activePerTopic: map<string, int>,
    activeGlobal: int)

  datatype EnqueueError = QueueClosed | ProcessorNotSet

  datatype DequeueResult = Blocked | Stopped | SkippedCanceled(ref: JobRef) | Took(ref: JobRef)

  /** dict.get(k, 0) */
  function Get0<K>(m: map<K, int>, k: K): int {
    if k in m then m[k] else 0
  }

  /** Reservations made with reserve_user_slot and not yet turned into a job or released;
      the source keeps no record of them, so they appear only in the statements below. */
  function Res(res: map<int, nat>, u: int): nat {
    if u in res then res[u] else 0
  }

  function IsRunning(): Worker -> bool {
    (w: Worker) => w.state.Running?
  }

  function IsRunningOf(alias: string): Worker -> bool {
    (w: Worker) => w.alias == alias && w.state.Running?
  }

  function InPool(alias: string): Worker -> bool {
    (w: Worker) => w.alias == alias
  }

  function WaitingOf(u: int): GenerateJob -> bool {
    (j: GenerateJob) => j.userId == u && Waiting(j)
  }

  /** Number of jobs of user u that are neither started nor canceled. */
  function WaitingCount(s: QState, u: int): nat {
    CountIf(s.jobs, WaitingOf(u))
  }

  function RunningCount(s: QState): nat {
    CountIf(s.workers, IsRunning())
  }

  function PoolSize(s: QState, alias: string): nat {
    CountIf(s.workers, InPool(alias))
  }

  function QueueOf(s: QState, alias: string): seq<QItem> {
    if alias in s.queues then s.queues[alias] else []
  }

  predicate RefBelow(st: WorkerState, n: nat) {
    match st
    case Holding(r) => r < n
    case Running(r) => r < n
    case _ => true
  }

  // ---------------------------------------------------------------- well-formedness

  predicate QueueRefsOk(s: QState) {
    forall a, i :: a in s.queues && 0 <= i < |s.queues[a]| && s.queues[a][i].Item?
      ==> s.queues[a][i].ref < |s.jobs|
  }

  predicate RegistryOk(s: QState) {
    forall mid :: mid in s.registry ==> s.registry[mid] < |s.jobs|
  }

  predicate WorkerRefsOk(s: QState) {
    forall w :: 0 <= w < |s.workers| ==> RefBelow(s.workers[w].state, |s.jobs|)
  }

  /** Every pool has its queue, and a pool is either absent or has per_topic_limit workers. */
  ghost predicate PoolsOk(s: QState) {
    forall a :: PoolSize(s, a) > 0 ==> a in s.queues && PoolSize(s, a) == s.perTopicLimit
  }

  /** Before shutdown there are no pills and no finished workers. */
  predicate OpenOk(s: QState) {
    !s.closed ==>
      (forall a, i :: a in s.queues && 0 <= i < |s.queues[a]| ==> s.queues[a][i].Item?)
      && (forall w :: 0 <= w < |s.workers| ==> !s.workers[w].state.Exited?)
  }

  /** The counters only hold positive counts of real users. */
  predicate PendingPositive(s: QState) {
    forall u :: u in s.pending ==> u > 0 && s.pending[u] >= 1
  }

  ghost predicate WF(s: QState) {
    s.perTopicLimit >= 1 && s.maxWorkers >= 0
    && QueueRefsOk(s) && RegistryOk(s) && WorkerRefsOk(s) && PoolsOk(s) && OpenOk(s)
    && PendingPositive(s)
  }

  /** The activity counters mirror the Running workers, and the global semaphore bounds them. */
  ghost predicate CountersInv(s: QState) {
    s.activeGlobal == RunningCount(s)
    && (forall a :: Get0(s.activePerTopic, a) == CountIf(s.workers, IsRunningOf(a)))
    && RunningCount(s) <= s.maxWorkers
  }

  /** The per-user counter equals the user's jobs that have not started and were not
      canceled, plus the slots the user reserved and has not used or released. */
  ghost predicate PendingInv(s: QState, res: map<int, nat>) {
    forall u :: u > 0 ==> Get0(s.pending, u) == WaitingCount(s, u) + Res(res, u)
  }

  // ---------------------------------------------------------------- counters

  function IncPendingMap(p: map<int, int>, u: int): map<int, int> {
    if u <= 0 then p else p[u := Get0(p, u) + 1]
  }

  function DecPendingMap(p: map<int, int>, u: int): map<int, int> {
    if u <= 0 then p
    else if Get0(p, u) <= 1 then p - {u}
    else p[u := p[u] - 1]
  }

  lemma IncPendingMapEffect(p: map<int, int>, u: int, v: int)
    ensures Get0(IncPendingMap(p, u), v) == Get0(p, v) + (if u > 0 && v == u then 1 else 0)
  {
  }

  lemma DecPendingMapEffect(p: map<int, int>, u: int, v: int)
    requires u > 0 ==> Get0(p, u) >= 1
    ensures Get0(DecPendingMap(p, u), v) == Get0(p, v) - (if u > 0 && v == u then 1 else 0)
  {
  }

  // ---------------------------------------------------------------- operations

  function InitSpec(maxWorkers: int, perTopicLimit: int): QState {
    QState(false, false, if perTopicLimit < 1 then 1 else perTopicLimit, maxWorkers,
           map[], [], [], map[], map[], map[], 0)
  }

  function SetProcessorSpec(s: QState): QState {
    s.(hasProcessor := true)
  }

  function NewPool(alias: string, n: nat): seq<Worker> {
    seq(n, _ => Worker(alias, Idle))
  }

  /** _ensure_workers: a pool of per_topic_limit workers the first time an alias is seen;
      an existing queue is kept. */
  function EnsureWorkersSpec(s: QState, alias: string): QState {
    if PoolSize(s, alias) > 0 then s
    else
      s.(queues := if alias in s.queues then s.queues else s.queues[alias := []],
         workers := s.workers + NewPool(alias, if s.perTopicLimit < 0 then 0 else s.perTopicLimit))
  }

  /** Register the job under its message id and put it at the tail of the topic queue. */
  function RegisterAndPut(s: QState, alias: string, job: GenerateJob, count: bool): QState {
    var r := |s.jobs|;
    s.(jobs := s.jobs + [job],
       registry := s.registry[job.messageId := r],
       pending := if count && job.userId != 0 then IncPendingMap(s.pending, job.userId) else s.pending,
       queues := s.queues[alias := QueueOf(s, alias) + [Item(r)]])
  }

  /** enqueue: no limit check; raises when closed or without processor. */
  function EnqueueSpec(s: QState, alias: string, job: GenerateJob): Result<QState, EnqueueError> {
    if s.closed then Failure(QueueClosed)
    else if !s.hasProcessor then Failure(ProcessorNotSet)
    else Success(RegisterAndPut(EnsureWorkersSpec(s, alias), alias, job, true))
  }

  /** enqueue_limited: a disabled limit (None or not positive) is modelled as limit <= 0.
      The pool is created even when the limit then rejects the job. */
  function EnqueueLimitedSpec(s: QState, alias: string, job: GenerateJob, limit: int): (QState, bool) {
    if s.closed || !s.hasProcessor then (s, false)
    else
      var s1 := EnsureWorkersSpec(s, alias);
      if limit > 0 && job.userId != 0 && Get0(s1.pending, job.userId) >= limit then (s1, false)
      else (RegisterAndPut(s1, alias, job, true), true)
  }

  function CanEnqueueSpec(s: QState, u: int, limit: int): bool {
    u <= 0 || limit <= 0 || Get0(s.pending, u) < limit
  }

  function ReserveUserSlotSpec(s: QState, u: int, limit: int): (QState, bool) {
    if u <= 0 || limit <= 0 then (s, false)
    else if Get0(s.pending, u) >= limit then (s, false)
    else (s.(pending := IncPendingMap(s.pending, u)), true)
  }

  function ReleaseUserSlotSpec(s: QState, u: int): QState {
    if u <= 0 then s else s.(pending := DecPendingMap(s.pending, u))
  }

  /** enqueue_reserved: with reserved == true the counter was already raised by
      reserve_user_slot and is left alone. */
  function EnqueueReservedSpec(s: QState, alias: string, job: GenerateJob, reserved: bool): (QState, bool) {
    if s.closed || !s.hasProcessor then (s, false)
    else (RegisterAndPut(EnsureWorkersSpec(s, alias), alias, job, !reserved), true)
  }

  /** will_queue: the estimate that a job put in now would wait. */
  function WillQueueSpec(s: QState, alias: string): (QState, bool) {
    var s1 := EnsureWorkersSpec(s, alias);
    var globalFree := if s1.maxWorkers - s1.activeGlobal < 0 then 0 else s1.maxWorkers - s1.activeGlobal;
    (s1, |QueueOf(s1, alias)| > 0 || Get0(s1.activePerTopic, alias) >= s1.perTopicLimit || globalFree <= 0)
  }

  function GetJobSpec(s: QState, mid: int): Option<GenerateJob>
    requires RegistryOk(s)
  {
    if mid in s.registry then Some(s.jobs[s.registry[mid]]) else None
  }

  /** cancel_job: only a registered job that has neither started nor been canceled. */
  function CancelJobSpec(s: QState, mid: int, byAdmin: bool): (QState, bool)
    requires RegistryOk(s)
  {
    if mid !in s.registry then (s, false)
    else
      var r := s.registry[mid];
      var job := s.jobs[r];
      if job.started || job.canceled then (s, false)
      else
        (s.(jobs := s.jobs[r := job.(canceled := true, canceledByAdmin := byAdmin)],
            pending := if job.userId != 0 then DecPendingMap(s.pending, job.userId) else s.pending),
         true)
  }

  /** One pass of _worker_loop up to the semaphore (lines 118-127): an idle worker
      takes the head of its queue. */
  function DequeueSpec(s: QState, w: nat): (QState, DequeueResult)
    requires QueueRefsOk(s) && w < |s.workers| && s.workers[w].state.Idle?
  {
    var a := s.workers[w].alias;
    var q := QueueOf(s, a);
    if |q| == 0 then (s, Blocked)
    else
      var s1 := s.(queues := s.queues[a := q[1..]]);
      if q[0].Pill? || s.closed then (s1.(workers := s.workers[w := Worker(a, Exited)]), Stopped)
      else
        var job := s.jobs[q[0].ref];
        if job.canceled then (s1.(registry := s.registry - {job.messageId}), SkippedCanceled(q[0].ref))
        else (s1.(workers := s.workers[w := Worker(a, Holding(q[0].ref))]), Took(q[0].ref))
  }

  /** The body of `async with self._global_sema` up to the processor call (lines 131-137). */
  function BeginRun(s: QState, w: nat): QState
    requires WorkerRefsOk(s) && w < |s.workers| && s.workers[w].state.Holding?
  {
    var a := s.workers[w].alias;
    var r := s.workers[w].state.ref;
    var job := s.jobs[r];
    s.(pending := if job.userId != 0 then DecPendingMap(s.pending, job.userId) else s.pending,
       activeGlobal := s.activeGlobal + 1,
       activePerTopic := s.activePerTopic[a := Get0(s.activePerTopic, a) + 1],
       jobs := s.jobs[r := job.(started := true)],
       workers := s.workers[w := Worker(a, Running(r))])
  }

  /** The worker acquires a permit and starts its job, as written: the canceled flag
      is not looked at again after the wait for the semaphore. */
  function StartSpec(s: QState, w: nat): QState
    requires WorkerRefsOk(s) && w < |s.workers| && s.workers[w].state.Holding?
    requires RunningCount(s) < s.maxWorkers
  {
    BeginRun(s, w)
  }

  /** The corrected start: a job canceled while its worker waited for the semaphore is
      dropped like one canceled in the queue. Returns whether the job started. */
  function StartCheckedSpec(s: QState, w: nat): (QState, bool)
    requires WorkerRefsOk(s) && w < |s.workers| && s.workers[w].state.Holding?
    requires RunningCount(s) < s.maxWorkers
  {
    if !Waiting(s.jobs[s.workers[w].state.ref]) then (DropHeld(s, w), false)
    else (BeginRun(s, w), true)
  }

  /** Drop a held job without running it, as the worker does with a canceled one. */
  function DropHeld(s: QState, w: nat): QState
    requires WorkerRefsOk(s) && w < |s.workers| && s.workers[w].state.Holding?
  {
    var job := s.jobs[s.workers[w].state.ref];
    s.(registry := s.registry - {job.messageId},
       workers := s.workers[w := Worker(s.workers[w].alias, Idle)])
  }

  /** The `finally` block, task_done and the registry cleanup (lines 148-154). */
  function FinishSpec(s: QState, w: nat): QState
    requires WorkerRefsOk(s) && w < |s.workers| && s.workers[w].state.Running?
  {
    var a := s.workers[w].alias;
    var job := s.jobs[s.workers[w].state.ref];
    var atp := if a in s.activePerTopic then s.activePerTopic[a] else 1;
    s.(activeGlobal := if s.activeGlobal - 1 < 0 then 0 else s.activeGlobal - 1,
       activePerTopic := s.activePerTopic[a := if atp - 1 < 0 then 0 else atp - 1],
       registry := s.registry - {job.messageId},
       workers := s.workers[w := Worker(a, Idle)])
  }

  function Pills(n: nat): seq<QItem> {
    seq(n, _ => Pill)
  }

  function PillCount(s: QState, alias: string): nat {
    if PoolSize(s, alias) > 0 then PoolSize(s, alias) else 1
  }

  /** shutdown up to its first await (lines 63-69): closed, one pill per worker. */
  function CloseSpec(s: QState): QState {
    s.(closed := true,
       queues := map a | a in s.queues :: s.queues[a] + Pills(PillCount(s, a)))
  }

  predicate AllExited(s: QState) {
    forall w :: 0 <= w < |s.workers| ==> s.workers[w].state.Exited?
  }

  /** shutdown after every worker task has been awaited (lines 77-80). Jobs still in the
      dropped queues are unreachable afterwards. */
  function ClearSpec(s: QState): QState
    requires s.closed && AllExited(s)
  {
    s.(queues := map[], workers := [], registry := map[], pending := map[], jobs := [])
  }

  // ---------------------------------------------------------------- invariants

  ghost predicate Inv(s: QState, res: map<int, nat>) {
    WF(s) && CountersInv(s) && PendingInv(s, res)
  }

  function AddReservation(res: map<int, nat>, u: int): map<int, nat> {
    if u > 0 then res[u := Res(res, u) + 1] else res
  }

  function UseReservation(res: map<int, nat>, u: int): map<int, nat> {
    if u > 0 && Res(res, u) >= 1 then res[u := Res(res, u) - 1] else res
  }

  lemma InitEstablishes(maxWorkers: int, perTopicLimit: int)
    requires maxWorkers >= 0
    ensures Inv(InitSpec(maxWorkers, perTopicLimit), map[])
    ensures InitSpec(maxWorkers, perTopicLimit).perTopicLimit >= 1
  {
  }

  lemma SetProcessorPreserves(s: QState, res: map<int, nat>)
    requires Inv(s, res)
    ensures Inv(SetProcessorSpec(s), res)
  {
    var t := SetProcessorSpec(s);
    assert forall a :: PoolSize(t, a) == PoolSize(s, a);
  }

  lemma NewPoolCounts(alias: string, n: nat, b: string)
    ensures CountIf(NewPool(alias, n), InPool(b)) == (if b == alias then n else 0)
    ensures CountIf(NewPool(alias, n), IsRunning()) == 0
    ensures CountIf(NewPool(alias, n), IsRunningOf(b)) == 0
  {
    var ws := NewPool(alias, n);
    if b == alias { CountIfAll(ws, InPool(b)); } else { CountIfNone(ws, InPool(b)); }
    CountIfNone(ws, IsRunning());
    CountIfNone(ws, IsRunningOf(b));
  }

  /** _ensure_workers keeps every invariant and leaves a queue and a full pool for the alias. */
  /** A new pool adds per_topic_limit idle workers to its own topic and nothing else. */
  lemma NewPoolAdds(s: QState, alias: string)
    requires s.perTopicLimit >= 1 && PoolSize(s, alias) == 0
    ensures var t := EnsureWorkersSpec(s, alias);
      (forall b :: PoolSize(t, b) == PoolSize(s, b) + (if b == alias then s.perTopicLimit else 0))
      && (forall b :: CountIf(t.workers, IsRunningOf(b)) == CountIf(s.workers, IsRunningOf(b)))
      && RunningCount(t) == RunningCount(s)
  {
    var t := EnsureWorkersSpec(s, alias);
    var pool := NewPool(alias, s.perTopicLimit);
    forall b ensures PoolSize(t, b) == PoolSize(s, b) + (if b == alias then s.perTopicLimit else 0)
      && CountIf(t.workers, IsRunningOf(b)) == CountIf(s.workers, IsRunningOf(b))
    {
      CountIfConcat(s.workers, pool, InPool(b));
      CountIfConcat(s.workers, pool, IsRunningOf(b));
      NewPoolCounts(alias, s.perTopicLimit, b);
    }
    CountIfConcat(s.workers, pool, IsRunning());
    NewPoolCounts(alias, s.perTopicLimit, alias);
  }

  lemma EnsureWorkersPreserves(s: QState, res: map<int, nat>, alias: string)
    requires Inv(s, res)
    ensures var t := EnsureWorkersSpec(s, alias);
      Inv(t, res) && alias in t.queues && PoolSize(t, alias) == t.perTopicLimit
      && QueueOf(t, alias) == QueueOf(s, alias)
      && t.jobs == s.jobs && t.pending == s.pending && t.registry == s.registry
      && t.closed == s.closed && t.hasProcessor == s.hasProcessor
      && t.activePerTopic == s.activePerTopic && t.activeGlobal == s.activeGlobal
      && t.perTopicLimit == s.perTopicLimit && t.maxWorkers == s.maxWorkers
  {
    if PoolSize(s, alias) == 0 {
      var t := EnsureWorkersSpec(s, alias);
      NewPoolAdds(s, alias);
      assert WorkerRefsOk(t) by {
        forall w | 0 <= w < |t.workers| ensures RefBelow(t.workers[w].state, |t.jobs|) {
          if w < |s.workers| { assert t.workers[w] == s.workers[w]; }
        }
      }
      assert OpenOk(t) by {
        if !t.closed {
          forall w | 0 <= w < |t.workers| ensures !t.workers[w].state.Exited? {
            if w < |s.workers| { assert t.workers[w] == s.workers[w]; }
          }
        }
      }
    }
  }

  /** Registering and putting a job keeps the invariants; the user's counter and the
      user's waiting jobs each grow by the job when it counts. */
  lemma RegisterAndPutPreserves(s: QState, res: map<int, nat>, alias: string, job: GenerateJob, count: bool)
    requires WF(s) && CountersInv(s) && alias in s.queues
    ensures var t := RegisterAndPut(s, alias, job, count);
      WF(t) && CountersInv(t)
      && (forall u :: u > 0 ==> WaitingCount(t, u) == WaitingCount(s, u) + (if job.userId == u && Waiting(job) then 1 else 0))
      && (forall u :: Get0(t.pending, u) == Get0(s.pending, u) + (if count && u > 0 && job.userId == u then 1 else 0))
  {
    var t := RegisterAndPut(s, alias, job, count);
    forall u ensures WaitingCount(t, u) == WaitingCount(s, u) + (if job.userId == u && Waiting(job) then 1 else 0) {
      CountIfAppend(s.jobs, job, WaitingOf(u));
    }
    forall u ensures Get0(t.pending, u) == Get0(s.pending, u) + (if count && u > 0 && job.userId == u then 1 else 0) {
      if count && job.userId != 0 { IncPendingMapEffect(s.pending, job.userId, u); }
    }
    assert forall a :: PoolSize(t, a) == PoolSize(s, a);
    assert QueueRefsOk(t) by {
      forall a, i | a in t.queues && 0 <= i < |t.queues[a]| && t.queues[a][i].Item?
        ensures t.queues[a][i].ref < |t.jobs|
      {
        if a == alias && i == |s.queues[a]| {
        } else {
          assert t.queues[a][i] == s.queues[a][i];
        }
      }
    }
    assert OpenOk(t) by {
      if !t.closed {
        forall a, i | a in t.queues && 0 <= i < |t.queues[a]| ensures t.queues[a][i].Item? {
          if a == alias && i == |s.queues[a]| {
          } else {
            assert t.queues[a][i] == s.queues[a][i];
          }
        }
      }
    }
  }

  /** enqueue keeps the invariants for a job that has not started nor been canceled. */
  lemma EnqueuePreserves(s: QState, res: map<int, nat>, alias: string, job: GenerateJob)
    requires Inv(s, res) && Waiting(job)
    ensures EnqueueSpec(s, alias, job).Success? ==> Inv(EnqueueSpec(s, alias, job).value, res)
  {
    if !s.closed && s.hasProcessor {
      EnsureWorkersPreserves(s, res, alias);
      RegisterAndPutPreserves(EnsureWorkersSpec(s, alias), res, alias, job, true);
    }
  }

  lemma EnqueueLimitedPreserves(s: QState, res: map<int, nat>, alias: string, job: GenerateJob, limit: int)
    requires Inv(s, res) && Waiting(job)
    ensures Inv(EnqueueLimitedSpec(s, alias, job, limit).0, res)
  {
    if !s.closed && s.hasProcessor {
      EnsureWorkersPreserves(s, res, alias);
      RegisterAndPutPreserves(EnsureWorkersSpec(s, alias), res, alias, job, true);
    }
  }

  /** enqueue_reserved consumes the reservation the caller made for the job's user. */
  lemma EnqueueReservedPreserves(s: QState, res: map<int, nat>, alias: string, job: GenerateJob, reserved: bool)
    requires Inv(s, res) && Waiting(job)
    requires reserved && job.userId > 0 ==> Res(res, job.userId) >= 1
    ensures var (t, ok) := EnqueueReservedSpec(s, alias, job, reserved);
      Inv(t, if ok && reserved then UseReservation(res, job.userId) else res)
  {
    if !s.closed && s.hasProcessor {
      EnsureWorkersPreserves(s, res, alias);
      RegisterAndPutPreserves(EnsureWorkersSpec(s, alias), res, alias, job, !reserved);
    }
  }

  lemma ReserveUserSlotPreserves(s: QState, res: map<int, nat>, u: int, limit: int)
    requires Inv(s, res)
    ensures var (t, ok) := ReserveUserSlotSpec(s, u, limit);
      Inv(t, if ok then AddReservation(res, u) else res)
  {
    var (t, ok) := ReserveUserSlotSpec(s, u, limit);
    if ok {
      var res2 := AddReservation(res, u);
      forall v ensures Get0(t.pending, v) == Get0(s.pending, v) + (if v == u then 1 else 0) {
        IncPendingMapEffect(s.pending, u, v);
      }
      assert PendingInv(t, res2) by {
        forall v | v > 0 ensures Get0(t.pending, v) == WaitingCount(t, v) + Res(res2, v) {
          assert WaitingCount(t, v) == WaitingCount(s, v);
        }
      }
      assert PendingPositive(t);
      assert t == s.(jobs := s.jobs, pending := t.pending);
      JobsAndPendingChange(s, res, s.jobs, t.pending, res2);
    }
  }

  /** Changing job records in place and the per-user counters keeps every invariant but
      the counting one. */
  lemma JobsAndPendingChange(s: QState, res: map<int, nat>, js: seq<GenerateJob>, p: map<int, int>, res2: map<int, nat>)
    requires Inv(s, res) && |js| == |s.jobs|
    requires PendingInv(s.(jobs := js, pending := p), res2) && PendingPositive(s.(jobs := js, pending := p))
    ensures Inv(s.(jobs := js, pending := p), res2)
  {
    var t := s.(jobs := js, pending := p);
    assert forall a :: PoolSize(t, a) == PoolSize(s, a);
    assert RunningCount(t) == RunningCount(s);
  }

  /** release_user_slot keeps the count right when it returns a slot that was reserved. */
  lemma ReleaseUserSlotPreserves(s: QState, res: map<int, nat>, u: int)
    requires Inv(s, res)
    requires u > 0 ==> Res(res, u) >= 1
    ensures Inv(ReleaseUserSlotSpec(s, u), UseReservation(res, u))
  {
    if u > 0 {
      var t := ReleaseUserSlotSpec(s, u);
      forall v ensures Get0(t.pending, v) == Get0(s.pending, v) - (if v == u then 1 else 0) {
        DecPendingMapEffect(s.pending, u, v);
      }
      assert forall a :: PoolSize(t, a) == PoolSize(s, a);
    }
  }

  lemma WillQueuePreserves(s: QState, res: map<int, nat>, alias: string)
    requires Inv(s, res)
    ensures Inv(WillQueueSpec(s, alias).0, res)
  {
    EnsureWorkersPreserves(s, res, alias);
  }

  /** A job stops counting for its user exactly when it leaves the waiting state. */
  lemma WaitingAfterUpdate(s: QState, r: nat, job: GenerateJob, u: int)
    requires r < |s.jobs|
    ensures CountIf(s.jobs[r := job], WaitingOf(u)) + (if WaitingOf(u)(s.jobs[r]) then 1 else 0)
            == CountIf(s.jobs, WaitingOf(u)) + (if WaitingOf(u)(job) then 1 else 0)
  {
    CountIfUpdate(s.jobs, r, job, WaitingOf(u));
  }

  lemma CancelJobPreserves(s: QState, res: map<int, nat>, mid: int, byAdmin: bool)
    requires Inv(s, res)
    ensures Inv(CancelJobSpec(s, mid, byAdmin).0, res)
  {
    var (t, ok) := CancelJobSpec(s, mid, byAdmin);
    if ok {
      CancelKeepsCounts(s, res, mid, byAdmin);
      JobsAndPendingChange(s, res, t.jobs, t.pending, res);
    }
  }

  lemma CancelKeepsCounts(s: QState, res: map<int, nat>, mid: int, byAdmin: bool)
    requires Inv(s, res) && CancelJobSpec(s, mid, byAdmin).1
    ensures var t := CancelJobSpec(s, mid, byAdmin).0;
      PendingInv(t, res) && PendingPositive(t) && t == s.(jobs := t.jobs, pending := t.pending)
      && |t.jobs| == |s.jobs|
  {
    var t := CancelJobSpec(s, mid, byAdmin).0;
    var r := s.registry[mid];
    var job := s.jobs[r];
    var u0 := job.userId;
    forall u | u > 0 ensures Get0(t.pending, u) == WaitingCount(t, u) + Res(res, u) {
      WaitingAfterUpdate(s, r, job.(canceled := true, canceledByAdmin := byAdmin), u);
      if u == u0 {
        CountIfPositive(s.jobs, r, WaitingOf(u));
      }
      if u0 > 0 { CountIfPositive(s.jobs, r, WaitingOf(u0)); }
      if u0 != 0 { DecPendingMapEffect(s.pending, u0, u); }
    }
  }

  /** A worker changing state without changing alias leaves the pools as they are. */
  lemma WorkerUpdateCounts(s: QState, w: nat, st: WorkerState, a: string)
    requires w < |s.workers|
    ensures var ws := s.workers[w := Worker(s.workers[w].alias, st)];
      CountIf(ws, InPool(a)) == CountIf(s.workers, InPool(a))
      && CountIf(ws, IsRunning()) + (if s.workers[w].state.Running? then 1 else 0)
         == CountIf(s.workers, IsRunning()) + (if st.Running? then 1 else 0)
      && CountIf(ws, IsRunningOf(a)) + (if s.workers[w].alias == a && s.workers[w].state.Running? then 1 else 0)
         == CountIf(s.workers, IsRunningOf(a)) + (if s.workers[w].alias == a && st.Running? then 1 else 0)
  {
    var nw := Worker(s.workers[w].alias, st);
    CountIfUpdate(s.workers, w, nw, InPool(a));
    CountIfUpdate(s.workers, w, nw, IsRunning());
    CountIfUpdate(s.workers, w, nw, IsRunningOf(a));
  }

  /** Taking the head off a non-empty queue keeps the invariants. */
  lemma PopQueueKeeps(s: QState, res: map<int, nat>, a: string)
    requires Inv(s, res) && |QueueOf(s, a)| > 0
    ensures Inv(s.(queues := s.queues[a := QueueOf(s, a)[1..]]), res)
  {
    var t := s.(queues := s.queues[a := QueueOf(s, a)[1..]]);
    assert forall b :: PoolSize(t, b) == PoolSize(s, b);
    assert QueueRefsOk(t) by {
      forall b, i | b in t.queues && 0 <= i < |t.queues[b]| && t.queues[b][i].Item?
        ensures t.queues[b][i].ref < |t.jobs|
      {
        if b == a { assert t.queues[b][i] == s.queues[b][i + 1]; }
      }
    }
    assert OpenOk(t) by {
      if !t.closed {
        forall b, i | b in t.queues && 0 <= i < |t.queues[b]| ensures t.queues[b][i].Item? {
          if b == a { assert t.queues[b][i] == s.queues[b][i + 1]; }
        }
      }
    }
  }

  /** A worker that is not running moving to another state that is not running keeps
      the invariants, as long as it refers to a real job and does not finish before
      shutdown. */
  lemma WorkerSwapKeeps(s: QState, res: map<int, nat>, w: nat, st: WorkerState)
    requires Inv(s, res) && w < |s.workers|
    requires !s.workers[w].state.Running? && !st.Running?
    requires RefBelow(st, |s.jobs|) && (!s.closed ==> !st.Exited?)
    ensures Inv(s.(workers := s.workers[w := Worker(s.workers[w].alias, st)]), res)
  {
    var t := s.(workers := s.workers[w := Worker(s.workers[w].alias, st)]);
    forall b ensures PoolSize(t, b) == PoolSize(s, b)
      && CountIf(t.workers, IsRunningOf(b)) == CountIf(s.workers, IsRunningOf(b))
    {
      WorkerUpdateCounts(s, w, st, b);
    }
    WorkerUpdateCounts(s, w, st, s.workers[w].alias);
  }

  lemma UnregisterKeeps(s: QState, res: map<int, nat>, mid: int)
    requires Inv(s, res)
    ensures Inv(s.(registry := s.registry - {mid}), res)
  {
    var t := s.(registry := s.registry - {mid});
    assert forall b :: PoolSize(t, b) == PoolSize(s, b);
  }

  lemma DequeuePreserves(s: QState, res: map<int, nat>, w: nat)
    requires Inv(s, res) && w < |s.workers| && s.workers[w].state.Idle?
    ensures Inv(DequeueSpec(s, w).0, res)
  {
    var a := s.workers[w].alias;
    var q := QueueOf(s, a);
    if |q| > 0 {
      assert q[0] == s.queues[a][0];
      PopQueueKeeps(s, res, a);
      var s1 := s.(queues := s.queues[a := q[1..]]);
      if q[0].Pill? || s.closed {
        WorkerSwapKeeps(s1, res, w, Exited);
      } else if s.jobs[q[0].ref].canceled {
        UnregisterKeeps(s1, res, s.jobs[q[0].ref].messageId);
      } else {
        WorkerSwapKeeps(s1, res, w, Holding(q[0].ref));
      }
    }
  }

  /** Entering the semaphore keeps the well-formedness and the counters, whatever the job. */
  lemma BeginRunKeepsCounters(s: QState, res: map<int, nat>, w: nat)
    requires Inv(s, res) && w < |s.workers| && s.workers[w].state.Holding?
    requires RunningCount(s) < s.maxWorkers
    ensures WF(BeginRun(s, w)) && CountersInv(BeginRun(s, w))
  {
    var t := BeginRun(s, w);
    var a := s.workers[w].alias;
    var st := Running(s.workers[w].state.ref);
    assert t.workers == s.workers[w := Worker(a, st)];
    forall b ensures PoolSize(t, b) == PoolSize(s, b)
      && CountIf(t.workers, IsRunningOf(b)) == CountIf(s.workers, IsRunningOf(b)) + (if b == a then 1 else 0)
    {
      WorkerUpdateCounts(s, w, st, b);
    }
    WorkerUpdateCounts(s, w, st, a);
    var u := s.jobs[s.workers[w].state.ref].userId;
    if u != 0 {
      forall v ensures v in t.pending ==> v > 0 && t.pending[v] >= 1 {
      }
    }
  }

  /** The as-written start keeps the queue well formed and the counters exact. */
  lemma StartPreservesCounters(s: QState, res: map<int, nat>, w: nat)
    requires Inv(s, res) && w < |s.workers| && s.workers[w].state.Holding?
    requires RunningCount(s) < s.maxWorkers
    ensures WF(StartSpec(s, w)) && CountersInv(StartSpec(s, w))
  {
    BeginRunKeepsCounters(s, res, w);
  }

  /** Starting a waiting job moves it out of its user's waiting count and lowers the
      user's counter by one: the per-user invariant holds on. */
  lemma BeginRunKeepsPending(s: QState, res: map<int, nat>, w: nat)
    requires Inv(s, res) && w < |s.workers| && s.workers[w].state.Holding?
    requires Waiting(s.jobs[s.workers[w].state.ref])
    ensures PendingInv(BeginRun(s, w), res)
  {
    var t := BeginRun(s, w);
    var r := s.workers[w].state.ref;
    var job := s.jobs[r];
    forall u | u > 0 ensures Get0(t.pending, u) == WaitingCount(t, u) + Res(res, u) {
      WaitingAfterUpdate(s, r, job.(started := true), u);
      if job.userId > 0 { CountIfPositive(s.jobs, r, WaitingOf(job.userId)); }
      if job.userId != 0 { DecPendingMapEffect(s.pending, job.userId, u); }
    }
  }

  /** The corrected start keeps every invariant, the per-user count included. */
  lemma StartCheckedPreserves(s: QState, res: map<int, nat>, w: nat)
    requires Inv(s, res) && w < |s.workers| && s.workers[w].state.Holding?
    requires RunningCount(s) < s.maxWorkers
    ensures Inv(StartCheckedSpec(s, w).0, res)
  {
    var job := s.jobs[s.workers[w].state.ref];
    if Waiting(job) {
      BeginRunKeepsCounters(s, res, w);
      BeginRunKeepsPending(s, res, w);
    } else {
      UnregisterKeeps(s, res, job.messageId);
      WorkerSwapKeeps(s.(registry := s.registry - {job.messageId}), res, w, Idle);
    }
  }

  lemma FinishPreserves(s: QState, res: map<int, nat>, w: nat)
    requires Inv(s, res) && w < |s.workers| && s.workers[w].state.Running?
    ensures Inv(FinishSpec(s, w), res)
  {
    var t := FinishSpec(s, w);
    var a := s.workers[w].alias;
    assert t.workers == s.workers[w := Worker(a, Idle)];
    forall b ensures PoolSize(t, b) == PoolSize(s, b)
      && CountIf(t.workers, IsRunningOf(b)) + (if b == a then 1 else 0) == CountIf(s.workers, IsRunningOf(b))
    {
      WorkerUpdateCounts(s, w, Idle, b);
    }
    WorkerUpdateCounts(s, w, Idle, a);
    CountIfPositive(s.workers, w, IsRunningOf(a));
    CountIfPositive(s.workers, w, IsRunning());
  }

  lemma ClosePreserves(s: QState, res: map<int, nat>)
    requires Inv(s, res)
    ensures Inv(CloseSpec(s), res)
  {
    var t := CloseSpec(s);
    assert forall a :: PoolSize(t, a) == PoolSize(s, a);
    assert QueueRefsOk(t) by {
      forall a, i | a in t.queues && 0 <= i < |t.queues[a]| && t.queues[a][i].Item?
        ensures t.queues[a][i].ref < |t.jobs|
      {
        assert i < |s.queues[a]|;
        assert t.queues[a][i] == s.queues[a][i];
      }
    }
  }

  /** After shutdown nothing is pending and no reservation survives. */
  lemma ClearPreserves(s: QState, res: map<int, nat>)
    requires Inv(s, res) && s.closed && AllExited(s)
    ensures Inv(ClearSpec(s), map[])
  {
    CountIfNone(s.workers, IsRunning());
    forall a ensures CountIf(s.workers, IsRunningOf(a)) == 0 {
      CountIfNone(s.workers, IsRunningOf(a));
    }
  }

  // ---------------------------------------------------------------- behaviour

  /** The counters never hold an entry for a user id <= 0 nor a count below one, and
      lowering the count of one user changes nobody else's. */
  lemma CounterUpdates(p: map<int, int>, u: int, v: int)
    requires forall x :: x in p ==> x > 0 && p[x] >= 1
    ensures var i := IncPendingMap(p, u); forall x :: x in i ==> x > 0 && i[x] >= 1
    ensures var d := DecPendingMap(p, u); forall x :: x in d ==> x > 0 && d[x] >= 1
    ensures u <= 0 ==> IncPendingMap(p, u) == p && DecPendingMap(p, u) == p
    ensures u > 0 && Get0(p, u) <= 1 ==> u !in DecPendingMap(p, u)
    ensures u !in p ==> DecPendingMap(p, u) == p
    ensures v != u ==> Get0(IncPendingMap(p, u), v) == Get0(p, v) && Get0(DecPendingMap(p, u), v) == Get0(p, v)
  {
  }

  /** can_enqueue answers from the counter alone. */
  lemma CanEnqueueMeaning(s: QState, res: map<int, nat>, u: int, limit: int)
    requires PendingInv(s, res) && u > 0 && limit > 0
    ensures CanEnqueueSpec(s, u, limit) <==> WaitingCount(s, u) + Res(res, u) < limit
  {
  }

  /** reserve_user_slot succeeds exactly when the limit is enabled for a real user and
      can_enqueue would say yes; it then raises the count by one and never above the limit. */
  lemma ReserveUserSlotMeaning(s: QState, u: int, limit: int)
    requires PendingPositive(s)
    ensures var (t, ok) := ReserveUserSlotSpec(s, u, limit);
      (ok <==> u > 0 && limit > 0 && CanEnqueueSpec(s, u, limit))
      && (ok ==> Get0(t.pending, u) == Get0(s.pending, u) + 1 && Get0(t.pending, u) <= limit
                  && forall v :: v != u ==> Get0(t.pending, v) == Get0(s.pending, v))
      && (!ok ==> t == s)
      && t.jobs == s.jobs && t.queues == s.queues && t.registry == s.registry
  {
  }

  /** release_user_slot lowers a positive count by one and ignores anything else. */
  lemma ReleaseUserSlotMeaning(s: QState, u: int)
    requires PendingPositive(s)
    ensures var t := ReleaseUserSlotSpec(s, u);
      Get0(t.pending, u) == (if u > 0 && Get0(s.pending, u) >= 1 then Get0(s.pending, u) - 1 else Get0(s.pending, u))
      && (forall v :: v != u ==> Get0(t.pending, v) == Get0(s.pending, v))
      && PendingPositive(t)
  {
  }

  /** enqueue_reserved: nothing happens on a closed queue or one without processor;
      otherwise the job is registered and last in its topic's queue, and the counter
      moves only when the slot was not reserved. */
  lemma EnqueueReservedEffect(s: QState, res: map<int, nat>, alias: string, job: GenerateJob, reserved: bool)
    requires Inv(s, res)
    ensures var (t, ok) := EnqueueReservedSpec(s, alias, job, reserved);
      (ok <==> !s.closed && s.hasProcessor)
      && (!ok ==> t == s)
      && (ok ==> RegistryOk(t) && GetJobSpec(t, job.messageId) == Some(job)
                 && QueueOf(t, alias) == QueueOf(s, alias) + [Item(|s.jobs|)]
                 && t.jobs == s.jobs + [job]
                 && (forall b :: b != alias ==> QueueOf(t, b) == QueueOf(s, b))
                 && forall u :: Get0(t.pending, u)
                      == Get0(s.pending, u) + (if !reserved && u > 0 && job.userId == u then 1 else 0))
  {
    if !s.closed && s.hasProcessor {
      EnsureWorkersPreserves(s, res, alias);
      var s1 := EnsureWorkersSpec(s, alias);
      RegisterAndPutPreserves(s1, res, alias, job, !reserved);
      var t := RegisterAndPut(s1, alias, job, !reserved);
      forall b | b != alias ensures QueueOf(t, b) == QueueOf(s, b) {
      }
    }
  }

  /** enqueue_limited rejects exactly a closed queue, a missing processor, or a user at
      the limit; an accepted job is registered at the tail of its queue and counted. */
  lemma EnqueueLimitedEffect(s: QState, res: map<int, nat>, alias: string, job: GenerateJob, limit: int)
    requires Inv(s, res)
    ensures var (t, ok) := EnqueueLimitedSpec(s, alias, job, limit);
      (ok <==> !s.closed && s.hasProcessor
               && (limit <= 0 || job.userId == 0 || Get0(s.pending, job.userId) < limit))
      && (ok ==> RegistryOk(t) && GetJobSpec(t, job.messageId) == Some(job)
                 && QueueOf(t, alias) == QueueOf(s, alias) + [Item(|s.jobs|)]
                 && Get0(t.pending, job.userId) == Get0(s.pending, job.userId) + (if job.userId > 0 then 1 else 0))
      && (!ok ==> t.jobs == s.jobs && t.pending == s.pending && t.registry == s.registry)
  {
    if !s.closed && s.hasProcessor {
      EnsureWorkersPreserves(s, res, alias);
      var s1 := EnsureWorkersSpec(s, alias);
      RegisterAndPutPreserves(s1, res, alias, job, true);
    }
  }

  /** enqueue raises on a closed queue or without processor and otherwise always accepts. */
  lemma EnqueueEffect(s: QState, res: map<int, nat>, alias: string, job: GenerateJob)
    requires Inv(s, res)
    ensures var e := EnqueueSpec(s, alias, job);
      (s.closed ==> e == Failure(QueueClosed))
      && (!s.closed && !s.hasProcessor ==> e == Failure(ProcessorNotSet))
      && (e.Success? <==> !s.closed && s.hasProcessor)
      && (e.Success? ==> RegistryOk(e.value) && GetJobSpec(e.value, job.messageId) == Some(job)
                         && QueueOf(e.value, alias) == QueueOf(s, alias) + [Item(|s.jobs|)])
  {
    if !s.closed && s.hasProcessor {
      EnsureWorkersPreserves(s, res, alias);
      RegisterAndPutPreserves(EnsureWorkersSpec(s, alias), res, alias, job, true);
    }
  }

  /** cancel_job succeeds exactly on a registered job that is still waiting; it sets the
      flags, lowers the owner's count by one, and a second cancel of the same id fails.
      A failed cancel changes nothing. */
  lemma CancelJobMeaning(s: QState, res: map<int, nat>, mid: int, byAdmin: bool)
    requires Inv(s, res)
    ensures var (t, ok) := CancelJobSpec(s, mid, byAdmin);
      (ok <==> mid in s.registry && Waiting(s.jobs[s.registry[mid]]))
      && (!ok ==> t == s)
      && (ok ==> var job := s.jobs[s.registry[mid]];
                 RegistryOk(t)
                 && GetJobSpec(t, mid) == Some(job.(canceled := true, canceledByAdmin := byAdmin))
                 && Get0(t.pending, job.userId) == Get0(s.pending, job.userId) - (if job.userId > 0 then 1 else 0)
                 && !CancelJobSpec(t, mid, byAdmin).1
                 && t.registry == s.registry && t.queues == s.queues && t.workers == s.workers)
  {
    var (t, ok) := CancelJobSpec(s, mid, byAdmin);
    if ok {
      var r := s.registry[mid];
      var job := s.jobs[r];
      if job.userId > 0 {
        CountIfPositive(s.jobs, r, WaitingOf(job.userId));
        DecPendingMapEffect(s.pending, job.userId, job.userId);
      }
    }
  }

  /** A job that is started can no longer be canceled, whoever asks. */
  lemma StartedNotCancelable(s: QState, mid: int, byAdmin: bool)
    requires RegistryOk(s) && mid in s.registry && s.jobs[s.registry[mid]].started
    ensures CancelJobSpec(s, mid, byAdmin) == (s, false)
  {
  }

  /** The worker step on a canceled job: the job leaves the registry and the queue, and
      neither the per-user nor the activity counters move. */
  lemma DequeueCanceledEffect(s: QState, w: nat)
    requires WF(s) && w < |s.workers| && s.workers[w].state.Idle?
    requires DequeueSpec(s, w).1.SkippedCanceled?
    ensures var (t, out) := DequeueSpec(s, w);
      var a := s.workers[w].alias;
      QueueOf(s, a) == [Item(out.ref)] + QueueOf(t, a)
      && s.jobs[out.ref].canceled
      && s.jobs[out.ref].messageId !in t.registry
      && t.pending == s.pending && t.activeGlobal == s.activeGlobal
      && t.activePerTopic == s.activePerTopic && t.workers == s.workers && t.jobs == s.jobs
  {
    var a := s.workers[w].alias;
    assert QueueOf(s, a) == [QueueOf(s, a)[0]] + QueueOf(s, a)[1..];
  }

  /** The worker takes the head of its own topic's queue, first in first out. */
  lemma DequeueTakesHead(s: QState, w: nat)
    requires WF(s) && w < |s.workers| && s.workers[w].state.Idle?
    requires DequeueSpec(s, w).1.Took?
    ensures var (t, out) := DequeueSpec(s, w);
      var a := s.workers[w].alias;
      QueueOf(s, a) == [Item(out.ref)] + QueueOf(t, a)
      && Waiting(s.jobs[out.ref]) == !s.jobs[out.ref].started
      && t.workers[w] == Worker(a, Holding(out.ref))
      && t.pending == s.pending && t.registry == s.registry && t.jobs == s.jobs
  {
    var a := s.workers[w].alias;
    assert QueueOf(s, a) == [QueueOf(s, a)[0]] + QueueOf(s, a)[1..];
  }

  /** Once shut down, a worker that finds anything in its queue stops. */
  lemma ClosedDequeueStops(s: QState, w: nat)
    requires WF(s) && w < |s.workers| && s.workers[w].state.Idle?
    requires s.closed
    ensures DequeueSpec(s, w).1 == Blocked <==> |QueueOf(s, s.workers[w].alias)| == 0
    ensures DequeueSpec(s, w).1 != Blocked ==>
              DequeueSpec(s, w).1 == Stopped && DequeueSpec(s, w).0.workers[w].state == Exited
  {
  }

  /** Starting a live job: its owner's count goes down by one, both activity counters
      go up by one, and the job is marked started before the processor runs. */
  lemma StartCheckedLiveEffect(s: QState, res: map<int, nat>, w: nat)
    requires Inv(s, res) && w < |s.workers| && s.workers[w].state.Holding?
    requires RunningCount(s) < s.maxWorkers
    requires Waiting(s.jobs[s.workers[w].state.ref])
    ensures var (t, started) := StartCheckedSpec(s, w);
      var r := s.workers[w].state.ref;
      var u := s.jobs[r].userId;
      var a := s.workers[w].alias;
      started
      && t.jobs[r].started && t.jobs[r] == s.jobs[r].(started := true)
      && Get0(t.pending, u) == Get0(s.pending, u) - (if u > 0 then 1 else 0)
      && t.activeGlobal == s.activeGlobal + 1
      && Get0(t.activePerTopic, a) == Get0(s.activePerTopic, a) + 1
      && t.workers[w] == Worker(a, Running(r))
  {
    var r := s.workers[w].state.ref;
    var u := s.jobs[r].userId;
    if u > 0 {
      CountIfPositive(s.jobs, r, WaitingOf(u));
      DecPendingMapEffect(s.pending, u, u);
    }
  }

  /** finish restores both activity counters, floored at zero, and drops the job from
      the registry, whatever the processor did. */
  lemma FinishEffect(s: QState, res: map<int, nat>, w: nat)
    requires Inv(s, res) && w < |s.workers| && s.workers[w].state.Running?
    ensures var t := FinishSpec(s, w);
      var a := s.workers[w].alias;
      t.activeGlobal == s.activeGlobal - 1
      && Get0(t.activePerTopic, a) == Get0(s.activePerTopic, a) - 1
      && s.jobs[s.workers[w].state.ref].messageId !in t.registry
      && t.pending == s.pending && t.workers[w] == Worker(a, Idle)
  {
    var a := s.workers[w].alias;
    CountIfPositive(s.workers, w, IsRunningOf(a));
    CountIfPositive(s.workers, w, IsRunning());
  }

  /** No topic runs more jobs than per_topic_limit, and no more than max_workers run in all. */
  lemma ActiveBounds(s: QState, a: string)
    requires WF(s) && CountersInv(s)
    ensures 0 <= Get0(s.activePerTopic, a) <= s.perTopicLimit
    ensures 0 <= s.activeGlobal <= s.maxWorkers
  {
    CountIfMono(s.workers, IsRunningOf(a), InPool(a));
  }

  /** will_queue reads the state after making sure of the pool: true exactly when the
      queue holds something, the topic runs per_topic_limit jobs, or no permit is free. */
  lemma WillQueueMeaning(s: QState, res: map<int, nat>, alias: string)
    requires Inv(s, res)
    ensures var (t, wq) := WillQueueSpec(s, alias);
      (wq <==> |QueueOf(s, alias)| > 0 || Get0(s.activePerTopic, alias) >= s.perTopicLimit
               || s.activeGlobal >= s.maxWorkers)
      && t.pending == s.pending && t.registry == s.registry && t.jobs == s.jobs
  {
    EnsureWorkersPreserves(s, res, alias);
  }

  predicate NoHolding(s: QState) {
    forall w :: 0 <= w < |s.workers| ==> !s.workers[w].state.Holding?
  }

  /** When will_queue says no and no worker is between dequeue and semaphore, a job
      enqueued right after is taken by an idle worker of its topic, which can start it
      at once: the placeholder's "starting" text is right. */
  lemma NotQueuedStartsAtOnce(s: QState, res: map<int, nat>, alias: string, job: GenerateJob)
    requires Inv(s, res) && !s.closed && s.hasProcessor && Waiting(job) && NoHolding(s)
    requires !WillQueueSpec(s, alias).1
    ensures var e := EnqueueSpec(WillQueueSpec(s, alias).0, alias, job);
      e.Success? && Inv(e.value, res)
      && exists w :: 0 <= w < |e.value.workers| && e.value.workers[w].alias == alias
           && e.value.workers[w].state.Idle?
           && DequeueSpec(e.value, w).1 == Took(|s.jobs|)
           && RunningCount(DequeueSpec(e.value, w).0) < s.maxWorkers
  {
    var e, w := NotQueuedEnqueue(s, res, alias, job);
    IdleTakesSingleton(e, w, alias, |s.jobs|);
  }

  /** The enqueue half: the job goes into an empty queue whose pool has an idle worker. */
  lemma NotQueuedEnqueue(s: QState, res: map<int, nat>, alias: string, job: GenerateJob)
    returns (e: QState, w: nat)
    requires Inv(s, res) && !s.closed && s.hasProcessor && Waiting(job) && NoHolding(s)
    requires !WillQueueSpec(s, alias).1
    ensures EnqueueSpec(WillQueueSpec(s, alias).0, alias, job) == Success(e)
    ensures Inv(e, res) && QueueOf(e, alias) == [Item(|s.jobs|)]
    ensures w < |e.workers| && e.workers[w].alias == alias && e.workers[w].state.Idle?
    ensures |s.jobs| < |e.jobs| && e.jobs[|s.jobs|] == job && !e.closed
    ensures RunningCount(e) < s.maxWorkers
  {
    EnsureWorkersPreserves(s, res, alias);
    var t := EnsureWorkersSpec(s, alias);
    EnsureKeepsNoHolding(s, alias);
    EnqueuePreserves(t, res, alias, job);
    EnsureWorkersPreserves(t, res, alias);
    assert EnsureWorkersSpec(t, alias) == t;
    e := RegisterAndPut(t, alias, job, true);
    assert EnqueueSpec(t, alias, job) == Success(e);
    w := IdleWorkerOf(t, res, alias);
    assert e.workers == t.workers;
    assert QueueOf(e, alias) == [Item(|s.jobs|)];
  }

  /** A pool with fewer running workers than members, none of them holding a job, has
      an idle worker. */
  lemma IdleWorkerOf(t: QState, res: map<int, nat>, alias: string) returns (w: nat)
    requires Inv(t, res) && !t.closed && NoHolding(t)
    requires PoolSize(t, alias) == t.perTopicLimit && Get0(t.activePerTopic, alias) < t.perTopicLimit
    ensures w < |t.workers| && t.workers[w].alias == alias && t.workers[w].state.Idle?
  {
    assert CountIf(t.workers, IsRunningOf(alias)) < CountIf(t.workers, InPool(alias));
    CountIfGap(t.workers, IsRunningOf(alias), InPool(alias));
    w :| 0 <= w < |t.workers| && InPool(alias)(t.workers[w]) && !IsRunningOf(alias)(t.workers[w]);
  }

  lemma EnsureKeepsNoHolding(s: QState, alias: string)
    requires NoHolding(s)
    ensures NoHolding(EnsureWorkersSpec(s, alias))
  {
    var t := EnsureWorkersSpec(s, alias);
    forall w | 0 <= w < |t.workers| ensures !t.workers[w].state.Holding? {
      if w < |s.workers| { assert t.workers[w] == s.workers[w]; }
    }
  }

  /** The dequeue half: an idle worker takes the only item of its queue. */
  lemma IdleTakesSingleton(e: QState, w: nat, alias: string, j: nat)
    requires QueueRefsOk(e) && w < |e.workers| && e.workers[w].alias == alias && e.workers[w].state.Idle?
    requires QueueOf(e, alias) == [Item(j)] && j < |e.jobs| && Waiting(e.jobs[j]) && !e.closed
    ensures DequeueSpec(e, w).1 == Took(j) && RunningCount(DequeueSpec(e, w).0) == RunningCount(e)
  {
    var (d, out) := DequeueSpec(e, w);
    assert out == Took(j);
    assert d.workers == e.workers[w := Worker(alias, Holding(j))];
    WorkerUpdateCounts(e, w, Holding(j), alias);
  }

  /** shutdown's first step: the queue is closed, every queue ends with one pill per
      worker of its pool (one when it has none), and later enqueues fail. */
  lemma CloseEffect(s: QState, alias: string, job: GenerateJob)
    ensures var t := CloseSpec(s);
      t.closed && t.queues.Keys == s.queues.Keys
      && (forall a :: a in s.queues ==> t.queues[a] == s.queues[a] + Pills(PillCount(s, a))
                                        && PillCount(s, a) >= PoolSize(s, a))
      && EnqueueSpec(t, alias, job) == Failure(QueueClosed)
  {
  }

  // ---------------------------------------------------------------- cancel during the semaphore wait

  /** As written, a job canceled while its worker waits for the semaphore is started
      anyway, and its owner's count is lowered a second time: the count ends one below
      the jobs the user really has waiting. */
  lemma StartAfterCancelBreaksPendingInv(s: QState, res: map<int, nat>, w: nat)
    requires Inv(s, res) && w < |s.workers| && s.workers[w].state.Holding?
    requires RunningCount(s) < s.maxWorkers
    requires var job := s.jobs[s.workers[w].state.ref];
      job.canceled && !job.started && job.userId > 0 && Get0(s.pending, job.userId) >= 1
    ensures var u := s.jobs[s.workers[w].state.ref].userId;
      var t := StartSpec(s, w);
      Get0(t.pending, u) + 1 == WaitingCount(t, u) + Res(res, u)
      && !PendingInv(t, res)
  {
    var r := s.workers[w].state.ref;
    var job := s.jobs[r];
    var t := StartSpec(s, w);
    WaitingAfterUpdate(s, r, job.(started := true), job.userId);
    DecPendingMapEffect(s.pending, job.userId, job.userId);
  }

  function TestJob(mid: int, user: int): GenerateJob {
    NewGenerateJob(1, 5, mid, "p", user, map[], "t", "c", None, None, 0.0, false, None)
  }

  /** The run below: one global permit, one worker per topic. User 8 queues job 20 in
      topic "a", then user u queues jobs 10 and 11 in topic "t". */
  function ScenarioQueued(u: int): QState {
    var s0 := SetProcessorSpec(InitSpec(1, 1));
    var e1 := EnqueueSpec(s0, "a", TestJob(20, 8));
    if e1.Failure? then s0
    else
      var e2 := EnqueueSpec(e1.value, "t", TestJob(10, u));
      if e2.Failure? then e1.value
      else
        var e3 := EnqueueSpec(e2.value, "t", TestJob(11, u));
        if e3.Failure? then e2.value else e3.value
  }

  /** The first enqueue creates the pool of topic "a". */
  lemma ScenarioFirstEnqueue(s0: QState) returns (s1: QState)
    requires s0 == SetProcessorSpec(InitSpec(1, 1))
    ensures EnqueueSpec(s0, "a", TestJob(20, 8)) == Success(s1)
    ensures Inv(s1, map[]) && !s1.closed && s1.hasProcessor && s1.maxWorkers == 1
      && s1.workers == [Worker("a", Idle)] && s1.jobs == [TestJob(20, 8)]
      && s1.registry == map[20 := 0] && QueueOf(s1, "a") == [Item(0)] && "t" !in s1.queues
  {
    InitEstablishes(1, 1);
    SetProcessorPreserves(InitSpec(1, 1), map[]);
    EnqueuePreserves(s0, map[], "a", TestJob(20, 8));
    EnqueueEffect(s0, map[], "a", TestJob(20, 8));
    s1 := EnqueueSpec(s0, "a", TestJob(20, 8)).value;
    assert NewPool("a", 1) == [Worker("a", Idle)];
  }

  /** The second enqueue creates the pool of topic "t" behind it. */
  lemma ScenarioSecondEnqueue(s1: QState, u: int) returns (s2: QState)
    requires Inv(s1, map[]) && !s1.closed && s1.hasProcessor && s1.maxWorkers == 1
    requires s1.workers == [Worker("a", Idle)] && s1.jobs == [TestJob(20, 8)]
    requires s1.registry == map[20 := 0] && QueueOf(s1, "a") == [Item(0)] && "t" !in s1.queues
    ensures EnqueueSpec(s1, "t", TestJob(10, u)) == Success(s2)
    ensures Inv(s2, map[]) && !s2.closed && s2.hasProcessor && s2.maxWorkers == 1
      && s2.workers == [Worker("a", Idle), Worker("t", Idle)] && s2.jobs == [TestJob(20, 8), TestJob(10, u)]
      && s2.registry == map[20 := 0, 10 := 1] && QueueOf(s2, "a") == [Item(0)] && QueueOf(s2, "t") == [Item(1)]
  {
    EnqueuePreserves(s1, map[], "t", TestJob(10, u));
    EnqueueEffect(s1, map[], "t", TestJob(10, u));
    s2 := EnqueueSpec(s1, "t", TestJob(10, u)).value;
    CountIfNone(s1.workers, InPool("t"));
    assert NewPool("t", 1) == [Worker("t", Idle)];
  }

  lemma ScenarioThirdEnqueue(s2: QState, u: int) returns (s3: QState)
    requires Inv(s2, map[]) && !s2.closed && s2.hasProcessor && s2.maxWorkers == 1
    requires s2.workers == [Worker("a", Idle), Worker("t", Idle)] && s2.jobs == [TestJob(20, 8), TestJob(10, u)]
    requires s2.registry == map[20 := 0, 10 := 1] && QueueOf(s2, "a") == [Item(0)] && QueueOf(s2, "t") == [Item(1)]
    ensures EnqueueSpec(s2, "t", TestJob(11, u)) == Success(s3)
    ensures Inv(s3, map[]) && !s3.closed && s3.maxWorkers == 1
      && s3.workers == [Worker("a", Idle), Worker("t", Idle)]
      && QueueOf(s3, "a") == [Item(0)] && QueueOf(s3, "t") == [Item(1), Item(2)]
      && s3.jobs == [TestJob(20, 8), TestJob(10, u), TestJob(11, u)]
      && s3.registry == map[20 := 0, 10 := 1, 11 := 2]
  {
    var j11 := TestJob(11, u);
    EnqueuePreserves(s2, map[], "t", j11);
    EnqueueEffect(s2, map[], "t", j11);
    s3 := EnqueueSpec(s2, "t", j11).value;
    assert PoolSize(s2, "t") >= 1 by { CountIfPositive(s2.workers, 1, InPool("t")); }
    assert s3.workers == s2.workers;
    assert QueueOf(s3, "a") == [Item(0)];
  }

  lemma ScenarioQueuedState(u: int)
    ensures var s := ScenarioQueued(u);
      Inv(s, map[]) && !s.closed && s.maxWorkers == 1
      && s.workers == [Worker("a", Idle), Worker("t", Idle)]
      && QueueOf(s, "a") == [Item(0)] && QueueOf(s, "t") == [Item(1), Item(2)]
      && s.jobs == [TestJob(20, 8), TestJob(10, u), TestJob(11, u)]
      && s.registry == map[20 := 0, 10 := 1, 11 := 2]
  {
    var s1 := ScenarioFirstEnqueue(SetProcessorSpec(InitSpec(1, 1)));
    var s2 := ScenarioSecondEnqueue(s1, u);
    var s3 := ScenarioThirdEnqueue(s2, u);
  }

  /** The scenario's steps. Each guard holds on the run, by the lemma after it; the
      guards only keep these functions total. */
  function TakeAndStartA(s: QState): QState {
    if QueueRefsOk(s) && |s.workers| == 2 && s.workers[0].state.Idle? then
      var d := DequeueSpec(s, 0).0;
      if WorkerRefsOk(d) && d.workers[0].state.Holding? && RunningCount(d) < d.maxWorkers
      then StartCheckedSpec(d, 0).0 else d
    else s
  }

  function TakeT(s: QState): QState {
    if QueueRefsOk(s) && |s.workers| == 2 && s.workers[1].state.Idle? then DequeueSpec(s, 1).0 else s
  }

  function CancelTen(s: QState): QState {
    if RegistryOk(s) then CancelJobSpec(s, 10, false).0 else s
  }

  function FinishA(s: QState): QState {
    if WorkerRefsOk(s) && |s.workers| == 2 && s.workers[0].state.Running? then FinishSpec(s, 0) else s
  }

  lemma RunningOfPair(s: QState)
    requires |s.workers| == 2
    ensures RunningCount(s) == (if s.workers[0].state.Running? then 1 else 0) + (if s.workers[1].state.Running? then 1 else 0)
  {
    assert s.workers == [s.workers[0], s.workers[1]];
    CountIfPair(s.workers[0], s.workers[1], IsRunning());
  }

  /** Worker "a" takes job 20 and starts it: it holds the only permit. */
  lemma TakeAndStartAStep(s: QState, u: int)
    requires Inv(s, map[]) && !s.closed && s.maxWorkers == 1
    requires s.workers == [Worker("a", Idle), Worker("t", Idle)]
    requires QueueOf(s, "a") == [Item(0)] && QueueOf(s, "t") == [Item(1), Item(2)]
    requires s.jobs == [TestJob(20, 8), TestJob(10, u), TestJob(11, u)]
    requires s.registry == map[20 := 0, 10 := 1, 11 := 2]
    ensures var b := TakeAndStartA(s);
      Inv(b, map[]) && !b.closed && b.maxWorkers == 1 && RunningCount(b) == b.maxWorkers
      && b.workers == [Worker("a", Running(0)), Worker("t", Idle)]
      && QueueOf(b, "t") == [Item(1), Item(2)]
      && b.jobs == [TestJob(20, 8).(started := true), TestJob(10, u), TestJob(11, u)]
      && b.registry == map[20 := 0, 10 := 1, 11 := 2]
  {
    DequeuePreserves(s, map[], 0);
    assert QueueOf(s, "a")[0] == Item(0);
    var d := DequeueSpec(s, 0).0;
    assert d.workers == [Worker("a", Holding(0)), Worker("t", Idle)];
    RunningOfPair(d);
    StartCheckedPreserves(d, map[], 0);
    var b := StartCheckedSpec(d, 0).0;
    assert b.workers == [Worker("a", Running(0)), Worker("t", Idle)];
    RunningOfPair(b);
  }

  /** Worker "t" takes job 10; no permit is free, so it waits in `async with`. */
  lemma TakeTStep(s: QState, u: int)
    requires Inv(s, map[]) && !s.closed && s.maxWorkers == 1
    requires s.workers == [Worker("a", Running(0)), Worker("t", Idle)]
    requires QueueOf(s, "t") == [Item(1), Item(2)]
    requires s.jobs == [TestJob(20, 8).(started := true), TestJob(10, u), TestJob(11, u)]
    requires s.registry == map[20 := 0, 10 := 1, 11 := 2]
    ensures var w := TakeT(s);
      Inv(w, map[]) && w.maxWorkers == 1 && RunningCount(w) == w.maxWorkers
      && w.workers == [Worker("a", Running(0)), Worker("t", Holding(1))]
      && w.jobs == s.jobs && w.registry == s.registry
  {
    DequeuePreserves(s, map[], 1);
    assert QueueOf(s, "t")[0] == Item(1);
    var w := DequeueSpec(s, 1).0;
    assert w.workers == [Worker("a", Running(0)), Worker("t", Holding(1))];
    RunningOfPair(w);
  }

  /** Job 10 is canceled through the registry while its worker waits. */
  lemma CancelTenStep(s: QState, u: int)
    requires Inv(s, map[]) && s.maxWorkers == 1
    requires s.workers == [Worker("a", Running(0)), Worker("t", Holding(1))]
    requires s.jobs == [TestJob(20, 8).(started := true), TestJob(10, u), TestJob(11, u)]
    requires s.registry == map[20 := 0, 10 := 1, 11 := 2]
    ensures CancelJobSpec(s, 10, false).1
    ensures var c := CancelTen(s);
      Inv(c, map[]) && c.maxWorkers == 1 && RunningCount(c) == c.maxWorkers
      && c.workers == s.workers
      && c.jobs == [TestJob(20, 8).(started := true), TestJob(10, u).(canceled := true, canceledByAdmin := false), TestJob(11, u)]
  {
    CancelWaiting(s, map[], 10);
    RunningOfPair(CancelTen(s));
  }

  /** Canceling a waiting job only marks it canceled and keeps the invariant. */
  lemma CancelWaiting(s: QState, res: map<int, nat>, mid: int)
    requires Inv(s, res) && mid in s.registry && Waiting(s.jobs[s.registry[mid]])
    ensures CancelJobSpec(s, mid, false).1
    ensures var t := CancelJobSpec(s, mid, false).0;
      var r := s.registry[mid];
      Inv(t, res) && t.workers == s.workers && t.maxWorkers == s.maxWorkers
      && t.jobs == s.jobs[r := s.jobs[r].(canceled := true, canceledByAdmin := false)]
  {
    CancelJobPreserves(s, res, mid, false);
  }

  /** Job 20 finishes and gives its permit back. */
  lemma FinishAStep(s: QState, u: int)
    requires u > 0
    requires Inv(s, map[]) && s.maxWorkers == 1
    requires s.workers == [Worker("a", Running(0)), Worker("t", Holding(1))]
    requires s.jobs == [TestJob(20, 8).(started := true), TestJob(10, u).(canceled := true, canceledByAdmin := false), TestJob(11, u)]
    ensures var f := FinishA(s);
      Inv(f, map[]) && f.maxWorkers == 1 && RunningCount(f) == 0
      && f.workers == [Worker("a", Idle), Worker("t", Holding(1))]
      && f.jobs == s.jobs && WaitingCount(f, u) == 1 && Get0(f.pending, u) == 1
  {
    FinishPreserves(s, map[], 0);
    var f := FinishSpec(s, 0);
    assert f.workers == [Worker("a", Idle), Worker("t", Holding(1))];
    RunningOfPair(f);
    ScenarioWaitingCount(f.jobs, u);
    assert PendingInv(f, map[]);
    assert Get0(f.pending, u) == WaitingCount(f, u) + Res(map[], u);
  }

  lemma ScenarioWaitingCount(js: seq<GenerateJob>, u: int)
    requires |js| == 3 && !Waiting(js[0]) && !Waiting(js[1]) && js[2] == TestJob(11, u)
    ensures CountIf(js, WaitingOf(u)) == 1
  {
    assert js == [js[0], js[1]] + [js[2]];
    CountIfPair(js[0], js[1], WaitingOf(u));
    CountIfAppend([js[0], js[1]], js[2], WaitingOf(u));
  }

  /** Worker "t" is waiting for the permit, which worker "a" holds. */
  function ScenarioWaiting(u: int): QState {
    TakeT(TakeAndStartA(ScenarioQueued(u)))
  }

  lemma ScenarioWaitingState(u: int)
    ensures var w := ScenarioWaiting(u);
      Inv(w, map[]) && w.maxWorkers == 1 && RunningCount(w) == w.maxWorkers
      && w.workers == [Worker("a", Running(0)), Worker("t", Holding(1))]
      && w.jobs == [TestJob(20, 8).(started := true), TestJob(10, u), TestJob(11, u)]
      && w.registry == map[20 := 0, 10 := 1, 11 := 2]
  {
    var q := ScenarioQueued(u);
    ScenarioQueuedState(u);
    TakeAndStartAStep(q, u);
    TakeTStep(TakeAndStartA(q), u);
  }

  /** Job 10 has been canceled during that wait, and job 20 has finished. */
  function ScenarioReleased(u: int): QState {
    FinishA(CancelTen(ScenarioWaiting(u)))
  }

  lemma ScenarioReleasedState(u: int)
    requires u > 0
    ensures Inv(ScenarioWaiting(u), map[])
    ensures var w := ScenarioWaiting(u);
      CancelJobSpec(w, 10, false).1 && RunningCount(CancelTen(w)) == w.maxWorkers
    ensures var h := ScenarioReleased(u);
      Inv(h, map[]) && h.workers == [Worker("a", Idle), Worker("t", Holding(1))]
      && h.maxWorkers == 1 && RunningCount(h) == 0
      && h.jobs == [TestJob(20, 8).(started := true), TestJob(10, u).(canceled := true, canceledByAdmin := false), TestJob(11, u)]
      && WaitingCount(h, u) == 1 && Get0(h.pending, u) == 1
  {
    var w := ScenarioWaiting(u);
    ScenarioWaitingState(u);
    ReleasedFrom(w, u);
  }

  lemma ReleasedFrom(w: QState, u: int)
    requires u > 0
    requires Inv(w, map[]) && w.maxWorkers == 1 && RunningCount(w) == w.maxWorkers
      && w.workers == [Worker("a", Running(0)), Worker("t", Holding(1))]
      && w.jobs == [TestJob(20, 8).(started := true), TestJob(10, u), TestJob(11, u)]
      && w.registry == map[20 := 0, 10 := 1, 11 := 2]
    ensures CancelJobSpec(w, 10, false).1 && RunningCount(CancelTen(w)) == w.maxWorkers
    ensures var h := FinishA(CancelTen(w));
      Inv(h, map[]) && h.workers == [Worker("a", Idle), Worker("t", Holding(1))]
      && h.maxWorkers == 1 && RunningCount(h) == 0
      && h.jobs == [TestJob(20, 8).(started := true), TestJob(10, u).(canceled := true, canceledByAdmin := false), TestJob(11, u)]
      && WaitingCount(h, u) == 1 && Get0(h.pending, u) == 1
  {
    CancelTenStep(w, u);
    FinishAStep(CancelTen(w), u);
  }

  /** A concrete run with the permit contended: worker "a" runs job 20 and holds the
      only permit while worker "t" has taken job 10 and waits for it. Job 10 is
      canceled during that wait, job 20 finishes, and worker "t" gets the permit. As
      written it starts job 10 and lowers user u's count again: job 11 still waits but
      the count says zero, so with a limit of one the user may queue a further job.
      The corrected start drops job 10 and leaves the count at one. */
  lemma CancelDuringSemaphoreWait(u: int)
    requires u > 0
    ensures var w := ScenarioWaiting(u);
      Inv(w, map[]) && w.workers == [Worker("a", Running(0)), Worker("t", Holding(1))]
      && RunningCount(w) == w.maxWorkers
      && CancelJobSpec(w, 10, false).1 && RunningCount(CancelTen(w)) == w.maxWorkers
    ensures var h := ScenarioReleased(u);
      Inv(h, map[]) && h.workers == [Worker("a", Idle), Worker("t", Holding(1))]
      && RunningCount(h) < h.maxWorkers
      && var s5 := StartSpec(h, 1);
      Get0(s5.pending, u) == 0 && WaitingCount(s5, u) == 1
      && CanEnqueueSpec(s5, u, 1) && !PendingInv(s5, map[])
      && var (c5, started) := StartCheckedSpec(h, 1);
      !started && Get0(c5.pending, u) == 1 && Inv(c5, map[]) && !CanEnqueueSpec(c5, u, 1)
  {
    ScenarioWaitingState(u);
    ScenarioReleasedState(u);
    var h := ScenarioReleased(u);
    StartAfterCancelBreaksPendingInv(h, map[], 1);
    StartCheckedPreserves(h, map[], 1);
  }

  // ---------------------------------------------------------------- the class

  /** JobsQueue with its state in fields. `reservations` is proof-only bookkeeping of
      the slots handed out by ReserveUserSlot and not yet used or released. */
  class JobsQueue {
    var closed: bool
    var hasProcessor: bool
    var perTopicLimit: int
    var maxWorkers: int
    var queues: map<string, seq<QItem>>
    var workers: seq<Worker>
    var jobs: seq<GenerateJob>
    var registry: map<int, JobRef>
    var pending: map<int, int>
    var activePerTopic: map<string, int>
    var activeGlobal: int
    ghost var reservations: map<int, nat>

    function Model(): QState
      reads this
    {
      QState(closed, hasProcessor, perTopicLimit, maxWorkers, queues, workers, jobs,
             registry, pending, activePerTopic, activeGlobal)
    }

    /** The invariants the comments of the source state, the per-user count included. */
    ghost predicate Valid()
      reads this
    {
      Inv(Model(), reservations)
    }

    /** asyncio.Semaphore refuses a negative size, so max_workers must not be negative. */
    constructor(maxWorkers: int, perTopicLimit: int)
      requires maxWorkers >= 0
      ensures Model() == InitSpec(maxWorkers, perTopicLimit) && reservations == map[]
      ensures Valid()
    {
      closed := false;
      hasProcessor := false;
      this.perTopicLimit := if perTopicLimit < 1 then 1 else perTopicLimit;
      this.maxWorkers := maxWorkers;
      queues := map[];
      workers := [];
      jobs := [];
      registry := map[];
      pending := map[];
      activePerTopic := map[];
      activeGlobal := 0;
      reservations := map[];
      new;
      InitEstablishes(maxWorkers, perTopicLimit);
    }

    method SetProcessor()
      requires Valid()
      modifies this
      ensures Model() == SetProcessorSpec(old(Model())) && reservations == old(reservations)
      ensures Valid()
    {
      hasProcessor := true;
      SetProcessorPreserves(old(Model()), reservations);
    }

    /** _ensure_workers: spawns per_topic_limit workers for an alias without a pool. */
    method EnsureWorkers(alias: string)
      modifies this
      ensures Model() == EnsureWorkersSpec(old(Model()), alias) && reservations == old(reservations)
    {
      if PoolSize(Model(), alias) > 0 {
        return;
      }
      var n := if perTopicLimit < 0 then 0 else perTopicLimit;
      var nq := if alias in queues then queues else queues[alias := []];
      var nw := SpawnPool(workers, alias, n);
      queues, workers := nq, nw;
    }

    /** `for _ in range(per_topic_limit)`: one idle worker task per turn. */
    static method SpawnPool(w0: seq<Worker>, alias: string, n: nat) returns (ws: seq<Worker>)
      ensures ws == w0 + NewPool(alias, n)
    {
      ws := w0;
      var i := 0;
      while i < n
        invariant 0 <= i <= n
        invariant ws == w0 + NewPool(alias, i)
      {
        assert NewPool(alias, i + 1) == NewPool(alias, i) + [Worker(alias, Idle)];
        ws := ws + [Worker(alias, Idle)];
        i := i + 1;
      }
    }

    /** _inc_pending */
    method IncPending(u: int)
      modifies this
      ensures Model() == old(Model()).(pending := IncPendingMap(old(pending), u))
      ensures reservations == old(reservations)
    {
      if u <= 0 {
        return;
      }
      pending := pending[u := Get0(pending, u) + 1];
    }

    /** _dec_pending */
    method DecPending(u: int)
      modifies this
      ensures Model() == old(Model()).(pending := DecPendingMap(old(pending), u))
      ensures reservations == old(reservations)
    {
      if u <= 0 {
        return;
      }
      var cur := Get0(pending, u);
      if cur <= 1 {
        pending := pending - {u};
      } else {
        pending := pending[u := cur - 1];
      }
    }

    /** pending_count_by_user: the user's jobs that have not started nor been canceled,
        plus the slots the user holds reserved. */
    method PendingCountByUser(u: int) returns (n: int)
      requires Valid()
      ensures n == Get0(pending, u)
      ensures u > 0 ==> n == WaitingCount(Model(), u) + Res(reservations, u)
      ensures u <= 0 ==> n == 0
    {
      n := Get0(pending, u);
    }

    /** Register the job and put it at the tail of the alias queue; the queue exists. */
    method RegisterAndPutJob(alias: string, job: GenerateJob, count: bool)
      requires alias in queues
      modifies this
      ensures Model() == RegisterAndPut(old(Model()), alias, job, count)
      ensures reservations == old(reservations)
    {
      var r := |jobs|;
      jobs := jobs + [job];
      registry := registry[job.messageId := r];
      if count && job.userId != 0 {
        IncPending(job.userId);
      }
      queues := queues[alias := queues[alias] + [Item(r)]];
    }

    /** enqueue: raises when closed or without processor, otherwise always queues. */
    method Enqueue(alias: string, job: GenerateJob) returns (r: Result<(), EnqueueError>)
      requires Valid()
      modifies this
      ensures var e := EnqueueSpec(old(Model()), alias, job);
        (e.Success? ==> r.Success? && Model() == e.value)
        && (e.Failure? ==> r == Failure(e.error) && Model() == old(Model()))
      ensures reservations == old(reservations)
      ensures Waiting(job) ==> Valid()
    {
      if closed {
        return Failure(QueueClosed);
      }
      if !hasProcessor {
        return Failure(ProcessorNotSet);
      }
      EnsureWorkers(alias);
      RegisterAndPutJob(alias, job, true);
      if Waiting(job) {
        EnqueuePreserves(old(Model()), reservations, alias, job);
      }
      return Success(());
    }

    /** enqueue_limited: limit None is passed as 0. */
    method EnqueueLimited(alias: string, job: GenerateJob, limit: int) returns (ok: bool)
      requires Valid()
      modifies this
      ensures (Model(), ok) == EnqueueLimitedSpec(old(Model()), alias, job, limit)
      ensures reservations == old(reservations)
      ensures Waiting(job) ==> Valid()
    {
      if closed || !hasProcessor {
        return false;
      }
      EnsureWorkers(alias);
      EnsureWorkersPreserves(old(Model()), reservations, alias);
      if limit > 0 && job.userId != 0 {
        var p := Get0(pending, job.userId);
        if p >= limit {
          return false;
        }
      }
      RegisterAndPutJob(alias, job, true);
      if Waiting(job) {
        EnqueueLimitedPreserves(old(Model()), reservations, alias, job, limit);
      }
      return true;
    }

    /** can_enqueue: limit None is passed as 0. */
    method CanEnqueue(u: int, limit: int) returns (ok: bool)
      requires Valid()
      ensures ok == CanEnqueueSpec(Model(), u, limit)
      ensures u > 0 && limit > 0 ==> (ok <==> WaitingCount(Model(), u) + Res(reservations, u) < limit)
    {
      if u <= 0 || limit <= 0 {
        return true;
      }
      var p := Get0(pending, u);
      ok := p < limit;
      CanEnqueueMeaning(Model(), reservations, u, limit);
    }

    method ReserveUserSlot(u: int, limit: int) returns (ok: bool)
      requires Valid()
      modifies this
      ensures (Model(), ok) == ReserveUserSlotSpec(old(Model()), u, limit)
      ensures reservations == if ok then AddReservation(old(reservations), u) else old(reservations)
      ensures Valid()
    {
      if u <= 0 || limit <= 0 {
        return false;
      }
      var p := Get0(pending, u);
      if p >= limit {
        return false;
      }
      IncPending(u);
      ReserveUserSlotPreserves(old(Model()), reservations, u, limit);
      reservations := AddReservation(reservations, u);
      return true;
    }

    /** release_user_slot may be called without a reservation; the per-user count then
        falls below the jobs the user has waiting. */
    method ReleaseUserSlot(u: int)
      requires Valid()
      modifies this
      ensures Model() == ReleaseUserSlotSpec(old(Model()), u)
      ensures reservations == UseReservation(old(reservations), u)
      ensures (u <= 0 || Res(old(reservations), u) >= 1) ==> Valid()
    {
      if u <= 0 {
        return;
      }
      DecPending(u);
      if Res(reservations, u) >= 1 {
        ReleaseUserSlotPreserves(old(Model()), reservations, u);
      }
      reservations := UseReservation(reservations, u);
    }

    method EnqueueReserved(alias: string, job: GenerateJob, reserved: bool) returns (ok: bool)
      requires Valid()
      modifies this
      ensures (Model(), ok) == EnqueueReservedSpec(old(Model()), alias, job, reserved)
      ensures reservations == if ok && reserved then UseReservation(old(reservations), job.userId) else old(reservations)
      ensures Waiting(job) && (reserved && job.userId > 0 ==> Res(old(reservations), job.userId) >= 1) ==> Valid()
    {
      if closed || !hasProcessor {
        return false;
      }
      EnsureWorkers(alias);
      RegisterAndPutJob(alias, job, !reserved);
      if Waiting(job) && (reserved && job.userId > 0 ==> Res(reservations, job.userId) >= 1) {
        EnqueueReservedPreserves(old(Model()), reservations, alias, job, reserved);
      }
      if reserved {
        reservations := UseReservation(reservations, job.userId);
      }
      return true;
    }

    method WillQueue(alias: string) returns (wq: bool)
      requires Valid()
      modifies this
      ensures (Model(), wq) == WillQueueSpec(old(Model()), alias)
      ensures reservations == old(reservations)
      ensures Valid()
    {
      EnsureWorkers(alias);
      EnsureWorkersPreserves(old(Model()), reservations, alias);
      var qsize := |queues[alias]|;
      if qsize > 0 {
        return true;
      }
      var activeTopic := Get0(activePerTopic, alias);
      if activeTopic >= perTopicLimit {
        return true;
      }
      var globalFree := if maxWorkers - activeGlobal < 0 then 0 else maxWorkers - activeGlobal;
      if globalFree <= 0 {
        return true;
      }
      return false;
    }

    method GetJob(mid: int) returns (job: Option<GenerateJob>)
      requires Valid()
      ensures job == GetJobSpec(Model(), mid)
      ensures job.Some? <==> mid in registry
    {
      if mid in registry {
        return Some(jobs[registry[mid]]);
      }
      return None;
    }

    method CancelJob(mid: int, byAdmin: bool) returns (ok: bool)
      requires Valid()
      modifies this
      ensures (Model(), ok) == CancelJobSpec(old(Model()), mid, byAdmin)
      ensures reservations == old(reservations)
      ensures Valid()
    {
      if mid !in registry {
        return false;
      }
      var r := registry[mid];
      var job := jobs[r];
      if job.started {
        return false;
      }
      if job.canceled {
        return false;
      }
      jobs := jobs[r := job.(canceled := true, canceledByAdmin := byAdmin)];
      if job.userId != 0 {
        DecPending(job.userId);
      }
      CancelJobPreserves(old(Model()), reservations, mid, byAdmin);
      return true;
    }

    /** The worker's q.get() and the checks that follow it. */
    method Dequeue(w: nat) returns (out: DequeueResult)
      requires Valid() && w < |workers| && workers[w].state.Idle?
      modifies this
      ensures (Model(), out) == DequeueSpec(old(Model()), w)
      ensures reservations == old(reservations)
      ensures Valid()
    {
      var a := workers[w].alias;
      var q := if a in queues then queues[a] else [];
      if |q| == 0 {
        return Blocked;
      }
      out := TakeHead(w);
    }

    /** Dequeue once the topic queue is known to be non-empty. */
    method TakeHead(w: nat) returns (out: DequeueResult)
      requires Valid() && w < |workers| && workers[w].state.Idle?
      requires |QueueOf(Model(), workers[w].alias)| > 0
      modifies this
      ensures (Model(), out) == DequeueSpec(old(Model()), w)
      ensures reservations == old(reservations)
      ensures Valid()
    {
      var a := workers[w].alias;
      var q := queues[a];
      if q[0].Pill? || closed {
        DequeuePreserves(Model(), reservations, w);
        queues := queues[a := q[1..]];
        workers := workers[w := Worker(a, Exited)];
        return Stopped;
      }
      out := TakeJob(w);
    }

    /** Dequeue when the head of the open topic queue is a job. */
    method TakeJob(w: nat) returns (out: DequeueResult)
      requires Valid() && w < |workers| && workers[w].state.Idle? && !closed
      requires |QueueOf(Model(), workers[w].alias)| > 0 && QueueOf(Model(), workers[w].alias)[0].Item?
      modifies this
      ensures (Model(), out) == DequeueSpec(old(Model()), w)
      ensures reservations == old(reservations)
      ensures Valid()
    {
      DequeuePreserves(Model(), reservations, w);
      var a := workers[w].alias;
      var q := queues[a];
      queues := queues[a := q[1..]];
      var job := jobs[q[0].ref];
      if job.canceled {
        registry := registry - {job.messageId};
        return SkippedCanceled(q[0].ref);
      }
      workers := workers[w := Worker(a, Holding(q[0].ref))];
      return Took(q[0].ref);
    }

    /** The worker holds a permit of the global semaphore; a job canceled meanwhile is
        dropped (the corrected start). */
    method Start(w: nat) returns (started: bool)
      requires Valid() && w < |workers| && workers[w].state.Holding?
      requires RunningCount(Model()) < maxWorkers
      modifies this
      ensures (Model(), started) == StartCheckedSpec(old(Model()), w)
      ensures reservations == old(reservations)
      ensures Valid()
    {
      if !Waiting(jobs[workers[w].state.ref]) {
        DropHeldJob(w);
        started := false;
      } else {
        BeginRunJob(w);
        started := true;
      }
      StartCheckedPreserves(old(Model()), reservations, w);
    }

    method DropHeldJob(w: nat)
      requires WorkerRefsOk(Model()) && w < |workers| && workers[w].state.Holding?
      modifies this
      ensures Model() == DropHeld(old(Model()), w) && reservations == old(reservations)
    {
      var job := jobs[workers[w].state.ref];
      registry := registry - {job.messageId};
      workers := workers[w := Worker(workers[w].alias, Idle)];
    }

    /** Inside `async with self._global_sema`, before the processor is called. */
    method BeginRunJob(w: nat)
      requires WorkerRefsOk(Model()) && w < |workers| && workers[w].state.Holding?
      modifies this
      ensures Model() == BeginRun(old(Model()), w) && reservations == old(reservations)
    {
      var a := workers[w].alias;
      var r := workers[w].state.ref;
      var job := jobs[r];
      if job.userId != 0 {
        DecPending(job.userId);
      }
      activeGlobal := activeGlobal + 1;
      activePerTopic := activePerTopic[a := Get0(activePerTopic, a) + 1];
      jobs := jobs[r := job.(started := true)];
      workers := workers[w := Worker(a, Running(r))];
    }

    /** The processor has returned or raised. */
    method Finish(w: nat)
      requires Valid() && w < |workers| && workers[w].state.Running?
      modifies this
      ensures Model() == FinishSpec(old(Model()), w)
      ensures reservations == old(reservations)
      ensures Valid()
    {
      var a := workers[w].alias;
      var job := jobs[workers[w].state.ref];
      var atp := if a in activePerTopic then activePerTopic[a] else 1;
      activeGlobal, activePerTopic, registry, workers :=
        if activeGlobal - 1 < 0 then 0 else activeGlobal - 1,
        activePerTopic[a := if atp - 1 < 0 then 0 else atp - 1],
        registry - {job.messageId},
        workers[w := Worker(a, Idle)];
      FinishPreserves(old(Model()), reservations, w);
    }

    /** shutdown, first part: one pill per worker of each queue's pool. */
    method Close()
      requires Valid()
      modifies this
      ensures Model() == CloseSpec(old(Model()))
      ensures reservations == old(reservations)
      ensures Valid()
    {
      closed := true;
      PutPills();
      ClosePreserves(old(Model()), reservations);
    }

    method PutPills()
      modifies this
      ensures Model() == old(Model()).(queues := map a | a in old(queues) :: old(queues)[a] + Pills(PillCount(old(Model()), a)))
      ensures reservations == old(reservations)
    {
      queues := WithPills(Model());
    }

    /** The queues after the loop of shutdown over `self._queues.items()`. */
    static method WithPills(s0: QState) returns (nq: map<string, seq<QItem>>)
      ensures nq == map a | a in s0.queues :: s0.queues[a] + Pills(PillCount(s0, a))
    {
      var keys := s0.queues.Keys;
      nq := s0.queues;
      while keys != {}
        invariant keys <= s0.queues.Keys && nq.Keys == s0.queues.Keys
        invariant forall a :: a in s0.queues ==>
          nq[a] == if a in keys then s0.queues[a] else s0.queues[a] + Pills(PillCount(s0, a))
        decreases keys
      {
        var a :| a in keys;
        var size := PoolSize(s0, a);
        var n := if size > 0 then size else 1;
        var q := AppendPills(s0.queues[a], n);
        nq := nq[a := q];
        keys := keys - {a};
      }
    }

    /** `for _ in range(n): q.put_nowait(None)` */
    static method AppendPills(q0: seq<QItem>, n: nat) returns (q: seq<QItem>)
      ensures q == q0 + Pills(n)
    {
      q := q0;
      var k := 0;
      while k < n
        invariant 0 <= k <= n && q == q0 + Pills(k)
      {
        assert Pills(k + 1) == Pills(k) + [Pill];
        q := q + [Pill];
        k := k + 1;
      }
    }

    /** shutdown, second part: every worker has stopped. */
    method ClearAfterWorkersStopped()
      requires Valid() && closed && AllExited(Model())
      modifies this
      ensures Model() == ClearSpec(old(Model()))
      ensures reservations == map[]
      ensures Valid()
    {
      ClearPreserves(Model(), reservations);
      queues := map[];
      workers := [];
      registry := map[];
      pending := map[];
      jobs := [];
      reservations := map[];
    }
  }
}
