/**
 * The state of the job scheduler (src/job-scheduler.ts) as a value, and each of its operations as a
 * function from state to state. `JobScheduler` runs the same operations on fields; `SchedulerRuns`
 * proves what every run of them keeps.
 */
module SchedulerState {
  import opened Wrappers
  import opened Seqs
  import opened Sorting

  type Id = string

  datatype Status = Queued | Running | Completed | Failed

  /** The `soyuz` part of a job: whether its start has been authorized, and is to be checked again. */
  datatype Gate = Gate(startAuthorized: bool, startNeedsCanonicalRecheck: bool, cancellationRequested: bool)

  /** `arrived` numbers the jobs in the order in which they first entered the queue of this process. */
  datatype Job = Job(
    soyuz: Option<Gate>, webhook: bool, status: Status, failureClass: Option<string>, exitCode: Option<int>,
    finalized: bool, createdAt: int, startedAt: Option<int>, completedAt: Option<int>, arrived: nat)

  datatype WebhookEvent = JobCancelled | JobCompleted | JobFailed

  datatype Notice = Notice(id: Id, event: WebhookEvent)

  /**
   * `jobs` is the order of the keys of the source's `jobs` map and `heap` the job objects, which live
   * on when the map drops them. `awaiting` and `failing` are the jobs whose `executeJob` stands at its
   * await, or has thrown. The last eight fields are history: nothing but the proofs reads them.
   */
  datatype Scheduler = Scheduler(
    maxConcurrentRuns: nat, jobIndexMaxEntries: nat, isShuttingDown: bool,
    heap: map<Id, Job>, jobs: seq<Id>, queue: seq<Id>, running: seq<Id>,
    awaiting: set<Id>, failing: set<Id>, processes: set<Id>,
    successes: nat, failures: nat, webhooks: seq<Notice>,
    begun: seq<Id>, spawned: seq<Id>, completed: seq<Id>, withdrawn: set<Id>, aborted: set<Id>,
    restored: set<Id>, arrivals: nat)

  /** The clock, and the jobs whose launch throws, as an operation finds them. */
  datatype Env = Env(now: int, broken: set<Id>)

  datatype Updates = Updates(status: Status, exitCode: int, failureClass: Option<string>)

  // ---------------------------------------------------------------- the terminal index

  predicate Terminal(job: Job) { job.status.Completed? || job.status.Failed? }

  function TerminalRecency(job: Job): int {
    job.completedAt.GetOr(job.startedAt.GetOr(job.createdAt))
  }

  function Recency(heap: map<Id, Job>, id: Id): int { if id in heap then TerminalRecency(heap[id]) else 0 }

  function Created(heap: map<Id, Job>, id: Id): int { if id in heap then heap[id].createdAt else 0 }

  function TerminalIds(heap: map<Id, Job>, jobs: seq<Id>): seq<Id> {
    Filter(jobs, (id: Id) => id in heap && Terminal(heap[id]))
  }

  /** `compareTerminalJobsByRecency`: newest first, then latest created; sorting by the second key first. */
  function NewestFirst(heap: map<Id, Job>, ids: seq<Id>): seq<Id> {
    StableSort(StableSort(ids, (id: Id) => -Created(heap, id)), (id: Id) => -Recency(heap, id))
  }

  /** `pruneTerminalJobsIndex`. */
  function Prune(s: Scheduler): Scheduler {
    var terminal := TerminalIds(s.heap, s.jobs);
    if |terminal| <= s.jobIndexMaxEntries then s
    else
      var retained := NewestFirst(s.heap, terminal)[..s.jobIndexMaxEntries];
      s.(jobs := Filter(s.jobs, (id: Id) => id in retained || id !in terminal))
  }

  // ---------------------------------------------------------------- starting jobs

  predicate Runnable(job: Job) {
    job.soyuz.None? || (job.soyuz.value.startAuthorized && !job.soyuz.value.startNeedsCanonicalRecheck)
  }

  /** `queue.findIndex(...)`, with the length of the queue for "none". */
  function FirstRunnable(heap: map<Id, Job>, queue: seq<Id>): (k: nat)
    ensures k <= |queue|
    ensures k < |queue| ==> queue[k] in heap && Runnable(heap[queue[k]])
    ensures forall i :: 0 <= i < k ==> !(queue[i] in heap && Runnable(heap[queue[i]]))
  {
    if queue == [] || (queue[0] in heap && Runnable(heap[queue[0]])) then 0
    else
      var k := FirstRunnable(heap, queue[1..]);
      assert forall i :: 1 <= i < k + 1 ==> queue[i] == queue[1..][i - 1];
      k + 1
  }

  function Append(ids: seq<Id>, id: Id): seq<Id> { if id in ids then ids else ids + [id] }

  function Without(ids: seq<Id>, id: Id): seq<Id> { Filter(ids, (x: Id) => x != id) }

  /** The part of `executeJob` after its await: spawn the worker, or throw on the way. */
  function Launch(s: Scheduler, id: Id, env: Env): Scheduler {
    if id in env.broken then s.(failing := s.failing + {id})
    else s.(processes := s.processes + {id}, spawned := s.spawned + [id])
  }

  /** `executeJob`, up to its await for a Soyuz job and to its end for a local one. */
  function Execute(s: Scheduler, id: Id, env: Env): Scheduler
    requires id in s.heap
  {
    var job := s.heap[id].(status := Running, startedAt := Some(env.now));
    var started := s.(heap := s.heap[id := job], running := Append(s.running, id), begun := s.begun + [id]);
    if job.soyuz.Some? then started.(awaiting := started.awaiting + {id}) else Launch(started, id, env)
  }

  /** One turn of the loop in `processQueue`: take the queue's entry `k` out and execute it. */
  function Start(s: Scheduler, k: nat, env: Env): Scheduler
    requires k < |s.queue| && s.queue[k] in s.heap
  {
    Execute(s.(queue := s.queue[..k] + s.queue[k + 1..]), s.queue[k], env)
  }

  function ProcessQueue(s: Scheduler, env: Env): Scheduler
    decreases |s.queue|
  {
    if s.isShuttingDown || s.queue == [] || |s.running| >= s.maxConcurrentRuns then s
    else
      var k := FirstRunnable(s.heap, s.queue);
      if k == |s.queue| then s else ProcessQueue(Start(s, k, env), env)
  }

  // ---------------------------------------------------------------- finishing jobs

  /** The event that `emitTerminalWebhook` picks for a finished job. */
  function TerminalEvent(job: Job): WebhookEvent {
    if job.failureClass == Some("cancelled") then JobCancelled
    else if job.status.Completed? then JobCompleted else JobFailed
  }

  function EmitTerminalWebhook(s: Scheduler, id: Id): Scheduler
    requires id in s.heap
  {
    if s.heap[id].webhook then s.(webhooks := s.webhooks + [Notice(id, TerminalEvent(s.heap[id]))]) else s
  }

  /** `completeJob` up to the pruning of the index. */
  function Closed(s: Scheduler, id: Id, now: int): Scheduler
    requires id in s.heap
  {
    var job := s.heap[id];
    s.(heap := s.heap[id := job.(finalized := true, completedAt := Some(job.completedAt.GetOr(now)))],
       successes := s.successes + (if job.status.Completed? then 1 else 0),
       failures := s.failures + (if job.status.Failed? then 1 else 0),
       running := Without(s.running, id), completed := s.completed + [id])
  }

  function CompleteJob(s: Scheduler, id: Id, env: Env): Scheduler
    requires id in s.heap
  {
    if s.heap[id].finalized then s
    else
      var retired := Prune(Closed(s, id, env.now));
      if s.isShuttingDown then retired else ProcessQueue(retired, env)
  }

  function Update(job: Job, updates: Updates, now: int): Job {
    job.(status := updates.status, exitCode := Some(updates.exitCode), completedAt := Some(now),
         failureClass := if updates.failureClass.Some? then updates.failureClass else job.failureClass)
  }

  function FinalizeJobIfNeeded(s: Scheduler, id: Id, updates: Updates, env: Env): Scheduler
    requires id in s.heap
  {
    if s.heap[id].finalized then s
    else
      var updated := s.(heap := s.heap[id := Update(s.heap[id], updates, env.now)]);
      CompleteJob(EmitTerminalWebhook(updated, id), id, env)
  }

  // ---------------------------------------------------------------- requests

  /** `submitJob` and `submitSoyuzJob`, with an id that no job has had. */
  function Enqueue(s: Scheduler, id: Id, job: Job): Scheduler {
    s.(heap := s.heap[id := job], jobs := s.jobs + [id], queue := s.queue + [id], arrivals := s.arrivals + 1)
  }

  function NewJob(s: Scheduler, soyuz: Option<Gate>, webhook: bool, now: int): Job {
    Job(soyuz, webhook, Queued, None, None, false, now, None, None, s.arrivals)
  }

  function Submit(s: Scheduler, id: Id, webhook: bool, env: Env): Scheduler {
    ProcessQueue(Enqueue(s, id, NewJob(s, None, webhook, env.now)), env)
  }

  function SubmitSoyuz(s: Scheduler, id: Id, env: Env): Scheduler {
    ProcessQueue(Enqueue(s, id, NewJob(s, Some(Gate(false, false, false)), false, env.now)), env)
  }

  predicate IsQueuedSoyuz(s: Scheduler, id: Id) {
    id in s.jobs && id in s.heap && s.heap[id].soyuz.Some? && s.heap[id].status.Queued?
  }

  function WithGate(s: Scheduler, id: Id, gate: Gate): Scheduler
    requires id in s.heap
  {
    s.(heap := s.heap[id := s.heap[id].(soyuz := Some(gate))])
  }

  /** `authorizeSoyuzStart`; `durable` says whether the write of the authorization succeeded. */
  function Authorize(s: Scheduler, id: Id, durable: bool, env: Env): Scheduler {
    if !IsQueuedSoyuz(s, id) then s
    else if Runnable(s.heap[id]) then ProcessQueue(s, env)
    else
      var gate := s.heap[id].soyuz.value.(startAuthorized := true, startNeedsCanonicalRecheck := !durable);
      if !durable then WithGate(s, id, gate)
      else ProcessQueue(WithGate(s, id, gate).(queue := Append(s.queue, id)), env)
  }

  function Hold(s: Scheduler, id: Id): Scheduler {
    if IsQueuedSoyuz(s, id) then s.(queue := Without(s.queue, id)) else s
  }

  function Cancel(s: Scheduler, id: Id, now: int): Scheduler {
    if id !in s.jobs || id !in s.heap || Terminal(s.heap[id]) then s
    else
      var job := s.heap[id].(status := Failed, exitCode := Some(143), failureClass := Some("cancelled"));
      if s.heap[id].status.Queued? then
        var done := job.(completedAt := Some(now), finalized := true);
        s.(queue := Without(s.queue, id), heap := s.heap[id := done], withdrawn := s.withdrawn + {id},
           webhooks := s.webhooks + (if job.webhook then [Notice(id, JobCancelled)] else []))
      else
        s.(heap := s.heap[id := job])
  }

  const EXIT_CODE_SPAWN_FAILED := 127

  const CANCELLED := Updates(Failed, 143, Some("cancelled"))

  /** `cancelSoyuzJob`; `durable` says whether the write of the request succeeded. */
  function CancelSoyuz(s: Scheduler, id: Id, durable: bool, env: Env): Scheduler {
    if id !in s.jobs || id !in s.heap || s.heap[id].soyuz.None? || Terminal(s.heap[id]) then s
    else if s.heap[id].status.Queued? then Cancel(s, id, env.now)
    else if !durable then s
    else
      var asked := WithGate(s, id, s.heap[id].soyuz.value.(cancellationRequested := true));
      if id in s.processes then asked else FinalizeJobIfNeeded(asked, id, CANCELLED, env)
  }

  // ---------------------------------------------------------------- worker events

  /** The end of the await in `executeJob`; `durable` says whether the running state was written. */
  function Persisted(s: Scheduler, id: Id, durable: bool, env: Env): Scheduler {
    if id !in s.awaiting || id !in s.heap then s
    else
      var s := s.(awaiting := s.awaiting - {id});
      if !durable then FinalizeJobIfNeeded(s, id, Updates(Failed, EXIT_CODE_SPAWN_FAILED, Some("local_persistence_failed")), env)
      else if s.heap[id].finalized then s
      else if s.heap[id].soyuz.Some? && s.heap[id].soyuz.value.cancellationRequested then
        FinalizeJobIfNeeded(s, id, CANCELLED, env)
      else Launch(s, id, env)
  }

  /** The handler of a rejected `executeJob`. */
  function LaunchFailed(s: Scheduler, id: Id, env: Env): Scheduler {
    if id !in s.failing || id !in s.heap then s
    else FinalizeJobIfNeeded(s.(failing := s.failing - {id}), id, Updates(Failed, EXIT_CODE_SPAWN_FAILED, Some("scheduler_start_failed")), env)
  }

  /** What `handleProcessExit` makes of an exit; `reported` is the failure class found in the worker's results. */
  function ExitUpdates(job: Job, code: int, timedOut: bool, reported: Option<string>): Updates {
    if job.failureClass == Some("cancelled")
       || (job.soyuz.Some? && job.soyuz.value.cancellationRequested && code != 0) then CANCELLED
    else if timedOut then Updates(Failed, 124, Some("timeout"))
    else if code == 0 then Updates(Completed, 0, None)
    else Updates(Failed, code, reported)
  }

  function Exited(s: Scheduler, id: Id, code: int, timedOut: bool, reported: Option<string>, env: Env): Scheduler {
    if id !in s.spawned || id !in s.heap then s
    else
      var s := s.(processes := s.processes - {id});
      FinalizeJobIfNeeded(s, id, ExitUpdates(s.heap[id], code, timedOut, reported), env)
  }

  function SpawnError(s: Scheduler, id: Id, storage: bool, env: Env): Scheduler {
    if id !in s.spawned || id !in s.heap then s
    else
      var failureClass := if storage then "storage_exhausted" else "spawn_error";
      FinalizeJobIfNeeded(s.(processes := s.processes - {id}), id, Updates(Failed, EXIT_CODE_SPAWN_FAILED, Some(failureClass)), env)
  }

  // ---------------------------------------------------------------- shutdown

  /** One turn of the loop of `shutdown` over the running jobs: no terminal webhook is sent here. */
  function Abort(s: Scheduler, id: Id, env: Env): Scheduler {
    if id !in s.jobs || id !in s.heap || s.heap[id].finalized then s
    else
      var updates := Updates(Failed, 143, Some("shutdown_aborted"));
      CompleteJob(s.(heap := s.heap[id := Update(s.heap[id], updates, env.now)], aborted := s.aborted + {id}), id, env)
  }

  function AbortAll(s: Scheduler, ids: seq<Id>, env: Env): Scheduler {
    if ids == [] then s else Abort(AbortAll(s, ids[..|ids| - 1], env), ids[|ids| - 1], env)
  }

  function Drop(s: Scheduler, id: Id, env: Env): Scheduler {
    if id !in s.heap then s
    else FinalizeJobIfNeeded(s, id, Updates(Failed, 143, Some("shutdown_aborted")), env)
  }

  function DropAll(s: Scheduler, ids: seq<Id>, env: Env): Scheduler {
    if ids == [] then s else Drop(DropAll(s, ids[..|ids| - 1], env), ids[|ids| - 1], env)
  }

  function Shutdown(s: Scheduler, env: Env): Scheduler {
    var stopped := s.(isShuttingDown := true, queue := []);
    DropAll(AbortAll(stopped, s.running, env), s.queue, env)
  }
}
