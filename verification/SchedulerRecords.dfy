/**
 * What each operation of the scheduler writes into the record of its job, field by field, and which webhook
 * it sends. Both are stated by the values themselves, whatever way the operations take to write them.
 * Every other record is left alone, but for those of the jobs that are started.
 */
module SchedulerRecords {
  import opened Wrappers
  import opened Seqs
  import opened SchedulerState
  import opened SchedulerRuns
  import opened SchedulerGates
  import opened SchedulerAwait

  // ---------------------------------------------------------------- everyone else

  /** The record of a job whose worker was started at `now`. */
  function Started(job: Job, now: int): Job { job.(status := Running, startedAt := Some(now)) }

  /** Apart from `but`, the records are those of before; those of the jobs begun in between say so. */
  ghost predicate OthersKept(s: Scheduler, t: Scheduler, but: set<Id>, now: int) {
    && (forall x <- s.heap :: x !in but ==>
          x in t.heap && t.heap[x] == if x in t.begun && x !in s.begun then Started(s.heap[x], now) else s.heap[x])
    && (forall x <- t.heap :: x in s.heap || x in but)
    && forall x <- s.begun :: x in t.begun
  }

  lemma OthersCompose(s: Scheduler, u: Scheduler, t: Scheduler, but: set<Id>, now: int)
    requires OthersKept(s, u, but, now) && OthersKept(u, t, {}, now) && forall x <- but :: x in u.heap
    ensures OthersKept(s, t, but, now)
    ensures forall x <- but :: t.heap[x] == if x in t.begun && x !in u.begun then Started(u.heap[x], now) else u.heap[x]
  {
  }

  lemma StartKeepsOthers(s: Scheduler, k: nat, env: Env)
    requires BegunOk(s) && QueuedOk(s) && k < |s.queue|
    ensures s.queue[k] in s.heap && OthersKept(s, Start(s, k, env), {}, env.now)
    ensures Start(s, k, env).begun == s.begun + [s.queue[k]]
  {
    hide Append;
    assert s.queue[k] in s.queue;
  }

  lemma {:induction false} ProcessQueueKeepsOthers(s: Scheduler, env: Env)
    requires Core(s)
    ensures var t := ProcessQueue(s, env);
            OthersKept(s, t, {}, env.now) && forall x <- t.begun :: x in s.begun || x in s.queue
    decreases |s.queue|
  {
    hide OthersKept;
    assert OthersKept(s, s, {}, env.now) by { NothingHappened(s, env.now); }
    if !s.isShuttingDown && s.queue != [] && |s.running| < s.maxConcurrentRuns {
      var k := FirstRunnable(s.heap, s.queue);
      if k < |s.queue| {
        var u := Start(s, k, env);
        StartKeepsOthers(s, k, env) by { CoreBegun(s); }
        StartKeepsCore(s, k, env);
        ShorterQueue(s, k, env);
        QueueAfterStart(s, k, env);
        hide Core, Start, FirstRunnable;
        ProcessQueueKeepsOthers(u, env);
        OthersCompose(s, u, ProcessQueue(u, env), {}, env.now);
        assert s.queue[k] in s.queue;
      }
    }
  }

  lemma NothingHappened(s: Scheduler, now: int)
    ensures OthersKept(s, s, {}, now)
  {
  }

  lemma CoreBegun(s: Scheduler)
    requires Core(s)
    ensures BegunOk(s) && QueuedOk(s)
  {
  }

  lemma QueueAfterStart(s: Scheduler, k: nat, env: Env)
    requires k < |s.queue| && s.queue[k] in s.heap
    ensures forall x <- Start(s, k, env).queue :: x in s.queue
  {
    assert Start(s, k, env).queue == s.queue[..k] + s.queue[k + 1..];
  }

  // ---------------------------------------------------------------- the end of a job

  /** The job has ended: its record is `was` with these results, final, its webhook is sent, and it has no place any more. */
  ghost predicate Concluded(s: Scheduler, t: Scheduler, id: Id, was: Job, status: Status, exitCode: int,
                            failureClass: Option<string>, event: WebhookEvent, now: int)
  {
    && id in t.heap
    && t.heap[id] == was.(status := status, exitCode := Some(exitCode), failureClass := failureClass,
                          completedAt := Some(now), finalized := true)
    && t.webhooks == s.webhooks + (if was.webhook then [Notice(id, event)] else [])
    && id !in t.running && id !in t.queue
    && OthersKept(s, t, {id}, now)
  }

  /** The event that goes with an outcome. */
  predicate Announces(event: WebhookEvent, status: Status, failureClass: Option<string>) {
    && (event.JobCancelled? <==> failureClass == Some("cancelled"))
    && (event.JobCompleted? <==> status.Completed? && failureClass != Some("cancelled"))
    && (event.JobFailed? <==> status.Failed? && failureClass != Some("cancelled"))
  }

  /** Every notice in every reachable state announces the outcome in the record of its job. */
  lemma NoticesTellOutcome(s: Scheduler, n: Notice)
    requires Inv(s) && n in s.webhooks
    ensures n.id in s.heap && s.heap[n.id].finalized && Announces(n.event, s.heap[n.id].status, s.heap[n.id].failureClass)
  {
  }

  lemma SameEvent(a: Job, b: Job)
    requires a.status == b.status && a.failureClass == b.failureClass
    ensures TerminalEvent(a) == TerminalEvent(b)
  {
  }

  function Result(job: Job, updates: Updates, now: int): Job {
    job.(status := updates.status, exitCode := Some(updates.exitCode), completedAt := Some(now), finalized := true,
         failureClass := if updates.failureClass.Some? then updates.failureClass else job.failureClass)
  }

  lemma ClosedRecord(s: Scheduler, id: Id, updates: Updates, env: Env)
    requires id in s.heap && !s.heap[id].finalized
    ensures id in Noted(s, id, updates, env).heap
    ensures var closed := Closed(Noted(s, id, updates, env), id, env.now);
            var result := Result(s.heap[id], updates, env.now);
            && closed.heap == s.heap[id := result] && closed.begun == s.begun && closed.queue == s.queue
            && closed.webhooks == s.webhooks + (if s.heap[id].webhook then [Notice(id, TerminalEvent(result))] else [])
  {
    hide TerminalEvent, Without;
    var updated := Update(s.heap[id], updates, env.now);
    var result := Result(s.heap[id], updates, env.now);
    SameEvent(updated, result);
    assert s.heap[id := updated][id := result] == s.heap[id := result];
  }

  lemma ProcessQueueSendsNothing(s: Scheduler, env: Env)
    ensures ProcessQueue(s, env).webhooks == s.webhooks && ProcessQueue(s, env).jobs == s.jobs
    ensures forall x <- ProcessQueue(s, env).queue :: x in s.queue
    decreases |s.queue|
  {
    if !s.isShuttingDown && s.queue != [] && |s.running| < s.maxConcurrentRuns {
      var k := FirstRunnable(s.heap, s.queue);
      if k < |s.queue| {
        ShorterQueue(s, k, env);
        QueueAfterStart(s, k, env);
        assert Start(s, k, env).webhooks == s.webhooks && Start(s, k, env).jobs == s.jobs;
        hide Start, FirstRunnable;
        ProcessQueueSendsNothing(Start(s, k, env), env);
      }
    }
  }

  lemma RetiredKeepsOthers(s: Scheduler, closed: Scheduler, id: Id, result: Job, now: int)
    requires closed.heap == s.heap[id := result] && closed.begun == s.begun
    ensures OthersKept(s, Prune(closed), {id}, now) && Prune(closed).heap == closed.heap && Prune(closed).begun == s.begun
    ensures Prune(closed).webhooks == closed.webhooks && Prune(closed).queue == closed.queue
  {
    hide Prune;
    PruneDropsTerminal(closed);
  }

  lemma RetiredKeepsCore(s: Scheduler, id: Id, updates: Updates, env: Env)
    requires Inv(s) && id in s.heap && !s.heap[id].finalized && id !in s.queue
    requires updates.status.Completed? || updates.status.Failed?
    ensures id in Noted(s, id, updates, env).heap
    ensures var retired := Prune(Closed(Noted(s, id, updates, env), id, env.now));
            && Core(retired)
            && FinalizeJobIfNeeded(s, id, updates, env) == if s.isShuttingDown then retired else ProcessQueue(retired, env)
  {
    hide Inv, Closed, Noted, FinalizeJobIfNeeded, Core;
    NotedCloses(s, id, updates, env);
    CloseKeepsCore(s, Closed(Noted(s, id, updates, env), id, env.now), id, true) by { CoreOf(s); }
  }

  lemma FinalizeConcludes(s: Scheduler, id: Id, updates: Updates, event: WebhookEvent, env: Env)
    requires Inv(s) && id in s.heap && !s.heap[id].finalized && id !in s.queue
    requires updates.status.Completed? || updates.status.Failed?
    requires Announces(event, updates.status, if updates.failureClass.Some? then updates.failureClass else s.heap[id].failureClass)
    ensures Concluded(s, FinalizeJobIfNeeded(s, id, updates, env), id, s.heap[id], updates.status, updates.exitCode,
                      if updates.failureClass.Some? then updates.failureClass else s.heap[id].failureClass, event, env.now)
  {
    var result := Result(s.heap[id], updates, env.now);
    var t := FinalizeJobIfNeeded(s, id, updates, env);
    EventOf(result, event);
    hide Inv, Closed, Noted, FinalizeJobIfNeeded, Core, Prune, TerminalEvent, ProcessQueue, OthersKept;
    ClosedRecord(s, id, updates, env);
    var closed := Closed(Noted(s, id, updates, env), id, env.now);
    var retired := Prune(closed);
    RetiredKeepsOthers(s, closed, id, result, env.now);
    RetiredKeepsCore(s, id, updates, env);
    FinalizeKeeps(s, id, updates, env);
    FinalStays(s, id, updates, env);
    FinalPlaces(t, id);
    if !s.isShuttingDown {
      ProcessQueueKeepsOthers(retired, env);
      ProcessQueueSendsNothing(retired, env);
      OthersCompose(s, retired, t, {id}, env.now);
    }
    assert t.heap[id] == result;
  }

  lemma EventOf(job: Job, event: WebhookEvent)
    requires Announces(event, job.status, job.failureClass) && Terminal(job)
    ensures TerminalEvent(job) == event
  {
  }

  lemma FinalStays(s: Scheduler, id: Id, updates: Updates, env: Env)
    requires Inv(s) && id in s.heap && !s.heap[id].finalized && id !in s.queue
    requires updates.status.Completed? || updates.status.Failed?
    ensures var t := FinalizeJobIfNeeded(s, id, updates, env); id in t.heap && t.heap[id].finalized
  {
    hide Inv, FinalizeJobIfNeeded;
    FinalRecord(s, id, updates, env);
  }

  lemma FinalPlaces(s: Scheduler, id: Id)
    requires Inv(s) && id in s.heap && s.heap[id].finalized
    ensures id !in s.running && id !in s.queue
  {
  }

  /** Forgetting a process, a write or a failed launch first makes no difference. */
  lemma ConcludedAfterForgetting(s: Scheduler, u: Scheduler, t: Scheduler, id: Id, was: Job, status: Status, exitCode: int,
                                 failureClass: Option<string>, event: WebhookEvent, now: int)
    requires Forgets(s, u) && Concluded(u, t, id, was, status, exitCode, failureClass, event, now)
    ensures Concluded(s, t, id, was, status, exitCode, failureClass, event, now)
  {
  }

  lemma FinalizeAfterForgetting(s: Scheduler, u: Scheduler, id: Id, updates: Updates, event: WebhookEvent, env: Env)
    requires Inv(s) && Forgets(s, u) && id in s.begun && id in s.heap && !s.heap[id].finalized
    requires updates.status.Completed? || updates.status.Failed?
    requires Announces(event, updates.status, if updates.failureClass.Some? then updates.failureClass else s.heap[id].failureClass)
    ensures id in u.heap
    ensures Concluded(s, FinalizeJobIfNeeded(u, id, updates, env), id, s.heap[id], updates.status, updates.exitCode,
                      if updates.failureClass.Some? then updates.failureClass else s.heap[id].failureClass, event, env.now)
  {
    hide Inv, FinalizeJobIfNeeded, Concluded;
    ForgetKeeps(s, u);
    BegunNotQueued(u, id);
    FinalizeConcludes(u, id, updates, event, env);
    ConcludedAfterForgetting(s, u, FinalizeJobIfNeeded(u, id, updates, env), id, s.heap[id], updates.status, updates.exitCode,
      if updates.failureClass.Some? then updates.failureClass else s.heap[id].failureClass, event, env.now);
  }

  // ---------------------------------------------------------------- worker events

  /**
   * How a job ends when its worker exits: cancelled if `cancelJob` marked it, or if a Soyuz cancellation was
   * asked for and the worker did not exit with 0; else timed out; else completed with 0, announced as such; else
   * failed with the code of the worker and the failure class found in its results.
   */
  ghost predicate EndedByExit(s: Scheduler, t: Scheduler, id: Id, was: Job, code: int, timedOut: bool,
                              reported: Option<string>, now: int)
  {
    if was.failureClass == Some("cancelled") || (was.soyuz.Some? && was.soyuz.value.cancellationRequested && code != 0) then
      Concluded(s, t, id, was, Failed, 143, Some("cancelled"), JobCancelled, now)
    else if timedOut then
      Concluded(s, t, id, was, Failed, 124, Some("timeout"), JobFailed, now)
    else if code == 0 then
      Concluded(s, t, id, was, Completed, 0, was.failureClass, JobCompleted, now)
    else if reported.Some? then
      Concluded(s, t, id, was, Failed, code, reported, if reported.value == "cancelled" then JobCancelled else JobFailed, now)
    else
      Concluded(s, t, id, was, Failed, code, was.failureClass, JobFailed, now)
  }

  lemma ExitConcludes(s: Scheduler, id: Id, code: int, timedOut: bool, reported: Option<string>, env: Env)
    requires Inv(s) && id in s.spawned && id in s.heap && !s.heap[id].finalized
    ensures EndedByExit(s, Exited(s, id, code, timedOut, reported, env), id, s.heap[id], code, timedOut, reported, env.now)
  {
    var u := s.(processes := s.processes - {id});
    assert id in s.begun;
    hide Inv, FinalizeJobIfNeeded, Concluded;
    var was, updates := s.heap[id], ExitUpdates(s.heap[id], code, timedOut, reported);
    var failureClass := if updates.failureClass.Some? then updates.failureClass else was.failureClass;
    var event := if failureClass == Some("cancelled") then JobCancelled
                 else if updates.status.Completed? then JobCompleted else JobFailed;
    FinalizeAfterForgetting(s, u, id, updates, event, env);
  }

  /** A worker that could not be started ends its job with 127. */
  ghost predicate EndedUnstarted(s: Scheduler, t: Scheduler, id: Id, was: Job, failureClass: string, now: int) {
    Concluded(s, t, id, was, Failed, 127, Some(failureClass), JobFailed, now)
  }

  lemma SpawnErrorConcludes(s: Scheduler, id: Id, storage: bool, env: Env)
    requires Inv(s) && id in s.spawned && id in s.heap && !s.heap[id].finalized
    ensures EndedUnstarted(s, SpawnError(s, id, storage, env), id, s.heap[id],
                           if storage then "storage_exhausted" else "spawn_error", env.now)
  {
    assert id in s.begun;
    hide Inv, FinalizeJobIfNeeded, Concluded;
    var failureClass := if storage then "storage_exhausted" else "spawn_error";
    FinalizeAfterForgetting(s, s.(processes := s.processes - {id}), id, Updates(Failed, EXIT_CODE_SPAWN_FAILED, Some(failureClass)),
                            JobFailed, env);
  }

  lemma LaunchFailedConcludes(s: Scheduler, id: Id, env: Env)
    requires Inv(s) && id in s.failing && id in s.heap && !s.heap[id].finalized
    ensures EndedUnstarted(s, LaunchFailed(s, id, env), id, s.heap[id], "scheduler_start_failed", env.now)
  {
    assert id in s.begun;
    hide Inv, FinalizeJobIfNeeded, Concluded;
    FinalizeAfterForgetting(s, s.(failing := s.failing - {id}), id,
                            Updates(Failed, EXIT_CODE_SPAWN_FAILED, Some("scheduler_start_failed")), JobFailed, env);
  }

  /**
   * The end of the await: without a durable record the job is over with 127; a requested Soyuz cancellation
   * ends it with 143; else nothing but the launch happens, and to a job that is over nothing.
   */
  ghost predicate EndedAwait(s: Scheduler, t: Scheduler, id: Id, durable: bool, env: Env) {
    id in s.heap
    && var was := s.heap[id];
    var waited := s.(awaiting := s.awaiting - {id});
    if was.finalized then t == waited
    else if !durable then EndedUnstarted(s, t, id, was, "local_persistence_failed", env.now)
    else if was.soyuz.Some? && was.soyuz.value.cancellationRequested then
      Concluded(s, t, id, was, Failed, 143, Some("cancelled"), JobCancelled, env.now)
    else if id in env.broken then t == waited.(failing := s.failing + {id})
    else t == waited.(processes := s.processes + {id}, spawned := s.spawned + [id])
  }

  lemma PersistedConcludes(s: Scheduler, id: Id, durable: bool, env: Env)
    requires Inv(s) && id in s.awaiting
    ensures EndedAwait(s, Persisted(s, id, durable, env), id, durable, env)
  {
    assert id in s.begun && id in s.heap;
    var waited := s.(awaiting := s.awaiting - {id});
    if s.heap[id].finalized {
      FinalizedIsLeft(waited, id, Updates(Failed, EXIT_CODE_SPAWN_FAILED, Some("local_persistence_failed")), env);
      hide Inv, FinalizeJobIfNeeded;
    } else {
      hide Inv, FinalizeJobIfNeeded, Concluded;
      FinalizeAfterForgetting(s, waited, id, Updates(Failed, EXIT_CODE_SPAWN_FAILED, Some("local_persistence_failed")), JobFailed, env);
      FinalizeAfterForgetting(s, waited, id, CANCELLED, JobCancelled, env);
    }
  }

  lemma FinalizedIsLeft(s: Scheduler, id: Id, updates: Updates, env: Env)
    requires id in s.heap && s.heap[id].finalized
    ensures FinalizeJobIfNeeded(s, id, updates, env) == s
  {
  }

  // ---------------------------------------------------------------- requests

  /** A cancelled queued job is over and announced; a running one is marked with 143, and nothing else changes. */
  lemma CancelRecords(s: Scheduler, id: Id, now: int)
    requires Inv(s) && id in s.jobs && id in s.heap && !Terminal(s.heap[id])
    ensures var (was, t) := (s.heap[id], Cancel(s, id, now));
            if was.status.Queued? then Concluded(s, t, id, was, Failed, 143, Some("cancelled"), JobCancelled, now)
            else t == s.(heap := s.heap[id := was.(status := Failed, exitCode := Some(143), failureClass := Some("cancelled"))])
  {
    if s.heap[id].status.Queued? {
      assert id !in s.running;
      assert id !in s.begun;
    }
  }

  /** The record of a Soyuz job whose cancellation was asked for. */
  function Asked(job: Job): Job
    requires job.soyuz.Some?
  {
    job.(soyuz := Some(job.soyuz.value.(cancellationRequested := true)))
  }

  /** A Soyuz job: the request is recorded in its gate, and without a process the job is over at once. */
  lemma CancelSoyuzRecords(s: Scheduler, id: Id, env: Env)
    requires Inv(s) && id in s.jobs && id in s.heap && !Terminal(s.heap[id]) && s.heap[id].soyuz.Some?
    requires !s.heap[id].status.Queued?
    ensures var t := CancelSoyuz(s, id, true, env);
            if id in s.processes then t == s.(heap := s.heap[id := Asked(s.heap[id])])
            else Concluded(s, t, id, Asked(s.heap[id]), Failed, 143, Some("cancelled"), JobCancelled, env.now)
  {
    QueuedNotFinalized(s, id);
    var asked := s.(heap := s.heap[id := s.heap[id].(soyuz := Some(s.heap[id].soyuz.value.(cancellationRequested := true)))]);
    if id !in s.processes {
      assert Touches(s, asked, id);
      hide Inv, FinalizeJobIfNeeded, Concluded, Touches;
      RewriteKeeps(s, asked, id, asked.heap[id]);
      RunningNotQueued(asked, id);
      FinalizeConcludes(asked, id, CANCELLED, JobCancelled, env);
      ConcludedAfterMark(s, asked, CancelSoyuz(s, id, true, env), id, asked.heap[id], env.now);
    }
  }

  lemma ConcludedAfterMark(s: Scheduler, u: Scheduler, t: Scheduler, id: Id, was: Job, now: int)
    requires Concluded(u, t, id, was, Failed, 143, Some("cancelled"), JobCancelled, now)
    requires id in s.heap && u == s.(heap := s.heap[id := was])
    ensures Concluded(s, t, id, was, Failed, 143, Some("cancelled"), JobCancelled, now)
  {
  }

  /** The record of a new job: queued, or started at once. */
  ghost predicate Submitted(s: Scheduler, t: Scheduler, id: Id, soyuz: Option<Gate>, webhook: bool, now: int) {
    && id in t.heap && id in t.jobs
    && var job := t.heap[id];
    && job.soyuz == soyuz && job.webhook == webhook && job.createdAt == now && job.arrived == s.arrivals
    && job.failureClass == None && job.exitCode == None && job.completedAt == None && !job.finalized
    && (if id in t.begun then job.status == Running && job.startedAt == Some(now)
        else job.status == Queued && job.startedAt == None && id in t.queue)
    && t.webhooks == s.webhooks && OthersKept(s, t, {id}, now)
  }

  lemma EnqueuedFacts(s: Scheduler, id: Id, job: Job, now: int)
    requires Inv(s) && id !in s.heap && !job.finalized && job.status.Queued? && job.arrived == s.arrivals
    ensures var u := Enqueue(s, id, job);
            && Core(u) && OthersKept(s, u, {id}, now) && u.begun == s.begun && u.webhooks == s.webhooks
            && id in u.heap && u.heap[id] == job && id in u.begun + u.queue && id in u.jobs && id !in s.begun
  {
    assert id !in s.begun;
    CoreOf(s);
    assert Evicted(s);
    hide Core, Inv, Evicted;
    AddKeepsCore(s, id, job);
  }

  lemma EnqueuedIsSubmitted(s: Scheduler, id: Id, soyuz: Option<Gate>, webhook: bool, env: Env)
    requires Inv(s) && id !in s.heap
    ensures Submitted(s, ProcessQueue(Enqueue(s, id, NewJob(s, soyuz, webhook, env.now)), env), id, soyuz, webhook, env.now)
  {
    var job := NewJob(s, soyuz, webhook, env.now);
    var u := Enqueue(s, id, job);
    var t := ProcessQueue(u, env);
    hide Inv, Core, ProcessQueue, OthersKept, Enqueue;
    EnqueuedFacts(s, id, job, env.now);
    ProcessQueueKeepsOthers(u, env);
    ProcessQueueSendsNothing(u, env);
    ProcessQueueSamePeople(u, env);
    OthersCompose(s, u, t, {id}, env.now);
    assert t.heap[id] == if id in t.begun then Started(job, env.now) else job;
    assert id in t.begun + t.queue;
  }

  /** The gate is open, or still to be checked if its write failed; nothing else of the job has changed, but that it may have started. */
  ghost predicate Authorized(s: Scheduler, t: Scheduler, id: Id, durable: bool, now: int) {
    && id in s.heap && id in t.heap && s.heap[id].soyuz.Some?
    && var granted := s.heap[id].(soyuz := Some(Gate(true, !durable, s.heap[id].soyuz.value.cancellationRequested)));
    && t.heap[id] == (if id in t.begun then Started(granted, now) else granted)
    && t.webhooks == s.webhooks && OthersKept(s, t, {id}, now)
    && (!durable ==> id !in t.begun)
  }

  lemma AuthorizeRecords(s: Scheduler, id: Id, durable: bool, env: Env)
    requires Inv(s) && IsQueuedSoyuz(s, id) && !Runnable(s.heap[id])
    ensures Authorized(s, Authorize(s, id, durable, env), id, durable, env.now)
  {
    QueuedNotFinalized(s, id);
    assert id !in s.begun;
    var gate := Gate(true, !durable, s.heap[id].soyuz.value.cancellationRequested);
    var u := WithGate(s, id, gate).(queue := if durable then Append(s.queue, id) else s.queue);
    assert OthersKept(s, u, {id}, env.now);
    GateKeeps(s, id, gate, u.queue);
    if durable {
      assert Authorize(s, id, durable, env) == ProcessQueue(u, env);
      hide Inv, Core, ProcessQueue, OthersKept, Authorize;
      ProcessQueueKeepsOthers(u, env);
      ProcessQueueSendsNothing(u, env);
      OthersCompose(s, u, ProcessQueue(u, env), {id}, env.now);
    }
  }

  // ---------------------------------------------------------------- shutdown

  /** The record of a job that a shutdown ended. */
  function ShutDown(job: Job, now: int): Job {
    job.(status := Failed, exitCode := Some(143), failureClass := Some("shutdown_aborted"), completedAt := Some(now), finalized := true)
  }

  /** The notices for the jobs dropped from the queue, in its order: each of them failed. */
  function DropNotices(heap: map<Id, Job>, ids: seq<Id>): seq<Notice> {
    if ids == [] then []
    else
      var last := ids[|ids| - 1];
      DropNotices(heap, ids[..|ids| - 1]) + (if last in heap && heap[last].webhook then [Notice(last, JobFailed)] else [])
  }

  lemma AbortRecord(s: Scheduler, id: Id, env: Env)
    requires s.isShuttingDown
    ensures var t := Abort(s, id, env);
            && t.isShuttingDown && t.webhooks == s.webhooks && t.heap.Keys == s.heap.Keys
            && forall x <- s.heap :: t.heap[x] == if x == id && id in s.jobs && !s.heap[id].finalized
                                                  then ShutDown(s.heap[id], env.now) else s.heap[x]
  {
    hide TerminalIds, NewestFirst, Without, ProcessQueue;
  }

  lemma {:induction false} AbortAllRecords(s: Scheduler, ids: seq<Id>, env: Env)
    requires s.isShuttingDown
    ensures var t := AbortAll(s, ids, env);
            && t.isShuttingDown && t.webhooks == s.webhooks && t.heap.Keys == s.heap.Keys
            && forall x <- s.heap :: t.heap[x] == s.heap[x]
                                     || (x in ids && !s.heap[x].finalized && t.heap[x] == ShutDown(s.heap[x], env.now))
    decreases |ids|
  {
    if ids != [] {
      var front, last := ids[..|ids| - 1], ids[|ids| - 1];
      AbortAllRecords(s, front, env);
      AbortRecord(AbortAll(s, front, env), last, env);
      hide Abort;
      assert last in ids && forall x <- front :: x in ids;
    }
  }

  lemma DropRecord(s: Scheduler, id: Id, env: Env)
    requires s.isShuttingDown && id in s.heap && !s.heap[id].finalized
    ensures var t := Drop(s, id, env);
            && t.isShuttingDown && t.heap == s.heap[id := ShutDown(s.heap[id], env.now)]
            && t.webhooks == s.webhooks + (if s.heap[id].webhook then [Notice(id, JobFailed)] else [])
  {
    hide TerminalIds, NewestFirst, Without, ProcessQueue;
    var updated := Update(s.heap[id], Updates(Failed, 143, Some("shutdown_aborted")), env.now);
    assert s.heap[id := updated][id := ShutDown(s.heap[id], env.now)] == s.heap[id := ShutDown(s.heap[id], env.now)];
  }

  lemma {:induction false} DropAllRecords(s: Scheduler, ids: seq<Id>, env: Env)
    requires s.isShuttingDown && Unique(ids) && forall x <- ids :: x in s.heap && !s.heap[x].finalized
    ensures var t := DropAll(s, ids, env);
            && t.isShuttingDown && t.webhooks == s.webhooks + DropNotices(s.heap, ids) && t.heap.Keys == s.heap.Keys
            && forall x <- s.heap :: t.heap[x] == if x in ids then ShutDown(s.heap[x], env.now) else s.heap[x]
    decreases |ids|
  {
    hide Drop, ShutDown;
    if ids != [] {
      var front, last := ids[..|ids| - 1], ids[|ids| - 1];
      LastIsNew(ids);
      var u := DropAll(s, front, env);
      DropAllRecords(s, front, env);
      DropRecord(u, last, env);
      assert u.heap[last] == s.heap[last];
      assert DropNotices(s.heap, ids) == DropNotices(s.heap, front) + (if s.heap[last].webhook then [Notice(last, JobFailed)] else []);
    }
  }

  lemma LastIsNew(ids: seq<Id>)
    requires Unique(ids) && ids != []
    ensures var (front, last) := (ids[..|ids| - 1], ids[|ids| - 1]);
            Unique(front) && last !in front && last in ids && forall x :: x in ids <==> x in front || x == last
  {
    var front, last := ids[..|ids| - 1], ids[|ids| - 1];
    assert ids == front + [last];
    forall i | 0 <= i < |front| ensures front[i] != last { assert front[i] == ids[i]; }
  }

  /**
   * Shutdown, record by record: every queued job has failed with 143 and is announced in the order of the queue;
   * every running job that nobody cancelled has failed with 143 and is not announced; a cancelled one either
   * stays or has; no other record changes.
   */
  ghost predicate AllShutDown(s: Scheduler, t: Scheduler, now: int) {
    && t.heap.Keys == s.heap.Keys
    && (forall x <- s.queue :: x in s.heap && t.heap[x] == ShutDown(s.heap[x], now))
    && (forall x <- s.running :: x in s.heap && (s.heap[x].status.Running? ==> t.heap[x] == ShutDown(s.heap[x], now)))
    && (forall x <- s.running :: x in s.heap && (t.heap[x] == s.heap[x] || t.heap[x] == ShutDown(s.heap[x], now)))
    && (forall x <- s.heap :: x !in s.queue && x !in s.running ==> t.heap[x] == s.heap[x])
    && t.webhooks == s.webhooks + DropNotices(s.heap, s.queue)
  }

  lemma ShutdownRecords(s: Scheduler, env: Env)
    requires Inv(s)
    ensures AllShutDown(s, Shutdown(s, env), env.now)
  {
    var stopped := s.(isShuttingDown := true, queue := []);
    var u := AbortAll(stopped, s.running, env);
    var t := Shutdown(s, env);
    assert forall x <- s.queue :: x in s.heap && !s.heap[x].finalized && x !in s.running;
    assert forall x <- s.running :: x in s.heap && !s.heap[x].finalized;
    assert Unique(s.queue);
    ShutdownKeeps(s, env);
    hide Inv, AbortAll, DropAll;
    AbortAllRecords(stopped, s.running, env);
    DropAllRecords(u, s.queue, env);
    SameNotices(s.heap, u.heap, s.queue);
    forall x <- s.running | s.heap[x].status.Running? ensures t.heap[x] == ShutDown(s.heap[x], env.now) {
      assert t.heap[x].finalized;
    }
  }

  lemma {:induction false} SameNotices(heap: map<Id, Job>, other: map<Id, Job>, ids: seq<Id>)
    requires forall x <- ids :: x in heap && x in other && other[x].webhook == heap[x].webhook
    ensures DropNotices(heap, ids) == DropNotices(other, ids)
  {
    if ids != [] {
      assert forall x <- ids[..|ids| - 1] :: x in ids;
      assert ids[|ids| - 1] in ids;
      SameNotices(heap, other, ids[..|ids| - 1]);
    }
  }

  // ---------------------------------------------------------------- restart

  /** What a restart makes of the loaded records: a queued Soyuz job is to be checked again, and jobs may be started. */
  lemma InitializeRecords(max: nat, maxEntries: nat, heap: map<Id, Job>, jobs: seq<Id>, queue: seq<Id>, env: Env)
    requires Loadable(heap, jobs, queue)
    ensures var t := Initialize(max, maxEntries, heap, jobs, queue, env);
            && t.heap.Keys == heap.Keys && t.webhooks == []
            && forall x <- heap ::
                 var kept := t.heap[x].(arrived := heap[x].arrived);
                 if x in queue && heap[x].soyuz.Some? then
                   x !in t.begun && kept == heap[x].(soyuz := Some(heap[x].soyuz.value.(startNeedsCanonicalRecheck := true)))
                 else if x in t.begun then kept == Started(heap[x], env.now)
                 else kept == heap[x]
  {
    var s := Loaded(max, maxEntries, heap, jobs, queue);
    var rechecked := s.(heap := Recheck(s.heap, queue));
    var pruned := rechecked.(jobs := Prune(s).jobs);
    var t := ProcessQueue(pruned, env);
    PruneDropsTerminal(s);
    LoadedRecord(heap, queue);
    hide Core, Prune, ProcessQueue, Recheck, Renumbered, OthersKept, Loadable;
    LoadedCore(rechecked, heap);
    PrunedAreTerminal(s, rechecked, heap);
    FewerJobsKeepCore(rechecked, pruned.jobs);
    ProcessQueueKeepsOthers(pruned, env);
    ProcessQueueSendsNothing(pruned, env);
    ProcessQueueSamePeople(pruned, env);
    assert Prune(s).(heap := Recheck(s.heap, queue)) == pruned;
    assert Initialize(max, maxEntries, heap, jobs, queue, env) == t;
    InitializeGates(max, maxEntries, heap, jobs, queue, env);
    hide Initialize;
    OthersOfLoaded(pruned, t, env.now);
  }

  /** Only jobs behind an open gate are begun. */
  lemma OthersOfLoaded(s: Scheduler, t: Scheduler, now: int)
    requires OthersKept(s, t, {}, now) && GatesHold(t) && s.begun == []
    ensures t.heap.Keys == s.heap.Keys
    ensures forall x <- s.heap :: t.heap[x] == (if x in t.begun then Started(s.heap[x], now) else s.heap[x])
                                  && (!Runnable(s.heap[x]) ==> x !in t.begun)
  {
  }

  lemma LoadedRecord(heap: map<Id, Job>, queue: seq<Id>)
    ensures var other := Recheck(Renumbered(heap, queue), queue);
            other.Keys == heap.Keys
            && forall x <- heap ::
                 other[x].(arrived := heap[x].arrived)
                 == if x in queue && heap[x].soyuz.Some?
                    then heap[x].(soyuz := Some(heap[x].soyuz.value.(startNeedsCanonicalRecheck := true))) else heap[x]
  {
  }
}
