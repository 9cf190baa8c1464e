/**
 * Two more promises of the scheduler: no Soyuz job starts before its start was authorized, and how a
 * job ends when its worker exits.
 */
module SchedulerGates {
  import opened Wrappers
  import opened Seqs
  import opened SchedulerState
  import opened SchedulerRuns

  /** Every job that has begun is local, or was authorized and needed no further check. */
  ghost predicate GatesHold(s: Scheduler) {
    forall id <- s.begun :: id in s.heap && Runnable(s.heap[id])
  }

  /** The same jobs have begun, and their gates have not moved. */
  ghost predicate GatesStay(s: Scheduler, t: Scheduler) {
    t.begun == s.begun && forall id <- s.begun :: id in s.heap ==> id in t.heap && Runnable(t.heap[id]) == Runnable(s.heap[id])
  }

  lemma {:induction false} ProcessQueueGates(s: Scheduler, env: Env)
    requires GatesHold(s)
    ensures GatesHold(ProcessQueue(s, env))
    decreases |s.queue|
  {
    if !s.isShuttingDown && s.queue != [] && |s.running| < s.maxConcurrentRuns {
      var k := FirstRunnable(s.heap, s.queue);
      if k < |s.queue| {
        StartGates(s, k, env);
        ShorterQueue(s, k, env);
        hide Start, GatesHold, FirstRunnable;
        ProcessQueueGates(Start(s, k, env), env);
      }
    }
  }

  lemma StartGates(s: Scheduler, k: nat, env: Env)
    requires GatesHold(s) && k < |s.queue| && s.queue[k] in s.heap && Runnable(s.heap[s.queue[k]])
    ensures GatesHold(Start(s, k, env))
  {
    hide Append;
    var id := s.queue[k];
    var t := Start(s, k, env);
    assert t.begun == s.begun + [id];
    assert t.heap == s.heap[id := s.heap[id].(status := Running, startedAt := Some(env.now))];
  }

  lemma FinalizeGates(s: Scheduler, id: Id, updates: Updates, env: Env)
    requires GatesHold(s) && id in s.heap
    ensures GatesHold(FinalizeJobIfNeeded(s, id, updates, env))
  {
    if !s.heap[id].finalized {
      CloseGates(s, id, updates, env);
      var t := Prune(Closed(Noted(s, id, updates, env), id, env.now));
      hide GatesHold, GatesStay, Prune, Closed, ProcessQueue;
      ProcessQueueGates(t, env);
    }
  }

  lemma CloseGates(s: Scheduler, id: Id, updates: Updates, env: Env)
    requires GatesHold(s) && id in s.heap
    ensures id in Noted(s, id, updates, env).heap
    ensures GatesHold(Prune(Closed(Noted(s, id, updates, env), id, env.now)))
  {
    hide Without, TerminalEvent, NewestFirst, TerminalIds;
    var t := Prune(Closed(Noted(s, id, updates, env), id, env.now));
    assert t.begun == s.begun && forall x <- s.begun :: x in t.heap && t.heap[x].soyuz == s.heap[x].soyuz;
  }

  lemma AbortGates(s: Scheduler, id: Id, env: Env)
    requires GatesHold(s) && s.isShuttingDown
    ensures GatesHold(Abort(s, id, env)) && Abort(s, id, env).isShuttingDown
  {
    hide Without, NewestFirst, TerminalIds;
    var t := Abort(s, id, env);
    assert t.begun == s.begun && forall x <- s.begun :: x in t.heap && t.heap[x].soyuz == s.heap[x].soyuz;
  }

  lemma {:induction false} AbortAllGates(s: Scheduler, ids: seq<Id>, env: Env)
    requires GatesHold(s) && s.isShuttingDown
    ensures GatesHold(AbortAll(s, ids, env)) && AbortAll(s, ids, env).isShuttingDown
    decreases |ids|
  {
    hide GatesHold, Abort;
    if ids != [] {
      AbortAllGates(s, ids[..|ids| - 1], env);
      AbortGates(AbortAll(s, ids[..|ids| - 1], env), ids[|ids| - 1], env);
    }
  }

  lemma {:induction false} DropAllGates(s: Scheduler, ids: seq<Id>, env: Env)
    requires GatesHold(s)
    ensures GatesHold(DropAll(s, ids, env))
    decreases |ids|
  {
    hide GatesHold, FinalizeJobIfNeeded;
    if ids != [] {
      DropAllGates(s, ids[..|ids| - 1], env);
      var u, last := DropAll(s, ids[..|ids| - 1], env), ids[|ids| - 1];
      if last in u.heap {
        FinalizeGates(u, last, Updates(Failed, 143, Some("shutdown_aborted")), env);
      }
    }
  }

  lemma ShutdownGates(s: Scheduler, env: Env)
    requires GatesHold(s)
    ensures GatesHold(Shutdown(s, env))
  {
    var stopped := s.(isShuttingDown := true, queue := []);
    assert GatesHold(stopped);
    hide GatesHold, AbortAll, DropAll;
    AbortAllGates(stopped, s.running, env);
    DropAllGates(AbortAll(stopped, s.running, env), s.queue, env);
  }

  lemma AuthorizeGates(s: Scheduler, id: Id, durable: bool, env: Env)
    requires Inv(s) && GatesHold(s)
    ensures GatesHold(Authorize(s, id, durable, env))
  {
    if IsQueuedSoyuz(s, id) {
      assert id !in s.begun;
      hide Inv, ProcessQueue;
      if Runnable(s.heap[id]) {
        ProcessQueueGates(s, env);
      } else {
        var gate := s.heap[id].soyuz.value.(startAuthorized := true, startNeedsCanonicalRecheck := !durable);
        var queue := if durable then Append(s.queue, id) else s.queue;
        var t := WithGate(s, id, gate).(queue := queue);
        assert GatesHold(t);
        ProcessQueueGates(t, env);
        assert !durable ==> WithGate(s, id, gate) == t;
      }
    }
  }

  lemma CancelSoyuzGates(s: Scheduler, id: Id, durable: bool, env: Env)
    requires GatesHold(s)
    ensures GatesHold(CancelSoyuz(s, id, durable, env))
  {
    hide FinalizeJobIfNeeded, Without;
    if id in s.heap && s.heap[id].soyuz.Some? {
      var asked := WithGate(s, id, s.heap[id].soyuz.value.(cancellationRequested := true));
      assert GatesHold(asked);
      FinalizeGates(asked, id, CANCELLED, env);
    }
  }

  lemma SubmitGates(s: Scheduler, id: Id, job: Job, env: Env)
    requires GatesHold(s) && id !in s.heap
    ensures GatesHold(ProcessQueue(Enqueue(s, id, job), env))
  {
    assert GatesHold(Enqueue(s, id, job));
    ProcessQueueGates(Enqueue(s, id, job), env);
  }

  lemma PersistedGates(s: Scheduler, id: Id, durable: bool, env: Env)
    requires GatesHold(s)
    ensures GatesHold(Persisted(s, id, durable, env))
  {
    hide FinalizeJobIfNeeded;
    if id in s.awaiting && id in s.heap {
      var u := s.(awaiting := s.awaiting - {id});
      assert GatesHold(u);
      FinalizeGates(u, id, Updates(Failed, EXIT_CODE_SPAWN_FAILED, Some("local_persistence_failed")), env);
      FinalizeGates(u, id, CANCELLED, env);
    }
  }

  /** No event starts a Soyuz job whose start is not authorized, or still to be checked again. */
  lemma StepKeepsGates(s: Scheduler, e: Event, env: Env)
    requires Inv(s) && GatesHold(s)
    ensures GatesHold(Step(s, e, env))
  {
    hide ProcessQueue, FinalizeJobIfNeeded, Shutdown, CancelSoyuz, Persisted, Authorize, Enqueue, Without;
    match e
    case SubmitEvent(id, webhook) =>
      if id !in s.heap { SubmitGates(s, id, NewJob(s, None, webhook, env.now), env); }
    case SubmitSoyuzEvent(id) =>
      if id !in s.heap { SubmitGates(s, id, NewJob(s, Some(Gate(false, false, false)), false, env.now), env); }
    case AuthorizeEvent(id, durable) => AuthorizeGates(s, id, durable, env);
    case HoldEvent(id) =>
    case CancelEvent(id) =>
    case CancelSoyuzEvent(id, durable) => CancelSoyuzGates(s, id, durable, env);
    case PersistedEvent(id, durable) => PersistedGates(s, id, durable, env);
    case LaunchFailedEvent(id) =>
      if id in s.failing && id in s.heap {
        FinalizeGates(s.(failing := s.failing - {id}), id,
                      Updates(Failed, EXIT_CODE_SPAWN_FAILED, Some("scheduler_start_failed")), env);
      }
    case ExitEvent(id, code, timedOut, reported) =>
      if id in s.spawned && id in s.heap {
        FinalizeGates(s.(processes := s.processes - {id}), id, ExitUpdates(s.heap[id], code, timedOut, reported), env);
      }
    case SpawnErrorEvent(id, storage) =>
      if id in s.spawned && id in s.heap {
        var failureClass := if storage then "storage_exhausted" else "spawn_error";
        FinalizeGates(s.(processes := s.processes - {id}), id,
                      Updates(Failed, EXIT_CODE_SPAWN_FAILED, Some(failureClass)), env);
      }
    case ShutdownEvent => ShutdownGates(s, env);
  }

  lemma {:induction false} RunKeepsGates(s: Scheduler, events: seq<(Event, Env)>)
    requires Inv(s) && GatesHold(s)
    ensures GatesHold(Run(s, events))
    decreases |events|
  {
    hide Inv, GatesHold, Step, Frozen;
    if events != [] {
      StepKeeps(s, events[0].0, events[0].1);
      StepKeepsGates(s, events[0].0, events[0].1);
      RunKeepsGates(Step(s, events[0].0, events[0].1), events[1..]);
    }
  }

  /**
   * Over every run from the start of a scheduler: a Soyuz job has begun only if its start was
   * authorized, and after a restart checked again.
   */
  lemma OnlyAuthorizedJobsBegin(max: nat, maxEntries: nat, heap: map<Id, Job>, jobs: seq<Id>, queue: seq<Id>,
                                env: Env, events: seq<(Event, Env)>)
    requires Loadable(heap, jobs, queue)
    ensures var t := Run(Initialize(max, maxEntries, heap, jobs, queue, env), events);
            forall id <- t.begun :: id in t.heap && (t.heap[id].soyuz.Some? ==>
                                     t.heap[id].soyuz.value.startAuthorized && !t.heap[id].soyuz.value.startNeedsCanonicalRecheck)
  {
    var s := Initialize(max, maxEntries, heap, jobs, queue, env);
    InitializeGates(max, maxEntries, heap, jobs, queue, env);
    InitializeKeeps(max, maxEntries, heap, jobs, queue, env);
    hide Initialize, Inv, Run;
    RunKeepsGates(s, events);
  }

  lemma InitializeGates(max: nat, maxEntries: nat, heap: map<Id, Job>, jobs: seq<Id>, queue: seq<Id>, env: Env)
    ensures GatesHold(Initialize(max, maxEntries, heap, jobs, queue, env))
  {
    hide ProcessQueue, Recheck, Renumbered, TerminalIds, NewestFirst;
    var loaded := Prune(Loaded(max, maxEntries, heap, jobs, queue));
    ProcessQueueGates(loaded.(heap := Recheck(loaded.heap, loaded.queue)), env);
  }

  // ---------------------------------------------------------------- how a job ends

  lemma FinalRecord(s: Scheduler, id: Id, updates: Updates, env: Env)
    requires Inv(s) && id in s.heap && !s.heap[id].finalized && id !in s.queue
    requires updates.status.Completed? || updates.status.Failed?
    ensures var t := FinalizeJobIfNeeded(s, id, updates, env);
            && id in t.heap && t.heap[id].finalized && t.heap[id].status == updates.status
            && t.heap[id].exitCode == Some(updates.exitCode) && t.heap[id].completedAt == Some(env.now)
            && t.heap[id].failureClass == if updates.failureClass.Some? then updates.failureClass else s.heap[id].failureClass
  {
    hide Inv, Core, Evicted, ProcessQueue, Frozen;
    NotedCloses(s, id, updates, env);
    var closed := Closed(Noted(s, id, updates, env), id, env.now);
    CloseKeepsCore(s, closed, id, true) by { CoreOf(s); }
    assert SameButJobs(closed, Prune(closed));
    if !s.isShuttingDown {
      EvictedWhileRunning(Prune(closed));
      ProcessQueueKeeps(Prune(closed), env);
      FrozenKeys(Prune(closed), ProcessQueue(Prune(closed), env));
    }
  }

  lemma CoreOf(s: Scheduler)
    requires Inv(s)
    ensures Core(s)
  {
  }

  lemma EvictedWhileRunning(s: Scheduler)
    requires !s.isShuttingDown
    ensures Evicted(s)
  {
  }

  /**
   * The end of a worker decides the end of its job: it completes exactly when the worker exits with 0,
   * in time, and nobody cancelled it through `cancelJob`; a Soyuz cancellation loses to an exit with 0.
   */
  lemma ExitOutcome(s: Scheduler, id: Id, code: int, timedOut: bool, reported: Option<string>, env: Env)
    requires Inv(s) && id in s.spawned && id in s.heap && !s.heap[id].finalized
    ensures var t := Exited(s, id, code, timedOut, reported, env);
            var cancelled := s.heap[id].failureClass == Some("cancelled");
            var asked := s.heap[id].soyuz.Some? && s.heap[id].soyuz.value.cancellationRequested;
            && id in t.heap && t.heap[id].finalized && id !in t.running
            && (t.heap[id].status.Completed? <==> code == 0 && !timedOut && !cancelled)
            && (t.heap[id].status.Completed? ==> t.heap[id].exitCode == Some(0))
            && (cancelled || (asked && code != 0) ==>
                  t.heap[id].exitCode == Some(143) && t.heap[id].failureClass == Some("cancelled"))
            && (!cancelled && !(asked && code != 0) && timedOut ==>
                  t.heap[id].exitCode == Some(124) && t.heap[id].failureClass == Some("timeout"))
            && (!cancelled && !asked && !timedOut && code != 0 ==> t.heap[id].exitCode == Some(code))
  {
    var u := s.(processes := s.processes - {id});
    assert id in s.begun;
    var t := Exited(s, id, code, timedOut, reported, env);
    hide Inv, FinalizeJobIfNeeded;
    ForgetKeeps(s, u);
    BegunNotQueued(u, id);
    FinalRecord(u, id, ExitUpdates(s.heap[id], code, timedOut, reported), env);
    ExitedKeeps(s, id, code, timedOut, reported, env);
    FinalNotRunning(t, id);
  }

  lemma FinalNotRunning(s: Scheduler, id: Id)
    requires Inv(s) && id in s.heap && s.heap[id].finalized
    ensures id !in s.running
  {
  }
}
