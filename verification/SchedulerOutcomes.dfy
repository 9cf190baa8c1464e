/**
 * What each request to the scheduler, and each event of a worker, means for the job it is about: the
 * promises that the methods of the scheduler make to their callers. Each follows from the operation of
 * `SchedulerState` and from what `SchedulerRuns` and `SchedulerGates` prove about every reachable state.
 */
module SchedulerOutcomes {
  import opened Wrappers
  import opened Seqs
  import opened SchedulerState
  import opened SchedulerRuns
  import opened SchedulerGates
  import opened SchedulerAwait
  import opened SchedulerRecords

  /** What holds of a scheduler between any two operations. */
  ghost predicate Sound(s: Scheduler) { Inv(s) && GatesHold(s) }

  /** The operation leaves a sound scheduler, loses no record and changes no finalized one. */
  ghost predicate Keeps(s: Scheduler, t: Scheduler) { Sound(t) && Frozen(s, t) }

  lemma EventKeeps(s: Scheduler, e: Event, env: Env)
    requires Sound(s)
    ensures Keeps(s, Step(s, e, env))
  {
    hide Inv, GatesHold, Frozen, Step;
    StepKeeps(s, e, env);
    StepKeepsGates(s, e, env);
  }

  // ---------------------------------------------------------------- waiting and running

  /** No slot is free for a job that could use it. */
  predicate NoFreeSlot(s: Scheduler) { s.isShuttingDown || |s.running| >= s.maxConcurrentRuns }

  /** The job has its turn: it runs, or waits for a slot while none is free. */
  predicate HasTurn(s: Scheduler, id: Id) {
    id in s.heap && !s.heap[id].finalized && (id in s.running || (id in s.queue && NoFreeSlot(s)))
  }

  lemma RunnableHasTurn(s: Scheduler, id: Id)
    requires Inv(s) && id in s.begun + s.queue && id in s.heap && !s.heap[id].finalized && Runnable(s.heap[id])
    ensures HasTurn(s, id)
  {
    if id !in s.queue {
      assert id in s.begun;
    }
  }

  lemma ProcessQueueGivesTurn(s: Scheduler, env: Env, id: Id)
    requires Core(s) && Evicted(s) && id in s.queue && id in s.heap && Runnable(s.heap[id])
    ensures HasTurn(ProcessQueue(s, env), id)
  {
    assert !s.heap[id].finalized;
    assert id in s.begun + s.queue;
    hide Core, Evicted, ProcessQueue, HasTurn;
    ProcessQueueKeeps(s, env);
    ProcessQueueSamePeople(s, env);
    var t := ProcessQueue(s, env);
    RunnableSame(s.heap[id], t.heap[id]);
    RunnableHasTurn(t, id);
  }

  lemma RunnableSame(a: Job, b: Job)
    requires a.soyuz == b.soyuz
    ensures Runnable(a) == Runnable(b)
  {
  }

  // ---------------------------------------------------------------- submissions

  /** A submitted local job runs at once, unless every slot is taken or the scheduler is shutting down. */
  lemma SubmitPromise(s: Scheduler, id: Id, webhook: bool, env: Env)
    requires Sound(s) && id !in s.heap
    ensures Keeps(s, Submit(s, id, webhook, env)) && HasTurn(Submit(s, id, webhook, env), id)
    ensures Submitted(s, Submit(s, id, webhook, env), id, None, webhook, env.now)
  {
    EnqueuedIsSubmitted(s, id, None, webhook, env);
    hide Submitted;
    var job := NewJob(s, None, webhook, env.now);
    var u := Enqueue(s, id, job);
    assert id in u.queue && u.heap[id] == job && Runnable(job);
    hide Inv, GatesHold, Frozen, ProcessQueue, HasTurn, Enqueue, Runnable;
    EventKeeps(s, SubmitEvent(id, webhook), env);
    CoreAfterEnqueue(s, id, job);
    ProcessQueueGivesTurn(u, env, id);
  }

  lemma CoreAfterEnqueue(s: Scheduler, id: Id, job: Job)
    requires Inv(s) && id !in s.heap && !job.finalized && job.status.Queued? && job.arrived == s.arrivals
    ensures Core(Enqueue(s, id, job)) && Evicted(Enqueue(s, id, job))
  {
    hide Core, Enqueue;
    AddKeepsCore(s, id, job);
  }

  /** A submitted Soyuz job waits behind a closed gate. */
  lemma SubmitSoyuzPromise(s: Scheduler, id: Id, env: Env)
    requires Sound(s) && id !in s.heap
    ensures var t := SubmitSoyuz(s, id, env);
            && Keeps(s, t) && id in t.queue && id !in t.begun && id in t.heap && !Runnable(t.heap[id])
            && Submitted(s, t, id, Some(Gate(false, false, false)), false, env.now)
  {
    EnqueuedIsSubmitted(s, id, Some(Gate(false, false, false)), false, env);
    hide Submitted;
    var job := NewJob(s, Some(Gate(false, false, false)), false, env.now);
    var u := Enqueue(s, id, job);
    var t := ProcessQueue(u, env);
    assert id in u.begun + u.queue && u.heap[id] == job && !Runnable(job);
    EventKeeps(s, SubmitSoyuzEvent(id), env) by { hide ProcessQueue; }
    hide Inv, Frozen, ProcessQueue, Enqueue, Runnable;
    ProcessQueueSamePeople(u, env);
    RunnableSame(job, t.heap[id]);
    assert id in t.begun + t.queue;
    assert id in t.heap && !Runnable(t.heap[id]);
  }

  // ---------------------------------------------------------------- gates

  /**
   * An authorized job has its turn exactly when it was in the queue, or its gate was closed. One that had
   * been authorized and then held is not put back: the call succeeds and the job stays aside.
   */
  lemma AuthorizePromise(s: Scheduler, id: Id, durable: bool, env: Env)
    requires Sound(s)
    ensures var t := Authorize(s, id, durable, env);
            && Keeps(s, t)
            && (!IsQueuedSoyuz(s, id) ==> t == s)
            && (IsQueuedSoyuz(s, id) && (durable || Runnable(s.heap[id])) ==>
                  (HasTurn(t, id) <==> id in s.queue || !Runnable(s.heap[id])))
            && (IsQueuedSoyuz(s, id) && !durable && !Runnable(s.heap[id]) ==>
                  id in t.heap && !Runnable(t.heap[id]) && t.begun == s.begun && t.queue == s.queue)
            && (IsQueuedSoyuz(s, id) && !Runnable(s.heap[id]) ==> Authorized(s, t, id, durable, env.now))
  {
    hide Inv, GatesHold, Frozen, Authorize, Authorized, HasTurn;
    AuthorizeTurn(s, id, durable, env);
    if IsQueuedSoyuz(s, id) && !Runnable(s.heap[id]) {
      AuthorizeRecords(s, id, durable, env);
    }
  }

  lemma AuthorizeTurn(s: Scheduler, id: Id, durable: bool, env: Env)
    requires Sound(s)
    ensures var t := Authorize(s, id, durable, env);
            && Keeps(s, t)
            && (!IsQueuedSoyuz(s, id) ==> t == s)
            && (IsQueuedSoyuz(s, id) && (durable || Runnable(s.heap[id])) ==>
                  (HasTurn(t, id) <==> id in s.queue || !Runnable(s.heap[id])))
            && (IsQueuedSoyuz(s, id) && !durable && !Runnable(s.heap[id]) ==>
                  id in t.heap && !Runnable(t.heap[id]) && t.begun == s.begun && t.queue == s.queue)
  {
    EventKeeps(s, AuthorizeEvent(id, durable), env) by { hide Authorize; }
    if IsQueuedSoyuz(s, id) {
      QueuedNotFinalized(s, id);
      if Runnable(s.heap[id]) {
        if id in s.queue {
          ProcessQueueGivesTurn(s, env, id);
        } else {
          HeldHasNoTurn(s, env, id);
        }
      } else if durable {
        var gate := s.heap[id].soyuz.value.(startAuthorized := true, startNeedsCanonicalRecheck := false);
        GateKeeps(s, id, gate, Append(s.queue, id));
        hide Inv, GatesHold, Frozen, ProcessQueue, HasTurn, Core, Evicted, Settled;
        var u := WithGate(s, id, gate).(queue := Append(s.queue, id));
        ProcessQueueGivesTurn(u, env, id);
      }
    }
  }

  /** So a job that is held after its authorization is stranded: authorizing it again succeeds and leaves it aside. */
  lemma HoldThenAuthorizeStrands(s: Scheduler, id: Id, durable: bool, env: Env)
    requires Sound(s) && IsQueuedSoyuz(s, id) && Runnable(s.heap[id])
    ensures IsQueuedSoyuz(Hold(s, id), id) && Runnable(Hold(s, id).heap[id])
    ensures !HasTurn(Authorize(Hold(s, id), id, durable, env), id)
  {
    HoldPromise(s, id);
    hide Sound, HasTurn, Authorize;
    AuthorizePromise(Hold(s, id), id, durable, env);
  }

  /** A queued job that is not in the queue stays out of it. */
  lemma HeldHasNoTurn(s: Scheduler, env: Env, id: Id)
    requires Inv(s) && id in s.heap && s.heap[id].status.Queued? && id !in s.queue
    ensures !HasTurn(ProcessQueue(s, env), id)
  {
    assert id !in s.begun;
    hide Core, ProcessQueue;
    ProcessQueueSamePeople(s, env);
    ProcessQueueKeeps(s, env);
    var t := ProcessQueue(s, env);
    assert id !in s.begun + s.queue;
    assert id !in t.begun + t.queue;
    RunningHasBegun(t, id);
  }

  lemma RunningHasBegun(s: Scheduler, id: Id)
    requires Inv(s)
    ensures id in s.running ==> id in s.begun
  {
  }

  /** A held job waits for nothing, and its record does not change. */
  lemma HoldPromise(s: Scheduler, id: Id)
    requires Sound(s)
    ensures var t := Hold(s, id);
            && Keeps(s, t) && t.heap == s.heap && t.jobs == s.jobs && t.running == s.running
            && (IsQueuedSoyuz(s, id) ==> id !in t.queue && forall x <- s.queue :: x != id ==> x in t.queue)
            && (!IsQueuedSoyuz(s, id) ==> t == s)
  {
    EventKeeps(s, HoldEvent(id), Env(0, {}));
  }

  // ---------------------------------------------------------------- cancellation

  /** The job is over and announced as cancelled; its record is `was` with 143, and nobody waits for it or runs it. */
  ghost predicate CancelledForGood(s: Scheduler, t: Scheduler, id: Id, was: Job, now: int) {
    Concluded(s, t, id, was, Failed, 143, Some("cancelled"), JobCancelled, now)
  }

  /** The request reaches a job that is known and not over. */
  predicate Reaches(s: Scheduler, id: Id) { id in s.jobs && id in s.heap && !Terminal(s.heap[id]) }

  /**
   * `cancelJob`: a queued job is over at once; a running one is marked cancelled and keeps its slot until
   * its worker exits; anything else stays as it is.
   */
  lemma CancelPromise(s: Scheduler, id: Id, now: int)
    requires Sound(s)
    ensures var t := Cancel(s, id, now);
            && Keeps(s, t) && t.running == s.running && t.begun == s.begun
            && (!Reaches(s, id) ==> t == s)
            && (Reaches(s, id) && s.heap[id].status.Queued? ==> CancelledForGood(s, t, id, s.heap[id], now))
            && (Reaches(s, id) && !s.heap[id].status.Queued? ==>
                  t == s.(heap := s.heap[id := s.heap[id].(status := Failed, exitCode := Some(143), failureClass := Some("cancelled"))]))
  {
    CancelLeaves(s, id, now);
    hide Inv, GatesHold, Frozen, Cancel, Concluded;
    EventKeeps(s, CancelEvent(id), Env(now, {}));
    if Reaches(s, id) {
      CancelRecords(s, id, now);
    }
  }

  lemma CancelLeaves(s: Scheduler, id: Id, now: int)
    ensures Cancel(s, id, now).running == s.running && Cancel(s, id, now).begun == s.begun
    ensures !Reaches(s, id) ==> Cancel(s, id, now) == s
  {
    hide Without;
  }

  /**
   * `cancelSoyuzJob`: a queued job is over at once. For a running one whose request was written: with a
   * process it is marked and keeps its slot, without one it is over. If the write failed nothing changes.
   */
  lemma CancelSoyuzPromise(s: Scheduler, id: Id, durable: bool, env: Env)
    requires Sound(s)
    ensures var t := CancelSoyuz(s, id, durable, env);
            var reached := Reaches(s, id) && s.heap[id].soyuz.Some?;
            && Keeps(s, t)
            && (!reached ==> t == s)
            && (reached && s.heap[id].status.Queued? ==> CancelledForGood(s, t, id, s.heap[id], env.now))
            && (reached && !s.heap[id].status.Queued? && !durable ==> t == s)
            && (reached && !s.heap[id].status.Queued? && durable && id !in s.processes ==>
                  CancelledForGood(s, t, id, Asked(s.heap[id]), env.now))
            && (reached && !s.heap[id].status.Queued? && durable && id in s.processes ==>
                  t == s.(heap := s.heap[id := Asked(s.heap[id])]))
  {
    hide Inv, GatesHold, Frozen, Concluded, FinalizeJobIfNeeded, Cancel;
    EventKeeps(s, CancelSoyuzEvent(id, durable), env);
    if Reaches(s, id) && s.heap[id].soyuz.Some? {
      QueuedNotFinalized(s, id);
      if s.heap[id].status.Queued? {
        CancelPromise(s, id, env.now);
      } else if durable {
        CancelSoyuzRecords(s, id, env);
      }
    }
  }

  lemma FinalIsNowhere(s: Scheduler, id: Id)
    requires Inv(s) && id in s.heap && s.heap[id].finalized
    ensures id !in s.running && id !in s.queue
  {
  }

  // ---------------------------------------------------------------- workers

  /** The end of the await: spawned exactly when nothing stands against it, and over when it was refused. */
  lemma PersistedPromise(s: Scheduler, id: Id, durable: bool, env: Env)
    requires Sound(s)
    ensures var t := Persisted(s, id, durable, env);
            && Keeps(s, t)
            && (id in t.spawned && id !in s.spawned <==> MayLaunch(s, id, durable, env))
            && (id !in s.awaiting ==> t == s)
            && (id in s.awaiting ==> EndedAwait(s, t, id, durable, env))
  {
    hide Inv, GatesHold, Frozen, FinalizeJobIfNeeded, Launch, MayLaunch, EndedAwait;
    if id in s.awaiting { PersistedConcludes(s, id, durable, env); }
    EventKeeps(s, PersistedEvent(id, durable), env);
    hide Keeps;
    SpawnIff(s, id, durable, env);
  }

  /** Starting jobs completes none and counts none, and only queued jobs take slots. */
  ghost predicate StartsOnly(s: Scheduler, t: Scheduler) {
    && t.completed == s.completed && t.successes == s.successes && t.failures == s.failures && t.webhooks == s.webhooks
    && (forall x <- t.running :: x in s.running || x in s.queue) && forall x <- t.queue :: x in s.queue
  }

  lemma {:induction false} ProcessQueueStartsOnly(s: Scheduler, env: Env)
    ensures StartsOnly(s, ProcessQueue(s, env))
    decreases |s.queue|
  {
    if !s.isShuttingDown && s.queue != [] && |s.running| < s.maxConcurrentRuns {
      var k := FirstRunnable(s.heap, s.queue);
      if k < |s.queue| {
        assert s.queue[k] in s.queue;
        assert Start(s, k, env).queue == s.queue[..k] + s.queue[k + 1..];
        assert StartsOnly(s, Start(s, k, env));
        ShorterQueue(s, k, env);
        hide Start, FirstRunnable;
        ProcessQueueStartsOnly(Start(s, k, env), env);
      }
    }
  }

  /** Completing a job that is not queued: it is final, gives up its slot, and is counted once. */
  lemma CompletePromise(s: Scheduler, id: Id, env: Env)
    requires id in s.heap && !s.heap[id].finalized && id !in s.queue && Terminal(s.heap[id])
    ensures var t := CompleteJob(s, id, env);
            && id in t.heap && id !in t.running
            && t.heap[id] == s.heap[id].(finalized := true,
                                         completedAt := if s.heap[id].completedAt.Some? then s.heap[id].completedAt else Some(env.now))
            && t.completed == s.completed + [id] && t.successes + t.failures == s.successes + s.failures + 1
  {
    var closed := Closed(s, id, env.now);
    assert id !in Without(s.running, id);
    PruneDropsTerminal(closed);
    assert closed.heap[id].finalized && closed.running == Without(s.running, id) && closed.queue == s.queue;
    hide Prune, Closed, Without, ProcessQueue;
    ProcessQueueStartsOnly(Prune(closed), env);
    ProcessQueueSame(Prune(closed), env, id);
  }

  /** The job is over as the updates say, and announced accordingly. */
  ghost predicate FinalAs(s: Scheduler, t: Scheduler, id: Id, updates: Updates, now: int) {
    && id in s.heap
    && var failureClass := if updates.failureClass.Some? then updates.failureClass else s.heap[id].failureClass;
    exists event :: Announces(event, updates.status, failureClass)
                    && Concluded(s, t, id, s.heap[id], updates.status, updates.exitCode, failureClass, event, now)
  }

  /** A job that is not queued is finalized once: the first time it takes the updates, later ones change nothing. */
  lemma FinalizePromise(s: Scheduler, id: Id, updates: Updates, env: Env)
    requires Sound(s) && id in s.heap && id !in s.queue && (updates.status.Completed? || updates.status.Failed?)
    ensures var t := FinalizeJobIfNeeded(s, id, updates, env);
            && Keeps(s, t)
            && (if s.heap[id].finalized then t == s else FinalAs(s, t, id, updates, env.now))
  {
    FinalizeGates(s, id, updates, env) by { hide Inv; }
    hide Inv, GatesHold, Frozen, Concluded;
    FinalizeKeeps(s, id, updates, env);
    if !s.heap[id].finalized {
      hide FinalizeJobIfNeeded;
      var failureClass := if updates.failureClass.Some? then updates.failureClass else s.heap[id].failureClass;
      var event := if failureClass == Some("cancelled") then JobCancelled
                   else if updates.status.Completed? then JobCompleted else JobFailed;
      FinalizeConcludes(s, id, updates, event, env);
    }
  }

  lemma LaunchFailedPromise(s: Scheduler, id: Id, env: Env)
    requires Sound(s)
    ensures var t := LaunchFailed(s, id, env);
            && Keeps(s, t)
            && (id in s.failing && id in s.heap && !s.heap[id].finalized ==>
                  EndedUnstarted(s, t, id, s.heap[id], "scheduler_start_failed", env.now))
  {
    hide Inv, GatesHold, Frozen, FinalizeJobIfNeeded, EndedUnstarted;
    EventKeeps(s, LaunchFailedEvent(id), env);
    hide Keeps;
    if id in s.failing && id in s.heap && !s.heap[id].finalized {
      LaunchFailedConcludes(s, id, env);
    }
  }

  lemma SpawnErrorPromise(s: Scheduler, id: Id, storage: bool, env: Env)
    requires Sound(s) && id in s.spawned && id in s.heap
    ensures var t := SpawnError(s, id, storage, env);
            && Keeps(s, t)
            && (!s.heap[id].finalized ==>
                  EndedUnstarted(s, t, id, s.heap[id], if storage then "storage_exhausted" else "spawn_error", env.now))
  {
    hide Inv, GatesHold, Frozen, FinalizeJobIfNeeded, EndedUnstarted;
    EventKeeps(s, SpawnErrorEvent(id, storage), env);
    hide Keeps;
    if !s.heap[id].finalized {
      SpawnErrorConcludes(s, id, storage, env);
    }
  }

  /** The exit of a worker ends its job, unless it was over before; then only the process is gone. */
  lemma ExitPromise(s: Scheduler, id: Id, code: int, timedOut: bool, reported: Option<string>, env: Env)
    requires Sound(s) && id in s.spawned && id in s.heap
    ensures var t := Exited(s, id, code, timedOut, reported, env);
            && Keeps(s, t)
            && (if s.heap[id].finalized then t == s.(processes := s.processes - {id})
                else EndedByExit(s, t, id, s.heap[id], code, timedOut, reported, env.now))
  {
    hide Inv, GatesHold, Frozen, FinalizeJobIfNeeded, EndedByExit, ExitUpdates;
    EventKeeps(s, ExitEvent(id, code, timedOut, reported), env);
    if s.heap[id].finalized {
      FinalizedIsLeft(s.(processes := s.processes - {id}), id, ExitUpdates(s.heap[id], code, timedOut, reported), env);
    } else {
      ExitConcludes(s, id, code, timedOut, reported, env);
    }
  }

  /** Shutdown: nothing waits and nothing new has begun; what waited, and what ran uncancelled, is over. */
  lemma ShutdownPromise(s: Scheduler, env: Env)
    requires Sound(s)
    ensures var t := Shutdown(s, env);
            && Keeps(s, t) && t.isShuttingDown && t.queue == [] && t.begun == s.begun && t.spawned == s.spawned
            && AllShutDown(s, t, env.now)
  {
    ShutdownRecords(s, env);
    hide Inv, GatesHold, Frozen, Shutdown;
    EventKeeps(s, ShutdownEvent, env);
    ShutdownKeeps(s, env);
  }

  lemma InitializeSound(max: nat, maxEntries: nat, heap: map<Id, Job>, jobs: seq<Id>, queue: seq<Id>, env: Env)
    requires Loadable(heap, jobs, queue)
    ensures Sound(Initialize(max, maxEntries, heap, jobs, queue, env))
  {
    hide Inv, GatesHold, Initialize;
    InitializeKeeps(max, maxEntries, heap, jobs, queue, env);
    InitializeGates(max, maxEntries, heap, jobs, queue, env);
  }
}
