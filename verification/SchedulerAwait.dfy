/** The await of `executeJob`: when its end spawns the worker, and what a cancellation in between does about it. */
module SchedulerAwait {
  import opened Wrappers
  import opened Seqs
  import opened SchedulerState
  import opened SchedulerRuns

  // ---------------------------------------------------------------- who begins or waits

  /** What `processQueue` never changes: who has begun or waits, and all of a record but its start. */
  ghost predicate SamePeople(s: Scheduler, t: Scheduler) {
    && (forall x <- s.begun + s.queue :: x in t.begun + t.queue)
    && (forall x <- t.begun + t.queue :: x in s.begun + s.queue)
    && forall x <- s.heap :: x in t.heap && t.heap[x].createdAt == s.heap[x].createdAt
                             && t.heap[x].soyuz == s.heap[x].soyuz && t.heap[x].arrived == s.heap[x].arrived
                             && t.heap[x].finalized == s.heap[x].finalized && t.heap[x].webhook == s.heap[x].webhook
  }

  lemma StartSamePeople(s: Scheduler, k: nat, env: Env)
    requires k < |s.queue| && s.queue[k] in s.heap
    ensures SamePeople(s, Start(s, k, env))
  {
    hide Append;
    var t := Start(s, k, env);
    assert t.begun == s.begun + [s.queue[k]] && t.queue == s.queue[..k] + s.queue[k + 1..];
    assert s.queue == s.queue[..k] + [s.queue[k]] + s.queue[k + 1..];
    assert s.queue[k] in s.queue;
  }

  lemma SamePeopleTrans(s: Scheduler, t: Scheduler, u: Scheduler)
    requires SamePeople(s, t) && SamePeople(t, u)
    ensures SamePeople(s, u)
  {
  }

  lemma {:induction false} ProcessQueueSamePeople(s: Scheduler, env: Env)
    ensures SamePeople(s, ProcessQueue(s, env))
    decreases |s.queue|
  {
    if !s.isShuttingDown && s.queue != [] && |s.running| < s.maxConcurrentRuns {
      var k := FirstRunnable(s.heap, s.queue);
      if k < |s.queue| {
        StartSamePeople(s, k, env);
        ShorterQueue(s, k, env);
        hide Start, SamePeople, FirstRunnable;
        ProcessQueueSamePeople(Start(s, k, env), env);
        SamePeopleTrans(s, Start(s, k, env), ProcessQueue(Start(s, k, env), env));
      }
    }
  }

  // ---------------------------------------------------------------- who is spawned

  /** Only jobs from the queue are newly spawned. */
  ghost predicate SpawnsQueued(s: Scheduler, t: Scheduler) {
    forall x <- t.spawned :: x in s.spawned || x in s.queue
  }

  lemma {:induction false} ProcessQueueSpawns(s: Scheduler, env: Env)
    ensures SpawnsQueued(s, ProcessQueue(s, env)) && forall x <- s.spawned :: x in ProcessQueue(s, env).spawned
    decreases |s.queue|
  {
    if !s.isShuttingDown && s.queue != [] && |s.running| < s.maxConcurrentRuns {
      var k := FirstRunnable(s.heap, s.queue);
      if k < |s.queue| {
        StartSpawns(s, k, env);
        ShorterQueue(s, k, env);
        hide Start, FirstRunnable;
        ProcessQueueSpawns(Start(s, k, env), env);
      }
    }
  }

  lemma StartSpawns(s: Scheduler, k: nat, env: Env)
    requires k < |s.queue| && s.queue[k] in s.heap
    ensures SpawnsQueued(s, Start(s, k, env))
    ensures forall x <- s.spawned :: x in Start(s, k, env).spawned
    ensures forall x <- Start(s, k, env).queue :: x in s.queue
  {
    hide Append;
    var id := s.queue[k];
    assert Start(s, k, env).queue == s.queue[..k] + s.queue[k + 1..];
    assert Start(s, k, env).spawned == s.spawned || Start(s, k, env).spawned == s.spawned + [id];
  }

  lemma ClosedSpawns(s: Scheduler, id: Id, updates: Updates, env: Env)
    requires id in s.heap
    ensures var u := Noted(s, id, updates, env);
            && id in u.heap
            && var t := Prune(Closed(u, id, env.now));
               t.spawned == s.spawned && t.queue == s.queue && t.awaiting == s.awaiting && t.isShuttingDown == s.isShuttingDown
               && forall x <- s.heap :: x != id ==> x in t.heap && t.heap[x] == s.heap[x]
  {
    hide Without, TerminalEvent, NewestFirst, TerminalIds;
  }

  lemma FinalizeUnfolds(s: Scheduler, id: Id, updates: Updates, env: Env)
    requires id in s.heap && !s.heap[id].finalized
    ensures id in Noted(s, id, updates, env).heap
    ensures FinalizeJobIfNeeded(s, id, updates, env)
            == var t := Prune(Closed(Noted(s, id, updates, env), id, env.now));
               if s.isShuttingDown then t else ProcessQueue(t, env)
  {
    hide Prune, ProcessQueue, Without, TerminalEvent;
  }

  lemma FinalizeSpawns(s: Scheduler, id: Id, updates: Updates, env: Env)
    requires id in s.heap
    ensures var t := FinalizeJobIfNeeded(s, id, updates, env);
            && SpawnsQueued(s, t) && (forall x <- s.spawned :: x in t.spawned) && s.awaiting <= t.awaiting
  {
    if !s.heap[id].finalized {
      FinalizeUnfolds(s, id, updates, env);
      ClosedSpawns(s, id, updates, env);
      hide Prune, ProcessQueue, Closed, Noted, FinalizeJobIfNeeded;
      var t := Prune(Closed(Noted(s, id, updates, env), id, env.now));
      ProcessQueueSpawns(t, env);
      AwaitingGrows(t, env);
    }
  }

  lemma AwaitingHasBegun(s: Scheduler, id: Id)
    requires Inv(s) && id in s.awaiting
    ensures id in s.begun && id in s.heap && id !in s.queue && id !in s.spawned && id !in s.failing && id !in s.processes
    ensures !s.heap[id].finalized ==> id in s.running
  {
  }

  /** Nothing stands against the launch at the end of the await. */
  predicate MayLaunch(s: Scheduler, id: Id, durable: bool, env: Env) {
    && id in s.awaiting && id in s.heap && durable && !s.heap[id].finalized
    && !(s.heap[id].soyuz.Some? && s.heap[id].soyuz.value.cancellationRequested)
    && id !in env.broken
  }

  /**
   * In every reachable state, shutting down or not: the end of the await spawns the job if and only if
   * the write succeeded, the job was awaiting it and is not finalized, no Soyuz cancellation is recorded,
   * and the launch does not throw.
   */
  lemma SpawnIff(s: Scheduler, id: Id, durable: bool, env: Env)
    requires Inv(s)
    ensures id in Persisted(s, id, durable, env).spawned && id !in s.spawned <==> MayLaunch(s, id, durable, env)
  {
    if id in s.awaiting && id in s.heap {
      AwaitingHasBegun(s, id);
      hide Inv, FinalizeJobIfNeeded;
      var u := s.(awaiting := s.awaiting - {id});
      FinalizeSpawns(u, id, Updates(Failed, EXIT_CODE_SPAWN_FAILED, Some("local_persistence_failed")), env);
      FinalizeSpawns(u, id, CANCELLED, env);
    }
  }

  // ---------------------------------------------------------------- single events

  /** The job is known and no longer waits for its turn. */
  predicate NotWaiting(s: Scheduler, id: Id) { id in s.heap && !s.heap[id].status.Queued? }

  lemma NotWaitingNotQueued(s: Scheduler, id: Id)
    requires Inv(s) && NotWaiting(s, id)
    ensures id !in s.queue && !IsQueuedSoyuz(s, id)
  {
  }

  lemma AwaitingNotWaiting(s: Scheduler, id: Id)
    requires Inv(s) && (id in s.awaiting || (id in s.heap && s.heap[id].finalized))
    ensures NotWaiting(s, id)
  {
    assert id in s.awaiting ==> id in s.begun;
  }

  lemma PersistedOfOther(s: Scheduler, other: Id, durable: bool, env: Env, id: Id)
    requires other != id && id !in s.queue
    ensures var t := Persisted(s, other, durable, env);
            (id in t.spawned <==> id in s.spawned) && (id in s.awaiting ==> id in t.awaiting)
  {
    hide FinalizeJobIfNeeded;
    if other in s.awaiting && other in s.heap {
      var u := s.(awaiting := s.awaiting - {other});
      FinalizeSpawns(u, other, Updates(Failed, EXIT_CODE_SPAWN_FAILED, Some("local_persistence_failed")), env);
      FinalizeSpawns(u, other, CANCELLED, env);
    }
  }

  lemma CancelSoyuzQuiet(s: Scheduler, other: Id, durable: bool, env: Env, id: Id)
    requires id !in s.queue
    ensures var t := CancelSoyuz(s, other, durable, env);
            (id in t.spawned <==> id in s.spawned) && (id in s.awaiting ==> id in t.awaiting)
  {
    hide FinalizeJobIfNeeded, Without;
    if other in s.heap && s.heap[other].soyuz.Some? {
      FinalizeSpawns(WithGate(s, other, s.heap[other].soyuz.value.(cancellationRequested := true)), other, CANCELLED, env);
    }
  }

  lemma AuthorizeQuiet(s: Scheduler, other: Id, durable: bool, env: Env, id: Id)
    requires id !in s.queue && (other == id ==> !IsQueuedSoyuz(s, id))
    ensures var t := Authorize(s, other, durable, env);
            (id in t.spawned <==> id in s.spawned) && (id in s.awaiting ==> id in t.awaiting)
  {
    hide ProcessQueue;
    if IsQueuedSoyuz(s, other) {
      var gate := s.heap[other].soyuz.value.(startAuthorized := true, startNeedsCanonicalRecheck := !durable);
      ProcessQueueSpawns(s, env);
      AwaitingGrows(s, env);
      var t := WithGate(s, other, gate).(queue := Append(s.queue, other));
      ProcessQueueSpawns(t, env);
      AwaitingGrows(t, env);
    }
  }

  lemma {:induction false} AbortAllQuiet(s: Scheduler, ids: seq<Id>, env: Env)
    requires s.isShuttingDown
    ensures var t := AbortAll(s, ids, env); t.isShuttingDown && t.spawned == s.spawned && t.awaiting == s.awaiting
    decreases |ids|
  {
    hide Abort;
    if ids != [] {
      AbortAllQuiet(s, ids[..|ids| - 1], env);
      AbortQuiet(AbortAll(s, ids[..|ids| - 1], env), ids[|ids| - 1], env);
    }
  }

  lemma AbortQuiet(s: Scheduler, id: Id, env: Env)
    requires s.isShuttingDown
    ensures var t := Abort(s, id, env); t.isShuttingDown && t.spawned == s.spawned && t.awaiting == s.awaiting
  {
    hide Without, NewestFirst, TerminalIds;
  }

  lemma DropSpawnsNothing(s: Scheduler, other: Id, env: Env)
    requires s.isShuttingDown
    ensures var t := Drop(s, other, env);
            && t.isShuttingDown && t.spawned == s.spawned && t.awaiting == s.awaiting
            && forall x <- s.heap :: x != other ==> x in t.heap && t.heap[x] == s.heap[x]
  {
    if other in s.heap && !s.heap[other].finalized {
      var updates := Updates(Failed, 143, Some("shutdown_aborted"));
      FinalizeUnfolds(s, other, updates, env);
      ClosedSpawns(s, other, updates, env);
      hide Prune, ProcessQueue, Closed, Noted, FinalizeJobIfNeeded;
    }
  }

  lemma ShutdownQuiet(s: Scheduler, env: Env)
    ensures Shutdown(s, env).spawned == s.spawned && Shutdown(s, env).awaiting == s.awaiting
  {
    hide AbortAll, DropAll;
    var stopped := s.(isShuttingDown := true, queue := []);
    AbortAllQuiet(stopped, s.running, env);
    var u := AbortAll(stopped, s.running, env);
    DropAllSpawnsNothing(u, s.queue, env);
  }

  lemma {:induction false} DropAllSpawnsNothing(s: Scheduler, ids: seq<Id>, env: Env)
    requires s.isShuttingDown
    ensures var t := DropAll(s, ids, env); t.isShuttingDown && t.spawned == s.spawned && t.awaiting == s.awaiting
    decreases |ids|
  {
    hide Drop;
    if ids != [] {
      DropAllSpawnsNothing(s, ids[..|ids| - 1], env);
      DropSpawnsNothing(DropAll(s, ids[..|ids| - 1], env), ids[|ids| - 1], env);
    }
  }

  /** The event is the end of the await of this job. */
  predicate EndsAwait(e: Event, id: Id) { e.PersistedEvent? && e.id == id }

  /** The job was not spawned by this step, and its await has not ended. */
  predicate Quietly(s: Scheduler, t: Scheduler, id: Id) {
    (id in t.spawned <==> id in s.spawned) && (id in s.awaiting ==> id in t.awaiting)
  }

  lemma SubmitQuiet(s: Scheduler, other: Id, job: Job, env: Env, id: Id)
    requires id !in s.queue && id != other
    ensures Quietly(s, ProcessQueue(Enqueue(s, other, job), env), id)
  {
    hide ProcessQueue;
    var t := Enqueue(s, other, job);
    ProcessQueueSpawns(t, env);
    AwaitingGrows(t, env);
  }

  /** A worker event of any job: its end frees a slot for queued jobs only. */
  lemma FinishQuiet(s: Scheduler, u: Scheduler, other: Id, updates: Updates, env: Env, id: Id)
    requires id !in s.queue && Forgets(s, u) && u.awaiting == s.awaiting && other in s.heap
    ensures other in u.heap && Quietly(s, FinalizeJobIfNeeded(u, other, updates, env), id)
  {
    hide FinalizeJobIfNeeded;
    FinalizeSpawns(u, other, updates, env);
  }

  lemma WithdrawalQuiet(s: Scheduler, other: Id, now: int)
    ensures Hold(s, other).spawned == Cancel(s, other, now).spawned == s.spawned
    ensures Hold(s, other).awaiting == Cancel(s, other, now).awaiting == s.awaiting
  {
    hide Without;
  }

  /** No other event spawns a job that has left the queue, or ends its await. */
  lemma OtherEventsQuiet(s: Scheduler, e: Event, env: Env, id: Id)
    requires Inv(s) && NotWaiting(s, id) && !EndsAwait(e, id)
    ensures var t := Step(s, e, env);
            (id in t.spawned <==> id in s.spawned) && (id in s.awaiting ==> id in t.awaiting)
  {
    NotWaitingNotQueued(s, id);
    hide Inv, ProcessQueue, FinalizeJobIfNeeded, Shutdown, CancelSoyuz, Persisted, Authorize, Without, ExitUpdates, Enqueue, Cancel, Hold;
    match e
    case SubmitEvent(other, webhook) =>
      if other !in s.heap { SubmitQuiet(s, other, NewJob(s, None, webhook, env.now), env, id); }
    case SubmitSoyuzEvent(other) =>
      if other !in s.heap { SubmitQuiet(s, other, NewJob(s, Some(Gate(false, false, false)), false, env.now), env, id); }
    case AuthorizeEvent(other, durable) => AuthorizeQuiet(s, other, durable, env, id);
    case HoldEvent(other) => WithdrawalQuiet(s, other, env.now);
    case CancelEvent(other) => WithdrawalQuiet(s, other, env.now);
    case CancelSoyuzEvent(other, durable) => CancelSoyuzQuiet(s, other, durable, env, id);
    case PersistedEvent(other, durable) => PersistedOfOther(s, other, durable, env, id);
    case LaunchFailedEvent(other) =>
      if other in s.failing && other in s.heap {
        FinishQuiet(s, s.(failing := s.failing - {other}), other,
                    Updates(Failed, EXIT_CODE_SPAWN_FAILED, Some("scheduler_start_failed")), env, id);
      }
    case ExitEvent(other, code, timedOut, reported) =>
      if other in s.spawned && other in s.heap {
        FinishQuiet(s, s.(processes := s.processes - {other}), other,
                    ExitUpdates(s.heap[other], code, timedOut, reported), env, id);
      }
    case SpawnErrorEvent(other, storage) =>
      if other in s.spawned && other in s.heap {
        var failureClass := if storage then "storage_exhausted" else "spawn_error";
        FinishQuiet(s, s.(processes := s.processes - {other}), other,
                    Updates(Failed, EXIT_CODE_SPAWN_FAILED, Some(failureClass)), env, id);
      }
    case ShutdownEvent => ShutdownQuiet(s, env);
  }

  // ---------------------------------------------------------------- the record during the await

  /** The record of the job is the same. */
  ghost predicate SameRecord(s: Scheduler, t: Scheduler, id: Id) {
    id in s.heap ==> id in t.heap && t.heap[id] == s.heap[id]
  }

  lemma {:induction false} ProcessQueueSame(s: Scheduler, env: Env, id: Id)
    requires id !in s.queue
    ensures SameRecord(s, ProcessQueue(s, env), id)
    decreases |s.queue|
  {
    if !s.isShuttingDown && s.queue != [] && |s.running| < s.maxConcurrentRuns {
      var k := FirstRunnable(s.heap, s.queue);
      if k < |s.queue| {
        StartSpawns(s, k, env);
        ShorterQueue(s, k, env);
        StartSame(s, k, env, id);
        hide Start, FirstRunnable;
        ProcessQueueSame(Start(s, k, env), env, id);
      }
    }
  }

  lemma StartSame(s: Scheduler, k: nat, env: Env, id: Id)
    requires k < |s.queue| && s.queue[k] in s.heap && id !in s.queue
    ensures SameRecord(s, Start(s, k, env), id)
  {
    hide Append;
    assert s.queue[k] in s.queue;
  }

  lemma FinalizeSame(s: Scheduler, other: Id, updates: Updates, env: Env, id: Id)
    requires other in s.heap && id != other && id !in s.queue
    ensures SameRecord(s, FinalizeJobIfNeeded(s, other, updates, env), id)
  {
    if !s.heap[other].finalized {
      FinalizeUnfolds(s, other, updates, env);
      ClosedSpawns(s, other, updates, env);
      hide Prune, ProcessQueue, Closed, Noted, FinalizeJobIfNeeded;
      ProcessQueueSame(Prune(Closed(Noted(s, other, updates, env), other, env.now)), env, id);
    }
  }

  /** A job that was cancelled by request while its start was being written. */
  ghost predicate CancelledInAwait(s: Scheduler, id: Id) {
    id in s.awaiting && id in s.heap && Terminal(s.heap[id]) && !s.heap[id].finalized
  }

  /** The loop of `shutdown` over the running jobs finds this one in the index when it comes to it. */
  ghost predicate FoundByShutdown(s: Scheduler, id: Id, env: Env) {
    exists k :: 0 <= k < |s.running| && s.running[k] == id
                && id in AbortAll(s.(isShuttingDown := true, queue := []), s.running[..k], env).jobs
  }

  /** Up to entry `m` of the loop: the job is final if it was found at its own turn, and otherwise as before. */
  lemma {:induction false} AbortAllFate(s: Scheduler, ids: seq<Id>, id: Id, k: nat, m: nat, env: Env)
    requires Core(s) && s.isShuttingDown && s.queue == [] && Unique(ids)
    requires k < m <= |ids| && ids[k] == id && id in s.heap && !s.heap[id].finalized
    ensures var t := AbortAll(s, ids[..m], env);
            && id in t.heap
            && (if id in AbortAll(s, ids[..k], env).jobs then t.heap[id].finalized else t.heap[id] == s.heap[id])
    decreases m
  {
    hide Core, Abort, Frozen;
    assert ids[..m][..m - 1] == ids[..m - 1] && ids[..m][m - 1] == ids[m - 1];
    var u := AbortAll(s, ids[..m - 1], env);
    AbortAllKeeps(s, ids[..m - 1], env);
    FrozenKeys(s, u);
    AbortKeeps(u, ids[m - 1], env);
    FrozenKeys(u, Abort(u, ids[m - 1], env));
    if m == k + 1 {
      forall x <- ids[..k] ensures x != id {
        var i :| 0 <= i < k && ids[i] == x;
      }
      AbortMissing(u, id, env);
    } else {
      AbortAllFate(s, ids, id, k, m - 1, env);
      assert ids[m - 1] != id;
    }
  }

  lemma AbortMissing(s: Scheduler, id: Id, env: Env)
    ensures id !in s.jobs ==> Abort(s, id, env) == s
  {
  }

  lemma ShutdownFate(s: Scheduler, env: Env, id: Id)
    requires Inv(s) && CancelledInAwait(s, id)
    ensures var t := Shutdown(s, env);
            id in t.heap && (if FoundByShutdown(s, id, env) then t.heap[id].finalized else t.heap[id] == s.heap[id])
  {
    AwaitingHasBegun(s, id);
    assert Unique(s.running);
    var k :| 0 <= k < |s.running| && s.running[k] == id;
    forall j | 0 <= j < |s.running| && s.running[j] == id ensures j == k {
      SameIndex(s.running, j, k);
    }
    var stopped := s.(isShuttingDown := true, queue := []);
    StopKeeps(s);
    hide Core, AbortAll, DropAll, Unique, Terminal;
    AbortAllFate(stopped, s.running, id, k, |s.running|, env);
    assert s.running[..|s.running|] == s.running;
    AbortAllQuiet(stopped, s.running, env);
    var u := AbortAll(stopped, s.running, env);
    DropAllSame(u, s.queue, env, id);
    assert FoundByShutdown(s, id, env) <==> id in AbortAll(stopped, s.running[..k], env).jobs;
  }

  lemma {:induction false} DropAllSame(s: Scheduler, ids: seq<Id>, env: Env, id: Id)
    requires s.isShuttingDown && id !in ids
    ensures SameRecord(s, DropAll(s, ids, env), id)
    decreases |ids|
  {
    hide Drop;
    if ids != [] {
      DropAllSame(s, ids[..|ids| - 1], env, id);
      DropAllSpawnsNothing(s, ids[..|ids| - 1], env);
      DropSpawnsNothing(DropAll(s, ids[..|ids| - 1], env), ids[|ids| - 1], env);
      assert ids[|ids| - 1] in ids;
    }
  }

  lemma CancelledIsNeither(s: Scheduler, id: Id)
    requires Inv(s) && CancelledInAwait(s, id)
    ensures !IsQueuedSoyuz(s, id) && Terminal(s.heap[id])
  {
  }

  lemma SubmitSame(s: Scheduler, other: Id, job: Job, env: Env, id: Id)
    requires other !in s.heap && id in s.heap && id !in s.queue
    ensures SameRecord(s, ProcessQueue(Enqueue(s, other, job), env), id)
  {
    ProcessQueueSame(Enqueue(s, other, job), env, id);
  }

  lemma CancelOfOther(s: Scheduler, e: Event, env: Env, id: Id)
    requires id in s.heap && Terminal(s.heap[id])
    ensures e.CancelEvent? ==> SameRecord(s, Cancel(s, e.id, env.now), id)
    ensures e.HoldEvent? ==> SameRecord(s, Hold(s, e.id), id)
  {
    hide Without;
  }

  lemma CancelSoyuzSame(s: Scheduler, other: Id, durable: bool, env: Env, id: Id)
    requires id in s.heap && Terminal(s.heap[id]) && id !in s.queue
    ensures SameRecord(s, CancelSoyuz(s, other, durable, env), id)
  {
    hide FinalizeJobIfNeeded, Without;
    if other != id && other in s.heap && s.heap[other].soyuz.Some? {
      FinalizeSame(WithGate(s, other, s.heap[other].soyuz.value.(cancellationRequested := true)), other, CANCELLED, env, id);
    }
  }

  lemma PersistedSame(s: Scheduler, other: Id, durable: bool, env: Env, id: Id)
    requires other != id && id !in s.queue
    ensures SameRecord(s, Persisted(s, other, durable, env), id)
  {
    hide FinalizeJobIfNeeded;
    if other in s.awaiting && other in s.heap {
      var u := s.(awaiting := s.awaiting - {other});
      FinalizeSame(u, other, Updates(Failed, EXIT_CODE_SPAWN_FAILED, Some("local_persistence_failed")), env, id);
      FinalizeSame(u, other, CANCELLED, env, id);
    }
  }

  /** Nothing but a shutdown that finds it, and the end of its await, touches the record of such a job. */
  lemma CancelledStays(s: Scheduler, e: Event, env: Env, id: Id)
    requires Inv(s) && CancelledInAwait(s, id) && !EndsAwait(e, id)
    ensures var t := Step(s, e, env);
            id in t.heap && (if e.ShutdownEvent? && FoundByShutdown(s, id, env) then t.heap[id].finalized
                             else t.heap[id] == s.heap[id])
  {
    AwaitingHasBegun(s, id);
    CancelledIsNeither(s, id);
    CancelOfOther(s, e, env, id);
    hide Inv, ProcessQueue, FinalizeJobIfNeeded, Shutdown, Without, FoundByShutdown, IsQueuedSoyuz, Terminal, CancelledInAwait,
         Cancel, CancelSoyuz, Persisted, Authorize, Enqueue, Hold;
    hide ExitUpdates;
    match e
    case SubmitEvent(other, webhook) =>
      if other !in s.heap { SubmitSame(s, other, NewJob(s, None, webhook, env.now), env, id); }
    case SubmitSoyuzEvent(other) =>
      if other !in s.heap { SubmitSame(s, other, NewJob(s, Some(Gate(false, false, false)), false, env.now), env, id); }
    case AuthorizeEvent(other, durable) => AuthorizeSame(s, other, durable, env, id);
    case HoldEvent(other) =>
    case CancelEvent(other) =>
    case CancelSoyuzEvent(other, durable) => CancelSoyuzSame(s, other, durable, env, id);
    case PersistedEvent(other, durable) => PersistedSame(s, other, durable, env, id);
    case LaunchFailedEvent(other) =>
      if other in s.failing && other in s.heap {
        FinalizeSame(s.(failing := s.failing - {other}), other,
                     Updates(Failed, EXIT_CODE_SPAWN_FAILED, Some("scheduler_start_failed")), env, id);
      }
    case ExitEvent(other, code, timedOut, reported) =>
      if other in s.spawned && other in s.heap {
        FinalizeSame(s.(processes := s.processes - {other}), other,
                     ExitUpdates(s.heap[other], code, timedOut, reported), env, id);
      }
    case SpawnErrorEvent(other, storage) =>
      if other in s.spawned && other in s.heap {
        var failureClass := if storage then "storage_exhausted" else "spawn_error";
        FinalizeSame(s.(processes := s.processes - {other}), other,
                     Updates(Failed, EXIT_CODE_SPAWN_FAILED, Some(failureClass)), env, id);
      }
    case ShutdownEvent => ShutdownFate(s, env, id);
  }

  lemma AuthorizeSame(s: Scheduler, other: Id, durable: bool, env: Env, id: Id)
    requires id !in s.queue && (other == id ==> !IsQueuedSoyuz(s, id))
    ensures SameRecord(s, Authorize(s, other, durable, env), id)
  {
    hide ProcessQueue;
    if IsQueuedSoyuz(s, other) {
      var gate := s.heap[other].soyuz.value.(startAuthorized := true, startNeedsCanonicalRecheck := !durable);
      ProcessQueueSame(s, env, id);
      ProcessQueueSame(WithGate(s, other, gate).(queue := Append(s.queue, other)), env, id);
    }
  }

  // ---------------------------------------------------------------- runs during the await

  ghost predicate StillAwaited(events: seq<(Event, Env)>, id: Id) {
    forall e <- events :: !EndsAwait(e.0, id)
  }

  /** Some shutdown among the events finds the job in the index. */
  ghost predicate ShutdownTakes(s: Scheduler, events: seq<(Event, Env)>, id: Id)
    decreases |events|
  {
    events != []
    && ((events[0].0.ShutdownEvent? && FoundByShutdown(s, id, events[0].1))
        || ShutdownTakes(Step(s, events[0].0, events[0].1), events[1..], id))
  }

  lemma {:induction false} AwaitingThroughRun(s: Scheduler, events: seq<(Event, Env)>, id: Id)
    requires Inv(s) && id in s.awaiting && StillAwaited(events, id)
    ensures id in Run(s, events).awaiting
    decreases |events|
  {
    if events != [] {
      AwaitingNotWaiting(s, id);
      assert events[0] in events;
      hide Inv, Step, Frozen, EndsAwait;
      OtherEventsQuiet(s, events[0].0, events[0].1, id);
      StepKeeps(s, events[0].0, events[0].1);
      AwaitingThroughRun(Step(s, events[0].0, events[0].1), events[1..], id);
    }
  }

  lemma {:induction false} CancelledThroughRun(s: Scheduler, events: seq<(Event, Env)>, id: Id)
    requires Inv(s) && CancelledInAwait(s, id) && StillAwaited(events, id)
    ensures var t := Run(s, events);
            && Inv(t) && id in t.awaiting && id in t.heap
            && (if ShutdownTakes(s, events, id) then t.heap[id].finalized else t.heap[id] == s.heap[id])
    decreases |events|
  {
    RunKeeps(s, events);
    AwaitingThroughRun(s, events, id);
    if events != [] {
      var t := Step(s, events[0].0, events[0].1);
      assert events[0] in events;
      AwaitingNotWaiting(s, id);
      hide Inv, Step, Frozen, EndsAwait, FoundByShutdown;
      StepKeeps(s, events[0].0, events[0].1);
      CancelledStays(s, events[0].0, events[0].1, id);
      OtherEventsQuiet(s, events[0].0, events[0].1, id);
      if t.heap[id].finalized {
        RunKeeps(t, events[1..]);
        FrozenKeys(t, Run(t, events[1..]));
        assert ShutdownTakes(s, events, id);
      } else {
        CancelledThroughRun(t, events[1..], id);
      }
    }
  }

  /**
   * A Soyuz job is cancelled through `cancelJob` while its start is being written, and any events follow
   * before the write ends. Its end spawns the worker all the same, if and only if the write succeeded,
   * the launch does not throw, and no shutdown in between found the job in the index.
   */
  lemma CancelledJobLaunchesIff(s: Scheduler, id: Id, env: Env, between: seq<(Event, Env)>, durable: bool, later: Env)
    requires Inv(s) && id in s.awaiting && id in s.heap && id in s.jobs && s.heap[id].status.Running?
    requires !s.heap[id].finalized && s.heap[id].soyuz.Some? && !s.heap[id].soyuz.value.cancellationRequested
    requires StillAwaited(between, id)
    ensures var cancelled := Cancel(s, id, env.now);
            var t := Run(cancelled, between);
            id !in t.spawned
            && (id in Persisted(t, id, durable, later).spawned
                <==> durable && id !in later.broken && !ShutdownTakes(cancelled, between, id))
  {
    var cancelled := Cancel(s, id, env.now);
    CancelKeeps(s, id, env.now);
    assert CancelledInAwait(cancelled, id);
    assert cancelled.heap[id].soyuz == s.heap[id].soyuz;
    hide Inv, Frozen, Persisted, Cancel, ShutdownTakes, Run, StillAwaited;
    CancelledThroughRun(cancelled, between, id);
    var t := Run(cancelled, between);
    AwaitingHasBegun(t, id);
    SpawnIff(t, id, durable, later);
  }

  /** A finalized job that was never spawned stays so, whatever happens. */
  lemma {:induction false} FinalNeverSpawned(s: Scheduler, events: seq<(Event, Env)>, id: Id)
    requires Inv(s) && id in s.heap && s.heap[id].finalized && id !in s.spawned
    ensures id !in Run(s, events).spawned
    decreases |events|
  {
    if events != [] {
      hide Inv, Frozen, Step;
      var t := Step(s, events[0].0, events[0].1);
      StepKeeps(s, events[0].0, events[0].1);
      FrozenKeys(s, t);
      FinalStep(s, events[0].0, events[0].1, id);
      FinalNeverSpawned(t, events[1..], id);
    }
  }

  lemma FinalStep(s: Scheduler, e: Event, env: Env, id: Id)
    requires Inv(s) && id in s.heap && s.heap[id].finalized && id !in s.spawned
    ensures id !in Step(s, e, env).spawned
  {
    AwaitingNotWaiting(s, id);
    hide Inv, Persisted;
    if EndsAwait(e, id) {
      SpawnIff(s, id, e.durable, env);
    } else {
      hide Step;
      OtherEventsQuiet(s, e, env, id);
    }
  }

  /** `cancelSoyuzJob`, once its request is written, does stop the launch: the job is never spawned in any later run. */
  lemma SoyuzCancellationPreventsLaunch(s: Scheduler, id: Id, env: Env, events: seq<(Event, Env)>)
    requires Inv(s) && id in s.awaiting && id in s.heap && id in s.jobs && s.heap[id].status.Running?
    requires !s.heap[id].finalized && s.heap[id].soyuz.Some?
    ensures id !in Run(CancelSoyuz(s, id, true, env), events).spawned
  {
    AwaitingHasBegun(s, id);
    hide FinalizeJobIfNeeded;
    var asked := WithGate(s, id, s.heap[id].soyuz.value.(cancellationRequested := true));
    hide Inv;
    assert Touches(s, asked, id);
    RewriteKeeps(s, asked, id, asked.heap[id]);
    RunningNotQueued(asked, id);
    FinalizeFinishes(asked, id, CANCELLED, env);
    FinalizeSpawns(asked, id, CANCELLED, env);
    FinalNeverSpawned(FinalizeJobIfNeeded(asked, id, CANCELLED, env), events, id);
  }
}
