/** What every run of the scheduler keeps. */
module SchedulerRuns {
  import opened Wrappers
  import opened Seqs
  import opened SchedulerState

  // The concurrency cap, the queue discipline, one start and one finish for each job, one terminal
  // webhook, correct counters, and quiet after shutdown.

  datatype Event =
    | SubmitEvent(id: Id, webhook: bool)
    | SubmitSoyuzEvent(id: Id)
    | AuthorizeEvent(id: Id, durable: bool)
    | HoldEvent(id: Id)
    | CancelEvent(id: Id)
    | CancelSoyuzEvent(id: Id, durable: bool)
    | PersistedEvent(id: Id, durable: bool)
    | LaunchFailedEvent(id: Id)
    | ExitEvent(id: Id, code: int, timedOut: bool, reported: Option<string>)
    | SpawnErrorEvent(id: Id, storage: bool)
    | ShutdownEvent

  /** One event at the state `s`; a submission carries an id that no job has had. */
  function Step(s: Scheduler, e: Event, env: Env): Scheduler {
    match e
    case SubmitEvent(id, webhook) => if id in s.heap then s else Submit(s, id, webhook, env)
    case SubmitSoyuzEvent(id) => if id in s.heap then s else SubmitSoyuz(s, id, env)
    case AuthorizeEvent(id, durable) => Authorize(s, id, durable, env)
    case HoldEvent(id) => Hold(s, id)
    case CancelEvent(id) => Cancel(s, id, env.now)
    case CancelSoyuzEvent(id, durable) => CancelSoyuz(s, id, durable, env)
    case PersistedEvent(id, durable) => Persisted(s, id, durable, env)
    case LaunchFailedEvent(id) => LaunchFailed(s, id, env)
    case ExitEvent(id, code, timedOut, reported) => Exited(s, id, code, timedOut, reported, env)
    case SpawnErrorEvent(id, storage) => SpawnError(s, id, storage, env)
    case ShutdownEvent => Shutdown(s, env)
  }

  function Run(s: Scheduler, events: seq<(Event, Env)>): Scheduler
    decreases |events|
  {
    if events == [] then s else Run(Step(s, events[0].0, events[0].1), events[1..])
  }

  // ---------------------------------------------------------------- the invariant

  predicate Unique(ids: seq<Id>) { forall i, j :: 0 <= i < j < |ids| ==> ids[i] != ids[j] }

  /** Never more running than the cap; no id waits twice, runs twice, or waits while it runs. */
  predicate Slots(s: Scheduler) {
    && |s.running| <= s.maxConcurrentRuns
    && Unique(s.running) && Unique(s.queue)
    && forall id <- s.queue :: id !in s.running
  }

  predicate QueuedOk(s: Scheduler) {
    && (forall id <- s.jobs :: id in s.heap)
    && forall id <- s.queue :: id in s.heap && id in s.jobs && s.heap[id].status.Queued? && !s.heap[id].finalized
  }

  /** A running job that is no longer listed as such was cancelled. */
  predicate RunningOk(s: Scheduler) {
    forall id <- s.running ::
      && id in s.heap && !s.heap[id].finalized && id in s.begun
      && ((s.heap[id].status.Running? && id in s.jobs)
          || (s.heap[id].status.Failed? && s.heap[id].failureClass == Some("cancelled")))
  }

  /** Every job is started at most once, and keeps its slot until it is finalized. */
  predicate BegunOk(s: Scheduler) {
    && Unique(s.begun) && Unique(s.spawned)
    && (forall id <- s.begun :: id in s.heap && !s.heap[id].status.Queued? && (s.heap[id].finalized || id in s.running))
    && (forall id <- s.spawned :: id in s.begun)
    && (forall id <- s.awaiting :: id in s.begun && id !in s.spawned && id !in s.failing)
    && (forall id <- s.failing :: id in s.begun && id !in s.spawned)
    && (forall id <- s.processes :: id in s.spawned)
  }

  function CountStatus(heap: map<Id, Job>, ids: seq<Id>, status: Status): nat {
    if ids == [] then 0
    else
      CountStatus(heap, ids[..|ids| - 1], status)
      + (if ids[|ids| - 1] in heap && heap[ids[|ids| - 1]].status == status then 1 else 0)
  }

  /** The finalized jobs are those completed, withdrawn while queued, or restored so; the counters count the first. */
  ghost predicate Ledger(s: Scheduler) {
    && Unique(s.completed)
    && (forall id :: id in s.heap && s.heap[id].finalized <==>
          id in s.completed || id in s.withdrawn || id in s.restored)
    && (forall id <- s.heap :: s.heap[id].finalized ==> Terminal(s.heap[id]))
    && (forall id <- s.completed :: id !in s.withdrawn && id !in s.restored)
    && (forall id <- s.aborted :: id in s.completed)
    && s.successes == CountStatus(s.heap, s.completed, Completed)
    && s.failures == CountStatus(s.heap, s.completed, Failed)
  }

  function CountNotices(notices: seq<Notice>, id: Id): nat {
    if notices == [] then 0
    else CountNotices(notices[..|notices| - 1], id) + (if notices[|notices| - 1].id == id then 1 else 0)
  }

  /** A job's terminal webhook goes out when it is finalized, once, and tells its outcome. */
  ghost predicate Notices(s: Scheduler) {
    && (forall id :: id !in s.heap || id in s.restored ==> CountNotices(s.webhooks, id) == 0)
    && (forall id <- s.heap :: id !in s.restored ==>
          CountNotices(s.webhooks, id) == if s.heap[id].finalized && s.heap[id].webhook && id !in s.aborted then 1 else 0)
    && (forall n <- s.webhooks :: n.id in s.heap && s.heap[n.id].finalized && n.event == TerminalEvent(s.heap[n.id]))
  }

  predicate Local(heap: map<Id, Job>, id: Id) { id in heap && heap[id].soyuz.None? }

  predicate InOrder(heap: map<Id, Job>, ids: seq<Id>) {
    forall i, j :: 0 <= i < j < |ids| && Local(heap, ids[i]) && Local(heap, ids[j])
                   ==> heap[ids[i]].arrived < heap[ids[j]].arrived
  }

  /** Local jobs have begun, and will begin, in the order of their arrival. */
  predicate Fifo(s: Scheduler) {
    && (forall id <- s.heap :: s.heap[id].arrived < s.arrivals)
    && InOrder(s.heap, s.begun + s.queue)
  }

  /** No slot is left free while a job could use it. */
  predicate Settled(s: Scheduler) {
    s.isShuttingDown || |s.running| >= s.maxConcurrentRuns
    || forall id <- s.queue :: !(id in s.heap && Runnable(s.heap[id]))
  }

  ghost predicate Core(s: Scheduler) {
    Slots(s) && QueuedOk(s) && RunningOk(s) && BegunOk(s) && Ledger(s) && Notices(s) && Fifo(s)
  }

  /** Shutdown leaves running only jobs that had been dropped from the index. */
  predicate Evicted(s: Scheduler) { s.isShuttingDown ==> forall id <- s.running :: id !in s.jobs }

  ghost predicate Inv(s: Scheduler) { Core(s) && Settled(s) && Evicted(s) }

  /** Records are never lost, and a finalized one never changes. */
  predicate Frozen(s: Scheduler, t: Scheduler) {
    forall id <- s.heap :: id in t.heap && (s.heap[id].finalized ==> t.heap[id] == s.heap[id])
  }

  // ---------------------------------------------------------------- pruning

  predicate SameButJobs(s: Scheduler, t: Scheduler) { t == s.(jobs := t.jobs) }

  /** Pruning takes only jobs with a terminal status out of the index. */
  lemma PruneDropsTerminal(s: Scheduler)
    ensures SameButJobs(s, Prune(s))
    ensures forall id <- Prune(s).jobs :: id in s.jobs
    ensures forall id <- s.jobs :: id in Prune(s).jobs || (id in s.heap && Terminal(s.heap[id]))
  {
  }

  /** Dropping jobs with a terminal status from the index keeps everything else. */
  lemma FewerJobsKeepCore(s: Scheduler, jobs: seq<Id>)
    requires Core(s) && (forall id <- jobs :: id in s.jobs)
    requires forall id <- s.jobs :: id in jobs || (id in s.heap && Terminal(s.heap[id]))
    ensures Core(s.(jobs := jobs))
  {
    hide CountStatus, CountNotices, TerminalEvent, InOrder;
  }

  lemma PruneKeepsCore(s: Scheduler)
    requires Core(s)
    ensures Core(Prune(s))
  {
    hide Prune, Core;
    PruneDropsTerminal(s);
    FewerJobsKeepCore(s, Prune(s).jobs);
  }

  // ---------------------------------------------------------------- starting

  lemma WithoutUnique(ids: seq<Id>, id: Id)
    requires Unique(ids)
    ensures Unique(Without(ids, id)) && id !in Without(ids, id) && |Without(ids, id)| <= |ids|
    ensures forall x <- ids :: x == id || x in Without(ids, id)
    ensures forall x <- Without(ids, id) :: x in ids
  {
    assert Distinct(ids, (x: Id) => x);
    FilterKeepsDistinct(ids, (x: Id) => x != id, (x: Id) => x);
    var r := Without(ids, id);
    forall i, j | 0 <= i < j < |r| ensures r[i] != r[j] {
      assert ((x: Id) => x)(r[i]) != ((x: Id) => x)(r[j]);
    }
  }

  lemma RemovedUnique(ids: seq<Id>, k: nat)
    requires Unique(ids) && k < |ids|
    ensures var r := ids[..k] + ids[k + 1..];
            Unique(r) && ids[k] !in r && (forall x <- ids :: x == ids[k] || x in r) && (forall x <- r :: x in ids)
  {
  }

  lemma {:induction false} CountSame(heap: map<Id, Job>, other: map<Id, Job>, ids: seq<Id>, status: Status)
    requires forall id <- ids :: id in heap && id in other && heap[id] == other[id]
    ensures CountStatus(heap, ids, status) == CountStatus(other, ids, status)
  {
    if ids != [] {
      assert forall id <- ids[..|ids| - 1] :: id in ids;
      assert ids[|ids| - 1] in ids;
      CountSame(heap, other, ids[..|ids| - 1], status);
    }
  }

  /** `t` is `s` but for one job that is not finalized in either, and for fields that no record depends on. */
  ghost predicate Touches(s: Scheduler, t: Scheduler, id: Id) {
    && id in s.heap && !s.heap[id].finalized
    && id in t.heap && t.heap == s.heap[id := t.heap[id]]
    && !t.heap[id].finalized && t.heap[id].webhook == s.heap[id].webhook && t.heap[id].arrived == s.heap[id].arrived
    && t.heap[id].soyuz.Some? == s.heap[id].soyuz.Some?
    && t.completed == s.completed && t.withdrawn == s.withdrawn && t.aborted == s.aborted && t.restored == s.restored
    && t.successes == s.successes && t.failures == s.failures && t.webhooks == s.webhooks && t.arrivals == s.arrivals
  }

  lemma TouchKeepsLedger(s: Scheduler, t: Scheduler, id: Id)
    requires Touches(s, t, id) && Ledger(s)
    ensures Ledger(t) && Frozen(s, t)
  {
    hide Terminal;
    forall x <- s.completed ensures x in s.heap && x in t.heap && s.heap[x] == t.heap[x] {
      assert s.heap[x].finalized;
    }
    CountSame(s.heap, t.heap, s.completed, Completed);
    CountSame(s.heap, t.heap, s.completed, Failed);
    assert forall x :: x in t.heap && x != id ==> x in s.heap && t.heap[x] == s.heap[x];
  }

  lemma TouchKeepsNotices(s: Scheduler, t: Scheduler, id: Id)
    requires Touches(s, t, id) && Notices(s)
    ensures Notices(t)
  {
    hide TerminalEvent, CountNotices;
    assert forall x :: x in t.heap && x != id ==> x in s.heap && t.heap[x] == s.heap[x];
    forall n <- t.webhooks ensures n.id in t.heap && t.heap[n.id].finalized && n.event == TerminalEvent(t.heap[n.id]) {
      assert n.id != id;
    }
  }

  lemma TouchKeepsOrder(s: Scheduler, t: Scheduler, id: Id, ids: seq<Id>)
    requires Touches(s, t, id) && InOrder(s.heap, ids)
    ensures InOrder(t.heap, ids)
  {
    forall i, j | 0 <= i < j < |ids| && Local(t.heap, ids[i]) && Local(t.heap, ids[j])
      ensures t.heap[ids[i]].arrived < t.heap[ids[j]].arrived
    {
      assert Local(s.heap, ids[i]) && Local(s.heap, ids[j]);
    }
  }

  lemma StartKeepsOrder(heap: map<Id, Job>, begun: seq<Id>, queue: seq<Id>, k: nat)
    requires InOrder(heap, begun + queue) && k < |queue|
    requires forall i :: 0 <= i < k ==> !Local(heap, queue[i])
    ensures InOrder(heap, (begun + [queue[k]]) + (queue[..k] + queue[k + 1..]))
  {
    var old_, new_ := begun + queue, (begun + [queue[k]]) + (queue[..k] + queue[k + 1..]);
    var b := |begun|;
    forall i, j | 0 <= i < j < |new_| && Local(heap, new_[i]) && Local(heap, new_[j])
      ensures heap[new_[i]].arrived < heap[new_[j]].arrived
    {
      // where the entries of the new list stood in the old one; those skipped are not local
      var p := if i < b then i else if i == b then b + k else if i <= b + k then i - 1 else i;
      var q := if j < b then j else if j == b then b + k else if j <= b + k then j - 1 else j;
      assert new_[i] == old_[p] && new_[j] == old_[q];
    }
  }

  /** The state that a turn of `processQueue` leads to, field by field. */
  ghost predicate Starts(s: Scheduler, t: Scheduler, k: nat) {
    && k < |s.queue|
    && var id := s.queue[k];
    && Touches(s, t, id) && t.heap[id].status.Running?
    && t.jobs == s.jobs && t.queue == s.queue[..k] + s.queue[k + 1..]
    && t.running == s.running + [id] && t.begun == s.begun + [id]
    && t.maxConcurrentRuns == s.maxConcurrentRuns && !s.isShuttingDown && !t.isShuttingDown
    && ((t.awaiting == s.awaiting + {id} && t.failing == s.failing && t.processes == s.processes && t.spawned == s.spawned)
        || (t.awaiting == s.awaiting && t.failing == s.failing + {id} && t.processes == s.processes && t.spawned == s.spawned)
        || (t.awaiting == s.awaiting && t.failing == s.failing && t.processes == s.processes + {id}
            && t.spawned == s.spawned + [id]))
  }

  lemma StartStarts(s: Scheduler, k: nat, env: Env)
    requires Slots(s) && QueuedOk(s) && k < |s.queue| && !s.isShuttingDown
    ensures s.queue[k] in s.heap && Starts(s, Start(s, k, env), k)
  {
    assert s.queue[k] in s.queue;
  }

  lemma StartKeepsSlots(s: Scheduler, t: Scheduler, k: nat)
    requires Starts(s, t, k) && Slots(s) && |s.running| < s.maxConcurrentRuns
    ensures Slots(t)
  {
    hide Touches;
    assert s.queue[k] in s.queue;
    RemovedUnique(s.queue, k);
  }

  lemma StartKeepsQueued(s: Scheduler, t: Scheduler, k: nat)
    requires Starts(s, t, k) && QueuedOk(s) && Slots(s)
    ensures QueuedOk(t)
  {
    RemovedUnique(s.queue, k);
    forall id <- t.queue ensures id in t.heap && id in t.jobs && t.heap[id].status.Queued? && !t.heap[id].finalized {
      assert id in s.queue && id != s.queue[k];
    }
  }

  lemma StartKeepsRunning(s: Scheduler, t: Scheduler, k: nat)
    requires Starts(s, t, k) && QueuedOk(s) && RunningOk(s) && Slots(s)
    ensures RunningOk(t)
  {
    assert s.queue[k] in s.queue;
    forall id <- t.running ensures id == s.queue[k] || (id in s.running && t.heap[id] == s.heap[id]) {
    }
  }

  lemma StartKeepsBegun(s: Scheduler, t: Scheduler, k: nat)
    requires Starts(s, t, k) && QueuedOk(s) && BegunOk(s)
    ensures BegunOk(t)
  {
    var x := s.queue[k];
    assert x in s.queue;
    assert x !in s.begun;
    assert forall id <- s.begun :: t.heap[id] == s.heap[id];
    assert x !in s.spawned;
  }

  lemma StartKeepsFifo(s: Scheduler, t: Scheduler, k: nat)
    requires Starts(s, t, k) && Fifo(s) && forall i :: 0 <= i < k ==> !Local(s.heap, s.queue[i])
    ensures Fifo(t)
  {
    StartKeepsOrder(s.heap, s.begun, s.queue, k);
    TouchKeepsOrder(s, t, s.queue[k], t.begun + t.queue);
  }

  lemma StartKeepsCore(s: Scheduler, k: nat, env: Env)
    requires Core(s) && !s.isShuttingDown && |s.running| < s.maxConcurrentRuns
    requires k == FirstRunnable(s.heap, s.queue) && k < |s.queue|
    ensures Core(Start(s, k, env)) && Frozen(s, Start(s, k, env))
  {
    hide Slots, QueuedOk, RunningOk, BegunOk, Ledger, Notices, Fifo, Start, Frozen;
    StartStarts(s, k, env);
    var t := Start(s, k, env);
    StartKeepsSlots(s, t, k);
    StartKeepsQueued(s, t, k);
    StartKeepsRunning(s, t, k);
    StartKeepsBegun(s, t, k);
    TouchKeepsLedger(s, t, s.queue[k]);
    TouchKeepsNotices(s, t, s.queue[k]);
    StartKeepsFifo(s, t, k);
  }

  lemma {:induction false} ProcessQueueKeeps(s: Scheduler, env: Env)
    requires Core(s) && Evicted(s)
    ensures Inv(ProcessQueue(s, env)) && Frozen(s, ProcessQueue(s, env))
    decreases |s.queue|
  {
    hide Core, Start;
    if !s.isShuttingDown && s.queue != [] && |s.running| < s.maxConcurrentRuns {
      var k := FirstRunnable(s.heap, s.queue);
      if k < |s.queue| {
        StartKeepsCore(s, k, env);
        ShorterQueue(s, k, env);
        ProcessQueueKeeps(Start(s, k, env), env);
      } else {
        forall id <- s.queue ensures !(id in s.heap && Runnable(s.heap[id])) {
          var i :| 0 <= i < |s.queue| && s.queue[i] == id;
        }
      }
    }
  }

  lemma ShorterQueue(s: Scheduler, k: nat, env: Env)
    requires k < |s.queue| && s.queue[k] in s.heap
    ensures |Start(s, k, env).queue| == |s.queue| - 1 && Start(s, k, env).isShuttingDown == s.isShuttingDown
  {
  }

  // ---------------------------------------------------------------- finishing

  /** The state that finishing a job leads to before the index is pruned, field by field. */
  ghost predicate Closes(s: Scheduler, t: Scheduler, id: Id, notify: bool) {
    && id in s.heap && !s.heap[id].finalized && id !in s.queue
    && id in t.heap && t.heap == s.heap[id := t.heap[id]]
    && var done := t.heap[id];
    && done.finalized && Terminal(done) && done.arrived == s.heap[id].arrived
    && done.webhook == s.heap[id].webhook && done.soyuz.Some? == s.heap[id].soyuz.Some?
    && t.running == Without(s.running, id) && t.completed == s.completed + [id]
    && t.successes == s.successes + (if done.status.Completed? then 1 else 0)
    && t.failures == s.failures + (if done.status.Failed? then 1 else 0)
    && t.webhooks == s.webhooks + (if notify && done.webhook then [Notice(id, TerminalEvent(done))] else [])
    && t.aborted == s.aborted + (if notify then {} else {id})
    && t.maxConcurrentRuns == s.maxConcurrentRuns && t.isShuttingDown == s.isShuttingDown
    && t.jobs == s.jobs && t.queue == s.queue && t.begun == s.begun && t.spawned == s.spawned
    && t.awaiting == s.awaiting && t.failing == s.failing && t.processes == s.processes
    && t.withdrawn == s.withdrawn && t.restored == s.restored && t.arrivals == s.arrivals
  }

  lemma CloseKeepsPlaces(s: Scheduler, t: Scheduler, id: Id, notify: bool)
    requires Closes(s, t, id, notify) && Slots(s) && QueuedOk(s) && RunningOk(s) && BegunOk(s)
    ensures Slots(t) && QueuedOk(t) && RunningOk(t) && BegunOk(t)
  {
    hide TerminalEvent, Without;
    WithoutUnique(s.running, id);
    assert forall x <- t.running :: x in s.running && x != id;
    assert forall x <- t.queue :: x != id;
  }

  lemma CountOneMore(heap: map<Id, Job>, other: map<Id, Job>, ids: seq<Id>, id: Id, status: Status)
    requires id in other && forall x <- ids :: x in heap && x in other && heap[x] == other[x]
    ensures CountStatus(other, ids + [id], status)
            == CountStatus(heap, ids, status) + (if other[id].status == status then 1 else 0)
  {
    CountSame(heap, other, ids, status);
    assert (ids + [id])[..|ids|] == ids;
  }

  lemma CloseKeepsLedger(s: Scheduler, t: Scheduler, id: Id, notify: bool)
    requires Closes(s, t, id, notify) && Ledger(s)
    ensures Ledger(t) && Frozen(s, t)
  {
    hide TerminalEvent, Without, CountStatus;
    forall x <- s.completed ensures x in s.heap && x in t.heap && s.heap[x] == t.heap[x] && x != id {
      assert s.heap[x].finalized;
    }
    CountOneMore(s.heap, t.heap, s.completed, id, Completed);
    CountOneMore(s.heap, t.heap, s.completed, id, Failed);
    assert id !in s.withdrawn && id !in s.restored;
  }

  lemma CloseKeepsNotices(s: Scheduler, t: Scheduler, id: Id, notify: bool)
    requires Closes(s, t, id, notify) && Ledger(s) && Notices(s)
    ensures Notices(t)
  {
    hide TerminalEvent, Without, CountStatus;
    assert id !in s.aborted && id !in s.restored;
    if notify && t.heap[id].webhook {
      assert t.webhooks[..|t.webhooks| - 1] == s.webhooks;
    } else {
      assert t.webhooks == s.webhooks;
    }
    assert forall x :: CountNotices(t.webhooks, x)
                       == CountNotices(s.webhooks, x) + (if notify && t.heap[id].webhook && x == id then 1 else 0);
    forall n <- s.webhooks ensures n.id in t.heap && t.heap[n.id] == s.heap[n.id] {
      assert n.id != id;
    }
    forall x | x !in t.heap || x in t.restored ensures CountNotices(t.webhooks, x) == 0 {
      assert x != id;
    }
  }

  lemma CloseKeepsFifo(s: Scheduler, t: Scheduler, id: Id, notify: bool)
    requires Closes(s, t, id, notify) && Fifo(s)
    ensures Fifo(t)
  {
    hide TerminalEvent, Without;
    var ids := s.begun + s.queue;
    forall i, j | 0 <= i < j < |ids| && Local(t.heap, ids[i]) && Local(t.heap, ids[j])
      ensures t.heap[ids[i]].arrived < t.heap[ids[j]].arrived
    {
      assert Local(s.heap, ids[i]) && Local(s.heap, ids[j]);
    }
  }

  lemma CloseKeepsCore(s: Scheduler, t: Scheduler, id: Id, notify: bool)
    requires Closes(s, t, id, notify) && Core(s)
    ensures Core(Prune(t)) && Frozen(s, Prune(t))
    ensures forall x <- Prune(t).running :: x in s.running && x != id
    ensures forall x <- Prune(t).jobs :: x in s.jobs
    ensures SameButJobs(t, Prune(t))
  {
    hide Ledger, Notices, Fifo, Prune, Without, TerminalEvent, QueuedOk, RunningOk, BegunOk;
    CloseKeepsPlaces(s, t, id, notify);
    CloseKeepsLedger(s, t, id, notify);
    CloseKeepsNotices(s, t, id, notify);
    CloseKeepsFifo(s, t, id, notify);
    WithoutUnique(s.running, id);
    PruneKeepsCore(t);
    PruneDropsTerminal(t);
  }

  function Noted(s: Scheduler, id: Id, updates: Updates, env: Env): Scheduler
    requires id in s.heap
  {
    EmitTerminalWebhook(s.(heap := s.heap[id := Update(s.heap[id], updates, env.now)]), id)
  }

  lemma NotedCloses(s: Scheduler, id: Id, updates: Updates, env: Env)
    requires id in s.heap && !s.heap[id].finalized && id !in s.queue && (updates.status.Completed? || updates.status.Failed?)
    ensures id in Noted(s, id, updates, env).heap && Closes(s, Closed(Noted(s, id, updates, env), id, env.now), id, true)
    ensures FinalizeJobIfNeeded(s, id, updates, env)
            == var closed := Prune(Closed(Noted(s, id, updates, env), id, env.now));
               if s.isShuttingDown then closed else ProcessQueue(closed, env)
  {
    hide Prune, ProcessQueue, Without;
  }

  /** `finalizeJobIfNeeded`, for a job that is not waiting in the queue. */
  lemma FinalizeKeeps(s: Scheduler, id: Id, updates: Updates, env: Env)
    requires Inv(s) && id in s.heap && id !in s.queue && (updates.status.Completed? || updates.status.Failed?)
    ensures Inv(FinalizeJobIfNeeded(s, id, updates, env)) && Frozen(s, FinalizeJobIfNeeded(s, id, updates, env))
  {
    hide Core, Prune, ProcessQueue, Closed, Noted;
    if !s.heap[id].finalized {
      NotedCloses(s, id, updates, env);
      var t := Closed(Noted(s, id, updates, env), id, env.now);
      CloseKeepsCore(s, t, id, true);
      if !s.isShuttingDown {
        ProcessQueueKeeps(Prune(t), env);
      }
    }
  }

  // ---------------------------------------------------------------- one event

  /** Forgetting a process, a pending write or a failed launch. */
  ghost predicate Forgets(s: Scheduler, t: Scheduler) {
    && t == s.(awaiting := t.awaiting, failing := t.failing, processes := t.processes)
    && t.awaiting <= s.awaiting && t.failing <= s.failing && t.processes <= s.processes
  }

  lemma ForgetKeeps(s: Scheduler, t: Scheduler)
    requires Inv(s) && Forgets(s, t)
    ensures Inv(t) && Frozen(s, t)
  {
    hide CountStatus, CountNotices, InOrder, TerminalEvent;
  }

  /** A change to the record of a job that is neither queued nor finalized; only a cancelled one may turn terminal. */
  ghost predicate Rewrites(s: Scheduler, t: Scheduler, id: Id, job: Job) {
    && id in s.heap && !s.heap[id].finalized && !s.heap[id].status.Queued? && t == s.(heap := s.heap[id := job])
    && Touches(s, t, id) && !job.status.Queued?
    && (id in s.running ==>
          (job.status == s.heap[id].status && job.failureClass == s.heap[id].failureClass)
          || (job.status.Failed? && job.failureClass == Some("cancelled")))
  }

  lemma RewriteKeepsPlaces(s: Scheduler, t: Scheduler, id: Id, job: Job)
    requires Rewrites(s, t, id, job) && Slots(s) && QueuedOk(s) && RunningOk(s) && BegunOk(s)
    ensures Slots(t) && QueuedOk(t) && RunningOk(t) && BegunOk(t) && id !in s.queue
  {
    assert forall x :: x != id && x in s.heap ==> t.heap[x] == s.heap[x];
  }

  lemma RewriteKeepsSettled(s: Scheduler, t: Scheduler, id: Id, job: Job)
    requires Rewrites(s, t, id, job) && id !in s.queue && Settled(s) && Evicted(s)
    ensures Settled(t) && Evicted(t)
  {
    hide Touches, Runnable;
    assert forall x <- s.queue :: x in t.heap ==> x in s.heap && t.heap[x] == s.heap[x];
  }

  lemma RewriteKeeps(s: Scheduler, t: Scheduler, id: Id, job: Job)
    requires Inv(s) && Rewrites(s, t, id, job)
    ensures Inv(t) && Frozen(s, t)
  {
    hide Slots, QueuedOk, RunningOk, BegunOk, Ledger, Notices, InOrder, Frozen, Settled, Evicted, Touches;
    TouchKeepsLedger(s, t, id);
    TouchKeepsNotices(s, t, id);
    RewriteKeepsPlaces(s, t, id, job);
    RewriteKeepsSettled(s, t, id, job);
    RewriteKeepsFifo(s, t, id);
  }

  lemma RewriteKeepsFifo(s: Scheduler, t: Scheduler, id: Id)
    requires Touches(s, t, id) && Fifo(s) && t.begun == s.begun && t.queue == s.queue
    ensures Fifo(t)
  {
    TouchKeepsOrder(s, t, id, s.begun + s.queue);
  }

  /** The records after a new one is added, which changes none of the old. */
  lemma AddKeepsLedger(s: Scheduler, id: Id, job: Job)
    requires Ledger(s) && Notices(s) && id !in s.heap && !job.finalized
    requires id !in s.restored && forall x <- s.restored + s.withdrawn :: x in s.heap
    ensures Ledger(Enqueue(s, id, job)) && Frozen(s, Enqueue(s, id, job))
  {
    hide CountStatus;
    var t := Enqueue(s, id, job);
    CountSame(s.heap, t.heap, s.completed, Completed);
    CountSame(s.heap, t.heap, s.completed, Failed);
    assert forall x :: x in t.heap && x != id ==> x in s.heap && t.heap[x] == s.heap[x];
  }

  lemma AddKeepsNotices(s: Scheduler, id: Id, job: Job)
    requires Ledger(s) && Notices(s) && id !in s.heap && !job.finalized
    ensures Notices(Enqueue(s, id, job))
  {
    hide CountStatus, CountNotices, TerminalEvent;
    var t := Enqueue(s, id, job);
    assert forall x :: x in t.heap && x != id ==> x in s.heap && t.heap[x] == s.heap[x];
  }

  lemma AddKeepsPlaces(s: Scheduler, id: Id, job: Job)
    requires Slots(s) && QueuedOk(s) && RunningOk(s) && BegunOk(s) && Evicted(s)
    requires id !in s.heap && !job.finalized && job.status.Queued?
    ensures var t := Enqueue(s, id, job); Slots(t) && QueuedOk(t) && RunningOk(t) && BegunOk(t) && Evicted(t)
  {
    var t := Enqueue(s, id, job);
    assert forall x :: x in t.heap && x != id ==> x in s.heap && t.heap[x] == s.heap[x];
    assert id !in s.queue && id !in s.running && id !in s.begun;
  }

  lemma AddKeepsFifo(s: Scheduler, id: Id, job: Job)
    requires Fifo(s) && id !in s.heap && job.arrived == s.arrivals
    requires forall x <- s.begun + s.queue :: x in s.heap
    ensures Fifo(Enqueue(s, id, job))
  {
    var t := Enqueue(s, id, job);
    var was, ids := s.begun + s.queue, t.begun + t.queue;
    assert ids == was + [id];
    forall i, j | 0 <= i < j < |ids| && Local(t.heap, ids[i]) && Local(t.heap, ids[j])
      ensures t.heap[ids[i]].arrived < t.heap[ids[j]].arrived
    {
      assert ids[i] == was[i] && was[i] in was;
      if j < |was| { assert ids[j] == was[j] && was[j] in was; }
    }
  }

  lemma AddKeepsCore(s: Scheduler, id: Id, job: Job)
    requires Core(s) && Evicted(s) && id !in s.heap && !job.finalized && job.status.Queued? && job.arrived == s.arrivals
    ensures var t := Enqueue(s, id, job); Core(t) && Evicted(t) && Frozen(s, t)
  {
    forall x <- s.restored + s.withdrawn + {id} ensures x == id || x in s.heap {
    }
    assert id !in s.restored by { assert id !in s.heap; }
    forall x <- s.begun + s.queue ensures x in s.heap {
    }
    hide Slots, QueuedOk, RunningOk, BegunOk, Ledger, Notices, Fifo, Frozen, Enqueue, Evicted;
    AddKeepsLedger(s, id, job);
    AddKeepsNotices(s, id, job);
    AddKeepsPlaces(s, id, job);
    AddKeepsFifo(s, id, job);
  }

  lemma SubmitKeeps(s: Scheduler, id: Id, job: Job, env: Env)
    requires Inv(s) && id !in s.heap && !job.finalized && job.status.Queued? && job.arrived == s.arrivals
    ensures var t := ProcessQueue(Enqueue(s, id, job), env); Inv(t) && Frozen(s, t)
  {
    hide Core, Evicted, Enqueue, ProcessQueue, Settled;
    AddKeepsCore(s, id, job);
    ProcessQueueKeeps(Enqueue(s, id, job), env);
  }

  lemma GateKeeps(s: Scheduler, id: Id, gate: Gate, queue: seq<Id>)
    requires Inv(s) && IsQueuedSoyuz(s, id) && !s.heap[id].finalized
    requires queue == s.queue || queue == Append(s.queue, id)
    ensures var t := WithGate(s, id, gate).(queue := queue);
            && Core(t) && Evicted(t) && Frozen(s, t)
            && (queue == s.queue && !Runnable(t.heap[id]) ==> Settled(t))
  {
    var t := WithGate(s, id, gate).(queue := queue);
    assert Touches(s, t, id);
    GateKeepsPlaces(s, id, gate, queue);
    hide Slots, QueuedOk, RunningOk, BegunOk, Ledger, Notices, Frozen;
    TouchKeepsLedger(s, t, id);
    TouchKeepsNotices(s, t, id);
    TouchKeepsOrder(s, t, id, s.begun + s.queue);
    GateKeepsOrder(t.heap, s.begun + s.queue, id);
    assert t.begun + (s.queue + [id]) == (s.begun + s.queue) + [id];
  }

  lemma GateKeepsOrder(heap: map<Id, Job>, ids: seq<Id>, id: Id)
    requires InOrder(heap, ids) && !Local(heap, id)
    ensures InOrder(heap, ids + [id])
  {
  }

  lemma GateKeepsPlaces(s: Scheduler, id: Id, gate: Gate, queue: seq<Id>)
    requires Slots(s) && QueuedOk(s) && RunningOk(s) && BegunOk(s) && IsQueuedSoyuz(s, id) && !s.heap[id].finalized
    requires queue == s.queue || queue == Append(s.queue, id)
    ensures var t := WithGate(s, id, gate).(queue := queue);
            Slots(t) && QueuedOk(t) && RunningOk(t) && BegunOk(t)
  {
    assert id !in s.running && id !in s.begun;
  }

  lemma QueuedNotFinalized(s: Scheduler, id: Id)
    requires Inv(s) && id in s.heap && !Terminal(s.heap[id])
    ensures !s.heap[id].finalized
  {
  }

  lemma AuthorizeKeeps(s: Scheduler, id: Id, durable: bool, env: Env)
    requires Inv(s)
    ensures Inv(Authorize(s, id, durable, env)) && Frozen(s, Authorize(s, id, durable, env))
  {
    hide Core, Settled, Evicted, ProcessQueue;
    if IsQueuedSoyuz(s, id) {
      QueuedNotFinalized(s, id);
      if Runnable(s.heap[id]) {
        ProcessQueueKeeps(s, env);
      } else {
        var gate := s.heap[id].soyuz.value.(startAuthorized := true, startNeedsCanonicalRecheck := !durable);
        var queue := if durable then Append(s.queue, id) else s.queue;
        GateKeeps(s, id, gate, queue);
        var t := WithGate(s, id, gate).(queue := queue);
        if durable {
          ProcessQueueKeeps(t, env);
        } else {
          assert WithGate(s, id, gate) == t;
        }
      }
    }
  }

  lemma {:induction false} WithoutKeepsOrder(heap: map<Id, Job>, begun: seq<Id>, queue: seq<Id>, id: Id)
    requires InOrder(heap, begun + queue)
    ensures InOrder(heap, begun + Without(queue, id))
    decreases |queue|
  {
    if queue != [] {
      var head := if queue[0] != id then [queue[0]] else [];
      var ids, was := (begun + head) + queue[1..], begun + queue;
      forall i, j | 0 <= i < j < |ids| && Local(heap, ids[i]) && Local(heap, ids[j])
        ensures heap[ids[i]].arrived < heap[ids[j]].arrived
      {
        var skip := 1 - |head|;
        assert ids[i] == was[if i < |begun| then i else i + skip];
        assert ids[j] == was[if j < |begun| then j else j + skip];
      }
      WithoutKeepsOrder(heap, begun + head, queue[1..], id);
      assert begun + Without(queue, id) == (begun + head) + Without(queue[1..], id);
    }
  }

  /** Taking a job out of the queue. */
  lemma UnqueueKeeps(s: Scheduler, id: Id)
    requires Inv(s)
    ensures var t := s.(queue := Without(s.queue, id)); Inv(t) && Frozen(s, t) && id !in t.queue
  {
    hide Without, Runnable, Ledger, Notices, Fifo;
    WithoutUnique(s.queue, id);
    UnqueueKeepsRecords(s, id);
  }

  lemma UnqueueKeepsRecords(s: Scheduler, id: Id)
    requires Ledger(s) && Notices(s) && Fifo(s)
    ensures var t := s.(queue := Without(s.queue, id)); Ledger(t) && Notices(t) && Fifo(t)
  {
    hide Without, CountStatus, CountNotices, TerminalEvent, InOrder;
    WithoutKeepsOrder(s.heap, s.begun, s.queue, id);
  }

  ghost predicate Withdraws(s: Scheduler, t: Scheduler, id: Id) {
    && id in s.heap && id !in s.queue && s.heap[id].status.Queued? && !s.heap[id].finalized
    && id in t.heap && var done := t.heap[id];
    && done.finalized && done.status.Failed? && done.failureClass == Some("cancelled")
    && done.arrived == s.heap[id].arrived && done.webhook == s.heap[id].webhook
    && done.soyuz.Some? == s.heap[id].soyuz.Some?
    && t == s.(heap := s.heap[id := done], withdrawn := s.withdrawn + {id},
               webhooks := s.webhooks + (if done.webhook then [Notice(id, JobCancelled)] else []))
  }

  lemma WithdrawKeepsPlaces(s: Scheduler, t: Scheduler, id: Id)
    requires Withdraws(s, t, id) && Slots(s) && QueuedOk(s) && RunningOk(s) && BegunOk(s) && Settled(s) && Evicted(s)
    ensures Slots(t) && QueuedOk(t) && RunningOk(t) && BegunOk(t) && Settled(t) && Evicted(t)
  {
    hide Runnable;
    assert id !in s.running && id !in s.begun;
    assert forall x :: x != id && x in s.heap ==> t.heap[x] == s.heap[x];
  }

  lemma WithdrawKeepsLedger(s: Scheduler, t: Scheduler, id: Id)
    requires Withdraws(s, t, id) && Ledger(s)
    ensures Ledger(t) && Frozen(s, t)
  {
    hide CountStatus;
    forall x <- s.completed ensures x in s.heap && x in t.heap && s.heap[x] == t.heap[x] && x != id {
      assert s.heap[x].finalized;
    }
    CountSame(s.heap, t.heap, s.completed, Completed);
    CountSame(s.heap, t.heap, s.completed, Failed);
  }

  lemma WithdrawKeepsNotices(s: Scheduler, t: Scheduler, id: Id)
    requires Withdraws(s, t, id) && Ledger(s) && Notices(s)
    ensures Notices(t)
  {
    hide CountStatus;
    assert id !in s.aborted && id !in s.restored;
    if t.heap[id].webhook {
      assert t.webhooks[..|t.webhooks| - 1] == s.webhooks;
    } else {
      assert t.webhooks == s.webhooks;
    }
    assert forall x :: CountNotices(t.webhooks, x)
                       == CountNotices(s.webhooks, x) + (if t.heap[id].webhook && x == id then 1 else 0);
    hide CountNotices;
    forall n <- s.webhooks ensures n.id in t.heap && t.heap[n.id] == s.heap[n.id] {
      assert n.id != id;
    }
    forall x | x !in t.heap || x in t.restored ensures CountNotices(t.webhooks, x) == 0 {
      assert x != id;
    }
  }

  lemma WithdrawKeepsFifo(s: Scheduler, t: Scheduler, id: Id)
    requires Withdraws(s, t, id) && Fifo(s)
    ensures Fifo(t)
  {
    var ids := s.begun + s.queue;
    forall i, j | 0 <= i < j < |ids| && Local(t.heap, ids[i]) && Local(t.heap, ids[j])
      ensures t.heap[ids[i]].arrived < t.heap[ids[j]].arrived
    {
      assert Local(s.heap, ids[i]) && Local(s.heap, ids[j]);
    }
  }

  /** A job that is neither queued nor begun is closed by `cancelJob` itself. */
  lemma WithdrawKeeps(s: Scheduler, id: Id, done: Job)
    requires Inv(s) && id in s.heap && id !in s.queue && s.heap[id].status.Queued? && !s.heap[id].finalized
    requires done.finalized && done.status.Failed? && done.failureClass == Some("cancelled")
    requires done.arrived == s.heap[id].arrived && done.webhook == s.heap[id].webhook
             && done.soyuz.Some? == s.heap[id].soyuz.Some?
    ensures var t := s.(heap := s.heap[id := done], withdrawn := s.withdrawn + {id},
                        webhooks := s.webhooks + (if done.webhook then [Notice(id, JobCancelled)] else []));
            Inv(t) && Frozen(s, t)
  {
    var t := s.(heap := s.heap[id := done], withdrawn := s.withdrawn + {id},
                webhooks := s.webhooks + (if done.webhook then [Notice(id, JobCancelled)] else []));
    hide Slots, QueuedOk, RunningOk, BegunOk, Ledger, Notices, Fifo, Settled, Evicted, Frozen;
    WithdrawKeepsPlaces(s, t, id);
    WithdrawKeepsLedger(s, t, id);
    WithdrawKeepsNotices(s, t, id);
    WithdrawKeepsFifo(s, t, id);
  }

  lemma CancelKeeps(s: Scheduler, id: Id, now: int)
    requires Inv(s)
    ensures Inv(Cancel(s, id, now)) && Frozen(s, Cancel(s, id, now))
  {
    if id in s.jobs && id in s.heap && !Terminal(s.heap[id]) {
      QueuedNotFinalized(s, id);
      hide Inv, Frozen;
      var job := s.heap[id].(status := Failed, exitCode := Some(143), failureClass := Some("cancelled"));
      if s.heap[id].status.Queued? {
        UnqueueKeeps(s, id);
        var u := s.(queue := Without(s.queue, id));
        WithdrawKeeps(u, id, job.(completedAt := Some(now), finalized := true));
      } else {
        RewriteKeeps(s, Cancel(s, id, now), id, job);
      }
    }
  }

  lemma FrozenTrans(s: Scheduler, t: Scheduler, u: Scheduler)
    requires Frozen(s, t) && Frozen(t, u)
    ensures Frozen(s, u)
  {
  }

  lemma RunningNotQueued(s: Scheduler, id: Id)
    requires Inv(s) && id in s.heap && (!s.heap[id].status.Queued? || s.heap[id].finalized)
    ensures id !in s.queue
  {
  }

  lemma CancelSoyuzKeeps(s: Scheduler, id: Id, durable: bool, env: Env)
    requires Inv(s)
    ensures Inv(CancelSoyuz(s, id, durable, env)) && Frozen(s, CancelSoyuz(s, id, durable, env))
  {
    if id in s.jobs && id in s.heap && s.heap[id].soyuz.Some? && !Terminal(s.heap[id]) {
      QueuedNotFinalized(s, id);
      if s.heap[id].status.Queued? {
        CancelKeeps(s, id, env.now);
      } else if durable {
        var asked := WithGate(s, id, s.heap[id].soyuz.value.(cancellationRequested := true));
        hide Inv, Frozen, FinalizeJobIfNeeded;
        RewriteKeeps(s, asked, id, asked.heap[id]);
        RunningNotQueued(asked, id);
        FinalizeKeeps(asked, id, CANCELLED, env);
        FrozenTrans(s, asked, FinalizeJobIfNeeded(asked, id, CANCELLED, env));
      }
    }
  }

  /** Events about a job that has begun: it is not in the queue. */
  lemma BegunNotQueued(s: Scheduler, id: Id)
    requires Inv(s) && id in s.begun
    ensures id in s.heap && id !in s.queue
  {
  }

  lemma LaunchKeepsBegun(s: Scheduler, id: Id, env: Env)
    requires BegunOk(s) && id in s.begun && id !in s.spawned && id !in s.awaiting && id !in s.failing
    ensures BegunOk(Launch(s, id, env))
  {
  }

  /** What does not look at processes and launches does not change with them. */
  lemma LaunchKeepsRest(s: Scheduler, t: Scheduler)
    requires Inv(s)
    requires t == s.(failing := t.failing, processes := t.processes, spawned := t.spawned)
    ensures Slots(t) && QueuedOk(t) && RunningOk(t) && Settled(t) && Evicted(t)
    ensures Ledger(t) && Notices(t) && Fifo(t) && Frozen(s, t)
  {
    hide CountStatus, CountNotices, InOrder, TerminalEvent, Terminal, Runnable, Unique;
  }

  lemma LaunchKeeps(s: Scheduler, id: Id, env: Env)
    requires Inv(s) && id in s.begun && id !in s.spawned && id !in s.awaiting && id !in s.failing
    ensures Inv(Launch(s, id, env)) && Frozen(s, Launch(s, id, env))
  {
    hide Slots, QueuedOk, RunningOk, BegunOk, Ledger, Notices, Fifo, Settled, Evicted, Frozen;
    LaunchKeepsBegun(s, id, env);
    LaunchKeepsRest(s, Launch(s, id, env));
  }

  /** The events that only forget something and then finalize a job that has begun. */
  lemma ForgetFinalizeKeeps(s: Scheduler, t: Scheduler, id: Id, updates: Updates, env: Env)
    requires Inv(s) && Forgets(s, t) && id in s.begun && (updates.status.Completed? || updates.status.Failed?)
    ensures id in t.heap
    ensures var u := FinalizeJobIfNeeded(t, id, updates, env); Inv(u) && Frozen(s, u)
  {
    hide Inv, Frozen, FinalizeJobIfNeeded;
    ForgetKeeps(s, t);
    BegunNotQueued(t, id);
    FinalizeKeeps(t, id, updates, env);
    FrozenTrans(s, t, FinalizeJobIfNeeded(t, id, updates, env));
  }

  lemma PersistedKeeps(s: Scheduler, id: Id, durable: bool, env: Env)
    requires Inv(s)
    ensures Inv(Persisted(s, id, durable, env)) && Frozen(s, Persisted(s, id, durable, env))
  {
    if id in s.awaiting && id in s.heap {
      assert id in s.begun && id !in s.spawned && id !in s.failing;
      hide Inv, Frozen, FinalizeJobIfNeeded, Launch;
      var u := s.(awaiting := s.awaiting - {id});
      ForgetFinalizeKeeps(s, u, id, Updates(Failed, EXIT_CODE_SPAWN_FAILED, Some("local_persistence_failed")), env);
      ForgetFinalizeKeeps(s, u, id, CANCELLED, env);
      ForgetKeeps(s, u);
      LaunchKeeps(u, id, env);
      FrozenTrans(s, u, Launch(u, id, env));
    }
  }

  // ---------------------------------------------------------------- shutdown

  lemma NothingFrozen(s: Scheduler)
    ensures Frozen(s, s)
  {
  }

  function Marked(s: Scheduler, id: Id, env: Env): Scheduler
    requires id in s.heap
  {
    s.(heap := s.heap[id := Update(s.heap[id], Updates(Failed, 143, Some("shutdown_aborted")), env.now)],
       aborted := s.aborted + {id})
  }

  lemma MarkedCloses(s: Scheduler, id: Id, env: Env)
    requires id in s.heap && id in s.jobs && !s.heap[id].finalized && id !in s.queue && s.isShuttingDown
    ensures id in Marked(s, id, env).heap && Closes(s, Closed(Marked(s, id, env), id, env.now), id, false)
    ensures Abort(s, id, env) == Prune(Closed(Marked(s, id, env), id, env.now))
  {
    hide Prune, Without;
  }

  /** A turn of the loop over the running jobs closes that job, or finds it missing from the index. */
  lemma AbortKeeps(s: Scheduler, id: Id, env: Env)
    requires Core(s) && s.isShuttingDown && s.queue == []
    ensures var t := Abort(s, id, env);
            && Core(t) && Frozen(s, t) && t.isShuttingDown && t.queue == [] && t.begun == s.begun && t.spawned == s.spawned
            && (forall x <- t.running :: x in s.running && (x == id ==> x !in t.jobs))
            && (forall x <- t.jobs :: x in s.jobs)
            && (forall x <- s.heap :: x != id ==> t.heap[x] == s.heap[x])
            && (id in s.jobs && id in s.heap && !s.heap[id].finalized ==>
                  t.heap[id].finalized && t.heap[id].failureClass == Some("shutdown_aborted") && t.heap[id].exitCode == Some(143))
  {
    if id in s.jobs && id in s.heap && !s.heap[id].finalized {
      hide Core, Prune, Frozen;
      MarkedCloses(s, id, env);
      CloseKeepsCore(s, Closed(Marked(s, id, env), id, env.now), id, false);
    } else {
      forall x <- s.running ensures x == id ==> x !in s.jobs {
        assert Core(s);
      }
      NothingFrozen(s);
    }
  }

  lemma {:induction false} AbortAllKeeps(s: Scheduler, ids: seq<Id>, env: Env)
    requires Core(s) && s.isShuttingDown && s.queue == []
    ensures var t := AbortAll(s, ids, env);
            && Core(t) && Frozen(s, t) && t.isShuttingDown && t.queue == [] && t.begun == s.begun && t.spawned == s.spawned
            && (forall x <- t.running :: x in s.running && (x in ids ==> x !in t.jobs))
            && (forall x <- t.jobs :: x in s.jobs)
            && (forall x <- s.heap :: x !in ids ==> t.heap[x] == s.heap[x])
    decreases |ids|
  {
    hide Core, Abort, Frozen;
    if ids == [] {
      NothingFrozen(s);
    } else {
      var front, last := ids[..|ids| - 1], ids[|ids| - 1];
      assert ids == front + [last];
      AbortAllKeeps(s, front, env);
      var u := AbortAll(s, front, env);
      AbortKeeps(u, last, env);
      FrozenTrans(s, u, Abort(u, last, env));
      assert forall x <- s.heap :: x in u.heap by { assert Frozen(s, u); FrozenKeys(s, u); }
    }
  }

  lemma FrozenKeys(s: Scheduler, t: Scheduler)
    requires Frozen(s, t)
    ensures forall x <- s.heap :: x in t.heap
    ensures forall x <- s.heap :: s.heap[x].finalized ==> t.heap[x] == s.heap[x]
  {
  }

  lemma {:induction false} DropAllKeeps(s: Scheduler, ids: seq<Id>, env: Env)
    requires Inv(s) && s.isShuttingDown && s.queue == []
    ensures var t := DropAll(s, ids, env);
            && Inv(t) && Frozen(s, t) && t.isShuttingDown && t.queue == [] && t.begun == s.begun && t.spawned == s.spawned
            && forall x <- ids :: x in s.heap ==> x in t.heap && t.heap[x].finalized
    decreases |ids|
  {
    hide Inv, Frozen, Drop;
    if ids == [] {
      NothingFrozen(s);
    } else {
      var front, last := ids[..|ids| - 1], ids[|ids| - 1];
      assert ids == front + [last];
      DropAllKeeps(s, front, env);
      var u := DropAll(s, front, env);
      DropKeeps(u, last, env);
      FrozenKeys(s, u);
      FrozenKeys(u, Drop(u, last, env));
      FrozenTrans(s, u, Drop(u, last, env));
    }
  }

  lemma FinalizeIsQuiet(s: Scheduler, id: Id, updates: Updates, env: Env)
    requires s.isShuttingDown && id in s.heap
    ensures var t := FinalizeJobIfNeeded(s, id, updates, env);
            t.isShuttingDown && t.begun == s.begun && t.spawned == s.spawned
  {
    hide ProcessQueue, TerminalIds, NewestFirst, Without;
  }

  lemma DropKeeps(s: Scheduler, id: Id, env: Env)
    requires Inv(s) && s.isShuttingDown && s.queue == []
    ensures var t := Drop(s, id, env);
            && Inv(t) && Frozen(s, t) && t.isShuttingDown && t.queue == [] && t.begun == s.begun && t.spawned == s.spawned
            && (id in s.heap ==> id in t.heap && t.heap[id].finalized)
  {
    NothingFrozen(s);
    if id in s.heap {
      hide Inv, Frozen, FinalizeJobIfNeeded;
      var updates := Updates(Failed, 143, Some("shutdown_aborted"));
      FinalizeKeeps(s, id, updates, env);
      FinalizeIsQuiet(s, id, updates, env);
      FinalizeFinalizes(s, id, updates, env);
    }
  }

  lemma FinalizeFinalizes(s: Scheduler, id: Id, updates: Updates, env: Env)
    requires s.isShuttingDown && id in s.heap
    ensures var t := FinalizeJobIfNeeded(s, id, updates, env);
            id in t.heap && t.heap[id].finalized && t.queue == s.queue
  {
    hide ProcessQueue, TerminalIds, NewestFirst, Without, TerminalEvent;
  }

  lemma RunningStaysListed(s: Scheduler, id: Id)
    requires Core(s) && id in s.begun && id in s.heap && s.heap[id].status.Running? && !s.heap[id].finalized
    ensures id in s.jobs
  {
    assert id in s.running;
  }

  lemma {:induction false} AbortAllFinalizes(s: Scheduler, ids: seq<Id>, id: Id, env: Env)
    requires Core(s) && s.isShuttingDown && s.queue == [] && Unique(ids) && id in ids
    requires id in s.begun && id in s.heap && s.heap[id].status.Running? && !s.heap[id].finalized
    ensures var t := AbortAll(s, ids, env);
            && id in t.heap && t.heap[id].finalized
            && t.heap[id].failureClass == Some("shutdown_aborted") && t.heap[id].exitCode == Some(143)
    decreases |ids|
  {
    hide Core, Abort, Frozen;
    var front, last := ids[..|ids| - 1], ids[|ids| - 1];
    assert ids == front + [last];
    AbortAllKeeps(s, front, env);
    var u := AbortAll(s, front, env);
    FrozenKeys(s, u);
    AbortKeeps(u, last, env);
    FrozenKeys(u, Abort(u, last, env));
    if id == last {
      forall i | 0 <= i < |front| ensures front[i] != id {
        assert ids[i] == front[i] && ids[|ids| - 1] == id;
      }
      assert id !in front && u.heap[id] == s.heap[id];
      RunningStaysListed(u, id);
    } else {
      AbortAllFinalizes(s, front, id, env);
    }
  }

  lemma StopKeeps(s: Scheduler)
    requires Inv(s)
    ensures var t := s.(isShuttingDown := true, queue := []); Core(t) && Frozen(s, t)
  {
    hide CountStatus, CountNotices, TerminalEvent;
    var t := s.(isShuttingDown := true, queue := []);
    assert s.begun + s.queue == t.begun + t.queue + s.queue;
    assert forall i :: 0 <= i < |t.begun + t.queue| ==> (t.begun + t.queue)[i] == (s.begun + s.queue)[i];
  }

  /**
   * Shutdown closes everything that waits and every running job that nobody cancelled, and starts
   * nothing. A job still in `running` afterwards had been cancelled and dropped from the index.
   */
  lemma ShutdownKeeps(s: Scheduler, env: Env)
    requires Inv(s)
    ensures var t := Shutdown(s, env);
            && Inv(t) && Frozen(s, t) && t.isShuttingDown && t.queue == [] && t.begun == s.begun && t.spawned == s.spawned
            && (forall id <- s.queue :: id in t.heap && t.heap[id].finalized)
            && (forall id <- s.running :: id in s.heap && id in t.heap && (s.heap[id].status.Running? ==>
                  t.heap[id].finalized && t.heap[id].failureClass == Some("shutdown_aborted")))
  {
    var stopped := s.(isShuttingDown := true, queue := []);
    var u := AbortAll(stopped, s.running, env);
    assert Unique(s.running);
    assert forall id <- s.running :: id in s.heap && id in s.begun && !s.heap[id].finalized;
    assert forall id <- s.queue :: id in s.heap;
    hide Core, Frozen, AbortAll, DropAll;
    StopKeeps(s);
    AbortAllKeeps(stopped, s.running, env);
    forall id <- u.running ensures id !in u.jobs {
      assert id in s.running;
    }
    FrozenKeys(s, stopped);
    FrozenKeys(stopped, u);
    DropAllKeeps(u, s.queue, env);
    var t := DropAll(u, s.queue, env);
    FrozenKeys(u, t);
    FrozenTrans(s, stopped, u);
    FrozenTrans(s, u, t);
    forall id <- s.running | s.heap[id].status.Running?
      ensures t.heap[id].finalized && t.heap[id].failureClass == Some("shutdown_aborted")
    {
      AbortAllFinalizes(stopped, s.running, id, env);
    }
  }

  // ---------------------------------------------------------------- every event, every run

  /** Every event keeps the invariant, loses no record and leaves every finalized record as it is. */
  lemma StepKeeps(s: Scheduler, e: Event, env: Env)
    requires Inv(s)
    ensures Inv(Step(s, e, env)) && Frozen(s, Step(s, e, env))
  {
    hide Inv, Frozen, ProcessQueue, FinalizeJobIfNeeded, Shutdown, Cancel, CancelSoyuz, Persisted, Authorize, Enqueue;
    NothingFrozen(s);
    match e
    case SubmitEvent(id, webhook) =>
      if id !in s.heap { SubmitKeeps(s, id, NewJob(s, None, webhook, env.now), env); }
    case SubmitSoyuzEvent(id) =>
      if id !in s.heap { SubmitKeeps(s, id, NewJob(s, Some(Gate(false, false, false)), false, env.now), env); }
    case AuthorizeEvent(id, durable) => AuthorizeKeeps(s, id, durable, env);
    case HoldEvent(id) => UnqueueKeeps(s, id);
    case CancelEvent(id) => CancelKeeps(s, id, env.now);
    case CancelSoyuzEvent(id, durable) => CancelSoyuzKeeps(s, id, durable, env);
    case PersistedEvent(id, durable) => PersistedKeeps(s, id, durable, env);
    case LaunchFailedEvent(id) => LaunchFailedKeeps(s, id, env);
    case ExitEvent(id, code, timedOut, reported) => ExitedKeeps(s, id, code, timedOut, reported, env);
    case SpawnErrorEvent(id, storage) => SpawnErrorKeeps(s, id, storage, env);
    case ShutdownEvent => ShutdownKeeps(s, env);
  }

  lemma LaunchFailedKeeps(s: Scheduler, id: Id, env: Env)
    requires Inv(s)
    ensures Inv(LaunchFailed(s, id, env)) && Frozen(s, LaunchFailed(s, id, env))
  {
    NothingFrozen(s);
    if id in s.failing && id in s.heap {
      assert id in s.begun;
      hide Inv, Frozen, FinalizeJobIfNeeded;
      var updates := Updates(Failed, EXIT_CODE_SPAWN_FAILED, Some("scheduler_start_failed"));
      ForgetFinalizeKeeps(s, s.(failing := s.failing - {id}), id, updates, env);
    }
  }

  lemma ExitedKeeps(s: Scheduler, id: Id, code: int, timedOut: bool, reported: Option<string>, env: Env)
    requires Inv(s)
    ensures Inv(Exited(s, id, code, timedOut, reported, env)) && Frozen(s, Exited(s, id, code, timedOut, reported, env))
  {
    NothingFrozen(s);
    if id in s.spawned && id in s.heap {
      assert id in s.begun;
      hide Inv, Frozen, FinalizeJobIfNeeded;
      ForgetFinalizeKeeps(
        s, s.(processes := s.processes - {id}), id, ExitUpdates(s.heap[id], code, timedOut, reported), env);
    }
  }

  lemma SpawnErrorKeeps(s: Scheduler, id: Id, storage: bool, env: Env)
    requires Inv(s)
    ensures Inv(SpawnError(s, id, storage, env)) && Frozen(s, SpawnError(s, id, storage, env))
  {
    NothingFrozen(s);
    if id in s.spawned && id in s.heap {
      assert id in s.begun;
      hide Inv, Frozen, FinalizeJobIfNeeded;
      var failureClass := if storage then "storage_exhausted" else "spawn_error";
      ForgetFinalizeKeeps(s, s.(processes := s.processes - {id}), id,
                          Updates(Failed, EXIT_CODE_SPAWN_FAILED, Some(failureClass)), env);
    }
  }

  lemma {:induction false} RunKeeps(s: Scheduler, events: seq<(Event, Env)>)
    requires Inv(s)
    ensures Inv(Run(s, events)) && Frozen(s, Run(s, events))
    decreases |events|
  {
    hide Inv, Frozen, Step;
    if events == [] {
      NothingFrozen(s);
    } else {
      var t := Step(s, events[0].0, events[0].1);
      StepKeeps(s, events[0].0, events[0].1);
      RunKeeps(t, events[1..]);
      FrozenTrans(s, t, Run(t, events[1..]));
    }
  }

  // ---------------------------------------------------------------- quiet after shutdown

  lemma StoppedQueueStandsStill(s: Scheduler, env: Env)
    requires s.isShuttingDown
    ensures ProcessQueue(s, env) == s
  {
  }

  /** After shutdown a worker is spawned by the end of an await, and by nothing else. */
  lemma QuietStep(s: Scheduler, e: Event, env: Env)
    requires Inv(s) && s.isShuttingDown
    ensures var t := Step(s, e, env);
            && t.isShuttingDown && t.begun == s.begun
            && (t.spawned != s.spawned <==>
                e.PersistedEvent? && e.durable && e.id in s.awaiting && e.id in s.heap && !s.heap[e.id].finalized
                && !(s.heap[e.id].soyuz.Some? && s.heap[e.id].soyuz.value.cancellationRequested)
                && e.id !in env.broken)
  {
    hide Inv, ProcessQueue, FinalizeJobIfNeeded, Shutdown, Without, Update;
    match e
    case SubmitEvent(id, webhook) =>
      StoppedQueueStandsStill(Enqueue(s, id, NewJob(s, None, webhook, env.now)), env);
    case SubmitSoyuzEvent(id) =>
      StoppedQueueStandsStill(Enqueue(s, id, NewJob(s, Some(Gate(false, false, false)), false, env.now)), env);
    case AuthorizeEvent(id, durable) => QuietAuthorize(s, id, durable, env);
    case HoldEvent(id) =>
    case CancelEvent(id) =>
    case CancelSoyuzEvent(id, durable) => QuietCancelSoyuz(s, id, durable, env);
    case PersistedEvent(id, durable) => QuietPersisted(s, id, durable, env);
    case LaunchFailedEvent(id) =>
      if id in s.failing && id in s.heap {
        FinalizeIsQuiet(s.(failing := s.failing - {id}), id,
                        Updates(Failed, EXIT_CODE_SPAWN_FAILED, Some("scheduler_start_failed")), env);
      }
    case ExitEvent(id, code, timedOut, reported) =>
      if id in s.spawned && id in s.heap {
        FinalizeIsQuiet(
          s.(processes := s.processes - {id}), id, ExitUpdates(s.heap[id], code, timedOut, reported), env);
      }
    case SpawnErrorEvent(id, storage) =>
      if id in s.spawned && id in s.heap {
        var failureClass := if storage then "storage_exhausted" else "spawn_error";
        FinalizeIsQuiet(s.(processes := s.processes - {id}), id,
                        Updates(Failed, EXIT_CODE_SPAWN_FAILED, Some(failureClass)), env);
      }
    case ShutdownEvent => ShutdownKeeps(s, env);
  }

  lemma QuietAuthorize(s: Scheduler, id: Id, durable: bool, env: Env)
    requires s.isShuttingDown
    ensures var t := Authorize(s, id, durable, env); t.isShuttingDown && t.begun == s.begun && t.spawned == s.spawned
  {
    hide Append;
  }

  lemma QuietCancelSoyuz(s: Scheduler, id: Id, durable: bool, env: Env)
    requires s.isShuttingDown
    ensures var t := CancelSoyuz(s, id, durable, env); t.isShuttingDown && t.begun == s.begun && t.spawned == s.spawned
  {
    hide FinalizeJobIfNeeded, Without;
    if id in s.heap && s.heap[id].soyuz.Some? {
      FinalizeIsQuiet(WithGate(s, id, s.heap[id].soyuz.value.(cancellationRequested := true)), id, CANCELLED, env);
    }
  }

  lemma QuietPersisted(s: Scheduler, id: Id, durable: bool, env: Env)
    requires s.isShuttingDown
    ensures var t := Persisted(s, id, durable, env);
            && t.isShuttingDown && t.begun == s.begun
            && (t.spawned != s.spawned <==>
                durable && id in s.awaiting && id in s.heap && !s.heap[id].finalized
                && !(s.heap[id].soyuz.Some? && s.heap[id].soyuz.value.cancellationRequested) && id !in env.broken)
  {
    hide FinalizeJobIfNeeded;
    if id in s.awaiting && id in s.heap {
      var u := s.(awaiting := s.awaiting - {id});
      FinalizeIsQuiet(u, id, Updates(Failed, EXIT_CODE_SPAWN_FAILED, Some("local_persistence_failed")), env);
      FinalizeIsQuiet(u, id, CANCELLED, env);
    }
  }

  /** The jobs that can still be spawned after shutdown: cancelled during their await, then dropped from the index. */
  lemma LateSpawnWasCancelled(s: Scheduler, id: Id)
    requires Inv(s) && s.isShuttingDown && id in s.awaiting && id in s.heap && !s.heap[id].finalized
    ensures id in s.running && id !in s.jobs && s.heap[id].status.Failed? && s.heap[id].failureClass == Some("cancelled")
  {
    assert id in s.begun;
  }

  /** Nothing begins in any run that starts after shutdown. */
  lemma {:induction false} NothingBeginsAfterShutdown(s: Scheduler, events: seq<(Event, Env)>)
    requires Inv(s) && s.isShuttingDown
    ensures Run(s, events).begun == s.begun && Run(s, events).isShuttingDown
    decreases |events|
  {
    hide Inv, Step, Frozen;
    if events != [] {
      QuietStep(s, events[0].0, events[0].1);
      StepKeeps(s, events[0].0, events[0].1);
      NothingBeginsAfterShutdown(Step(s, events[0].0, events[0].1), events[1..]);
    }
  }

  // ---------------------------------------------------------------- what the invariant means

  lemma {:induction false} NoticeCounts(notices: seq<Notice>, id: Id)
    ensures CountNotices(notices, id) == |Filter(notices, (n: Notice) => n.id == id)|
  {
    if notices != [] {
      var front, last := notices[..|notices| - 1], notices[|notices| - 1];
      assert notices == front + [last];
      NoticeCounts(front, id);
      FilterAppend(front, [last], (n: Notice) => n.id == id);
    }
  }

  /** At most one terminal webhook for a job, and exactly one once it is final, unless shutdown aborted it; it tells how the job ended. */
  lemma OneTerminalWebhook(s: Scheduler, id: Id)
    requires Inv(s) && id in s.heap && id !in s.restored
    ensures |Filter(s.webhooks, (n: Notice) => n.id == id)|
            == if s.heap[id].finalized && s.heap[id].webhook && id !in s.aborted then 1 else 0
    ensures forall n <- s.webhooks :: n.id == id ==>
              && (n.event.JobCancelled? <==> s.heap[id].failureClass == Some("cancelled"))
              && (n.event.JobCompleted? <==> s.heap[id].status.Completed? && s.heap[id].failureClass != Some("cancelled"))
              && (n.event.JobFailed? <==> s.heap[id].status.Failed? && s.heap[id].failureClass != Some("cancelled"))
  {
    NoticeCounts(s.webhooks, id);
  }

  lemma {:induction false} CountsAddUp(heap: map<Id, Job>, ids: seq<Id>)
    requires forall id <- ids :: id in heap && Terminal(heap[id])
    ensures CountStatus(heap, ids, Completed) + CountStatus(heap, ids, Failed) == |ids|
  {
    if ids != [] {
      assert ids[|ids| - 1] in ids;
      CountsAddUp(heap, ids[..|ids| - 1]);
    }
  }

  /** Successes and failures add up to the jobs that passed through `completeJob`, each counted once. */
  lemma CountersAddUp(s: Scheduler)
    requires Inv(s)
    ensures s.successes + s.failures == |s.completed| && Unique(s.completed)
    ensures forall id :: id in s.heap && s.heap[id].finalized && id !in s.restored && id !in s.withdrawn <==> id in s.completed
  {
    CountsAddUp(s.heap, s.completed);
  }

  /** When a job still waits though a later arrival has begun, one of the two is a Soyuz job. */
  lemma OvertakingIsGated(s: Scheduler, first: Id, second: Id)
    requires Inv(s) && first in s.queue && second in s.begun && s.heap[first].arrived <= s.heap[second].arrived
    ensures s.heap[first].soyuz.Some? || s.heap[second].soyuz.Some?
  {
    var i :| 0 <= i < |s.begun| && s.begun[i] == second;
    var j :| 0 <= j < |s.queue| && s.queue[j] == first;
    var ids := s.begun + s.queue;
    assert ids[i] == second && ids[|s.begun| + j] == first;
  }

  // ---------------------------------------------------------------- finishing while others await

  lemma {:induction false} AwaitingGrows(s: Scheduler, env: Env)
    ensures s.awaiting <= ProcessQueue(s, env).awaiting
    decreases |s.queue|
  {
    if !s.isShuttingDown && s.queue != [] && |s.running| < s.maxConcurrentRuns {
      var k := FirstRunnable(s.heap, s.queue);
      if k < |s.queue| {
        ShorterQueue(s, k, env);
        AwaitingGrows(Start(s, k, env), env);
      }
    }
  }

  lemma FinalizeFinishes(s: Scheduler, id: Id, updates: Updates, env: Env)
    requires Inv(s) && id in s.heap && !s.heap[id].finalized && id !in s.queue && updates.status.Failed?
    ensures var t := FinalizeJobIfNeeded(s, id, updates, env);
            Inv(t) && id in t.heap && t.heap[id].finalized && s.awaiting <= t.awaiting
  {
    FinalizeKeeps(s, id, updates, env);
    hide Inv, Prune, ProcessQueue, Core;
    NotedCloses(s, id, updates, env);
    var closed := Closed(Noted(s, id, updates, env), id, env.now);
    CloseKeepsCore(s, closed, id, true) by { assert Inv(s); }
    assert closed.awaiting == s.awaiting && Prune(closed).awaiting == s.awaiting;
    assert Prune(closed).heap[id].finalized;
    assert Evicted(Prune(closed)) by { assert Evicted(s); }
    ProcessQueueKeeps(Prune(closed), env);
    AwaitingGrows(Prune(closed), env);
  }

  // ---------------------------------------------------------------- where runs begin

  /** What `loadPersistedJobs` hands over: queued jobs claimed for this process, in any order, and any other records. */
  predicate Loadable(heap: map<Id, Job>, jobs: seq<Id>, queue: seq<Id>) {
    && Unique(queue) && (forall id <- jobs :: id in heap)
    && (forall id <- queue :: id in heap && id in jobs && heap[id].status.Queued? && !heap[id].finalized)
    && forall id <- heap :: heap[id].finalized ==> Terminal(heap[id])
  }

  /** The place of an id in a list, or the length of the list. */
  function PlaceOf(ids: seq<Id>, id: Id): (k: nat)
    ensures k <= |ids| && (k < |ids| <==> id in ids) && (k < |ids| ==> ids[k] == id)
  {
    if ids == [] || ids[0] == id then 0 else 1 + PlaceOf(ids[1..], id)
  }

  lemma PlaceOfEntry(ids: seq<Id>, i: nat)
    requires Unique(ids) && i < |ids|
    ensures PlaceOf(ids, ids[i]) == i
  {
    SameIndex(ids, PlaceOf(ids, ids[i]), i);
  }

  lemma SameIndex(ids: seq<Id>, j: nat, k: nat)
    requires Unique(ids) && j < |ids| && k < |ids| && ids[j] == ids[k]
    ensures j == k
  {
  }

  /** For this process the restored jobs arrive in the order of the restored queue. */
  function Renumbered(heap: map<Id, Job>, queue: seq<Id>): map<Id, Job> {
    map id <- heap :: heap[id].(arrived := PlaceOf(queue, id))
  }

  /** A restart closes the gate of every queued Soyuz job until it has been checked again. */
  function Recheck(heap: map<Id, Job>, queue: seq<Id>): map<Id, Job> {
    map id <- heap :: if id in queue && heap[id].soyuz.Some?
                      then heap[id].(soyuz := Some(heap[id].soyuz.value.(startNeedsCanonicalRecheck := true)))
                      else heap[id]
  }

  function FinalizedIds(heap: map<Id, Job>): set<Id> { set id <- heap | heap[id].finalized :: id }

  function Loaded(max: nat, maxEntries: nat, heap: map<Id, Job>, jobs: seq<Id>, queue: seq<Id>): Scheduler {
    Scheduler(max, maxEntries, false, Renumbered(heap, queue), jobs, queue, [], {}, {}, {}, 0, 0, [],
              [], [], [], {}, {}, FinalizedIds(heap), |queue| + 1)
  }

  function Begun(s: Scheduler, env: Env): Scheduler {
    var loaded := Prune(s);
    ProcessQueue(loaded.(heap := Recheck(loaded.heap, loaded.queue)), env)
  }

  /** `initializeFromPersistence`. */
  function Initialize(max: nat, maxEntries: nat, heap: map<Id, Job>, jobs: seq<Id>, queue: seq<Id>, env: Env): Scheduler {
    Begun(Loaded(max, maxEntries, heap, jobs, queue), env)
  }

  /** What loading leaves of a record: all but its number and, for a queued Soyuz job, its open gate. */
  lemma LoadingKeeps(heap: map<Id, Job>, queue: seq<Id>)
    ensures var other := Recheck(Renumbered(heap, queue), queue);
            other.Keys == heap.Keys
            && forall id <- heap ::
                 && other[id].status == heap[id].status && other[id].finalized == heap[id].finalized
                 && other[id].createdAt == heap[id].createdAt && other[id].soyuz.Some? == heap[id].soyuz.Some?
                 && other[id].arrived == PlaceOf(queue, id)
  {
  }

  lemma LoadedOrder(heap: map<Id, Job>, queue: seq<Id>)
    requires Unique(queue) && forall id <- queue :: id in heap
    ensures InOrder(Recheck(Renumbered(heap, queue), queue), queue)
  {
    LoadingKeeps(heap, queue);
    hide Recheck, Renumbered;
    var other := Recheck(Renumbered(heap, queue), queue);
    forall i, j | 0 <= i < j < |queue| && Local(other, queue[i]) && Local(other, queue[j])
      ensures other[queue[i]].arrived < other[queue[j]].arrived
    {
      PlaceOfEntry(queue, i);
      PlaceOfEntry(queue, j);
    }
  }

  lemma LoadedCore(s: Scheduler, heap: map<Id, Job>)
    requires Loadable(heap, s.jobs, s.queue) && s.heap == Recheck(Renumbered(heap, s.queue), s.queue)
    requires s.arrivals == |s.queue| + 1
    requires s.running == [] && s.awaiting == {} && s.failing == {} && s.processes == {} && s.webhooks == [] && s.begun == []
             && s.spawned == [] && s.completed == [] && s.withdrawn == {} && s.aborted == {} && s.successes == s.failures == 0
    requires s.restored == FinalizedIds(heap)
    ensures Core(s)
  {
    hide Ledger, Notices, Fifo, Recheck, Renumbered;
    LoadedRecords(s, heap);
    LoadingKeeps(heap, s.queue);
  }

  lemma LoadedRecords(s: Scheduler, heap: map<Id, Job>)
    requires Loadable(heap, s.jobs, s.queue) && s.heap == Recheck(Renumbered(heap, s.queue), s.queue)
    requires s.arrivals == |s.queue| + 1
    requires s.webhooks == [] && s.begun == [] && s.completed == [] && s.withdrawn == {} && s.aborted == {}
             && s.successes == s.failures == 0
    requires s.restored == FinalizedIds(heap)
    ensures Ledger(s) && Notices(s) && Fifo(s)
  {
    hide InOrder, TerminalEvent, Recheck, Renumbered, Terminal;
    LoadedOrder(heap, s.queue);
    LoadingKeeps(heap, s.queue);
    assert s.begun + s.queue == s.queue;
    assert forall id :: CountNotices(s.webhooks, id) == 0;
    assert Notices(s) by { hide CountNotices; }
    forall id <- s.heap ensures s.heap[id].finalized ==> Terminal(s.heap[id]) {
      TerminalByStatus(s.heap[id], heap[id]);
    }
  }

  lemma TerminalByStatus(job: Job, other: Job)
    requires job.status == other.status
    ensures Terminal(job) == Terminal(other)
  {
  }

  /** Every scheduler starts its run in a state that satisfies the invariant. */
  lemma InitializeKeeps(max: nat, maxEntries: nat, heap: map<Id, Job>, jobs: seq<Id>, queue: seq<Id>, env: Env)
    requires Loadable(heap, jobs, queue)
    ensures Inv(Initialize(max, maxEntries, heap, jobs, queue, env))
  {
    var s := Loaded(max, maxEntries, heap, jobs, queue);
    var rechecked := s.(heap := Recheck(s.heap, queue));
    var pruned := Prune(s).jobs;
    PruneDropsTerminal(s);
    hide Core, Prune, ProcessQueue, Recheck, Renumbered;
    LoadedCore(rechecked, heap);
    PrunedAreTerminal(s, rechecked, heap);
    FewerJobsKeepCore(rechecked, pruned);
    ProcessQueueKeeps(rechecked.(jobs := pruned), env);
    assert Prune(s).(heap := Recheck(s.heap, queue)) == rechecked.(jobs := pruned);
  }

  lemma PrunedAreTerminal(s: Scheduler, rechecked: Scheduler, heap: map<Id, Job>)
    requires s.heap == Renumbered(heap, s.queue) && rechecked.heap == Recheck(s.heap, s.queue)
    ensures forall id <- s.heap :: id in rechecked.heap && (Terminal(s.heap[id]) ==> Terminal(rechecked.heap[id]))
  {
    hide Renumbered;
  }

  /** So every reachable state satisfies it. */
  lemma ReachableKeeps(max: nat, maxEntries: nat, heap: map<Id, Job>, jobs: seq<Id>, queue: seq<Id>, env: Env,
                       events: seq<(Event, Env)>)
    requires Loadable(heap, jobs, queue)
    ensures Inv(Run(Initialize(max, maxEntries, heap, jobs, queue, env), events))
  {
    hide *;
    InitializeKeeps(max, maxEntries, heap, jobs, queue, env);
    RunKeeps(Initialize(max, maxEntries, heap, jobs, queue, env), events);
  }
}
