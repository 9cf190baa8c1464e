/**
 * A restart of the service: the scheduler takes its jobs from the durable index, which is written newest
 * first. Every restart gives a sound scheduler, whatever is stored; the order of submission survives it
 * only when no two of the waiting jobs were created at different times.
 */
module SchedulerRestart {
  import opened Wrappers
  import opened Seqs
  import opened Sorting
  import J = JobRecords
  import I = JobsIndex
  import P = JobPersistence
  import JobScheduling
  import SchedulerOutcomes
  import SchedulerRecords
  import opened SchedulerState
  import opened SchedulerRuns
  import opened SchedulerAwait

  /** The parts of a record that the persistence model keeps as text: its webhook and the state of its gate. */
  datatype Reader = Reader(webhook: J.PersistedJob -> bool, gate: J.Soyuz -> Gate)

  function StatusOf(status: J.Status): Status {
    match status
    case Queued => Status.Queued
    case Running => Status.Running
    case Completed => Status.Completed
    case Failed => Status.Failed
  }

  /** `deserializeJob`: a terminal record is final whatever it says. */
  function Deserialize(r: Reader, p: J.PersistedJob): Job {
    Job(if p.soyuz.Some? then Some(r.gate(p.soyuz.value)) else None, r.webhook(p), StatusOf(p.status), p.failureClass, p.exitCode,
        p.status.Completed? || p.status.Failed? || p.finalized, p.createdAt, p.startedAt, p.completedAt, 0)
  }

  function Ids(records: seq<J.PersistedJob>): seq<Id> { Map(records, (p: J.PersistedJob) => p.id) }

  function Heap(r: Reader, records: seq<J.PersistedJob>): map<Id, Job> {
    if records == [] then map[]
    else
      var last := records[|records| - 1];
      Heap(r, records[..|records| - 1])[last.id := Deserialize(r, last)]
  }

  /** The scheduler after a restart on these records, of which the controller `l` holds the queued ones it claimed. */
  function Restarted(max: nat, maxEntries: nat, r: Reader, records: seq<J.PersistedJob>, l: I.Loader, env: Env): Scheduler {
    Initialize(max, maxEntries, Heap(r, records), Ids(records), Ids(Filter(records, P.HeldBy(l))), env)
  }

  /** Records as the persistence manager leaves them: one for each id, newest first, only terminal ones marked final. */
  predicate Stored(records: seq<J.PersistedJob>) {
    && Distinct(records, P.JobId) && SortedBy(records, P.NewestCreatedFirst)
    && forall p <- records :: p.finalized ==> J.IsTerminal(p)
  }

  // ---------------------------------------------------------------- what is loaded

  lemma LastIsNew(records: seq<J.PersistedJob>)
    requires Distinct(records, P.JobId) && records != []
    ensures var (front, last) := (records[..|records| - 1], records[|records| - 1]);
            && Distinct(front, P.JobId) && records == front + [last]
            && (forall p <- front :: p in records && p.id != last.id) && forall p <- records :: p in front || p == last
  {
    var front, last := records[..|records| - 1], records[|records| - 1];
    assert records == front + [last];
    forall i, j | 0 <= i < j < |front| ensures P.JobId(front[i]) != P.JobId(front[j]) {
      assert P.JobId(records[i]) != P.JobId(records[j]);
    }
    forall p <- front ensures p.id != last.id {
      var i :| 0 <= i < |front| && front[i] == p;
      assert P.JobId(records[i]) != P.JobId(records[|records| - 1]);
    }
  }

  lemma {:induction false} HeapOf(r: Reader, records: seq<J.PersistedJob>)
    requires Distinct(records, P.JobId)
    ensures forall p <- records :: p.id in Heap(r, records) && Heap(r, records)[p.id] == Deserialize(r, p)
    ensures forall id <- Heap(r, records) :: exists p <- records :: p.id == id
  {
    hide Deserialize, Distinct;
    if records != [] {
      var front, last := records[..|records| - 1], records[|records| - 1];
      LastIsNew(records);
      HeapOf(r, front);
      assert Heap(r, records) == Heap(r, front)[last.id := Deserialize(r, last)];
      hide Heap;
      forall id <- Heap(r, records) ensures exists p <- records :: p.id == id {
        if id == last.id {
          assert last in records;
        } else {
          var p :| p in front && p.id == id;
          assert p in records;
        }
      }
    }
  }

  /** Filtering keeps distinct ids and the order of dates. */
  lemma {:induction false} HeldAreSorted(records: seq<J.PersistedJob>, keep: J.PersistedJob -> bool)
    requires SortedBy(records, P.NewestCreatedFirst) && Distinct(records, P.JobId)
    ensures SortedBy(Filter(records, keep), P.NewestCreatedFirst) && Distinct(Filter(records, keep), P.JobId)
  {
    FilterKeepsDistinct(records, keep, P.JobId);
    if records != [] {
      var rest := Filter(records[1..], keep);
      assert forall i, j :: 0 <= i < j < |records[1..]| ==> records[1..][i] == records[i + 1] && records[1..][j] == records[j + 1];
      assert Distinct(records[1..], P.JobId) by {
        forall i, j | 0 <= i < j < |records[1..]| ensures P.JobId(records[1..][i]) != P.JobId(records[1..][j]) {
          assert P.JobId(records[i + 1]) != P.JobId(records[j + 1]);
        }
      }
      HeldAreSorted(records[1..], keep);
      forall i | 0 <= i < |rest| ensures P.NewestCreatedFirst(records[0]) <= P.NewestCreatedFirst(rest[i]) {
        assert rest[i] in rest;
        var j :| 0 <= j < |records[1..]| && records[1..][j] == rest[i];
        assert records[j + 1] == rest[i];
      }
      if keep(records[0]) {
        PrependSorted(records[0], rest, P.NewestCreatedFirst);
      }
    }
  }

  lemma IdsAreUnique(records: seq<J.PersistedJob>)
    requires Distinct(records, P.JobId)
    ensures Unique(Ids(records))
    ensures forall id <- Ids(records) :: exists p <- records :: p.id == id
    ensures forall p <- records :: p.id in Ids(records)
  {
    forall i, j | 0 <= i < j < |records| ensures Ids(records)[i] != Ids(records)[j] {
      assert P.JobId(records[i]) != P.JobId(records[j]);
    }
    forall id <- Ids(records) ensures exists p <- records :: p.id == id {
      var i :| 0 <= i < |records| && Ids(records)[i] == id;
      assert records[i] in records;
    }
    forall p <- records ensures p.id in Ids(records) {
      var i :| 0 <= i < |records| && records[i] == p;
      assert Ids(records)[i] == p.id;
    }
  }

  lemma FinalIsTerminal(r: Reader, records: seq<J.PersistedJob>, id: Id)
    requires Stored(records) && id in Heap(r, records) && Heap(r, records)[id].finalized
    ensures Terminal(Heap(r, records)[id])
  {
    HeapOf(r, records);
    hide Heap, Distinct, SortedBy;
    var p :| p in records && p.id == id;
    assert Heap(r, records)[id] == Deserialize(r, p);
  }

  lemma HeldIsQueued(r: Reader, records: seq<J.PersistedJob>, l: I.Loader, id: Id)
    requires Stored(records) && id in Ids(Filter(records, P.HeldBy(l)))
    ensures id in Heap(r, records) && id in Ids(records)
    ensures Heap(r, records)[id].status.Queued? && !Heap(r, records)[id].finalized
  {
    var held := Filter(records, P.HeldBy(l));
    HeapOf(r, records);
    HeldAreSorted(records, P.HeldBy(l));
    IdsAreUnique(records);
    IdsAreUnique(held);
    hide Heap, Ids, Distinct, SortedBy;
    var p :| p in held && p.id == id;
    assert p in records && P.HeldBy(l)(p);
    assert Heap(r, records)[id] == Deserialize(r, p);
  }

  lemma KnownIds(r: Reader, records: seq<J.PersistedJob>)
    requires Distinct(records, P.JobId)
    ensures forall id <- Ids(records) :: id in Heap(r, records)
  {
    HeapOf(r, records);
    IdsAreUnique(records);
    hide Heap, Ids, Distinct;
    forall id <- Ids(records) ensures id in Heap(r, records) {
      var p :| p in records && p.id == id;
    }
  }

  /** Whatever the index holds, the scheduler can be started on it. */
  lemma StoredIsLoadable(r: Reader, records: seq<J.PersistedJob>, l: I.Loader)
    requires Stored(records)
    ensures Loadable(Heap(r, records), Ids(records), Ids(Filter(records, P.HeldBy(l))))
  {
    KnownIds(r, records);
    HeldAreSorted(records, P.HeldBy(l));
    IdsAreUnique(Filter(records, P.HeldBy(l)));
    hide Heap, Ids, Filter, SortedBy, Distinct, Stored, Terminal;
    var heap := Heap(r, records);
    forall id <- heap ensures heap[id].finalized ==> Terminal(heap[id]) {
      if heap[id].finalized { FinalIsTerminal(r, records, id); }
    }
    forall id <- Ids(Filter(records, P.HeldBy(l)))
      ensures id in heap && id in Ids(records) && heap[id].status.Queued? && !heap[id].finalized
    {
      HeldIsQueued(r, records, l, id);
    }
  }

  lemma RestartKeeps(max: nat, maxEntries: nat, r: Reader, records: seq<J.PersistedJob>, l: I.Loader, env: Env)
    requires Stored(records)
    ensures Inv(Restarted(max, maxEntries, r, records, l, env))
  {
    hide Initialize, Inv, Stored, Loadable;
    StoredIsLoadable(r, records, l);
    InitializeKeeps(max, maxEntries, Heap(r, records), Ids(records), Ids(Filter(records, P.HeldBy(l))), env);
  }

  // ---------------------------------------------------------------- the order after a restart

  /** Local jobs that have begun or wait stand in the order of their submission. */
  predicate SubmissionOrder(s: Scheduler) {
    forall i, j :: 0 <= i < j < |s.begun + s.queue|
                   && Local(s.heap, (s.begun + s.queue)[i]) && Local(s.heap, (s.begun + s.queue)[j])
                   ==> s.heap[(s.begun + s.queue)[i]].createdAt <= s.heap[(s.begun + s.queue)[j]].createdAt
  }

  /** What a restart makes of the claimed jobs: the same jobs, numbered by their place in the loaded queue. */
  lemma InitializeFacts(max: nat, maxEntries: nat, heap: map<Id, Job>, jobs: seq<Id>, queue: seq<Id>, env: Env)
    ensures var s := Initialize(max, maxEntries, heap, jobs, queue, env);
            && (forall x <- queue :: x in s.begun + s.queue) && (forall x <- s.begun + s.queue :: x in queue)
            && forall x <- heap :: x in s.heap && s.heap[x].createdAt == heap[x].createdAt
                                   && s.heap[x].soyuz.Some? == heap[x].soyuz.Some? && s.heap[x].arrived == PlaceOf(queue, x)
  {
    LoadingKeeps(heap, queue);
    var loaded := Loaded(max, maxEntries, heap, jobs, queue);
    PruneDropsTerminal(loaded);
    hide Recheck, Renumbered, Prune, ProcessQueue;
    var u := Prune(loaded).(heap := Recheck(Renumbered(heap, queue), queue));
    assert u.begun + u.queue == queue;
    ProcessQueueSamePeople(u, env);
  }

  /** The job is restored as its record says: how it ended if it had, and queued, or started again, if it had not begun. */
  ghost predicate RestoredAs(s: Scheduler, r: Reader, p: J.PersistedJob) {
    && p.id in s.heap
    && var job := s.heap[p.id];
    && job.createdAt == p.createdAt && job.completedAt == p.completedAt
    && job.failureClass == p.failureClass && job.exitCode == p.exitCode
    && job.webhook == r.webhook(p) && (job.soyuz.Some? <==> p.soyuz.Some?)
    && (job.finalized <==> p.finalized || p.status == J.Status.Completed || p.status == J.Status.Failed)
    && (job.status == Status.Completed <==> p.status == J.Status.Completed)
    && (job.status == Status.Failed <==> p.status == J.Status.Failed)
    && (p.status == J.Status.Queued ==> job.status == if p.id in s.begun then Running else Queued)
    && (p.id !in s.begun ==> job.startedAt == p.startedAt)
  }

  lemma HeldAreQueued(r: Reader, records: seq<J.PersistedJob>, l: I.Loader, p: J.PersistedJob)
    requires Stored(records) && p in records
    ensures p.id in Ids(Filter(records, P.HeldBy(l))) ==> p.status.Queued?
  {
    if p.id in Ids(Filter(records, P.HeldBy(l))) {
      var k :| 0 <= k < |Filter(records, P.HeldBy(l))| && Filter(records, P.HeldBy(l))[k].id == p.id;
      var q := Filter(records, P.HeldBy(l))[k];
      assert q in records && P.HeldBy(l)(q);
      var i, j :| 0 <= i < |records| && records[i] == p && 0 <= j < |records| && records[j] == q;
      assert P.JobId(records[i]) == P.JobId(records[j]);
    }
  }

  lemma OneRestored(t: Scheduler, heap: map<Id, Job>, queue: seq<Id>, r: Reader, p: J.PersistedJob, now: int)
    requires p.id in heap && heap[p.id] == Deserialize(r, p) && p.id in t.heap
    requires p.id in t.begun ==> p.id in queue
    requires p.id in queue ==> p.status.Queued?
    requires var kept := t.heap[p.id].(arrived := heap[p.id].arrived);
             if p.id in queue && heap[p.id].soyuz.Some?
             then p.id !in t.begun && kept == heap[p.id].(soyuz := Some(heap[p.id].soyuz.value.(startNeedsCanonicalRecheck := true)))
             else kept == if p.id in t.begun then SchedulerRecords.Started(heap[p.id], now) else heap[p.id]
    ensures RestoredAs(t, r, p)
  {
  }

  lemma BegunWasQueued(s: Scheduler, queue: seq<Id>, id: Id)
    requires forall x <- s.begun + s.queue :: x in queue
    ensures id in s.begun ==> id in queue
  {
    if id in s.begun { assert id in s.begun + s.queue; }
  }

  /** A restart restores every stored job as its record says. */
  lemma JobsAreRestored(max: nat, maxEntries: nat, r: Reader, records: seq<J.PersistedJob>, l: I.Loader, env: Env)
    requires Stored(records)
    ensures forall p <- records :: RestoredAs(Restarted(max, maxEntries, r, records, l, env), r, p)
  {
    var heap, ids, queue := Heap(r, records), Ids(records), Ids(Filter(records, P.HeldBy(l)));
    var t := Restarted(max, maxEntries, r, records, l, env);
    assert Distinct(records, P.JobId);
    hide Heap, Ids, Filter, Initialize, Loadable, Stored, Deserialize, RestoredAs, Distinct, PlaceOf;
    HeapOf(r, records);
    StoredIsLoadable(r, records, l);
    InitializeFacts(max, maxEntries, heap, ids, queue, env);
    SchedulerRecords.InitializeRecords(max, maxEntries, heap, ids, queue, env);
    forall p <- records ensures RestoredAs(t, r, p) {
      HeldAreQueued(r, records, l, p);
      BegunWasQueued(t, queue, p.id);
      OneRestored(t, heap, queue, r, p, env.now);
    }
  }

  /** The claimed local jobs. */
  predicate ClaimedLocal(records: seq<J.PersistedJob>, l: I.Loader, p: J.PersistedJob) {
    p in Filter(records, P.HeldBy(l)) && p.soyuz.None?
  }

  lemma ClaimedStand(max: nat, maxEntries: nat, r: Reader, records: seq<J.PersistedJob>, l: I.Loader, env: Env, p: J.PersistedJob)
    returns (i: nat, k: nat)
    requires Stored(records) && p in Filter(records, P.HeldBy(l))
    ensures var s, held := Restarted(max, maxEntries, r, records, l, env), Filter(records, P.HeldBy(l));
            && i < |s.begun + s.queue| && (s.begun + s.queue)[i] == p.id && k < |held| && held[k] == p
            && p.id in s.heap && s.heap[p.id].createdAt == p.createdAt && (Local(s.heap, p.id) <==> p.soyuz.None?)
            && s.heap[p.id].arrived == k
  {
    var held := Filter(records, P.HeldBy(l));
    HeldAreSorted(records, P.HeldBy(l));
    k := PlaceAmongHeld(held, p);
    HeldRecord(r, records, p);
    InitializeFacts(max, maxEntries, Heap(r, records), Ids(records), Ids(held), env);
    hide Heap, Initialize, Filter, Ids, Deserialize, Stored;
    var s := Restarted(max, maxEntries, r, records, l, env);
    assert p.id in s.begun + s.queue;
    i :| 0 <= i < |s.begun + s.queue| && (s.begun + s.queue)[i] == p.id;
  }

  lemma PlaceAmongHeld(held: seq<J.PersistedJob>, p: J.PersistedJob) returns (k: nat)
    requires Distinct(held, P.JobId) && p in held
    ensures k < |held| && held[k] == p && p.id in Ids(held) && PlaceOf(Ids(held), p.id) == k
  {
    IdsAreUnique(held);
    k :| 0 <= k < |held| && held[k] == p;
    assert Ids(held)[k] == p.id;
    PlaceOfEntry(Ids(held), k);
  }

  lemma HeldRecord(r: Reader, records: seq<J.PersistedJob>, p: J.PersistedJob)
    requires Stored(records) && p in records
    ensures p.id in Heap(r, records) && Heap(r, records)[p.id].createdAt == p.createdAt
    ensures Heap(r, records)[p.id].soyuz.None? <==> p.soyuz.None?
  {
    HeapOf(r, records);
    hide Heap;
    assert Heap(r, records)[p.id] == Deserialize(r, p);
  }

  lemma StandingIsClaimed(max: nat, maxEntries: nat, r: Reader, records: seq<J.PersistedJob>, l: I.Loader, env: Env, i: nat)
    returns (p: J.PersistedJob)
    requires Stored(records)
    requires i < |Restarted(max, maxEntries, r, records, l, env).begun + Restarted(max, maxEntries, r, records, l, env).queue|
    ensures p in Filter(records, P.HeldBy(l))
    ensures var s := Restarted(max, maxEntries, r, records, l, env);
            (s.begun + s.queue)[i] == p.id && p.id in s.heap && s.heap[p.id].createdAt == p.createdAt
            && (Local(s.heap, p.id) <==> p.soyuz.None?)
  {
    var held := Filter(records, P.HeldBy(l));
    HeldAreSorted(records, P.HeldBy(l));
    IdsAreUnique(held);
    InitializeFacts(max, maxEntries, Heap(r, records), Ids(records), Ids(held), env);
    hide Heap, Initialize, Filter, SortedBy, Distinct, Unique, Ids;
    var s := Restarted(max, maxEntries, r, records, l, env);
    var id := (s.begun + s.queue)[i];
    assert id in s.begun + s.queue;
    p :| p in held && p.id == id;
    var j, k := ClaimedStand(max, maxEntries, r, records, l, env, p);
  }

  /** Of two claimed local jobs with different dates the newer stands first. */
  lemma NewerStandsFirst(max: nat, maxEntries: nat, r: Reader, records: seq<J.PersistedJob>, l: I.Loader, env: Env,
                         older: J.PersistedJob, newer: J.PersistedJob)
    requires Stored(records) && ClaimedLocal(records, l, older) && ClaimedLocal(records, l, newer)
    requires older.createdAt < newer.createdAt
    ensures !SubmissionOrder(Restarted(max, maxEntries, r, records, l, env))
  {
    var s := Restarted(max, maxEntries, r, records, l, env);
    var held := Filter(records, P.HeldBy(l));
    RestartKeeps(max, maxEntries, r, records, l, env);
    HeldAreSorted(records, P.HeldBy(l));
    hide Restarted, Filter, Stored, Inv, Distinct, SortedBy;
    OrderOf(s);
    var i, p := ClaimedStand(max, maxEntries, r, records, l, env, older);
    var j, q := ClaimedStand(max, maxEntries, r, records, l, env, newer);
    OlderStandsLater(held, p, q);
    hide SubmissionOrder, InOrder;
    NumbersOrder(s.heap, s.begun + s.queue, i, j);
    Disordered(s, j, i);
  }

  lemma OlderStandsLater(held: seq<J.PersistedJob>, p: nat, q: nat)
    requires SortedBy(held, P.NewestCreatedFirst) && p < |held| && q < |held| && held[p].createdAt < held[q].createdAt
    ensures q < p
  {
    assert p < q ==> P.NewestCreatedFirst(held[p]) <= P.NewestCreatedFirst(held[q]);
  }

  lemma NumbersOrder(heap: map<Id, Job>, ids: seq<Id>, i: nat, j: nat)
    requires InOrder(heap, ids) && i < |ids| && j < |ids| && Local(heap, ids[i]) && Local(heap, ids[j])
    requires heap[ids[j]].arrived < heap[ids[i]].arrived
    ensures j < i
  {
  }

  lemma Disordered(s: Scheduler, j: nat, i: nat)
    requires j < i < |s.begun + s.queue|
    requires Local(s.heap, (s.begun + s.queue)[j]) && Local(s.heap, (s.begun + s.queue)[i])
    requires s.heap[(s.begun + s.queue)[i]].createdAt < s.heap[(s.begun + s.queue)[j]].createdAt
    ensures !SubmissionOrder(s)
  {
  }

  lemma OrderOf(s: Scheduler)
    requires Inv(s)
    ensures InOrder(s.heap, s.begun + s.queue)
  {
  }

  /**
   * The order of submission survives a restart if and only if no two claimed local jobs were created at
   * different times: the index is newest first, and so is the loaded queue.
   */
  lemma RestartKeepsSubmissionOrderIff(max: nat, maxEntries: nat, r: Reader, records: seq<J.PersistedJob>, l: I.Loader, env: Env)
    requires Stored(records)
    ensures SubmissionOrder(Restarted(max, maxEntries, r, records, l, env))
            <==> forall p, q :: ClaimedLocal(records, l, p) && ClaimedLocal(records, l, q) ==> p.createdAt == q.createdAt
  {
    var s := Restarted(max, maxEntries, r, records, l, env);
    hide Restarted, Filter, SortedBy, Stored, Distinct, P.HeldBy;
    if p, q :| ClaimedLocal(records, l, p) && ClaimedLocal(records, l, q) && p.createdAt != q.createdAt {
      if p.createdAt < q.createdAt {
        NewerStandsFirst(max, maxEntries, r, records, l, env, p, q);
      } else {
        NewerStandsFirst(max, maxEntries, r, records, l, env, q, p);
      }
    } else {
      var ids := s.begun + s.queue;
      forall i, j | 0 <= i < j < |ids| && Local(s.heap, ids[i]) && Local(s.heap, ids[j])
        ensures s.heap[ids[i]].createdAt <= s.heap[ids[j]].createdAt
      {
        var p := StandingIsClaimed(max, maxEntries, r, records, l, env, i);
        var q := StandingIsClaimed(max, maxEntries, r, records, l, env, j);
        assert ClaimedLocal(records, l, p) && ClaimedLocal(records, l, q);
      }
    }
  }

  /** Only terminal records are marked final; what a restart writes is of this form if what it finds is. */
  predicate FinalOnlyTerminal(records: seq<J.PersistedJob>) {
    forall p <- records :: p.finalized ==> J.IsTerminal(p)
  }

  lemma RestartedFinalOnlyTerminal(before: seq<J.PersistedJob>, after: seq<J.PersistedJob>, l: I.Loader)
    requires FinalOnlyTerminal(before) && |after| == |before|
    requires forall k :: 0 <= k < |before| ==> after[k] == I.Restarted(l, before[k])
    ensures FinalOnlyTerminal(after)
  {
    forall p <- after ensures p.finalized ==> J.IsTerminal(p) {
      var k :| 0 <= k < |after| && after[k] == p;
      assert before[k] in before;
    }
  }

  /** Starting the service: load the index, claim what can be claimed, and start the scheduler on it. */
  method StartService(manager: P.JobPersistenceManager, max: nat, maxEntries: nat, r: Reader, l: I.Loader, env: Env)
    returns (scheduler: JobScheduling.JobScheduler)
    requires manager.Valid() && FinalOnlyTerminal(manager.jobs)
    modifies manager
    ensures manager.Valid() && FinalOnlyTerminal(manager.jobs)
    ensures fresh(scheduler) && scheduler.Valid()
    ensures Stored(manager.jobs) && scheduler.State() == Restarted(max, maxEntries, r, manager.jobs, l, env)
    ensures |manager.jobs| == |old(manager.jobs)|
    ensures forall k :: 0 <= k < |manager.jobs| ==>
              I.SurvivesRestart(l, old(manager.jobs)[k], manager.jobs[k]) && RestoredAs(scheduler.State(), r, manager.jobs[k])
  {
    hide FinalOnlyTerminal, Loadable, Initialize, Heap, Ids, Filter, SchedulerOutcomes.Sound, I.Restarted, Distinct, SortedBy;
    ghost var before := manager.jobs;
    var queued := manager.LoadPersistedJobs(l);
    RestartedFinalOnlyTerminal(before, manager.jobs, l);
    StoredFrom(manager.jobs);
    StoredIsLoadable(r, manager.jobs, l);
    JobsAreRestored(max, maxEntries, r, manager.jobs, l, env);
    hide RestoredAs, I.SurvivesRestart;
    scheduler := new JobScheduling.JobScheduler(max, maxEntries, Heap(r, manager.jobs), Ids(manager.jobs), Ids(queued), env);
  }

  lemma StoredFrom(records: seq<J.PersistedJob>)
    requires Distinct(records, P.JobId) && SortedBy(records, P.NewestCreatedFirst) && FinalOnlyTerminal(records)
    ensures Stored(records)
  {
  }

  /** A queued local job as the index holds it, claimed by `l`. */
  function ClaimedJob(id: Id, createdAt: int, l: I.Loader): J.PersistedJob {
    J.PersistedJob(id, J.Status.Queued, createdAt, None, None, None, None, None, false, Some(I.ClaimOf(l)), None, "")
  }

  /** Two jobs submitted one after the other, a restart, and one free slot: the later one begins, the earlier one waits. */
  lemma RestartReversesOrder(r: Reader, l: I.Loader, env: Env)
    ensures var records := [ClaimedJob("kaseki-2", 2, l), ClaimedJob("kaseki-1", 1, l)];
            var s := Restarted(1, 100, r, records, l, env);
            Stored(records) && s.begun == ["kaseki-2"] && s.queue == ["kaseki-1"]
  {
    var newer, older := ClaimedJob("kaseki-2", 2, l), ClaimedJob("kaseki-1", 1, l);
    var records := [newer, older];
    assert newer.id[7] == '2' && older.id[7] == '1';
    TwoStored(newer, older);
    TwoHeld(newer, older, l);
    HeapOf(r, records);
    hide Heap, Filter, Ids, Initialize;
    assert newer in records && older in records;
    RestartsInOrderOfQueue(Heap(r, records), [newer.id, older.id], env);
  }

  lemma TwoStored(newer: J.PersistedJob, older: J.PersistedJob)
    requires newer.id != older.id && newer.createdAt >= older.createdAt && !newer.finalized && !older.finalized
    ensures Stored([newer, older]) && Ids([newer, older]) == [newer.id, older.id]
  {
  }

  lemma TwoHeld(newer: J.PersistedJob, older: J.PersistedJob, l: I.Loader)
    requires P.HeldBy(l)(newer) && P.HeldBy(l)(older)
    ensures Filter([newer, older], P.HeldBy(l)) == [newer, older]
  {
    assert [newer, older][1..] == [older] && [older][1..] == [];
  }

  /** Of two queued local jobs and one slot, the first of the loaded queue begins. */
  lemma RestartsInOrderOfQueue(heap: map<Id, Job>, ids: seq<Id>, env: Env)
    requires |ids| == 2 && ids[0] != ids[1] && forall id <- ids :: id in heap && heap[id].soyuz.None? && heap[id].status.Queued?
    ensures var s := Initialize(1, 100, heap, ids, ids, env); s.begun == [ids[0]] && s.queue == [ids[1]]
  {
    var loaded := Loaded(1, 100, heap, ids, ids);
    LoadingKeeps(heap, ids);
    PruneDropsTerminal(loaded);
    hide Prune, Recheck, Renumbered;
    var u := Prune(loaded).(heap := Recheck(Renumbered(heap, ids), ids));
    assert u.queue == ids && ids[0] in u.heap && Runnable(u.heap[ids[0]]);
    assert FirstRunnable(u.heap, u.queue) == 0;
    assert ids[..0] + ids[1..] == [ids[1]];
    var t := Start(u, 0, env);
    assert t.queue == [ids[1]] && t.begun == [ids[0]] && t.running == [ids[0]];
    assert ProcessQueue(t, env) == t;
  }
}
