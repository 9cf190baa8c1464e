/**
 * Pruning of the scheduler's job index: what it keeps, and a run in which it lets a cancelled job
 * slip past shutdown.
 */
module SchedulerIndex {
  import opened Wrappers
  import opened Seqs
  import opened Sorting
  import opened SchedulerState
  import opened SchedulerRuns

  /** When the job ended: its completion, else its start, else its creation. */
  predicate EndedAt(job: Job, t: int) {
    match (job.completedAt, job.startedAt)
    case (Some(c), _) => t == c
    case (None, Some(b)) => t == b
    case (None, None) => t == job.createdAt
  }

  /** `y` is at least as recent as `x`: it ended later, or at the same time and was created no earlier. */
  ghost predicate AtLeastAsNew(heap: map<Id, Job>, y: Id, x: Id) {
    && y in heap && x in heap
    && forall p, q :: EndedAt(heap[y], p) && EndedAt(heap[x], q) ==>
         p > q || (p == q && heap[y].createdAt >= heap[x].createdAt)
  }

  lemma NewerByKeys(heap: map<Id, Job>, y: Id, x: Id)
    requires y in heap && x in heap
    requires Recency(heap, y) > Recency(heap, x)
             || (Recency(heap, y) == Recency(heap, x) && Created(heap, y) >= Created(heap, x))
    ensures AtLeastAsNew(heap, y, x)
  {
  }

  /** Two elements with the same key keep their order in the list of the elements with that key. */
  lemma {:induction false} PlacesWithKey<T>(s: seq<T>, key: T -> int, i: nat, j: nat) returns (p: nat, q: nat)
    requires i < j < |s| && key(s[i]) == key(s[j])
    ensures p < q < |WithKey(s, key, key(s[i]))|
    ensures WithKey(s, key, key(s[i]))[p] == s[i] && WithKey(s, key, key(s[i]))[q] == s[j]
  {
    var k := key(s[i]);
    if i > 0 {
      p, q := PlacesWithKey(s[1..], key, i - 1, j - 1);
      if key(s[0]) == k { p, q := p + 1, q + 1; }
    } else {
      p := 0;
      q := PlaceWithKey(s[1..], key, j - 1);
      q := q + 1;
    }
  }

  lemma {:induction false} PlaceWithKey<T>(s: seq<T>, key: T -> int, j: nat) returns (q: nat)
    requires j < |s|
    ensures q < |WithKey(s, key, key(s[j]))| && WithKey(s, key, key(s[j]))[q] == s[j]
  {
    if j == 0 {
      q := 0;
    } else {
      q := PlaceWithKey(s[1..], key, j - 1);
      if key(s[0]) == key(s[j]) { q := q + 1; }
    }
  }

  lemma {:induction false} WithKeyKeepsSorted<T>(s: seq<T>, key: T -> int, k: int, other: T -> int)
    requires SortedBy(s, other)
    ensures SortedBy(WithKey(s, key, k), other)
    ensures forall x <- WithKey(s, key, k) :: x in s
  {
    if s != [] {
      WithKeyKeepsSorted(s[1..], key, k, other);
      var r := WithKey(s[1..], key, k);
      forall i | 0 <= i < |r| ensures other(s[0]) <= other(r[i]) {
        assert r[i] in s[1..];
        var j :| 0 <= j < |s[1..]| && s[1..][j] == r[i];
        assert s[j + 1] == r[i];
      }
      PrependSorted(s[0], r, other) by {
        assert forall i :: 0 <= i < |r| ==> other(s[0]) <= other(r[i]);
      }
    }
  }

  lemma NewestFirstSorts(heap: map<Id, Job>, ids: seq<Id>, i: nat, j: nat)
    requires i < j < |NewestFirst(heap, ids)|
    requires NewestFirst(heap, ids)[i] in heap && NewestFirst(heap, ids)[j] in heap
    ensures AtLeastAsNew(heap, NewestFirst(heap, ids)[i], NewestFirst(heap, ids)[j])
  {
    var created, recency := (id: Id) => -Created(heap, id), (id: Id) => -Recency(heap, id);
    var inner := StableSort(ids, created);
    var r := NewestFirst(heap, ids);
    StableSortSorts(ids, created);
    StableSortSorts(inner, recency);
    assert r == StableSort(inner, recency);
    assert recency(r[i]) <= recency(r[j]);
    if recency(r[i]) == recency(r[j]) {
      var p, q := PlacesWithKey(r, recency, i, j);
      WithKeyKeepsSorted(inner, recency, recency(r[i]), created);
      assert created(r[i]) <= created(r[j]);
    }
    hide AtLeastAsNew;
    NewerByKeys(heap, r[i], r[j]);
  }

  /**
   * `pruneTerminalJobsIndex` keeps every job that is not terminal and the `jobIndexMaxEntries` newest
   * of those that are, or all of them if there are no more.
   */
  lemma PruneKeepsNewest(s: Scheduler)
    requires Unique(s.jobs) && forall id <- s.jobs :: id in s.heap
    ensures var t := Prune(s);
            && (forall id <- s.jobs :: !Terminal(s.heap[id]) ==> id in t.jobs)
            && |TerminalIds(s.heap, t.jobs)|
               == (if |TerminalIds(s.heap, s.jobs)| <= s.jobIndexMaxEntries then |TerminalIds(s.heap, s.jobs)|
                   else s.jobIndexMaxEntries)
            && forall dropped, kept :: dropped in s.jobs && dropped !in t.jobs && kept in t.jobs && Terminal(s.heap[kept])
                                       ==> AtLeastAsNew(s.heap, kept, dropped)
  {
    var terminal := TerminalIds(s.heap, s.jobs);
    if |terminal| > s.jobIndexMaxEntries {
      var order := NewestFirst(s.heap, terminal);
      var retained := order[..s.jobIndexMaxEntries];
      OrderIsUnique(s.heap, terminal, s.jobs);
      RetainedCount(s, terminal, order);
      forall dropped, kept | dropped in s.jobs && dropped !in Prune(s).jobs && kept in Prune(s).jobs && Terminal(s.heap[kept])
        ensures AtLeastAsNew(s.heap, kept, dropped)
      {
        assert kept in terminal && kept in retained;
        assert dropped in terminal && dropped in order;
        var i :| 0 <= i < |retained| && retained[i] == kept;
        var j :| 0 <= j < |order| && order[j] == dropped;
        assert order[i] == kept;
        forall q | 0 <= q < |retained| ensures order[q] != dropped {
          assert retained[q] == order[q] && retained[q] in retained;
        }
        NewestFirstSorts(s.heap, terminal, i, j);
      }
    }
  }

  lemma OrderIsUnique(heap: map<Id, Job>, terminal: seq<Id>, jobs: seq<Id>)
    requires Unique(jobs) && terminal == TerminalIds(heap, jobs)
    ensures Unique(terminal) && Unique(NewestFirst(heap, terminal))
    ensures forall id :: id in NewestFirst(heap, terminal) <==> id in terminal
  {
    var self := (id: Id) => id;
    var created, recency := (id: Id) => -Created(heap, id), (id: Id) => -Recency(heap, id);
    assert Distinct(jobs, self);
    FilterKeepsDistinct(jobs, (id: Id) => id in heap && Terminal(heap[id]), self);
    assert Distinct(terminal, self);
    SortKeepsDistinct(terminal, created, self);
    SortKeepsDistinct(StableSort(terminal, created), recency, self);
    DistinctIsUnique(terminal);
    DistinctIsUnique(NewestFirst(heap, terminal));
    StableSortMembers(terminal, created);
    StableSortMembers(StableSort(terminal, created), recency);
  }

  lemma DistinctIsUnique(ids: seq<Id>)
    requires Distinct(ids, (id: Id) => id)
    ensures Unique(ids)
  {
    var self := (id: Id) => id;
    forall i, j | 0 <= i < j < |ids| ensures ids[i] != ids[j] {
      assert self(ids[i]) != self(ids[j]);
    }
  }

  lemma RetainedCount(s: Scheduler, terminal: seq<Id>, order: seq<Id>)
    requires Unique(s.jobs) && terminal == TerminalIds(s.heap, s.jobs) && order == NewestFirst(s.heap, terminal)
    requires |terminal| > s.jobIndexMaxEntries && Unique(order) && forall id :: id in order <==> id in terminal
    ensures |TerminalIds(s.heap, Prune(s).jobs)| == s.jobIndexMaxEntries
  {
    var self := (id: Id) => id;
    var left, retained := TerminalIds(s.heap, Prune(s).jobs), order[..s.jobIndexMaxEntries];
    assert Distinct(s.jobs, self);
    FilterKeepsDistinct(s.jobs, (id: Id) => id in retained || id !in terminal, self);
    FilterKeepsDistinct(Prune(s).jobs, (id: Id) => id in s.heap && Terminal(s.heap[id]), self);
    assert Distinct(retained, self) && Distinct(left, self);
    DistinctCardinality(left, self);
    DistinctCardinality(retained, self);
    assert forall id <- retained :: id in order;
    hide NewestFirst;
    forall id ensures id in left <==> id in retained {
    }
    assert Keys(left, self) == Keys(retained, self);
  }

  // ---------------------------------------------------------------- a run that goes wrong

  const OPEN := Gate(true, false, false)

  /** The states of the run below, one after each event; event number `n` happens at time `n`. */
  function Race(heap: map<Id, Job>, jobs: seq<Id>, queue: seq<Id>, running: seq<Id>): Scheduler {
    Scheduler(2, 1, false, heap, jobs, queue, running, {}, {}, {}, 0, 0, [], [], [], [], {}, {}, {}, 2)
  }

  function RaceJob(gate: Option<Gate>, status: Status, created: int, started: Option<int>, arrived: nat): Job {
    Job(gate, false, status, None, None, false, created, started, None, arrived)
  }

  const SUBMITTED := Race(map["a" := RaceJob(Some(Gate(false, false, false)), Queued, 1, None, 1)], ["a"], ["a"], [])

  const AUTHORIZED := Race(map["a" := RaceJob(Some(OPEN), Running, 1, Some(2), 1)], ["a"], [], ["a"])
                      .(awaiting := {"a"}, begun := ["a"])

  const CANCELLED_A := RaceJob(Some(OPEN), Failed, 1, Some(2), 1).(exitCode := Some(143), failureClass := Some("cancelled"))

  const CANCELLING := AUTHORIZED.(heap := map["a" := CANCELLED_A])

  const BOTH := CANCELLING.(heap := map["a" := CANCELLED_A, "b" := RaceJob(None, Running, 4, Some(4), 2)],
                            jobs := ["a", "b"], running := ["a", "b"], begun := ["a", "b"], spawned := ["b"],
                            processes := {"b"}, arrivals := 3)

  const FINISHED_B := RaceJob(None, Completed, 4, Some(4), 2).(exitCode := Some(0), completedAt := Some(5), finalized := true)

  const EVICTED := BOTH.(heap := map["a" := CANCELLED_A, "b" := FINISHED_B], jobs := ["b"], running := ["a"],
                         processes := {}, successes := 1, completed := ["b"])

  lemma RaceAuthorize()
    ensures Step(SUBMITTED, AuthorizeEvent("a", true), Env(2, {})) == AUTHORIZED
  {
    var gated, env := WithGate(SUBMITTED, "a", OPEN), Env(2, {});
    assert gated.queue == ["a"] && gated == gated.(queue := Append(gated.queue, "a"));
    assert FirstRunnable(gated.heap, gated.queue) == 0;
    assert gated.queue[..0] + gated.queue[1..] == [];
    assert Append(gated.running, "a") == ["a"];
    assert Start(gated, 0, env) == AUTHORIZED;
    assert ProcessQueue(gated, env) == AUTHORIZED;
    hide ProcessQueue;
    assert !Runnable(SUBMITTED.heap["a"]) && IsQueuedSoyuz(SUBMITTED, "a");
    assert SUBMITTED.heap["a"].soyuz.value.(startAuthorized := true, startNeedsCanonicalRecheck := false) == OPEN;
  }

  lemma RaceSubmitB()
    ensures Step(CANCELLING, SubmitEvent("b", false), Env(4, {})) == BOTH
  {
    var t, env := Enqueue(CANCELLING, "b", NewJob(CANCELLING, None, false, 4)), Env(4, {});
    assert t.queue == ["b"];
    assert FirstRunnable(t.heap, t.queue) == 0;
    assert t.queue[..0] + t.queue[1..] == [];
    assert Append(t.running, "b") == ["a", "b"];
    assert Start(t, 0, env) == BOTH;
    assert ProcessQueue(t, env) == BOTH;
  }

  lemma RaceTerminal(heap: map<Id, Job>)
    requires heap == map["a" := CANCELLED_A, "b" := FINISHED_B]
    ensures TerminalIds(heap, ["a", "b"]) == ["a", "b"] && NewestFirst(heap, ["a", "b"]) == ["b", "a"]
  {
    assert ["a", "b"][1..] == ["b"] && ["b"][1..] == [] && ["a"][1..] == [];
    var created, recency := (id: Id) => -Created(heap, id), (id: Id) => -Recency(heap, id);
    assert StableSort(["b"], created) == ["b"];
    assert StableSort(["a", "b"], created) == Insert("a", ["b"], created) == ["b", "a"];
    assert ["b", "a"][1..] == ["a"];
    assert StableSort(["a"], recency) == ["a"];
    assert StableSort(["b", "a"], recency) == Insert("b", ["a"], recency) == ["b", "a"];
  }

  lemma RacePrune(s: Scheduler)
    requires s.heap == map["a" := CANCELLED_A, "b" := FINISHED_B] && s.jobs == ["a", "b"] && s.jobIndexMaxEntries == 1
    ensures Prune(s) == s.(jobs := ["b"])
  {
    hide NewestFirst, TerminalIds;
    RaceTerminal(s.heap);
    assert ["b", "a"][..1] == ["b"];
    assert ["a", "b"][1..] == ["b"] && ["b"][1..] == [];
    var retained := ["b"];
    assert Filter(["a", "b"], (id: Id) => id in retained || id !in ["a", "b"]) == ["b"];
  }

  lemma RaceIdle(env: Env)
    ensures ProcessQueue(EVICTED, env) == EVICTED
  {
  }

  lemma RaceClose(t: Scheduler, updates: Updates, env: Env)
    requires t == BOTH.(processes := {}) && updates == Updates(Completed, 0, None) && env == Env(5, {})
    ensures Closed(Noted(t, "b", updates, env), "b", 5)
            == EVICTED.(jobs := ["a", "b"])
  {
    hide Without;
    RaceWithout();
  }

  lemma RaceWithout()
    ensures Without(["a", "b"], "b") == ["a"]
  {
    assert ["a", "b"][1..] == ["b"] && ["b"][1..] == [];
  }

  lemma RaceExit()
    ensures Step(BOTH, ExitEvent("b", 0, false, None), Env(5, {})) == EVICTED
  {
    hide ProcessQueue, NewestFirst, TerminalIds, FinalizeJobIfNeeded, Prune, Noted, Closed;
    var t, updates, env := BOTH.(processes := {}), Updates(Completed, 0, None), Env(5, {});
    RaceClose(t, updates, env);
    RacePrune(EVICTED.(jobs := ["a", "b"]));
    NotedCloses(t, "b", updates, env);
    RaceIdle(env);
    assert FinalizeJobIfNeeded(t, "b", updates, env) == EVICTED;
    assert BOTH.processes - {"b"} == {} && ExitUpdates(BOTH.heap["b"], 0, false, None) == updates;
    assert BOTH.(processes := BOTH.processes - {"b"}) == t;
  }

  lemma RaceShutdown()
    ensures Step(EVICTED, ShutdownEvent, Env(6, {})) == EVICTED.(isShuttingDown := true)
  {
    var stopped := EVICTED.(isShuttingDown := true, queue := []);
    assert ["a"][..0] == [];
    assert AbortAll(stopped, ["a"], Env(6, {})) == stopped;
  }

  /**
   * A run in which a worker is spawned after shutdown: a Soyuz job is cancelled while its start is being
   * written, the completion of another job drops it from a full index, shutdown does not find it there,
   * and the end of the write launches it.
   */
  lemma EvictedJobOutlivesShutdown()
    ensures var s := Initialize(2, 1, map[], [], [], Env(0, {}));
            var stopped := Run(s, [(SubmitSoyuzEvent("a"), Env(1, {})), (AuthorizeEvent("a", true), Env(2, {})),
                                   (CancelEvent("a"), Env(3, {})), (SubmitEvent("b", false), Env(4, {})),
                                   (ExitEvent("b", 0, false, None), Env(5, {})), (ShutdownEvent, Env(6, {}))]);
            && stopped.isShuttingDown && "a" !in stopped.spawned
            && "a" in Step(stopped, PersistedEvent("a", true), Env(7, {})).spawned
  {
    hide Step, Initialize;
    RaceAuthorize();
    RaceSubmitB();
    RaceExit();
    RaceShutdown();
    RaceBegins();
    RaceCancel();
    RaceEnds();
    var last := EVICTED.(isShuttingDown := true);
    var es := [(SubmitSoyuzEvent("a"), Env(1, {})), (AuthorizeEvent("a", true), Env(2, {})),
               (CancelEvent("a"), Env(3, {})), (SubmitEvent("b", false), Env(4, {})),
               (ExitEvent("b", 0, false, None), Env(5, {})), (ShutdownEvent, Env(6, {}))];
    var s := Initialize(2, 1, map[], [], [], Env(0, {}));
    assert es[1..][1..] == es[2..] && es[2..][1..] == es[3..] && es[3..][1..] == es[4..] && es[4..][1..] == es[5..]
           && es[5..][1..] == [];
    calc {
      Run(s, es);
      Run(SUBMITTED, es[1..]);
      Run(AUTHORIZED, es[2..]);
      Run(CANCELLING, es[3..]);
      Run(BOTH, es[4..]);
      Run(EVICTED, es[5..]);
      last;
    }
  }

  lemma RaceBegins()
    ensures Step(Initialize(2, 1, map[], [], [], Env(0, {})), SubmitSoyuzEvent("a"), Env(1, {})) == SUBMITTED
  {
    var s := Initialize(2, 1, map[], [], [], Env(0, {}));
    assert s == Race(map[], [], [], []).(arrivals := 1);
    var t := Enqueue(s, "a", NewJob(s, Some(Gate(false, false, false)), false, 1));
    assert t == SUBMITTED;
    assert FirstRunnable(t.heap, ["a"]) == 1 by {
      assert ["a"][1..] == [];
    }
  }

  lemma RaceCancel()
    ensures Step(AUTHORIZED, CancelEvent("a"), Env(3, {})) == CANCELLING
  {
  }

  lemma RaceEnds()
    ensures "a" in Step(EVICTED.(isShuttingDown := true), PersistedEvent("a", true), Env(7, {})).spawned
  {
    hide FinalizeJobIfNeeded;
  }
}
