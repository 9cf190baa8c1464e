/** The durable jobs index over its whole history. */
module JobsIndex {
  import opened Wrappers
  import opened JobRecords

  // Every write of the index happens under the index lock, so each operation is one atomic
  // transition on the map from job id to record.  The theorems compare the map with every
  // version of a job that was ever presented, over any sequence of persists, restarts and
  // callback completions.

  type Index = map<string, PersistedJob>

  /** `byId` after the first loop of `mergePersistedJobs`: a repeated id keeps its last record. */
  function IndexOf(jobs: seq<PersistedJob>): Index {
    if jobs == [] then map[]
    else var last := jobs[|jobs| - 1]; IndexOf(jobs[..|jobs| - 1])[last.id := last]
  }

  function MergeOne(m: Index, job: PersistedJob): Index {
    m[job.id := if job.id in m then SelectMostRecent(m[job.id], job) else job]
  }

  function Merge(m: Index, incoming: seq<PersistedJob>): Index {
    if incoming == [] then m
    else MergeOne(Merge(m, incoming[..|incoming| - 1]), incoming[|incoming| - 1])
  }

  /** The lease, identity and view of the world of the controller that loads the index. */
  datatype Loader = Loader(token: string, pid: nat, now: int, wallClock: int, leaseMs: int, alive: set<nat>)

  /** `claimRestartableJob` refuses only an unexpired claim of another, live controller. */
  predicate MayClaim(l: Loader, claim: Option<RestartClaim>) {
    claim.Some? && claim.value.ownerToken != l.token ==>
      !(l.now - claim.value.leasedAt < l.leaseMs && claim.value.pid in l.alive)
  }

  function Restarted(l: Loader, job: PersistedJob): PersistedJob {
    match job.status
    case Running => Interrupted(job, l.wallClock)
    case Queued =>
      if MayClaim(l, job.restartClaim)
      then job.(restartClaim := Some(RestartClaim(l.token, l.pid, l.now)))
      else job
    case _ => job
  }

  function RestartAll(m: Index, l: Loader): Index {
    map id | id in m :: Restarted(l, m[id])
  }

  function MarkDelivered(job: PersistedJob, callbackId: string): PersistedJob {
    if job.soyuz.Some? && job.soyuz.value.terminalCallbackId == Some(callbackId)
    then job.(soyuz := Some(job.soyuz.value.(terminalCallbackDelivered := true)))
    else job
  }

  function DeliverAll(m: Index, callbackId: string): Index {
    map id | id in m :: MarkDelivered(m[id], callbackId)
  }

  datatype Event =
    | Persist(incoming: seq<PersistedJob>)
    | Restart(loader: Loader)
    | Delivered(callbackId: string)

  function Apply(m: Index, e: Event): Index {
    match e
    case Persist(incoming) => Merge(m, incoming)
    case Restart(l) => RestartAll(m, l)
    case Delivered(id) => DeliverAll(m, id)
  }

  function Run(m: Index, events: seq<Event>): Index {
    if events == [] then m else Apply(Run(m, events[..|events| - 1]), events[|events| - 1])
  }

  /** The versions an event presents: the incoming records, or the records a restart interrupts. */
  function Presented(m: Index, e: Event): set<PersistedJob> {
    match e
    case Persist(incoming) => set v | v in incoming
    case Restart(l) => set id | id in m && m[id].status.Running? :: Interrupted(m[id], l.wallClock)
    case Delivered(_) => {}
  }

  function History(m: Index, events: seq<Event>): set<PersistedJob> {
    if events == [] then m.Values
    else History(m, events[..|events| - 1]) + Presented(Run(m, events[..|events| - 1]), events[|events| - 1])
  }

  predicate KeyedById(m: Index) {
    forall id <- m :: m[id].id == id
  }

  /** Each record is maximal among the versions in `history`, and is one of them up to overlays. */
  predicate Maximal(m: Index, history: set<PersistedJob>) {
    && (forall v <- history :: v.id in m && AtLeastAsRecent(v, m[v.id]))
    && (forall id <- m :: exists v <- history :: v.id == id && Core(v) == Core(m[id]))
  }

  /** What no event may undo; a record is replaced only by a strictly more recent version. */
  predicate Extends(m: Index, m': Index) {
    forall id <- m ::
      && id in m'
      && AtLeastAsRecent(m[id], m'[id])
      && (Core(m'[id]) != Core(m[id]) ==> !AtLeastAsRecent(m'[id], m[id]))
      && (IsTerminal(m[id]) ==> IsTerminal(m'[id]))
      && (Authorized(m[id]) ==> Authorized(m'[id]))
      && (CallbackDelivered(m[id]) ==> CallbackDelivered(m'[id]))
  }

  lemma MergeOneStep(m: Index, job: PersistedJob, history: set<PersistedJob>)
    requires KeyedById(m) && Maximal(m, history)
    ensures var m' := MergeOne(m, job);
            KeyedById(m') && Maximal(m', history + {job}) && Extends(m, m')
  {
    hide SelectMostRecent;
    hide AtLeastAsRecent;
    hide Core;
    var m' := MergeOne(m, job);
    if job.id in m { SelectIsMaximal(m[job.id], job); }
    forall v <- history + {job} ensures v.id in m' && AtLeastAsRecent(v, m'[v.id]) {
      if v.id == job.id && v != job {
        AtLeastAsRecentIsPreorder(v, m[v.id], m'[v.id]);
      } else if v == job && job.id !in m {
        AtLeastAsRecentIsPreorder(job, job, job);
      }
    }
    forall id <- m' ensures exists v <- history + {job} :: v.id == id && Core(v) == Core(m'[id]) {
      if id == job.id && (job.id !in m || Core(m'[id]) == Core(job)) {
        assert job in history + {job};
      } else {
        var v :| v in history && v.id == id && Core(v) == Core(m[id]);
        assert v in history + {job};
      }
    }
    forall id <- m ensures AtLeastAsRecent(m[id], m'[id]) && (IsTerminal(m[id]) ==> IsTerminal(m'[id])) {
      AtLeastAsRecentIsPreorder(m[id], m'[id], m'[id]);
    }
  }

  lemma ExtendsComposes(a: Index, b: Index, c: Index)
    requires Extends(a, b) && Extends(b, c)
    ensures Extends(a, c)
  {
    hide AtLeastAsRecent;
    hide Core;
    forall id <- a
      ensures AtLeastAsRecent(a[id], c[id])
      ensures Core(c[id]) != Core(a[id]) ==> !AtLeastAsRecent(c[id], a[id])
    {
      AtLeastAsRecentIsPreorder(a[id], b[id], c[id]);
      AtLeastAsRecentIsPreorder(c[id], a[id], b[id]);
      AtLeastAsRecentIsPreorder(b[id], c[id], a[id]);
    }
  }

  lemma ExtendsRefl(a: Index)
    ensures Extends(a, a)
  {
  }

  lemma {:induction false} MergeStep(m: Index, incoming: seq<PersistedJob>, history: set<PersistedJob>)
    requires KeyedById(m) && Maximal(m, history)
    ensures var m' := Merge(m, incoming);
            KeyedById(m') && Maximal(m', history + set v | v in incoming) && Extends(m, m')
  {
    hide MergeOne;
    hide Maximal;
    hide Extends;
    if incoming == [] {
      ExtendsRefl(m);
      assert history + (set v | v in incoming) == history;
    } else {
      var front, last := incoming[..|incoming| - 1], incoming[|incoming| - 1];
      var h := history + set v | v in front;
      MergeStep(m, front, history);
      MergeOneStep(Merge(m, front), last, h);
      assert history + (set v | v in incoming) == h + {last} by {
        assert incoming == front + [last];
      }
      ExtendsComposes(m, Merge(m, front), Merge(m, incoming));
    }
  }

  /**
   What a load may make of a record.  A job that was running is reported as failed by the restart, with
   nothing else of it changed; a queued one changes at most its claim, to this controller's; one that had
   ended stays as it is.  So no record becomes a success by a load.
   */
  predicate SurvivesRestart(l: Loader, was: PersistedJob, r: PersistedJob) {
    match was.status
    case Running =>
      && r.status == Failed && r.exitCode == Some(143) && r.failureClass == Some("api_restart") && r.finalized
      && r.error == Some("API service restarted while job was running") && r.restartClaim == None
      && r.completedAt == (if was.completedAt.Some? then was.completedAt else Some(l.wallClock))
      && r.id == was.id && r.createdAt == was.createdAt && r.startedAt == was.startedAt && r.soyuz == was.soyuz
      && r.request == was.request
    case Queued =>
      && r.restartClaim == (if MayClaim(l, was.restartClaim) then Some(RestartClaim(l.token, l.pid, l.now)) else was.restartClaim)
      && r == was.(restartClaim := r.restartClaim)
    case _ => r == was
  }

  lemma RestartedSurvives(l: Loader, job: PersistedJob)
    ensures SurvivesRestart(l, job, Restarted(l, job))
    ensures Restarted(l, job).status.Completed? ==> job.status.Completed?
  {
  }

  lemma RestartedIsMoreRecent(l: Loader, job: PersistedJob)
    ensures var r := Restarted(l, job);
            && r.id == job.id && r.soyuz == job.soyuz
            && AtLeastAsRecent(job, r)
            && (IsTerminal(job) ==> IsTerminal(r))
            && (!job.status.Running? ==> Core(r) == Core(job))
            && (job.status.Running? ==> !AtLeastAsRecent(r, job))
            && (job.status.Running? ==> r == Interrupted(job, l.wallClock))
  {
  }

  lemma RestartExtends(m: Index, l: Loader)
    requires KeyedById(m)
    ensures KeyedById(RestartAll(m, l)) && Extends(m, RestartAll(m, l))
  {
    hide AtLeastAsRecent;
    hide Restarted;
    hide Core;
    var m' := RestartAll(m, l);
    forall id <- m
      ensures m'[id].id == id && AtLeastAsRecent(m[id], m'[id]) && m'[id].soyuz == m[id].soyuz
      ensures IsTerminal(m[id]) ==> IsTerminal(m'[id])
      ensures Core(m'[id]) != Core(m[id]) ==> !AtLeastAsRecent(m'[id], m[id])
    {
      RestartedIsMoreRecent(l, m[id]);
    }
  }

  lemma RestartDominates(m: Index, l: Loader, history: set<PersistedJob>, v: PersistedJob)
    requires KeyedById(m) && Maximal(m, history)
    requires v in history + Presented(m, Restart(l))
    ensures var m' := RestartAll(m, l); v.id in m' && AtLeastAsRecent(v, m'[v.id])
  {
    hide AtLeastAsRecent;
    hide Restarted;
    var m' := RestartAll(m, l);
    if v in history {
      RestartedIsMoreRecent(l, m[v.id]);
      AtLeastAsRecentIsPreorder(v, m[v.id], m'[v.id]);
    } else {
      RestartedIsMoreRecent(l, m[v.id]);
      AtLeastAsRecentIsPreorder(v, v, v);
    }
  }

  lemma RestartHasSource(m: Index, l: Loader, history: set<PersistedJob>, id: string)
    requires KeyedById(m) && Maximal(m, history) && id in m
    ensures exists v <- history + Presented(m, Restart(l)) :: v.id == id && Core(v) == Core(RestartAll(m, l)[id])
  {
    hide Core;
    hide Restarted;
    hide AtLeastAsRecent;
    RestartedIsMoreRecent(l, m[id]);
    if m[id].status.Running? {
      assert RestartAll(m, l)[id] in Presented(m, Restart(l));
    } else {
      var v :| v in history && v.id == id && Core(v) == Core(m[id]);
      assert v in history + Presented(m, Restart(l));
    }
  }

  lemma RestartStep(m: Index, l: Loader, history: set<PersistedJob>)
    requires KeyedById(m) && Maximal(m, history)
    ensures var m' := RestartAll(m, l);
            KeyedById(m') && Maximal(m', history + Presented(m, Restart(l))) && Extends(m, m')
    ensures var m' := RestartAll(m, l);
            m'.Keys == m.Keys && forall id <- m :: SurvivesRestart(l, m[id], m'[id])
                                                && (m'[id].status.Completed? ==> m[id].status.Completed?)
  {
    hide Core;
    hide AtLeastAsRecent;
    hide Presented;
    hide Restarted;
    hide Extends;
    hide SurvivesRestart;
    var m', h := RestartAll(m, l), history + Presented(m, Restart(l));
    forall id <- m ensures SurvivesRestart(l, m[id], m'[id]) && (m'[id].status.Completed? ==> m[id].status.Completed?) {
      RestartedSurvives(l, m[id]);
    }
    RestartExtends(m, l);
    forall v <- h ensures v.id in m' && AtLeastAsRecent(v, m'[v.id]) {
      RestartDominates(m, l, history, v);
    }
    forall id <- m' ensures exists v <- h :: v.id == id && Core(v) == Core(m'[id]) {
      RestartHasSource(m, l, history, id);
    }
  }

  predicate DeliveryKept(job: PersistedJob, r: PersistedJob) {
    && r.id == job.id && r.status == job.status
    && Core(r) == Core(job) && AtLeastAsRecent(job, r)
    && (Authorized(job) ==> Authorized(r)) && (CallbackDelivered(job) ==> CallbackDelivered(r))
  }

  lemma MarkDeliveredKeeps(job: PersistedJob, callbackId: string)
    ensures DeliveryKept(job, MarkDelivered(job, callbackId))
  {
  }

  lemma DeliveredStep(m: Index, callbackId: string, history: set<PersistedJob>)
    requires KeyedById(m) && Maximal(m, history)
    ensures var m' := DeliverAll(m, callbackId);
            KeyedById(m') && Maximal(m', history) && Extends(m, m')
  {
    hide Core;
    hide AtLeastAsRecent;
    var m' := DeliverAll(m, callbackId);
    forall id <- m ensures DeliveryKept(m[id], m'[id]) {
      MarkDeliveredKeeps(m[id], callbackId);
    }
    forall v <- history ensures v.id in m' && AtLeastAsRecent(v, m'[v.id]) {
      assert DeliveryKept(m[v.id], m'[v.id]);
      AtLeastAsRecentIsPreorder(v, m[v.id], m'[v.id]);
    }
    forall id <- m' ensures exists v <- history :: v.id == id && Core(v) == Core(m'[id]) {
      assert DeliveryKept(m[id], m'[id]);
      var v :| v in history && v.id == id && Core(v) == Core(m[id]);
    }
    forall id <- m ensures AtLeastAsRecent(m[id], m'[id]) {
      assert DeliveryKept(m[id], m'[id]);
    }
  }

  lemma EventStep(m: Index, e: Event, history: set<PersistedJob>)
    requires KeyedById(m) && Maximal(m, history)
    ensures var m' := Apply(m, e);
            KeyedById(m') && Maximal(m', history + Presented(m, e)) && Extends(m, m')
  {
    match e
    case Persist(incoming) => MergeStep(m, incoming, history);
    case Restart(l) => RestartStep(m, l, history);
    case Delivered(id) =>
      DeliveredStep(m, id, history);
      assert history + {} == history;
  }

  /** The index keeps the maximum of everything that was ever presented to it. */
  lemma {:induction false} IndexKeepsMaximumOfHistory(m: Index, events: seq<Event>)
    requires KeyedById(m)
    ensures var m' := Run(m, events);
            KeyedById(m') && Maximal(m', History(m, events))
  {
    if events == [] {
      forall v <- m.Values ensures v.id in m && AtLeastAsRecent(v, m[v.id]) {
        AtLeastAsRecentIsPreorder(v, v, v);
      }
    } else {
      var front := events[..|events| - 1];
      IndexKeepsMaximumOfHistory(m, front);
      EventStep(Run(m, front), events[|events| - 1], History(m, front));
    }
  }

  /** Nothing is lost along a run: ids, terminal states and both one-way flags persist. */
  lemma {:induction false} RunExtends(m: Index, events: seq<Event>)
    requires KeyedById(m)
    ensures Extends(m, Run(m, events))
  {
    if events == [] {
      ExtendsRefl(m);
    } else {
      var front := events[..|events| - 1];
      RunExtends(m, front);
      IndexKeepsMaximumOfHistory(m, front);
      EventStep(Run(m, front), events[|events| - 1], History(m, front));
      ExtendsComposes(m, Run(m, front), Run(m, events));
    }
  }

  // ---------------------------------------------------------------- callbacks and their jobs

  /** The delivery flag of the jobs that name the callback is set, and nothing else changes. */
  predicate RecordsDelivery(was: PersistedJob, r: PersistedJob, callbackId: string) {
    if NamesCallback(was, callbackId)
    then r.soyuz.Some? && CallbackDelivered(r) && NamesCallback(r, callbackId)
         && was == r.(soyuz := Some(r.soyuz.value.(terminalCallbackDelivered := was.soyuz.value.terminalCallbackDelivered)))
    else r == was
  }

  lemma DeliveryRecorded(m: Index, callbackId: string)
    ensures var m' := DeliverAll(m, callbackId);
            m'.Keys == m.Keys && forall id <- m :: RecordsDelivery(m[id], m'[id], callbackId)
  {
  }

  lemma {:induction false} MergeNames(m: Index, incoming: seq<PersistedJob>, id: string, callbackId: string)
    requires id in m && NamesCallback(m[id], callbackId)
    requires forall v <- incoming :: v.id == id ==> NamesNoOther(v, callbackId)
    ensures var m' := Merge(m, incoming); id in m' && NamesCallback(m'[id], callbackId)
  {
    hide NamesCallback, NamesNoOther, SelectMostRecent;
    if incoming != [] {
      var front, last := incoming[..|incoming| - 1], incoming[|incoming| - 1];
      MergeNames(m, front, id, callbackId);
      if last.id == id {
        assert last in incoming;
        SelectNamesCallback(Merge(m, front)[id], last, callbackId);
      }
    }
  }

  /** A version that names the callback leaves a record that names it, whatever was there. */
  lemma PersistedNames(m: Index, v: PersistedJob, callbackId: string)
    requires NamesCallback(v, callbackId)
    ensures var m' := Apply(m, Persist([v])); v.id in m' && NamesCallback(m'[v.id], callbackId)
  {
    assert [v][..0] == [];
    if v.id in m {
      SelectNamesCallback(m[v.id], v, callbackId);
    }
  }

  /** No event presents another terminal callback of the job. */
  predicate NoOtherCallback(events: seq<Event>, id: string, callbackId: string) {
    forall e <- events :: e.Persist? ==> forall v <- e.incoming :: v.id == id ==> NamesNoOther(v, callbackId)
  }

  lemma {:induction false} RunNames(m: Index, events: seq<Event>, id: string, callbackId: string)
    requires id in m && NamesCallback(m[id], callbackId) && NoOtherCallback(events, id, callbackId)
    ensures var m' := Run(m, events); id in m' && NamesCallback(m'[id], callbackId)
  {
    if events != [] {
      var front, last := events[..|events| - 1], events[|events| - 1];
      RunNames(m, front, id, callbackId);
      assert last in events;
      match last
      case Persist(incoming) => MergeNames(Run(m, front), incoming, id, callbackId);
      case Restart(l) => RestartedIsMoreRecent(l, Run(m, front)[id]);
      case Delivered(other) => DeliveryRecorded(Run(m, front), other);
    }
  }

  /**
   From the callback to its job: once a version naming the callback was persisted, and whatever happens
   in between short of another terminal callback, completing the callback marks the job as delivered, and
   so it stays.
   */
  lemma DeliveryReachesJob(m: Index, v: PersistedJob, between: seq<Event>, after: seq<Event>, callbackId: string)
    requires KeyedById(m) && NamesCallback(v, callbackId) && NoOtherCallback(between, v.id, callbackId)
    ensures var done := Apply(Run(Apply(m, Persist([v])), between), Delivered(callbackId));
            var end := Run(done, after);
            v.id in done && v.id in end && CallbackDelivered(done[v.id]) && CallbackDelivered(end[v.id])
  {
    var persisted := Apply(m, Persist([v]));
    PersistedNames(m, v, callbackId);
    RunNames(persisted, between, v.id, callbackId);
    var named := Run(persisted, between);
    var done := Apply(named, Delivered(callbackId));
    assert KeyedById(done) by {
      hide Maximal;
      assert [Persist([v])][..0] == [];
      IndexKeepsMaximumOfHistory(m, [Persist([v])]);
      IndexKeepsMaximumOfHistory(persisted, between);
      IndexKeepsMaximumOfHistory(named, [Delivered(callbackId)]);
    }
    DeliveryRecorded(named, callbackId);
    RunExtends(done, after);
  }

  // ---------------------------------------------------------------- restart claims

  function ClaimOf(a: Loader): RestartClaim {
    RestartClaim(a.token, a.pid, a.now)
  }

  predicate ClaimedBy(m: Index, id: string, a: Loader) {
    id in m && m[id].id == id && m[id].status.Queued? && m[id].restartClaim == Some(ClaimOf(a))
  }

  /** No newer version of the job arrives, and other controllers restart while `a` lives and its lease runs. */
  predicate Quiet(m: Index, e: Event, id: string, a: Loader)
    requires id in m
  {
    match e
    case Persist(incoming) => forall v <- incoming :: v.id == id ==> AtLeastAsRecent(v, m[id])
    case Restart(b) => b.token != a.token && b.now - a.now < b.leaseMs && a.pid in b.alive
    case Delivered(_) => true
  }

  ghost predicate QuietRun(m: Index, events: seq<Event>, id: string, a: Loader)
    requires KeyedById(m)
  {
    events == [] ||
    var front := events[..|events| - 1];
    QuietRun(m, front, id, a) && id in Run(m, front) && Quiet(Run(m, front), events[|events| - 1], id, a)
  }

  /** Another controller gets the job exactly when the lease is over, or its holder died or is itself. */
  lemma LoadClaimsExclude(m: Index, a: Loader, b: Loader, id: string)
    requires id in m && m[id].status.Queued? && MayClaim(a, m[id].restartClaim)
    ensures var claim := RestartAll(m, a)[id].restartClaim;
            MayClaim(b, claim) <==> b.token == a.token || b.now - a.now >= b.leaseMs || a.pid !in b.alive
  {
    assert RestartAll(m, a)[id].restartClaim == Some(ClaimOf(a));
  }

  lemma {:induction false} OlderVersionsKeepClaim(m: Index, incoming: seq<PersistedJob>, id: string, a: Loader)
    requires ClaimedBy(m, id, a)
    requires forall v <- incoming :: v.id == id ==> AtLeastAsRecent(v, m[id])
    ensures var m' := Merge(m, incoming); ClaimedBy(m', id, a) && Core(m'[id]) == Core(m[id])
  {
    if incoming != [] {
      var front, last := incoming[..|incoming| - 1], incoming[|incoming| - 1];
      OlderVersionsKeepClaim(m, front, id, a);
      if last.id == id {
        var r := Merge(m, front)[id];
        assert last in incoming;
        CoreDecidesRecency(m[id], last);
        CoreDecidesRecency(r, last);
      }
    }
  }

  /** Over a whole quiet run no other controller takes over a queued job that `a` has claimed. */
  lemma {:induction false} ClaimOutlastsQuietRun(m: Index, events: seq<Event>, id: string, a: Loader)
    requires KeyedById(m) && ClaimedBy(m, id, a) && QuietRun(m, events, id, a)
    ensures ClaimedBy(Run(m, events), id, a)
  {
    if events != [] {
      var front, last := events[..|events| - 1], events[|events| - 1];
      ClaimOutlastsQuietRun(m, front, id, a);
      match last
      case Persist(incoming) => OlderVersionsKeepClaim(Run(m, front), incoming, id, a);
      case Restart(b) => assert !MayClaim(b, Some(ClaimOf(a)));
      case Delivered(_) =>
    }
  }
}
