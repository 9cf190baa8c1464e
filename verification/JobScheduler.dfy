/**
 * The scheduler of src/job-scheduler.ts as an object that changes in place. Every public method keeps the
 * scheduler sound, leaves every finalized record as it is and promises its caller what becomes of the job;
 * and each does to the fields what the operation of the same name in `SchedulerState` does to the state.
 */
module JobScheduling {
  import opened Wrappers
  import opened Seqs
  import S = SchedulerState
  import R = SchedulerRuns
  import A = SchedulerAwait
  import O = SchedulerOutcomes
  import D = SchedulerRecords

  type Id = S.Id

  lemma {:induction false} FilterTwice(ids: seq<Id>, p: Id -> bool, q: Id -> bool)
    ensures Filter(Filter(ids, p), q) == Filter(ids, (x: Id) => p(x) && q(x))
  {
    if ids != [] {
      FilterTwice(ids[1..], p, q);
      var head := if p(ids[0]) then [ids[0]] else [];
      FilterAppend(head, Filter(ids[1..], p), q);
    }
  }

  lemma {:induction false} FilterAll(ids: seq<Id>, p: Id -> bool)
    requires forall id <- ids :: p(id)
    ensures Filter(ids, p) == ids
  {
    if ids != [] {
      FilterAll(ids[1..], p);
    }
  }

  lemma ExecuteKeepsQueue(s: S.Scheduler, id: Id, env: S.Env)
    requires id in s.heap
    ensures S.Execute(s, id, env).queue == s.queue && S.Execute(s, id, env).isShuttingDown == s.isShuttingDown
  {
  }

  lemma EmitKeepsRecords(s: S.Scheduler, id: Id)
    requires id in s.heap
    ensures S.EmitTerminalWebhook(s, id).heap == s.heap
  {
  }

  lemma NewestFirstLength(records: map<Id, S.Job>, ids: seq<Id>)
    ensures |S.NewestFirst(records, ids)| == |ids|
  {
  }

  function Remaining(jobs: seq<Id>, terminal: seq<Id>, retained: seq<Id>): seq<Id> {
    Filter(jobs, (id: Id) => id in retained || id !in terminal)
  }

  lemma RemainingTurn(jobs: seq<Id>, terminal: seq<Id>, retained: seq<Id>, gone: Id)
    ensures Remaining(jobs, terminal + [gone], retained)
            == if gone in retained then Remaining(jobs, terminal, retained) else S.Without(Remaining(jobs, terminal, retained), gone)
  {
    var p := (id: Id) => id in retained || id !in terminal;
    var next := (id: Id) => id in retained || id !in terminal + [gone];
    if gone in retained {
      FilterSame(jobs, p, next);
    } else {
      var q := (x: Id) => x != gone;
      FilterTwice(jobs, p, q);
      FilterSame(jobs, (x: Id) => p(x) && q(x), next);
      assert Filter(jobs, next) == Filter(Filter(jobs, p), q);
      assert S.Without(Filter(jobs, p), gone) == Filter(Filter(jobs, p), q);
    }
  }

  /** The loop of `pruneTerminalJobsIndex`: `jobs.delete` for every terminal job that is not retained. */
  method DeleteAll(jobs: seq<Id>, terminalJobs: seq<Id>, retained: seq<Id>) returns (left: seq<Id>)
    ensures left == Remaining(jobs, terminalJobs, retained)
  {
    left := jobs;
    FilterAll(jobs, (id: Id) => id in retained || id !in terminalJobs[..0]);
    hide S.Without;
    for i := 0 to |terminalJobs|
      invariant left == Remaining(jobs, terminalJobs[..i], retained)
    {
      hide Remaining;
      var gone := terminalJobs[i];
      assert terminalJobs[..i + 1] == terminalJobs[..i] + [gone];
      RemainingTurn(jobs, terminalJobs[..i], retained, gone);
      if gone !in retained {
        left := S.Without(left, gone);
      }
    }
    assert terminalJobs[..|terminalJobs|] == terminalJobs;
  }

  lemma ProcessQueueTurn(s: S.Scheduler, k: nat, env: S.Env)
    requires !s.isShuttingDown && s.queue != [] && |s.running| < s.maxConcurrentRuns
    requires k == S.FirstRunnable(s.heap, s.queue) && k < |s.queue|
    ensures S.ProcessQueue(s, env) == S.ProcessQueue(S.Start(s, k, env), env)
    ensures |S.Start(s, k, env).queue| < |s.queue| && !S.Start(s, k, env).isShuttingDown
  {
    hide S.Launch;
    ExecuteKeepsQueue(s.(queue := s.queue[..k] + s.queue[k + 1..]), s.queue[k], env);
  }

  lemma ProcessQueueEnd(s: S.Scheduler, env: S.Env)
    requires s.isShuttingDown || s.queue == [] || |s.running| >= s.maxConcurrentRuns
             || S.FirstRunnable(s.heap, s.queue) == |s.queue|
    ensures S.ProcessQueue(s, env) == s
  {
  }

  /** What `authorizeSoyuzStart` comes to; it throws when its write fails. */
  datatype StartResult = NotQueued | Opened | WriteFailed

  class JobScheduler {
    const maxConcurrentRuns: nat
    const jobIndexMaxEntries: nat
    var isShuttingDown: bool
    var records: map<Id, S.Job>
    var jobs: seq<Id>
    var queue: seq<Id>
    var running: seq<Id>
    var awaiting: set<Id>
    var failing: set<Id>
    var processes: set<Id>
    var runSuccess: nat
    var runFailure: nat
    var webhooks: seq<S.Notice>
    var arrivals: nat
    ghost var begun: seq<Id>
    ghost var spawned: seq<Id>
    ghost var completed: seq<Id>
    ghost var withdrawn: set<Id>
    ghost var aborted: set<Id>
    ghost var restored: set<Id>

    ghost function State(): S.Scheduler
      reads this
    {
      S.Scheduler(maxConcurrentRuns, jobIndexMaxEntries, isShuttingDown, records, jobs, queue, running, awaiting, failing,
                  processes, runSuccess, runFailure, webhooks, begun, spawned, completed, withdrawn, aborted, restored, arrivals)
    }

    ghost predicate Valid()
      reads this
    {
      O.Sound(State())
    }

    /** `initializeFromPersistence`, on what the persistence manager loaded. */
    constructor (max: nat, maxEntries: nat, records: map<Id, S.Job>, jobs: seq<Id>, claimed: seq<Id>, env: S.Env)
      requires R.Loadable(records, jobs, claimed)
      ensures Valid()
      ensures State() == R.Initialize(max, maxEntries, records, jobs, claimed, env)
    {
      maxConcurrentRuns, jobIndexMaxEntries, isShuttingDown := max, maxEntries, false;
      this.records, this.jobs, queue, running := R.Renumbered(records, claimed), jobs, claimed, [];
      awaiting, failing, processes := {}, {}, {};
      runSuccess, runFailure, webhooks, arrivals := 0, 0, [], |claimed| + 1;
      begun, spawned, completed, withdrawn, aborted := [], [], [], {}, {};
      restored := R.FinalizedIds(records);
      new;
      hide R.Begun, R.FinalizedIds, R.Renumbered, R.Loadable, O.Sound;
      Begin(env);
      O.InitializeSound(max, maxEntries, records, jobs, claimed, env);
      hide R.Initialize, O.Sound;
    }

    /** The end of `initializeFromPersistence`: close the gates of the restored jobs, then start what can start. */
    method Begin(env: S.Env)
      modifies this
      ensures State() == R.Begun(old(State()), env)
    {
      hide S.Prune, S.ProcessQueue, R.Recheck;
      PruneTerminalJobsIndex();
      records := R.Recheck(records, queue);
      ProcessQueue(env);
    }

    method PruneTerminalJobsIndex()
      modifies this`jobs
      ensures State() == S.Prune(old(State()))
    {
      hide S.TerminalIds, S.NewestFirst;
      var terminalJobs := S.TerminalIds(records, jobs);
      if |terminalJobs| <= jobIndexMaxEntries {
        return;
      }
      NewestFirstLength(records, terminalJobs);
      var retained := S.NewestFirst(records, terminalJobs)[..jobIndexMaxEntries];
      jobs := DeleteAll(jobs, terminalJobs, retained);
    }

    /** The part of `executeJob` after its await. */
    method Launch(id: Id, env: S.Env)
      modifies this`failing, this`processes, this`spawned
      ensures State() == S.Launch(old(State()), id, env)
    {
      if id in env.broken {
        failing := failing + {id};
      } else {
        processes := processes + {id};
        spawned := spawned + [id];
      }
    }

    method ExecuteJob(id: Id, env: S.Env)
      requires id in records
      modifies this`records, this`running, this`begun, this`awaiting, this`failing, this`processes, this`spawned
      ensures id in records && records[id].status.Running? && id in running && id in begun && queue == old(queue)
      ensures records == old(records)[id := old(records)[id].(status := S.Running, startedAt := Some(env.now))]
      ensures records[id].soyuz.Some? ==> id in awaiting && spawned == old(spawned)
      ensures records[id].soyuz.None? ==> if id in env.broken then id in failing else id in processes && spawned == old(spawned) + [id]
      ensures State() == S.Execute(old(State()), id, env)
    {
      var job := records[id].(status := S.Running, startedAt := Some(env.now));
      records := records[id := job];
      running := S.Append(running, id);
      begun := begun + [id];
      if job.soyuz.Some? {
        awaiting := awaiting + {id};
      } else {
        Launch(id, env);
      }
    }

    method FindRunnable() returns (k: nat)
      ensures k == S.FirstRunnable(records, queue)
    {
      k := 0;
      while k < |queue| && !(queue[k] in records && S.Runnable(records[queue[k]]))
        invariant k <= |queue|
        invariant S.FirstRunnable(records, queue) == k + S.FirstRunnable(records, queue[k..])
      {
        assert queue[k..][1..] == queue[k + 1..];
        k := k + 1;
      }
    }

    /** One turn of the loop: splice the first runnable job out of the queue and execute it. */
    method StartNext(env: S.Env) returns (k: nat)
      modifies this`queue, this`records, this`running, this`begun, this`awaiting, this`failing, this`processes, this`spawned
      ensures k == S.FirstRunnable(old(records), old(queue))
      ensures State() == if k < old(|queue|) then S.Start(old(State()), k, env) else old(State())
    {
      hide S.Execute;
      k := FindRunnable();
      if k < |queue| {
        var job := queue[k];
        queue := queue[..k] + queue[k + 1..];
        ExecuteJob(job, env);
      }
    }

    /** `processQueue`: start runnable jobs from the front while there are free slots. */
    method ProcessQueue(env: S.Env)
      modifies this`queue, this`records, this`running, this`begun, this`awaiting, this`failing, this`processes, this`spawned
      ensures State() == S.ProcessQueue(old(State()), env)
    {
      hide S.Start, S.ProcessQueue, S.FirstRunnable;
      while !isShuttingDown && |queue| > 0 && |running| < maxConcurrentRuns
        invariant S.ProcessQueue(State(), env) == S.ProcessQueue(old(State()), env)
        decreases |queue|
      {
        ghost var s := State();
        var waiting := |queue|;
        var k := StartNext(env);
        if k >= waiting {
          break;
        }
        ProcessQueueTurn(s, k, env);
      }
      ProcessQueueEnd(State(), env);
    }

    method EmitTerminalWebhook(id: Id)
      requires id in records
      modifies this`webhooks
      ensures State() == S.EmitTerminalWebhook(old(State()), id)
    {
      var job := records[id];
      if !job.webhook {
        return;
      }
      if job.failureClass == Some("cancelled") {
        webhooks := webhooks + [S.Notice(id, S.JobCancelled)];
      } else if job.status.Completed? {
        webhooks := webhooks + [S.Notice(id, S.JobCompleted)];
      } else {
        webhooks := webhooks + [S.Notice(id, S.JobFailed)];
      }
    }

    /** `completeJob` up to the pruning of the index. */
    method Close(id: Id, now: int)
      requires id in records
      modifies this`records, this`runSuccess, this`runFailure, this`running, this`completed
      ensures State() == S.Closed(old(State()), id, now)
    {
      hide S.Without;
      var job := records[id];
      var completedAt := if job.completedAt.Some? then job.completedAt else Some(now);
      records := records[id := job.(finalized := true, completedAt := completedAt)];
      if job.status.Completed? {
        runSuccess := runSuccess + 1;
      } else if job.status.Failed? {
        runFailure := runFailure + 1;
      }
      running := S.Without(running, id);
      completed := completed + [id];
    }

    method CompleteJob(id: Id, env: S.Env)
      requires id in records
      modifies this
      ensures old(records)[id].finalized ==> State() == old(State())
      ensures !old(records)[id].finalized && id !in old(queue) && S.Terminal(old(records)[id]) ==>
                && id in records && id !in running && completed == old(completed) + [id]
                && records[id] == old(records)[id].(finalized := true,
                     completedAt := if old(records)[id].completedAt.Some? then old(records)[id].completedAt else Some(env.now))
                && runSuccess + runFailure == old(runSuccess) + old(runFailure) + 1
      ensures State() == S.CompleteJob(old(State()), id, env)
    {
      if !records[id].finalized && id !in queue && S.Terminal(records[id]) {
        O.CompletePromise(State(), id, env);
      }
      hide S.Closed, S.Prune, S.ProcessQueue;
      if records[id].finalized {
        return;
      }
      Close(id, env.now);
      PruneTerminalJobsIndex();
      if !isShuttingDown {
        ProcessQueue(env);
      }
    }

    /** `finalizeJobIfNeeded`, for a job that is not queued: once, and then never again. */
    method FinalizeJobIfNeeded(id: Id, updates: S.Updates, env: S.Env)
      requires id in records
      modifies this
      ensures old(Valid()) && id !in old(queue) && (updates.status.Completed? || updates.status.Failed?) ==>
                && Valid() && R.Frozen(old(State()), State())
                && (if old(records)[id].finalized then State() == old(State())
                    else O.FinalAs(old(State()), State(), id, updates, env.now))
      ensures State() == S.FinalizeJobIfNeeded(old(State()), id, updates, env)
    {
      hide O.Sound, O.FinalAs, R.Frozen;
      if Valid() && id !in queue && (updates.status.Completed? || updates.status.Failed?) {
        O.FinalizePromise(State(), id, updates, env);
      }
      hide S.CompleteJob, S.EmitTerminalWebhook;
      if records[id].finalized {
        return;
      }
      records := records[id := S.Update(records[id], updates, env.now)];
      ghost var s := State();
      EmitTerminalWebhook(id);
      EmitKeepsRecords(s, id);
      CompleteJob(id, env);
    }

    /** `submitJob`: the job runs, or waits while no slot is free. */
    method SubmitJob(id: Id, webhook: bool, env: S.Env)
      requires Valid()
      requires id !in records
      modifies this
      ensures Valid() && R.Frozen(old(State()), State())
      ensures O.HasTurn(State(), id) && D.Submitted(old(State()), State(), id, None, webhook, env.now)
      ensures State() == S.Submit(old(State()), id, webhook, env)
    {
      hide O.Sound, R.Frozen, O.HasTurn, O.Reaches, A.MayLaunch, D.Concluded, D.Submitted, D.Authorized, D.EndedAwait, D.EndedByExit;
      O.SubmitPromise(State(), id, webhook, env);
      hide S.ProcessQueue;
      records := records[id := S.Job(None, webhook, S.Queued, None, None, false, env.now, None, None, arrivals)];
      jobs, queue, arrivals := jobs + [id], queue + [id], arrivals + 1;
      ProcessQueue(env);
    }

    /** `submitSoyuzJob`: the job waits behind a closed gate. */
    method SubmitSoyuzJob(id: Id, env: S.Env)
      requires Valid()
      requires id !in records
      modifies this
      ensures Valid() && R.Frozen(old(State()), State())
      ensures id in queue && id !in begun && id in records && !S.Runnable(records[id])
      ensures D.Submitted(old(State()), State(), id, Some(S.Gate(false, false, false)), false, env.now)
      ensures State() == S.SubmitSoyuz(old(State()), id, env)
    {
      hide O.Sound, R.Frozen, O.HasTurn, O.Reaches, A.MayLaunch, D.Concluded, D.Submitted, D.Authorized, D.EndedAwait, D.EndedByExit;
      O.SubmitSoyuzPromise(State(), id, env);
      hide S.ProcessQueue;
      var gate := S.Gate(false, false, false);
      records := records[id := S.Job(Some(gate), false, S.Queued, None, None, false, env.now, None, None, arrivals)];
      jobs, queue, arrivals := jobs + [id], queue + [id], arrivals + 1;
      ProcessQueue(env);
    }

    /**
     * `authorizeSoyuzStart`: once its gate is open the job has its turn, exactly if it was in the queue or its
     * gate had been closed; if the write fails it stays closed and nothing starts.
     */
    method AuthorizeSoyuzStart(id: Id, durable: bool, env: S.Env) returns (r: StartResult)
      requires Valid()
      modifies this
      ensures Valid() && R.Frozen(old(State()), State())
      ensures r.NotQueued? <==> !old(S.IsQueuedSoyuz(State(), id))
      ensures r.NotQueued? ==> State() == old(State())
      ensures r.Opened? ==> (O.HasTurn(State(), id) <==> id in old(queue) || !S.Runnable(old(records)[id]))
      ensures r.WriteFailed? ==> id in records && !S.Runnable(records[id]) && begun == old(begun) && queue == old(queue)
      ensures old(S.IsQueuedSoyuz(State(), id)) && !S.Runnable(old(records)[id]) ==>
                D.Authorized(old(State()), State(), id, durable, env.now)
      ensures r.WriteFailed? <==> old(S.IsQueuedSoyuz(State(), id)) && !S.Runnable(old(records)[id]) && !durable
      ensures State() == S.Authorize(old(State()), id, durable, env)
    {
      hide O.Sound, R.Frozen, O.HasTurn, O.Reaches, A.MayLaunch, D.Concluded, D.Submitted, D.Authorized, D.EndedAwait, D.EndedByExit;
      O.AuthorizePromise(State(), id, durable, env);
      hide S.ProcessQueue, S.Append;
      if !(id in jobs && id in records && records[id].soyuz.Some? && records[id].status.Queued?) {
        return NotQueued;
      }
      var gate := records[id].soyuz.value;
      if gate.startAuthorized && !gate.startNeedsCanonicalRecheck {
        ProcessQueue(env);
        return Opened;
      }
      ghost var s := State();
      var checked := gate.(startAuthorized := true, startNeedsCanonicalRecheck := !durable);
      records := records[id := records[id].(soyuz := Some(checked))];
      assert State() == S.WithGate(s, id, checked);
      if durable {
        queue := S.Append(queue, id);
        assert State() == S.WithGate(s, id, checked).(queue := S.Append(s.queue, id));
        ProcessQueue(env);
        return Opened;
      }
      return WriteFailed;
    }

    /** `holdSoyuzJob`: a queued Soyuz job leaves the queue; all else stays. */
    method HoldSoyuzJob(id: Id)
      requires Valid()
      modifies this`queue
      ensures Valid() && R.Frozen(old(State()), State())
      ensures S.IsQueuedSoyuz(State(), id) ==> id !in queue && id in jobs && forall x <- old(queue) :: x != id ==> x in queue
      ensures !S.IsQueuedSoyuz(State(), id) ==> queue == old(queue)
      ensures State() == S.Hold(old(State()), id)
    {
      hide O.Sound, R.Frozen, O.HasTurn, O.Reaches, A.MayLaunch, D.Concluded, D.Submitted, D.Authorized, D.EndedAwait, D.EndedByExit;
      O.HoldPromise(State(), id);
      if id in jobs && id in records && records[id].soyuz.Some? && records[id].status.Queued? {
        queue := S.Without(queue, id);
      }
    }

    /**
     * `cancelJob`: a queued job is over at once, with 143, and leaves the queue; a running one keeps its slot;
     * a job that is unknown or over stays as it is.
     */
    method CancelJob(id: Id, env: S.Env)
      requires Valid()
      modifies this
      ensures Valid() && R.Frozen(old(State()), State())
      ensures running == old(running) && begun == old(begun)
      ensures !old(O.Reaches(State(), id)) ==> State() == old(State())
      ensures old(O.Reaches(State(), id)) && id in old(records) && old(records)[id].status.Queued? ==>
                O.CancelledForGood(old(State()), State(), id, old(records)[id], env.now)
      ensures old(O.Reaches(State(), id)) && id in old(records) && !old(records)[id].status.Queued? ==>
                State() == old(State()).(heap := old(records)[id := old(records)[id].(status := S.Failed, exitCode := Some(143),
                                                                                           failureClass := Some("cancelled"))])
      ensures State() == S.Cancel(old(State()), id, env.now)
    {
      hide O.Sound, R.Frozen, O.HasTurn, O.Reaches, A.MayLaunch, D.Concluded, D.Submitted, D.Authorized, D.EndedAwait, D.EndedByExit;
      O.CancelPromise(State(), id, env.now);
      if id !in jobs || id !in records || records[id].status.Completed? || records[id].status.Failed? {
        return;
      }
      var job := records[id];
      var cancelled := job.(status := S.Failed, exitCode := Some(143), failureClass := Some("cancelled"));
      if job.status.Queued? {
        queue := S.Without(queue, id);
        records := records[id := cancelled.(completedAt := Some(env.now), finalized := true)];
        withdrawn := withdrawn + {id};
        if job.webhook {
          webhooks := webhooks + [S.Notice(id, S.JobCancelled)];
        }
        assert webhooks == old(webhooks) + (if job.webhook then [S.Notice(id, S.JobCancelled)] else []);
        assert State() == S.Cancel(old(State()), id, env.now);
        return;
      }
      records := records[id := cancelled];
    }

    /**
     * `cancelSoyuzJob`: a queued job is over at once, and a running one without a process too, once the request
     * is written; one with a process is marked and keeps its slot; if the write fails nothing changes.
     */
    method CancelSoyuzJob(id: Id, durable: bool, env: S.Env)
      requires Valid()
      modifies this
      ensures Valid() && R.Frozen(old(State()), State())
      ensures var reached := old(O.Reaches(State(), id)) && id in old(records) && old(records)[id].soyuz.Some?;
              && (!reached ==> State() == old(State()))
              && (reached && old(records)[id].status.Queued? ==> O.CancelledForGood(old(State()), State(), id, old(records)[id], env.now))
              && (reached && !old(records)[id].status.Queued? && !durable ==> State() == old(State()))
              && (reached && !old(records)[id].status.Queued? && durable && id !in old(processes) ==>
                    O.CancelledForGood(old(State()), State(), id, D.Asked(old(records)[id]), env.now))
              && (reached && !old(records)[id].status.Queued? && durable && id in old(processes) ==>
                    State() == old(State()).(heap := old(records)[id := D.Asked(old(records)[id])]))
      ensures State() == S.CancelSoyuz(old(State()), id, durable, env)
    {
      hide O.Sound, R.Frozen, O.HasTurn, O.Reaches, A.MayLaunch, D.Concluded, D.Submitted, D.Authorized, D.EndedAwait, D.EndedByExit;
      O.CancelSoyuzPromise(State(), id, durable, env);
      hide S.FinalizeJobIfNeeded, S.Cancel;
      if id !in jobs || id !in records || records[id].soyuz.None? || S.Terminal(records[id]) {
        return;
      }
      if records[id].status.Queued? {
        CancelJob(id, env);
        return;
      }
      if !durable {
        return;
      }
      var gate := records[id].soyuz.value.(cancellationRequested := true);
      records := records[id := records[id].(soyuz := Some(gate))];
      if id !in processes {
        FinalizeJobIfNeeded(id, S.CANCELLED, env);
      }
    }

    /** `executeJob` from the end of its await on. */
    method ResumeExecuteJob(id: Id, durable: bool, env: S.Env)
      requires Valid()
      modifies this
      ensures Valid() && R.Frozen(old(State()), State())
      ensures id in spawned && id !in old(spawned) <==> old(A.MayLaunch(State(), id, durable, env))
      ensures id !in old(awaiting) ==> State() == old(State())
      ensures id in old(awaiting) ==> D.EndedAwait(old(State()), State(), id, durable, env)
      ensures State() == S.Persisted(old(State()), id, durable, env)
    {
      hide O.Sound, R.Frozen, O.HasTurn, O.Reaches, A.MayLaunch, D.Concluded, D.Submitted, D.Authorized, D.EndedAwait, D.EndedByExit;
      O.PersistedPromise(State(), id, durable, env);
      hide S.FinalizeJobIfNeeded, S.Launch;
      if id !in awaiting || id !in records {
        return;
      }
      awaiting := awaiting - {id};
      if !durable {
        FinalizeJobIfNeeded(id, S.Updates(S.Failed, S.EXIT_CODE_SPAWN_FAILED, Some("local_persistence_failed")), env);
        return;
      }
      if records[id].finalized {
        return;
      }
      if records[id].soyuz.Some? && records[id].soyuz.value.cancellationRequested {
        FinalizeJobIfNeeded(id, S.CANCELLED, env);
        return;
      }
      Launch(id, env);
    }

    /** The handler of a rejected `executeJob`: the job is over with 127, unless it was before. */
    method OnLaunchFailed(id: Id, env: S.Env)
      requires Valid()
      modifies this
      ensures Valid() && R.Frozen(old(State()), State())
      ensures id in old(failing) && id in old(records) && !old(records)[id].finalized ==>
                D.EndedUnstarted(old(State()), State(), id, old(records)[id], "scheduler_start_failed", env.now)
      ensures State() == S.LaunchFailed(old(State()), id, env)
    {
      hide O.Sound, R.Frozen, O.HasTurn, O.Reaches, A.MayLaunch, D.Concluded, D.Submitted, D.Authorized, D.EndedAwait, D.EndedByExit;
      O.LaunchFailedPromise(State(), id, env);
      hide S.FinalizeJobIfNeeded;
      if id in failing && id in records {
        failing := failing - {id};
        FinalizeJobIfNeeded(id, S.Updates(S.Failed, S.EXIT_CODE_SPAWN_FAILED, Some("scheduler_start_failed")), env);
      }
    }

    /** The exit listener, and `handleProcessExit`; only the process of a spawned job exits. */
    method OnExit(id: Id, code: int, timedOut: bool, reported: Option<string>, env: S.Env)
      requires Valid()
      requires id in spawned && id in records
      modifies this
      ensures Valid() && R.Frozen(old(State()), State())
      ensures if old(records)[id].finalized then State() == old(State()).(processes := old(processes) - {id})
              else D.EndedByExit(old(State()), State(), id, old(records)[id], code, timedOut, reported, env.now)
      ensures State() == S.Exited(old(State()), id, code, timedOut, reported, env)
    {
      hide O.Sound, R.Frozen, O.HasTurn, O.Reaches, A.MayLaunch, D.Concluded, D.Submitted, D.Authorized, D.EndedAwait, D.EndedByExit;
      O.ExitPromise(State(), id, code, timedOut, reported, env);
      hide S.FinalizeJobIfNeeded;
      processes := processes - {id};
      var job := records[id];
      var updates: S.Updates;
      if job.failureClass == Some("cancelled")
         || (job.soyuz.Some? && job.soyuz.value.cancellationRequested && code != 0) {
        updates := S.CANCELLED;
      } else if timedOut {
        updates := S.Updates(S.Failed, 124, Some("timeout"));
      } else if code == 0 {
        updates := S.Updates(S.Completed, 0, None);
      } else {
        updates := S.Updates(S.Failed, code, reported);
      }
      FinalizeJobIfNeeded(id, updates, env);
    }

    /** The error listener: the job is over with 127, unless it was before. */
    method OnSpawnError(id: Id, storage: bool, env: S.Env)
      requires Valid()
      requires id in spawned && id in records
      modifies this
      ensures Valid() && R.Frozen(old(State()), State())
      ensures !old(records)[id].finalized ==>
                D.EndedUnstarted(old(State()), State(), id, old(records)[id], if storage then "storage_exhausted" else "spawn_error",
                                 env.now)
      ensures State() == S.SpawnError(old(State()), id, storage, env)
    {
      hide O.Sound, R.Frozen, O.HasTurn, O.Reaches, A.MayLaunch, D.Concluded, D.Submitted, D.Authorized, D.EndedAwait, D.EndedByExit;
      O.SpawnErrorPromise(State(), id, storage, env);
      hide S.FinalizeJobIfNeeded;
      processes := processes - {id};
      var failureClass := if storage then "storage_exhausted" else "spawn_error";
      FinalizeJobIfNeeded(id, S.Updates(S.Failed, S.EXIT_CODE_SPAWN_FAILED, Some(failureClass)), env);
    }

    method AbortRunning(id: Id, env: S.Env)
      modifies this
      ensures State() == S.Abort(old(State()), id, env)
    {
      hide S.CompleteJob;
      if id in jobs && id in records && !records[id].finalized {
        var job := records[id].(status := S.Failed, failureClass := Some("shutdown_aborted"),
                                exitCode := Some(143), completedAt := Some(env.now));
        records := records[id := job];
        aborted := aborted + {id};
        CompleteJob(id, env);
      }
    }

    /** `shutdown`: detach the queue, abort what runs, then finalize what was waiting. */
    method Shutdown(env: S.Env)
      requires Valid()
      modifies this
      ensures Valid() && R.Frozen(old(State()), State())
      ensures isShuttingDown && queue == [] && begun == old(begun) && spawned == old(spawned)
      ensures D.AllShutDown(old(State()), State(), env.now)
      ensures State() == S.Shutdown(old(State()), env)
    {
      hide O.Sound, R.Frozen, O.HasTurn, O.Reaches, A.MayLaunch, D.Concluded, D.Submitted, D.Authorized, D.EndedAwait, D.EndedByExit;
      O.ShutdownPromise(State(), env);
      hide D.AllShutDown;
      hide S.AbortAll, S.DropAll;
      isShuttingDown := true;
      var queuedJobs := queue;
      queue := [];
      AbortRunningJobs(running, env);
      DropQueuedJobs(queuedJobs, env);
    }

    /** The loop of `shutdown` over the running jobs. */
    method AbortRunningJobs(ids: seq<Id>, env: S.Env)
      modifies this
      ensures State() == S.AbortAll(old(State()), ids, env)
    {
      hide S.Abort;
      for i := 0 to |ids|
        invariant State() == S.AbortAll(old(State()), ids[..i], env)
      {
        assert ids[..i + 1][..i] == ids[..i];
        AbortRunning(ids[i], env);
      }
      assert ids[..|ids|] == ids;
    }

    /** The loop of `shutdown` over the jobs that were queued. */
    method DropQueuedJobs(ids: seq<Id>, env: S.Env)
      modifies this
      ensures State() == S.DropAll(old(State()), ids, env)
    {
      hide S.Drop;
      for i := 0 to |ids|
        invariant State() == S.DropAll(old(State()), ids[..i], env)
      {
        assert ids[..i + 1][..i] == ids[..i];
        DropQueued(ids[i], env);
      }
      assert ids[..|ids|] == ids;
    }

    method DropQueued(id: Id, env: S.Env)
      modifies this
      ensures State() == S.Drop(old(State()), id, env)
    {
      hide S.FinalizeJobIfNeeded;
      if id in records {
        FinalizeJobIfNeeded(id, S.Updates(S.Failed, 143, Some("shutdown_aborted")), env);
      }
    }
  }
}
