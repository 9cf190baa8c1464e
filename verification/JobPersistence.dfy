/**
 The operations of the persistence manager on the durable index, as they run under the
 index lock: the loops that merge and reload the records, proved against the transitions
 of `JobsIndex` and `SoyuzOutbox`.
 */
module JobPersistence {
  import opened Wrappers
  import opened Seqs
  import opened Sorting
  import opened JobRecords
  import opened JobsIndex
  import SoyuzOutbox

  function JobId(job: PersistedJob): string { job.id }

  function NewestCreatedFirst(job: PersistedJob): int { -job.createdAt }

  /** A list with distinct ids is a faithful picture of its map. */
  predicate Represents(jobs: seq<PersistedJob>, m: Index) {
    && Distinct(jobs, JobId)
    && (forall job <- jobs :: job.id in m && m[job.id] == job)
    && (forall id <- m :: m[id] in jobs && m[id].id == id)
  }

  lemma AppendDistinct(front: seq<PersistedJob>, last: PersistedJob)
    requires Distinct(front, JobId) && forall job <- front :: job.id != last.id
    ensures Distinct(front + [last], JobId)
  {
  }

  lemma AppendRepresents(front: seq<PersistedJob>, m: Index, last: PersistedJob)
    requires Represents(front, m) && last.id !in m
    ensures Represents(front + [last], m[last.id := last])
  {
    AppendDistinct(front, last);
  }

  lemma {:induction false} DistinctRepresents(jobs: seq<PersistedJob>)
    requires Distinct(jobs, JobId)
    ensures Represents(jobs, IndexOf(jobs))
  {
    if jobs != [] {
      var front, last := jobs[..|jobs| - 1], jobs[|jobs| - 1];
      assert Distinct(front, JobId);
      DistinctRepresents(front);
      forall job <- front ensures job.id != last.id {
        var i :| 0 <= i < |front| && front[i] == job;
        assert JobId(jobs[i]) != JobId(jobs[|jobs| - 1]);
      }
      forall id <- IndexOf(front) ensures id != last.id { assert IndexOf(front)[id] in front; }
      AppendRepresents(front, IndexOf(front), last);
      assert jobs == front + [last];
    }
  }

  lemma RepresentsUnique(jobs: seq<PersistedJob>, m: Index)
    requires Represents(jobs, m)
    ensures IndexOf(jobs) == m
  {
    DistinctRepresents(jobs);
    var m' := IndexOf(jobs);
    forall id | id in m ensures id in m' && m'[id] == m[id] {
      assert m[id] in jobs;
    }
    forall id | id in m' ensures id in m {
      assert m'[id] in jobs;
    }
  }

  lemma {:induction false} MergeIsKeyed(m: Index, incoming: seq<PersistedJob>)
    requires KeyedById(m)
    ensures KeyedById(Merge(m, incoming))
  {
    if incoming != [] {
      MergeIsKeyed(m, incoming[..|incoming| - 1]);
    }
  }

  lemma {:induction false} IndexOfIsKeyed(jobs: seq<PersistedJob>)
    ensures KeyedById(IndexOf(jobs))
  {
    if jobs != [] { IndexOfIsKeyed(jobs[..|jobs| - 1]); }
  }

  /** `mergePersistedJobs`: two passes over an insertion-ordered map, then newest first. */
  method MergePersistedJobs(existing: seq<PersistedJob>, incoming: seq<PersistedJob>) returns (merged: seq<PersistedJob>)
    ensures Represents(merged, Merge(IndexOf(existing), incoming))
    ensures SortedBy(merged, NewestCreatedFirst)
  {
    var byId: Index := map[];
    var order: seq<string> := [];
    for i := 0 to |existing|
      invariant byId == IndexOf(existing[..i])
      invariant forall id :: id in order <==> id in byId
      invariant forall a, b :: 0 <= a < b < |order| ==> order[a] != order[b]
    {
      var job := existing[i];
      assert existing[..i + 1] == existing[..i] + [job];
      if job.id !in byId { order := order + [job.id]; }
      byId := byId[job.id := job];
    }
    assert existing[..|existing|] == existing;
    for i := 0 to |incoming|
      invariant byId == Merge(IndexOf(existing), incoming[..i])
      invariant forall id :: id in order <==> id in byId
      invariant forall a, b :: 0 <= a < b < |order| ==> order[a] != order[b]
    {
      var job := incoming[i];
      assert incoming[..i + 1][..i] == incoming[..i];
      if job.id !in byId {
        order := order + [job.id];
        byId := byId[job.id := job];
      } else {
        byId := byId[job.id := SelectMostRecent(byId[job.id], job)];
      }
    }
    assert incoming[..|incoming|] == incoming;
    IndexOfIsKeyed(existing);
    MergeIsKeyed(IndexOf(existing), incoming);
    merged := Arrange(byId, order);
  }

  /** The second half of the merge: active records, then terminal ones, sorted by creation time. */
  method Arrange(byId: Index, order: seq<string>) returns (merged: seq<PersistedJob>)
    requires KeyedById(byId) && forall id :: id in order <==> id in byId
    requires forall a, b :: 0 <= a < b < |order| ==> order[a] != order[b]
    ensures Represents(merged, byId)
    ensures SortedBy(merged, NewestCreatedFirst)
  {
    var active: seq<PersistedJob>, terminal: seq<PersistedJob> := [], [];
    for i := 0 to |order|
      invariant forall id :: id in order[..i] ==> byId[id] in active || byId[id] in terminal
      invariant forall job <- active :: job.id in order[..i] && byId[job.id] == job && !IsTerminal(job)
      invariant forall job <- terminal :: job.id in order[..i] && byId[job.id] == job && IsTerminal(job)
      invariant Distinct(active, JobId) && Distinct(terminal, JobId)
    {
      var job := byId[order[i]];
      assert order[..i + 1] == order[..i] + [order[i]];
      assert job.id !in order[..i];
      if IsTerminal(job) {
        terminal := terminal + [job];
      } else {
        active := active + [job];
      }
    }
    assert order[..|order|] == order;
    var all := active + terminal;
    assert Distinct(all, JobId) by {
      forall i, j | 0 <= i < j < |all| ensures JobId(all[i]) != JobId(all[j]) {
        if i < |active| && j >= |active| {
          assert all[i] in active && all[j] in terminal;
        }
      }
    }
    merged := StableSort(all, NewestCreatedFirst);
    StableSortSorts(all, NewestCreatedFirst);
    StableSortMembers(all, NewestCreatedFirst);
    SortKeepsDistinct(all, NewestCreatedFirst, JobId);
  }

  lemma MapDistinct(jobs: seq<PersistedJob>, f: PersistedJob -> PersistedJob)
    requires Distinct(jobs, JobId) && forall job <- jobs :: f(job).id == job.id
    ensures Distinct(Map(jobs, f), JobId)
  {
    var r := Map(jobs, f);
    forall i, j | 0 <= i < j < |r| ensures JobId(r[i]) != JobId(r[j]) {
      assert JobId(jobs[i]) != JobId(jobs[j]);
    }
  }

  lemma MapMember(jobs: seq<PersistedJob>, f: PersistedJob -> PersistedJob, job: PersistedJob)
    requires job in jobs
    ensures f(job) in Map(jobs, f)
  {
    var i :| 0 <= i < |jobs| && jobs[i] == job;
    assert Map(jobs, f)[i] == f(job);
  }

  lemma MapRepresents(jobs: seq<PersistedJob>, m: Index, f: PersistedJob -> PersistedJob)
    requires Represents(jobs, m) && forall job <- jobs :: f(job).id == job.id
    ensures Represents(Map(jobs, f), map id | id in m :: f(m[id]))
  {
    var r := Map(jobs, f);
    MapDistinct(jobs, f);
    forall id <- m ensures f(m[id]) in r && f(m[id]).id == id {
      MapMember(jobs, f, m[id]);
    }
    forall job <- r ensures job.id in m && f(m[job.id]) == job {
      var i :| 0 <= i < |r| && r[i] == job;
      assert jobs[i] in jobs;
    }
  }

  /** The queued jobs this controller may execute. */
  function HeldBy(l: Loader): PersistedJob -> bool {
    (job: PersistedJob) => job.status.Queued? && job.restartClaim == Some(ClaimOf(l))
  }

  lemma RestartedHeldIff(l: Loader, job: PersistedJob)
    ensures HeldBy(l)(Restarted(l, job)) <==> job.status.Queued? && MayClaim(l, job.restartClaim)
  {
  }

  lemma FilterAppendOne(s: seq<PersistedJob>, x: PersistedJob, keep: PersistedJob -> bool)
    ensures Filter(s + [x], keep) == Filter(s, keep) + if keep(x) then [x] else []
  {
    FilterAppend(s, [x], keep);
    assert [x][1..] == [];
  }

  lemma RestartRepresents(before: seq<PersistedJob>, after: seq<PersistedJob>, l: Loader)
    requires Distinct(before, JobId) && |after| == |before|
    requires forall k :: 0 <= k < |before| ==> after[k] == Restarted(l, before[k])
    ensures Distinct(after, JobId) && IndexOf(after) == RestartAll(IndexOf(before), l)
  {
    hide Restarted;
    var restart := (job: PersistedJob) => Restarted(l, job);
    DistinctRepresents(before);
    forall job <- before ensures restart(job).id == job.id { RestartedIsMoreRecent(l, job); }
    MapRepresents(before, IndexOf(before), restart);
    assert after == Map(before, restart);
    RepresentsUnique(after, RestartAll(IndexOf(before), l));
  }

  lemma SameDatesSorted(before: seq<PersistedJob>, after: seq<PersistedJob>)
    requires SortedBy(before, NewestCreatedFirst) && |after| == |before|
    requires forall k :: 0 <= k < |before| ==> after[k].createdAt == before[k].createdAt
    ensures SortedBy(after, NewestCreatedFirst)
  {
    forall i, j | 0 <= i < j < |after| ensures NewestCreatedFirst(after[i]) <= NewestCreatedFirst(after[j]) {
      assert NewestCreatedFirst(before[i]) <= NewestCreatedFirst(before[j]);
    }
  }

  lemma MarkedSorted(jobs: seq<PersistedJob>, callbackId: string)
    requires SortedBy(jobs, NewestCreatedFirst)
    ensures SortedBy(Map(jobs, (job: PersistedJob) => MarkDelivered(job, callbackId)), NewestCreatedFirst)
  {
    SameDatesSorted(jobs, Map(jobs, (job: PersistedJob) => MarkDelivered(job, callbackId)));
  }

  lemma FilterNone(l: Loader)
    ensures Filter([], HeldBy(l)) == []
  {
  }

  lemma AllSurvive(l: Loader, before: seq<PersistedJob>, after: seq<PersistedJob>)
    requires |after| == |before| && forall k :: 0 <= k < |before| ==> after[k] == Restarted(l, before[k])
    ensures forall k :: 0 <= k < |before| ==> SurvivesRestart(l, before[k], after[k])
    ensures forall k :: 0 <= k < |before| ==> (after[k].status.Completed? ==> before[k].status.Completed?)
  {
    hide Restarted, SurvivesRestart;
    forall k | 0 <= k < |before|
      ensures SurvivesRestart(l, before[k], after[k]) && (after[k].status.Completed? ==> before[k].status.Completed?)
    {
      RestartedSurvives(l, before[k]);
    }
  }

  /** The loop of `loadPersistedJobs` over the parsed records, which it updates one by one. */
  method RestartEach(before: seq<PersistedJob>, l: Loader) returns (records: seq<PersistedJob>, queued: seq<PersistedJob>)
    ensures |records| == |before| && forall k :: 0 <= k < |before| ==> records[k] == Restarted(l, before[k])
    ensures forall k :: 0 <= k < |before| ==> SurvivesRestart(l, before[k], records[k])
    ensures queued == Filter(records, HeldBy(l))
  {
    records, queued := before, [];
    hide HeldBy, Filter, Interrupted, MayClaim;
    assert records[..0] == [] && Filter([], HeldBy(l)) == [] by { FilterNone(l); }
    var i := 0;
    while i < |records|
      invariant 0 <= i <= |records| == |before|
      invariant forall k :: 0 <= k < i ==> records[k] == Restarted(l, before[k])
      invariant forall k :: i <= k < |records| ==> records[k] == before[k]
      invariant queued == Filter(records[..i], HeldBy(l))
    {
      var job := records[i];
      var updated := job;
      RestartedHeldIff(l, job);
      if job.status.Running? {
        updated := Interrupted(job, l.wallClock);
      } else if job.status.Queued? && MayClaim(l, job.restartClaim) {
        updated := job.(restartClaim := Some(RestartClaim(l.token, l.pid, l.now)));
        queued := queued + [updated];
      }
      FilterAppendOne(records[..i], updated, HeldBy(l));
      records := records[i := updated];
      assert records[..i + 1] == records[..i] + [updated];
      i := i + 1;
    }
    assert records[..|records|] == records;
    AllSurvive(l, before, records);
  }

  datatype Outcome = Written | ExternalRunAlreadyPersisted(localRunId: string) | CallbackRefused

  /** `find`: the first record of the same external run. */
  function RecordOfExternalRun(jobs: seq<PersistedJob>, externalRunId: string): (r: Option<PersistedJob>)
    ensures r.Some? ==> r.value in jobs && r.value.soyuz.Some? && r.value.soyuz.value.externalRunId == externalRunId
    ensures r.None? ==> forall job <- jobs :: job.soyuz.Some? ==> job.soyuz.value.externalRunId != externalRunId
  {
    if jobs == [] then None
    else if jobs[0].soyuz.Some? && jobs[0].soyuz.value.externalRunId == externalRunId then Some(jobs[0])
    else RecordOfExternalRun(jobs[1..], externalRunId)
  }

  /** A persistence manager together with the index file it reads and writes under the lock. */
  class JobPersistenceManager {
    var jobs: seq<PersistedJob>
    var outbox: SoyuzOutbox.Outbox

    ghost predicate Valid()
      reads this
    {
      Distinct(jobs, JobId) && SoyuzOutbox.Unique(outbox) && SortedBy(jobs, NewestCreatedFirst)
    }

    ghost function Durable(): Index
      reads this
    {
      IndexOf(jobs)
    }

    constructor ()
      ensures Valid() && Durable() == map[] && outbox == []
    {
      jobs, outbox := [], [];
    }

    /** `persistJobs`. */
    method PersistJobs(incoming: seq<PersistedJob>)
      requires Valid()
      modifies this
      ensures Valid() && outbox == old(outbox)
      ensures Durable() == JobsIndex.Apply(old(Durable()), Persist(incoming))
      ensures SortedBy(jobs, NewestCreatedFirst)
    {
      jobs := MergePersistedJobs(jobs, incoming);
      RepresentsUnique(jobs, Merge(old(Durable()), incoming));
    }

    /** `persistJobStrict`: refuses a second local job for an external run, and then writes nothing. */
    method PersistJobStrict(job: PersistedJob) returns (r: Outcome)
      requires Valid()
      modifies this
      ensures Valid() && outbox == old(outbox)
      ensures r.Written? <==> (job.soyuz.None?
                               || var first := RecordOfExternalRun(old(jobs), job.soyuz.value.externalRunId);
                                  first.None? || first.value.id == job.id)
      ensures r.Written? ==> Durable() == JobsIndex.Apply(old(Durable()), Persist([job]))
      ensures !r.Written? ==> jobs == old(jobs)
      ensures r.ExternalRunAlreadyPersisted? ==>
                && job.soyuz.Some?
                && exists other <- old(jobs) ::
                     && other.id == r.localRunId && other.id != job.id && other.soyuz.Some?
                     && other.soyuz.value.externalRunId == job.soyuz.value.externalRunId
      ensures !r.CallbackRefused?
    {
      if job.soyuz.Some? {
        var existing := RecordOfExternalRun(jobs, job.soyuz.value.externalRunId);
        if existing.Some? && existing.value.id != job.id {
          return ExternalRunAlreadyPersisted(existing.value.id);
        }
      }
      PersistJobs([job]);
      r := Written;
    }

    /** `persistSoyuzTerminalCallback`: the job and its callback become durable together or not at all. */
    method PersistTerminalCallback(job: PersistedJob, soyuz: Soyuz, entry: SoyuzOutbox.OutboxEntry, now: int)
      returns (r: Outcome)
      requires Valid() && job.soyuz == Some(soyuz)
      modifies this
      ensures Valid()
      ensures r.Written? ==>
                var v := job.(soyuz := Some(soyuz.(terminalCallbackId := Some(entry.callbackId),
                                                   terminalCallbackDelivered := false,
                                                   metadataUpdatedAt := Some(now))));
                && Durable() == JobsIndex.Apply(old(Durable()), Persist([v]))
                && SoyuzOutbox.Add(old(outbox), entry) == SoyuzOutbox.Added(outbox)
      ensures r.Written? ==> job.id in Durable() && NamesCallback(Durable()[job.id], entry.callbackId)
      ensures !r.Written? ==> jobs == old(jobs) && outbox == old(outbox)
      ensures !r.Written? <==> !SoyuzOutbox.Add(old(outbox), entry).Added?
    {
      var v := job.(soyuz := Some(soyuz.(terminalCallbackId := Some(entry.callbackId),
                                         terminalCallbackDelivered := false,
                                         metadataUpdatedAt := Some(now))));
      var merged := MergePersistedJobs(jobs, [v]);
      match SoyuzOutbox.Add(outbox, entry)
      case Added(o) =>
        SoyuzOutbox.StepKeepsUnique(outbox, SoyuzOutbox.Enqueue(entry));
        RepresentsUnique(merged, Merge(Durable(), [v]));
        PersistedNames(Durable(), v, entry.callbackId);
        jobs, outbox := merged, o;
        r := Written;
      case _ =>
        r := CallbackRefused;
    }

    /** `claimDueSoyuzCallbacks`. */
    method ClaimDueSoyuzCallbacks(now: nat, leaseMs: nat, limit: nat) returns (claimed: SoyuzOutbox.Outbox)
      requires Valid()
      modifies this`outbox
      ensures Valid()
      ensures outbox == SoyuzOutbox.Apply(old(outbox), SoyuzOutbox.ClaimDue(now, leaseMs, limit))
      ensures claimed == SoyuzOutbox.Claim(old(outbox), now, leaseMs, limit).1 && |claimed| <= limit
      ensures forall g <- claimed :: g in outbox && SoyuzOutbox.OnLease(outbox, g.callbackId, now + leaseMs)
    {
      SoyuzOutbox.ClaimReturnsSelected(outbox, now, leaseMs, limit);
      SoyuzOutbox.StepKeepsUnique(outbox, SoyuzOutbox.ClaimDue(now, leaseMs, limit));
      var (written, got) := SoyuzOutbox.Claim(outbox, now, leaseMs, limit);
      forall g <- got ensures SoyuzOutbox.OnLease(written, g.callbackId, now + leaseMs) {
        SoyuzOutbox.ClaimStartsLease(outbox, now, leaseMs, limit, g);
      }
      outbox := written;
      claimed := got;
    }

    /** `completeSoyuzCallback`: delivery is recorded on the callback and on the job that names it. */
    method CompleteSoyuzCallback(callbackId: string, now: nat)
      requires Valid()
      modifies this
      ensures Valid()
      ensures outbox == SoyuzOutbox.Apply(old(outbox), SoyuzOutbox.Completed(callbackId, now))
      ensures Durable() == JobsIndex.Apply(old(Durable()), Delivered(callbackId))
      ensures forall id <- old(Durable()) :: id in Durable() && RecordsDelivery(old(Durable())[id], Durable()[id], callbackId)
    {
      DeliveryRecorded(Durable(), callbackId);
      SoyuzOutbox.StepKeepsUnique(outbox, SoyuzOutbox.Completed(callbackId, now));
      outbox := SoyuzOutbox.Complete(outbox, callbackId, now);
      var mark := (job: PersistedJob) => MarkDelivered(job, callbackId);
      DistinctRepresents(jobs);
      MapRepresents(jobs, Durable(), mark);
      MarkedSorted(jobs, callbackId);
      hide SortedBy;
      jobs := Map(jobs, mark);
      RepresentsUnique(jobs, DeliverAll(old(Durable()), callbackId));
    }

    /**
     `loadPersistedJobs`: interrupts what was running, claims the queued jobs that no other live
     controller holds, and returns exactly the claimed ones.
     */
    method LoadPersistedJobs(l: Loader) returns (queued: seq<PersistedJob>)
      requires Valid()
      modifies this`jobs
      ensures Valid()
      ensures Durable() == JobsIndex.Apply(old(Durable()), Restart(l))
      ensures |jobs| == |old(jobs)| && forall k :: 0 <= k < |jobs| ==> jobs[k] == Restarted(l, old(jobs)[k])
      ensures forall k :: 0 <= k < |jobs| ==>
                SurvivesRestart(l, old(jobs)[k], jobs[k]) && (jobs[k].status.Completed? ==> old(jobs)[k].status.Completed?)
      ensures |jobs| == |old(jobs)| && forall k :: 0 <= k < |jobs| ==>
                (HeldBy(l)(jobs[k]) <==> old(jobs)[k].status.Queued? && MayClaim(l, old(jobs)[k].restartClaim))
      ensures queued == Filter(jobs, HeldBy(l))
    {
      var updated;
      updated, queued := RestartEach(jobs, l);
      RestartRepresents(jobs, updated, l);
      AllSurvive(l, jobs, updated);
      hide SurvivesRestart;
      forall k | 0 <= k < |updated|
        ensures HeldBy(l)(updated[k]) <==> jobs[k].status.Queued? && MayClaim(l, jobs[k].restartClaim)
      {
        RestartedHeldIff(l, jobs[k]);
      }
      SameDatesSorted(jobs, updated);
      jobs := updated;
    }
  }
}
