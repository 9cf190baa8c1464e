/** Persisted job records and the rule that decides between two versions of one job. */
module JobRecords {
  import opened Wrappers

  // Dates are their time value; fields the rule never looks at are kept in `request` and `details`.

  datatype Status = Queued | Running | Completed | Failed

  datatype RestartClaim = RestartClaim(ownerToken: string, pid: nat, leasedAt: int)

  datatype Soyuz = Soyuz(
    externalRunId: string,
    claimCallbackId: Option<string>,
    startedCallbackId: string,
    startAuthorized: bool,
    terminalCallbackId: Option<string>,
    terminalCallbackDelivered: bool,
    metadataUpdatedAt: Option<int>,
    details: string)

  datatype PersistedJob = PersistedJob(
    id: string,
    status: Status,
    createdAt: int,
    startedAt: Option<int>,
    completedAt: Option<int>,
    exitCode: Option<int>,
    failureClass: Option<string>,
    error: Option<string>,
    finalized: bool,
    restartClaim: Option<RestartClaim>,
    soyuz: Option<Soyuz>,
    request: string)

  predicate IsTerminal(job: PersistedJob) {
    job.status.Completed? || job.status.Failed?
  }

  function RecencyScore(job: PersistedJob): int {
    if job.completedAt.Some? then job.completedAt.value
    else if job.startedAt.Some? then job.startedAt.value
    else job.createdAt
  }

  function DiagnosticCount(job: PersistedJob): nat {
    (if job.failureClass.Some? then 1 else 0) +
    (if job.error.Some? then 1 else 0) +
    (if job.exitCode.Some? then 1 else 0)
  }

  /** `comparePersistedJobRecency`: positive when `job` should replace `prev`. */
  function CompareRecency(prev: PersistedJob, job: PersistedJob): int {
    if IsTerminal(prev) != IsTerminal(job) then (if IsTerminal(job) then 1 else -1)
    else if RecencyScore(job) != RecencyScore(prev) then RecencyScore(job) - RecencyScore(prev)
    else DiagnosticCount(job) - DiagnosticCount(prev)
  }

  /** `b` is at least as recent as `a`. */
  predicate AtLeastAsRecent(a: PersistedJob, b: PersistedJob) {
    CompareRecency(b, a) <= 0
  }

  function OptionOr<T>(a: Option<T>, b: Option<T>): Option<T> {
    if a.Some? then a else b
  }

  /** The overlay of the Soyuz metadata of both versions; a missing time compares as NaN. */
  function MergeSoyuz(prev: Option<Soyuz>, job: Option<Soyuz>): Option<Soyuz> {
    if prev.None? then job
    else if job.None? then prev
    else
      var p, j := prev.value, job.value;
      var jobIsLatest := j.metadataUpdatedAt.Some? && p.metadataUpdatedAt.Some?
                         && j.metadataUpdatedAt.value >= p.metadataUpdatedAt.value;
      var latest := if jobIsLatest then j else p;
      Some(latest.(
           startAuthorized := p.startAuthorized || j.startAuthorized,
           terminalCallbackDelivered := p.terminalCallbackDelivered || j.terminalCallbackDelivered,
           claimCallbackId := OptionOr(latest.claimCallbackId, OptionOr(p.claimCallbackId, j.claimCallbackId)),
           startedCallbackId := p.startedCallbackId,
           terminalCallbackId := OptionOr(j.terminalCallbackId, p.terminalCallbackId)))
  }

  function SelectMostRecent(prev: PersistedJob, job: PersistedJob): PersistedJob {
    (if CompareRecency(prev, job) > 0 then job else prev).(soyuz := MergeSoyuz(prev.soyuz, job.soyuz))
  }

  /** What a version says apart from the Soyuz and restart-claim overlays. */
  function Core(job: PersistedJob): PersistedJob {
    job.(soyuz := None, restartClaim := None)
  }

  predicate Authorized(job: PersistedJob) {
    job.soyuz.Some? && job.soyuz.value.startAuthorized
  }

  predicate CallbackDelivered(job: PersistedJob) {
    job.soyuz.Some? && job.soyuz.value.terminalCallbackDelivered
  }

  /** The version that `loadPersistedJobs` writes for a job that was running when the service stopped. */
  function Interrupted(job: PersistedJob, now: int): PersistedJob {
    job.(status := Failed, exitCode := Some(143), failureClass := Some("api_restart"),
         error := Some("API service restarted while job was running"),
         completedAt := Some(job.completedAt.GetOr(now)), finalized := true, restartClaim := None)
  }

  predicate Ended(job: PersistedJob) { job.status == Completed || job.status == Failed }

  /** When the version last moved: its completion, else its start, else its creation. */
  predicate MovedAt(job: PersistedJob, t: int) {
    match (job.completedAt, job.startedAt)
    case (Some(c), _) => t == c
    case (None, Some(b)) => t == b
    case (None, None) => t == job.createdAt
  }

  /** What the version can say about a failure. */
  function Diagnostics(job: PersistedJob): set<string> {
    (if job.failureClass == None then {} else {"failureClass"})
    + (if job.error == None then {} else {"error"})
    + (if job.exitCode == None then {} else {"exitCode"})
  }

  /**
   The rule in three parts: a version that has ended replaces one that has not; of two that agree in that,
   the one that moved later; of two that moved at the same time, the one that says more about a failure.
   */
  lemma RecencyRule(prev: PersistedJob, job: PersistedJob, p: int, j: int)
    requires MovedAt(prev, p) && MovedAt(job, j)
    ensures var wins := !AtLeastAsRecent(job, prev);
            if Ended(prev) != Ended(job) then wins == Ended(job)
            else if p != j then wins == (j > p)
            else wins == (|Diagnostics(job)| > |Diagnostics(prev)|)
  {
    DiagnosticsCounted(prev);
    DiagnosticsCounted(job);
  }

  lemma DiagnosticsCounted(job: PersistedJob)
    ensures |Diagnostics(job)| == DiagnosticCount(job)
  {
    var a := if job.failureClass == None then {} else {"failureClass"};
    var b := if job.error == None then {} else {"error"};
    var c := if job.exitCode == None then {} else {"exitCode"};
    assert a !! b && a + b !! c by {
      assert "failureClass"[0] != "error"[0];
    }
    assert |a + b| == |a| + |b| && |a + b + c| == |a + b| + |c|;
  }

  lemma AtLeastAsRecentIsPreorder(a: PersistedJob, b: PersistedJob, c: PersistedJob)
    ensures AtLeastAsRecent(a, a)
    ensures AtLeastAsRecent(a, b) || AtLeastAsRecent(b, a)
    ensures AtLeastAsRecent(a, b) && AtLeastAsRecent(b, c) ==> AtLeastAsRecent(a, c)
    ensures AtLeastAsRecent(a, b) && IsTerminal(a) ==> IsTerminal(b)
  {
  }

  /** The overlays never influence which version is more recent. */
  lemma CoreDecidesRecency(a: PersistedJob, b: PersistedJob)
    ensures CompareRecency(a, b) == CompareRecency(Core(a), Core(b))
  {
  }

  /** The version whose metadata was updated last; without a time it never counts as later. */
  predicate UpdatedLater(prev: Soyuz, job: Soyuz) {
    job.metadataUpdatedAt.Some? && prev.metadataUpdatedAt.Some? && job.metadataUpdatedAt.value >= prev.metadataUpdatedAt.value
  }

  /**
   The overlay of two versions that both carry Soyuz metadata, field by field.  What one of them knows
   about a callback is never lost; the first id of the started callback stays, a new terminal callback
   replaces an earlier one; the rest comes from the version updated last.
   */
  predicate Overlays(prev: Soyuz, job: Soyuz, r: Soyuz) {
    && r.startedCallbackId == prev.startedCallbackId
    && (job.terminalCallbackId.Some? ==> r.terminalCallbackId == job.terminalCallbackId)
    && (job.terminalCallbackId.None? ==> r.terminalCallbackId == prev.terminalCallbackId)
    && (r.claimCallbackId.None? <==> prev.claimCallbackId.None? && job.claimCallbackId.None?)
    && (UpdatedLater(prev, job) && job.claimCallbackId.Some? ==> r.claimCallbackId == job.claimCallbackId)
    && (!UpdatedLater(prev, job) && prev.claimCallbackId.Some? ==> r.claimCallbackId == prev.claimCallbackId)
    && (r.claimCallbackId == prev.claimCallbackId || r.claimCallbackId == job.claimCallbackId)
    && (if UpdatedLater(prev, job)
        then r.metadataUpdatedAt == job.metadataUpdatedAt && r.externalRunId == job.externalRunId && r.details == job.details
        else r.metadataUpdatedAt == prev.metadataUpdatedAt && r.externalRunId == prev.externalRunId && r.details == prev.details)
    && (r.startAuthorized <==> prev.startAuthorized || job.startAuthorized)
    && (r.terminalCallbackDelivered <==> prev.terminalCallbackDelivered || job.terminalCallbackDelivered)
  }

  /** Whichever version is selected, its overlay is that of both; a missing overlay is the other one's. */
  lemma SelectOverlays(prev: PersistedJob, job: PersistedJob)
    ensures var r := SelectMostRecent(prev, job);
            && (prev.soyuz.None? ==> r.soyuz == job.soyuz)
            && (job.soyuz.None? ==> r.soyuz == prev.soyuz)
            && (prev.soyuz.Some? && job.soyuz.Some? ==> r.soyuz.Some? && Overlays(prev.soyuz.value, job.soyuz.value, r.soyuz.value))
            && r == (if AtLeastAsRecent(job, prev) then prev else job).(soyuz := r.soyuz)
  {
  }

  /** The job's own overlay says which callback reports its end. */
  predicate NamesCallback(job: PersistedJob, callbackId: string) {
    job.soyuz.Some? && job.soyuz.value.terminalCallbackId == Some(callbackId)
  }

  /** The version speaks of no other terminal callback. */
  predicate NamesNoOther(job: PersistedJob, callbackId: string) {
    job.soyuz.Some? && job.soyuz.value.terminalCallbackId.Some? ==> job.soyuz.value.terminalCallbackId.value == callbackId
  }

  lemma SelectNamesCallback(prev: PersistedJob, job: PersistedJob, callbackId: string)
    ensures NamesCallback(job, callbackId) ==> NamesCallback(SelectMostRecent(prev, job), callbackId)
    ensures NamesCallback(prev, callbackId) && NamesNoOther(job, callbackId) ==> NamesCallback(SelectMostRecent(prev, job), callbackId)
  {
  }

  /** The selected record is one of the two, up to overlays, and no older than either. */
  lemma SelectIsMaximal(prev: PersistedJob, job: PersistedJob)
    requires prev.id == job.id
    ensures var r := SelectMostRecent(prev, job);
            && r.id == prev.id
            && AtLeastAsRecent(prev, r) && AtLeastAsRecent(job, r)
            && (Core(r) == Core(prev) || Core(r) == Core(job))
            && (Core(r) != Core(prev) ==> !AtLeastAsRecent(r, prev))
            && (Authorized(r) <==> Authorized(prev) || Authorized(job))
            && (CallbackDelivered(r) <==> CallbackDelivered(prev) || CallbackDelivered(job))
  {
  }
}
