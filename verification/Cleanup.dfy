/**
 * Retention cleanup (src/cleanup-manager.ts): a plan is made without a lock, checked again under the
 * lock of the jobs index, and carried out on whatever the directories then hold.
 */
module Cleanup {
  import opened Wrappers
  import opened Seqs
  import opened Sorting

  type Name = string

  /** A directory found by `listRuns`; `identity` stands for its device, inode, change and birth times. */
  datatype RunInfo = RunInfo(name: Name, mtime: int, identity: nat)

  /** A log named after the run `runName`. */
  datatype RunLogInfo = RunLogInfo(path: string, runName: Name)

  datatype CleanupPlan = CleanupPlan(
    allRuns: seq<RunInfo>, activeRunNames: set<Name>, runsToDelete: seq<RunInfo>, retainedRunNames: set<Name>,
    hasLogDir: bool, logsToDelete: seq<RunLogInfo>)

  datatype RunDir = RunDir(identity: nat, size: nat)

  datatype LogFile = LogFile(regular: bool, size: nat)

  /** The results, the host logs and the cache entries with the runs listed in their `.used-by-runs` files. */
  datatype Disk = Disk(runs: map<Name, RunDir>, logs: map<string, LogFile>, cache: map<string, set<Name>>)

  /** What cannot be removed: runs that could not be opened when planned or fail to go, logs, cache entries. */
  datatype Trouble = Trouble(runs: set<Name>, logs: set<string>, cache: set<string>)

  datatype Options = Options(dryRun: bool, preserveCache: bool)

  datatype CleanupResult = CleanupResult(deletedCount: nat, deletedLogCount: nat, freedBytes: nat, cachedEntriesRemoved: nat)

  // ---------------------------------------------------------------- planning

  function Names(runs: seq<RunInfo>): set<Name> { set r <- runs :: r.name }

  ghost predicate DistinctNames(runs: seq<RunInfo>) { Distinct(runs, (r: RunInfo) => r.name) }

  /** `slice(n)`: a negative count is taken from the end. */
  function SliceFrom<T>(s: seq<T>, n: int): seq<T> {
    if n >= |s| then [] else if n >= 0 then s[n..] else if -n <= |s| then s[|s| + n..] else s
  }

  function NewestRuns(runs: seq<RunInfo>): seq<RunInfo> { StableSort(runs, (r: RunInfo) => -r.mtime) }

  function Unprotected(runs: seq<RunInfo>, protected: set<Name>): seq<RunInfo> {
    Filter(runs, (r: RunInfo) => r.name !in protected)
  }

  /**
   * `createCleanupPlan`, on the listing of the results directory, the runs protected by the scheduler,
   * the caller or an open workspace, and the host logs if there is a log directory.
   */
  function CreateCleanupPlan(listing: seq<RunInfo>, protected: set<Name>, retentionCount: int,
                             logs: Option<seq<RunLogInfo>>): CleanupPlan
  {
    var allRuns := NewestRuns(listing);
    var runsToDelete := SliceFrom(Unprotected(allRuns, protected), retentionCount);
    var deleted := Names(runsToDelete);
    var retained := (set r <- allRuns | r.name !in deleted :: r.name) + protected;
    var logsToDelete := Filter(logs.GetOr([]), (l: RunLogInfo) => l.runName !in retained);
    CleanupPlan(allRuns, protected, runsToDelete, retained, logs.Some?, logsToDelete)
  }

  /** `refreshCleanupPlanActiveRuns`, with the runs that are active now. */
  function RefreshPlan(plan: CleanupPlan, activeNow: set<Name>): CleanupPlan {
    var active := activeNow + plan.activeRunNames;
    plan.(activeRunNames := active,
          runsToDelete := Filter(plan.runsToDelete, (r: RunInfo) => r.name !in active),
          retainedRunNames := plan.retainedRunNames + active,
          logsToDelete := Filter(plan.logsToDelete, (l: RunLogInfo) => l.runName !in active))
  }

  /** A plan deletes no protected run; what it deletes and what it retains are apart and cover every run found. */
  ghost predicate PlanOk(plan: CleanupPlan) {
    && DistinctNames(plan.runsToDelete)
    && plan.activeRunNames <= plan.retainedRunNames
    && (forall r <- plan.runsToDelete :: r in plan.allRuns && r.name !in plan.retainedRunNames)
    && (forall r <- plan.allRuns :: r.name in plan.retainedRunNames || r.name in Names(plan.runsToDelete))
    && (forall l <- plan.logsToDelete :: l.runName !in plan.retainedRunNames)
  }

  lemma FilteredDistinct(runs: seq<RunInfo>, keep: RunInfo -> bool)
    requires DistinctNames(runs)
    ensures DistinctNames(Filter(runs, keep))
  {
    FilterKeepsDistinct(runs, keep, (r: RunInfo) => r.name);
  }

  lemma UnprotectedFacts(listing: seq<RunInfo>, protected: set<Name>)
    requires DistinctNames(listing)
    ensures var all := NewestRuns(listing);
            && DistinctNames(Unprotected(all, protected)) && SortedBy(Unprotected(all, protected), (r: RunInfo) => -r.mtime)
            && forall r :: r in all <==> r in listing
  {
    var key := (r: RunInfo) => -r.mtime;
    SortKeepsDistinct(listing, key, (r: RunInfo) => r.name);
    StableSortMembers(listing, key);
    StableSortSorts(listing, key);
    FilteredDistinct(NewestRuns(listing), (r: RunInfo) => r.name !in protected);
    FilterKeepsSorted(NewestRuns(listing), (r: RunInfo) => r.name !in protected, key);
  }

  lemma {:induction false} FilterKeepsSorted<T>(s: seq<T>, keep: T -> bool, key: T -> int)
    requires SortedBy(s, key)
    ensures SortedBy(Filter(s, keep), key)
  {
    if s != [] {
      FilterKeepsSorted(s[1..], keep, key);
      var r := Filter(s[1..], keep);
      forall i | 0 <= i < |r| ensures key(s[0]) <= key(r[i]) {
        assert r[i] in r;
        var j :| 0 <= j < |s[1..]| && s[1..][j] == r[i];
        assert s[j + 1] == r[i];
      }
      if keep(s[0]) {
        PrependSorted(s[0], r, key);
      }
    }
  }

  lemma SliceDistinct(runs: seq<RunInfo>, n: int)
    requires DistinctNames(runs)
    ensures DistinctNames(SliceFrom(runs, n)) && forall r <- SliceFrom(runs, n) :: r in runs
  {
    var name := (r: RunInfo) => r.name;
    var cut := SliceFrom(runs, n);
    var from := |runs| - |cut|;
    assert cut == runs[from..];
    forall i, j | 0 <= i < j < |cut| ensures name(cut[i]) != name(cut[j]) {
      assert cut[i] == runs[from + i] && cut[j] == runs[from + j];
    }
  }

  /** Every plan is sound, whatever the retention count. */
  lemma PlansAreOk(listing: seq<RunInfo>, protected: set<Name>, retentionCount: int, logs: Option<seq<RunLogInfo>>)
    requires DistinctNames(listing)
    ensures PlanOk(CreateCleanupPlan(listing, protected, retentionCount, logs))
    ensures forall r <- CreateCleanupPlan(listing, protected, retentionCount, logs).runsToDelete :: r.name !in protected
  {
    hide SliceFrom, NewestRuns;
    UnprotectedFacts(listing, protected);
    SliceDistinct(Unprotected(NewestRuns(listing), protected), retentionCount);
  }

  /** Cutting a list that runs from new to old leaves the newest before the cut. */
  lemma SliceKeepsNewest(runs: seq<RunInfo>, n: nat)
    requires SortedBy(runs, (r: RunInfo) => -r.mtime)
    ensures |runs| - |SliceFrom(runs, n)| == if |runs| < n then |runs| else n
    ensures forall kept, gone :: kept in runs && kept !in SliceFrom(runs, n) && gone in SliceFrom(runs, n)
                                 ==> kept.mtime >= gone.mtime
  {
    var cut := SliceFrom(runs, n);
    forall k, g | k in runs && k !in cut && g in cut ensures k.mtime >= g.mtime {
      var i :| 0 <= i < |runs| && runs[i] == k;
      var j :| 0 <= j < |cut| && cut[j] == g;
      forall q | n <= q < |runs| ensures runs[q] != k {
        assert cut[q - n] == runs[q];
      }
      assert runs[n + j] == g;
      var key := (r: RunInfo) => -r.mtime;
      assert key(k) <= key(g);
    }
  }

  /**
   * The plan keeps exactly the newest `retentionCount` unprotected runs, or all of them if there are
   * fewer: that many are not planned for deletion, and none of those is older than one that is.
   */
  lemma PlanKeepsNewest(listing: seq<RunInfo>, protected: set<Name>, retentionCount: nat, logs: Option<seq<RunLogInfo>>)
    requires DistinctNames(listing)
    ensures var plan := CreateCleanupPlan(listing, protected, retentionCount, logs);
            var unprotected := Unprotected(plan.allRuns, protected);
            && |unprotected| - |plan.runsToDelete| == (if |unprotected| < retentionCount then |unprotected| else retentionCount)
            && (forall kept, gone :: kept in unprotected && kept !in plan.runsToDelete && gone in plan.runsToDelete
                                     ==> kept.mtime >= gone.mtime)
            && (forall r <- unprotected :: r in plan.runsToDelete || r.name in plan.retainedRunNames)
  {
    UnprotectedFacts(listing, protected);
    PlansAreOk(listing, protected, retentionCount, logs);
    var all := NewestRuns(listing);
    var unprotected := Unprotected(all, protected);
    var gone := SliceFrom(unprotected, retentionCount);
    hide NewestRuns, Unprotected, SliceFrom;
    SliceKeepsNewest(unprotected, retentionCount);
    forall r <- unprotected ensures r in gone || r.name !in Names(gone) {
      UniqueByName(unprotected, gone, r);
    }
    assert forall r <- unprotected :: r in all;
  }

  lemma UniqueByName(runs: seq<RunInfo>, some: seq<RunInfo>, r: RunInfo)
    requires DistinctNames(runs) && r in runs && forall x <- some :: x in runs
    ensures r in some || r.name !in Names(some)
  {
    var name := (x: RunInfo) => x.name;
    forall x <- some ensures x.name == r.name ==> x == r {
      var i :| 0 <= i < |runs| && runs[i] == x;
      var j :| 0 <= j < |runs| && runs[j] == r;
      assert i < j ==> name(runs[i]) != name(runs[j]);
      assert j < i ==> name(runs[j]) != name(runs[i]);
    }
  }

  /** Refreshing only takes runs and logs off a plan: those of the active runs, and no others. */
  lemma RefreshOnlyShrinks(plan: CleanupPlan, activeNow: set<Name>)
    requires PlanOk(plan)
    ensures var refreshed := RefreshPlan(plan, activeNow);
            && (forall r :: r in refreshed.runsToDelete <==> r in plan.runsToDelete && r.name !in activeNow)
            && (forall l :: l in refreshed.logsToDelete <==> l in plan.logsToDelete && l.runName !in activeNow)
            && refreshed.retainedRunNames == plan.retainedRunNames + activeNow
            && refreshed.activeRunNames == plan.activeRunNames + activeNow
            && refreshed.allRuns == plan.allRuns && refreshed.hasLogDir == plan.hasLogDir
            && PlanOk(refreshed)
  {
    FilteredDistinct(plan.runsToDelete, (r: RunInfo) => r.name !in activeNow + plan.activeRunNames);
    var refreshed := RefreshPlan(plan, activeNow);
    forall r <- plan.allRuns ensures r.name in refreshed.retainedRunNames || r.name in Names(refreshed.runsToDelete) {
      if r.name !in plan.retainedRunNames && r.name !in activeNow {
        var d :| d in plan.runsToDelete && d.name == r.name;
        assert d in refreshed.runsToDelete;
      }
    }
  }

  // ---------------------------------------------------------------- carrying out

  /** The run is still the directory that was planned, and can be removed. */
  predicate Removable(runs: map<Name, RunDir>, run: RunInfo, trouble: Trouble) {
    run.name in runs && runs[run.name].identity == run.identity && run.name !in trouble.runs
  }

  function Active(plan: CleanupPlan, activeNow: set<Name>): set<Name> { activeNow + plan.activeRunNames }

  /** The runs that the deletion loop gives up; a dry run takes every deletion for a success. */
  function Deleted(runs: map<Name, RunDir>, planned: seq<RunInfo>, active: set<Name>, trouble: Trouble, dryRun: bool): set<Name> {
    set r <- planned | r.name !in active && (dryRun || Removable(runs, r, trouble)) :: r.name
  }

  /** The names whose logs and cache entries stay: retained, active, and planned but not deleted. */
  function Survivors(runs: map<Name, RunDir>, plan: CleanupPlan, activeNow: set<Name>, trouble: Trouble, dryRun: bool): set<Name> {
    plan.retainedRunNames + Active(plan, activeNow)
    + (Names(plan.runsToDelete) - Deleted(runs, plan.runsToDelete, Active(plan, activeNow), trouble, dryRun))
  }

  predicate LogGoes(logs: map<string, LogFile>, log: RunLogInfo, retained: set<Name>, active: set<Name>, stuck: set<string>,
                    dryRun: bool)
  {
    log.runName !in retained && log.runName !in active && log.path in logs && logs[log.path].regular
    && (dryRun || log.path !in stuck)
  }

  function LogsGone(logs: map<string, LogFile>, planned: seq<RunLogInfo>, retained: set<Name>, active: set<Name>,
                    stuck: set<string>, dryRun: bool): set<string>
  {
    set l <- planned | LogGoes(logs, l, retained, active, stuck, dryRun) :: l.path
  }

  /** `shouldRemoveCacheEntry`: only an entry with users, none of which is retained. */
  predicate ShouldRemoveCacheEntry(users: set<Name>, retained: set<Name>) {
    users != {} && forall u <- users :: u !in retained
  }

  function CacheGone(cache: map<string, set<Name>>, retained: set<Name>, stuck: set<string>, dryRun: bool): set<string> {
    set e <- cache | ShouldRemoveCacheEntry(cache[e], retained) && (dryRun || e !in stuck) :: e
  }

  /** The disk after `cleanupOldRuns` has carried out a plan. */
  function Cleaned(disk: Disk, plan: CleanupPlan, activeNow: set<Name>, trouble: Trouble, options: Options): Disk {
    if options.dryRun || (plan.runsToDelete == [] && plan.logsToDelete == []) then disk
    else
      var active := Active(plan, activeNow);
      var retained := Survivors(disk.runs, plan, activeNow, trouble, false);
      Disk(disk.runs - Deleted(disk.runs, plan.runsToDelete, active, trouble, false),
           if plan.hasLogDir then disk.logs - LogsGone(disk.logs, plan.logsToDelete, retained, active, trouble.logs, false)
           else disk.logs,
           if options.preserveCache then disk.cache else disk.cache - CacheGone(disk.cache, retained, trouble.cache, false))
  }

  /** No run that was retained or active when planned, or is active now, is touched. */
  lemma ActiveRunsSurvive(disk: Disk, plan: CleanupPlan, activeNow: set<Name>, trouble: Trouble, options: Options)
    requires PlanOk(plan)
    ensures var after := Cleaned(disk, plan, activeNow, trouble, options);
            forall n <- disk.runs :: n in plan.retainedRunNames || n in plan.activeRunNames || n in activeNow
                                     ==> n in after.runs && after.runs[n] == disk.runs[n]
  {
    hide LogsGone, CacheGone, Survivors;
  }

  /** A run is gone afterwards exactly when it was planned, is not active, and is still the same removable directory. */
  lemma RunGoneIff(disk: Disk, plan: CleanupPlan, activeNow: set<Name>, trouble: Trouble, options: Options, n: Name)
    requires n in disk.runs
    ensures n !in Cleaned(disk, plan, activeNow, trouble, options).runs
            <==> && !options.dryRun && n !in activeNow && n !in plan.activeRunNames && n !in trouble.runs
                 && exists r <- plan.runsToDelete :: r.name == n && r.identity == disk.runs[n].identity
  {
    hide LogsGone, CacheGone, Survivors;
  }

  /** A log is gone afterwards exactly when it was planned, is a regular file that can be removed, and nobody needs its run's. */
  lemma LogGoneIff(disk: Disk, plan: CleanupPlan, activeNow: set<Name>, trouble: Trouble, options: Options, path: string)
    requires path in disk.logs
    ensures path !in Cleaned(disk, plan, activeNow, trouble, options).logs
            <==> && !options.dryRun && plan.hasLogDir && disk.logs[path].regular && path !in trouble.logs
                 && exists l <- plan.logsToDelete :: l.path == path && Expendable(disk, plan, activeNow, trouble, l.runName)
  {
    forall n ensures n !in Survivors(disk.runs, plan, activeNow, trouble, false) <==> Expendable(disk, plan, activeNow, trouble, n) {
      ExpendableIff(disk, plan, activeNow, trouble, n);
    }
    assert forall n :: n !in Survivors(disk.runs, plan, activeNow, trouble, false) ==> n !in Active(plan, activeNow);
    hide Survivors, CacheGone, Deleted, Expendable;
  }

  /** A cache entry is gone afterwards exactly when it can be removed and has users, none of which needs it. */
  lemma CacheGoneIff(disk: Disk, plan: CleanupPlan, activeNow: set<Name>, trouble: Trouble, options: Options, entry: string)
    requires entry in disk.cache
    ensures entry !in Cleaned(disk, plan, activeNow, trouble, options).cache
            <==> && !options.dryRun && !options.preserveCache && (plan.runsToDelete != [] || plan.logsToDelete != [])
                 && entry !in trouble.cache && disk.cache[entry] != {}
                 && forall u <- disk.cache[entry] :: Expendable(disk, plan, activeNow, trouble, u)
  {
    forall n ensures n !in Survivors(disk.runs, plan, activeNow, trouble, false) <==> Expendable(disk, plan, activeNow, trouble, n) {
      ExpendableIff(disk, plan, activeNow, trouble, n);
    }
    hide Survivors, LogsGone, Deleted, Expendable;
  }

  /** What is swept belongs to no survivor; such a name is still on disk exactly if it was not there when planned. */
  lemma SweptNameFate(disk: Disk, plan: CleanupPlan, activeNow: set<Name>, trouble: Trouble, n: Name)
    requires PlanOk(plan) && n !in Survivors(disk.runs, plan, activeNow, trouble, false)
    ensures n !in Active(plan, activeNow)
    ensures var gone := Deleted(disk.runs, plan.runsToDelete, Active(plan, activeNow), trouble, false);
            n in disk.runs - gone <==> n in disk.runs && n !in Names(plan.allRuns)
  {
    hide Removable;
    if n in Names(plan.allRuns) {
      assert n in Names(plan.runsToDelete);
    }
  }

  /**
   * No log goes while its run stays, even when deletions fail, with one exception: a run that was not
   * there when the plan was made.
   */
  lemma LogsGoWithTheirRuns(disk: Disk, plan: CleanupPlan, activeNow: set<Name>, trouble: Trouble, options: Options,
                            log: RunLogInfo)
    requires PlanOk(plan) && log in plan.logsToDelete && log.path in disk.logs
    requires forall other <- plan.logsToDelete :: other.path == log.path ==> other == log
    requires log.path !in Cleaned(disk, plan, activeNow, trouble, options).logs
    ensures log.runName !in Active(plan, activeNow) && log.runName !in plan.retainedRunNames
    ensures log.runName in Cleaned(disk, plan, activeNow, trouble, options).runs
            <==> log.runName in disk.runs && log.runName !in Names(plan.allRuns)
  {
    var retained := Survivors(disk.runs, plan, activeNow, trouble, false);
    assert log.runName !in retained;
    hide Survivors, CacheGone, LogsGone, PlanOk;
    SweptNameFate(disk, plan, activeNow, trouble, log.runName);
    assert log.runName !in plan.retainedRunNames by { assert PlanOk(plan); SurvivorsHold(disk.runs, plan, activeNow, trouble); }
  }

  lemma SurvivorsHold(runs: map<Name, RunDir>, plan: CleanupPlan, activeNow: set<Name>, trouble: Trouble)
    ensures plan.retainedRunNames <= Survivors(runs, plan, activeNow, trouble, false)
  {
  }

  /** No removed cache entry has a user that is still on disk. */
  ghost predicate CacheConsistent(before: Disk, after: Disk) {
    forall e <- before.cache :: e !in after.cache ==> forall u <- before.cache[e] :: u !in after.runs
  }

  /** Nobody needs the run's entries: it was not retained or active, and if it was planned it can be removed. */
  predicate Expendable(disk: Disk, plan: CleanupPlan, activeNow: set<Name>, trouble: Trouble, n: Name) {
    && n !in plan.retainedRunNames && n !in plan.activeRunNames && n !in activeNow
    && (n in Names(plan.runsToDelete) ==> exists r <- plan.runsToDelete :: r.name == n && Removable(disk.runs, r, trouble))
  }

  lemma ExpendableIff(disk: Disk, plan: CleanupPlan, activeNow: set<Name>, trouble: Trouble, n: Name)
    ensures n !in Survivors(disk.runs, plan, activeNow, trouble, false) <==> Expendable(disk, plan, activeNow, trouble, n)
  {
    hide Removable;
  }

  /** A run that is on disk now and was not there when the plan was made. */
  predicate LateRun(disk: Disk, plan: CleanupPlan, n: Name) {
    n in disk.runs && n !in Names(plan.allRuns)
  }

  /**
   * Cache entries go only with all their runs exactly when every removable entry that a late run uses
   * has a user that still counts: one that is retained or active, or planned but not removable.
   */
  lemma CacheConsistentIff(disk: Disk, plan: CleanupPlan, activeNow: set<Name>, trouble: Trouble)
    requires PlanOk(plan) && (plan.runsToDelete != [] || plan.logsToDelete != [])
    ensures CacheConsistent(disk, Cleaned(disk, plan, activeNow, trouble, Options(false, false)))
            <==> forall e <- disk.cache :: e !in trouble.cache && (exists u <- disk.cache[e] :: LateRun(disk, plan, u)) ==>
                   exists v <- disk.cache[e] :: !Expendable(disk, plan, activeNow, trouble, v)
  {
    var after := Cleaned(disk, plan, activeNow, trouble, Options(false, false));
    var survivors := Survivors(disk.runs, plan, activeNow, trouble, false);
    var swept := CacheGone(disk.cache, survivors, trouble.cache, false);
    assert after.cache == disk.cache - swept;
    assert after.runs == disk.runs - Deleted(disk.runs, plan.runsToDelete, Active(plan, activeNow), trouble, false);
    forall n ensures n !in survivors <==> Expendable(disk, plan, activeNow, trouble, n) {
      ExpendableIff(disk, plan, activeNow, trouble, n);
    }
    forall e, u | e in swept && u in disk.cache[e]
      ensures u in after.runs <==> LateRun(disk, plan, u)
    {
      SweptNameFate(disk, plan, activeNow, trouble, u);
    }
    SweptIff(disk.cache, survivors, trouble.cache);
    hide Cleaned, Survivors, CacheGone, PlanOk, Deleted, LateRun, Expendable;
  }

  lemma SweptIff(cache: map<string, set<Name>>, survivors: set<Name>, stuck: set<string>)
    ensures forall e <- cache :: e in CacheGone(cache, survivors, stuck, false)
                                 <==> e !in stuck && cache[e] != {} && forall v <- cache[e] :: v !in survivors
  {
  }

  /** It does happen: a run that came and finished after the plan was made loses a cache entry it uses. */
  lemma LateRunLosesItsCache()
    ensures var plan := CreateCleanupPlan([RunInfo("kaseki-1", 1, 1)], {}, 0, None);
            var disk := Disk(map["kaseki-1" := RunDir(1, 10), "kaseki-2" := RunDir(2, 10)], map[],
                             map["deps" := {"kaseki-2"}]);
            var after := Cleaned(disk, plan, {}, Trouble({}, {}, {}), Options(false, false));
            PlanOk(plan) && "kaseki-2" in after.runs && "deps" !in after.cache
  {
    var listing := [RunInfo("kaseki-1", 1, 1)];
    var plan := CreateCleanupPlan(listing, {}, 0, None);
    PlansAreOk(listing, {}, 0, None);
    assert listing[1..] == [];
    assert plan.runsToDelete == listing;
    assert Names(listing) == {"kaseki-1"};
  }

  /** A dry run changes nothing, and reports at least the runs that the real one deletes. */
  lemma DryRunForecast(runs: map<Name, RunDir>, planned: seq<RunInfo>, active: set<Name>, trouble: Trouble)
    ensures Deleted(runs, planned, active, trouble, false) <= Deleted(runs, planned, active, trouble, true)
    ensures Deleted(runs, planned, active, trouble, false) == Deleted(runs, planned, active, trouble, true)
            <==> forall r <- planned :: r.name !in active ==> exists x <- planned :: x.name == r.name && Removable(runs, x, trouble)
  {
    hide Removable;
    var real_, dry := Deleted(runs, planned, active, trouble, false), Deleted(runs, planned, active, trouble, true);
    if real_ == dry {
      forall r <- planned | r.name !in active ensures exists x <- planned :: x.name == r.name && Removable(runs, x, trouble) {
        assert r.name in dry;
      }
    }
  }

  // ---------------------------------------------------------------- what is reported

  function DirectorySize(runs: map<Name, RunDir>, n: Name): nat { if n in runs then runs[n].size else 0 }

  /** The sizes of the inactive planned runs, whether or not they can be deleted. */
  function PlannedBytes(runs: map<Name, RunDir>, planned: seq<RunInfo>, active: set<Name>): nat {
    if planned == [] then 0
    else
      var last := planned[|planned| - 1];
      PlannedBytes(runs, planned[..|planned| - 1], active) + (if last.name in active then 0 else DirectorySize(runs, last.name))
  }

  /** The sizes of the directories that a set of planned runs really occupies. */
  function BytesOf(runs: map<Name, RunDir>, planned: seq<RunInfo>, some: set<Name>): nat {
    if planned == [] then 0
    else
      var last := planned[|planned| - 1];
      BytesOf(runs, planned[..|planned| - 1], some) + (if last.name in some then DirectorySize(runs, last.name) else 0)
  }

  /**
   * The reported bytes are too many by the size of every run whose deletion failed: its size is added
   * before the deletion is tried. So the figure is exact if and only if all those runs are empty or gone.
   */
  lemma {:induction false} FreedBytesOverstate(runs: map<Name, RunDir>, planned: seq<RunInfo>, active: set<Name>, deleted: set<Name>)
    requires deleted !! active && deleted <= Names(planned)
    ensures PlannedBytes(runs, planned, active)
            == BytesOf(runs, planned, deleted) + BytesOf(runs, planned, Names(planned) - active - deleted)
  {
    PlannedSplit(runs, planned, active, deleted, Names(planned) - active - deleted);
  }

  lemma {:induction false} PlannedSplit(runs: map<Name, RunDir>, planned: seq<RunInfo>, active: set<Name>, deleted: set<Name>,
                                        failed: set<Name>)
    requires deleted !! active && failed !! active && deleted !! failed
    requires forall r <- planned :: r.name in active || r.name in deleted || r.name in failed
    ensures PlannedBytes(runs, planned, active) == BytesOf(runs, planned, deleted) + BytesOf(runs, planned, failed)
  {
    if planned != [] {
      assert planned[|planned| - 1] in planned;
      PlannedSplit(runs, planned[..|planned| - 1], active, deleted, failed);
    }
  }

  lemma {:induction false} BytesZeroIff(runs: map<Name, RunDir>, planned: seq<RunInfo>, some: set<Name>)
    ensures BytesOf(runs, planned, some) == 0 <==> forall r <- planned :: r.name in some ==> DirectorySize(runs, r.name) == 0
  {
    if planned != [] {
      BytesZeroIff(runs, planned[..|planned| - 1], some);
      var front, last := planned[..|planned| - 1], planned[|planned| - 1];
      assert planned == front + [last];
    }
  }

  function LogBytes(logs: map<string, LogFile>, planned: seq<RunLogInfo>, gone: set<string>): nat {
    if planned == [] then 0
    else
      var last := planned[|planned| - 1];
      LogBytes(logs, planned[..|planned| - 1], gone) + (if last.path in gone && last.path in logs then logs[last.path].size else 0)
  }

  /** What planned directories, and logs, really occupied before and do not any more. */
  function FreedRuns(before: map<Name, RunDir>, after: map<Name, RunDir>, planned: seq<RunInfo>): nat {
    if planned == [] then 0
    else
      var n := planned[|planned| - 1].name;
      FreedRuns(before, after, planned[..|planned| - 1]) + (if n in before && n !in after then before[n].size else 0)
  }

  function FreedLogs(before: map<string, LogFile>, after: map<string, LogFile>, planned: seq<RunLogInfo>): nat {
    if planned == [] then 0
    else
      var path := planned[|planned| - 1].path;
      FreedLogs(before, after, planned[..|planned| - 1]) + (if path in before && path !in after then before[path].size else 0)
  }

  lemma {:induction false} FreedRunsAre(runs: map<Name, RunDir>, planned: seq<RunInfo>, gone: set<Name>)
    ensures FreedRuns(runs, runs - gone, planned) == BytesOf(runs, planned, gone)
  {
    if planned != [] { FreedRunsAre(runs, planned[..|planned| - 1], gone); }
  }

  lemma {:induction false} FreedLogsAre(logs: map<string, LogFile>, planned: seq<RunLogInfo>, gone: set<string>)
    ensures FreedLogs(logs, logs - gone, planned) == LogBytes(logs, planned, gone)
  {
    if planned != [] { FreedLogsAre(logs, planned[..|planned| - 1], gone); }
  }

  lemma {:induction false} NoLogsFreed(logs: map<string, LogFile>, planned: seq<RunLogInfo>)
    ensures FreedLogs(logs, logs, planned) == 0
  {
    if planned != [] { NoLogsFreed(logs, planned[..|planned| - 1]); }
  }

  /** The inactive planned runs that stay, by name. */
  function Failed(disk: Disk, plan: CleanupPlan, activeNow: set<Name>, trouble: Trouble): set<Name> {
    Names(plan.runsToDelete) - Active(plan, activeNow)
    - Deleted(disk.runs, plan.runsToDelete, Active(plan, activeNow), trouble, false)
  }

  lemma FailedIff(disk: Disk, plan: CleanupPlan, activeNow: set<Name>, trouble: Trouble, r: RunInfo)
    requires PlanOk(plan) && r in plan.runsToDelete
    ensures r.name in Failed(disk, plan, activeNow, trouble)
            <==> r.name !in Active(plan, activeNow) && !Removable(disk.runs, r, trouble)
  {
    hide Removable;
    var gone := Deleted(disk.runs, plan.runsToDelete, Active(plan, activeNow), trouble, false);
    if r.name in gone {
      var x :| x in plan.runsToDelete && x.name == r.name && Removable(disk.runs, x, trouble);
      UniqueByName(plan.runsToDelete, [x], r);
      assert x == r;
    }
  }

  /**
   * The reported bytes are what was freed, and the sizes of the planned runs that failed to go. So the
   * report is right if and only if every inactive planned run that is on disk and cannot be removed is empty.
   */
  lemma ReportIsRightIff(disk: Disk, plan: CleanupPlan, activeNow: set<Name>, trouble: Trouble, preserveCache: bool)
    requires PlanOk(plan) && (plan.runsToDelete != [] || plan.logsToDelete != [])
    ensures var after := Cleaned(disk, plan, activeNow, trouble, Options(false, preserveCache));
            var reported := Reported(disk, plan, activeNow, trouble, Options(false, preserveCache)).freedBytes;
            var freed := FreedRuns(disk.runs, after.runs, plan.runsToDelete) + FreedLogs(disk.logs, after.logs, plan.logsToDelete);
            && reported == freed + BytesOf(disk.runs, plan.runsToDelete, Failed(disk, plan, activeNow, trouble))
            && (reported == freed
                <==> forall r <- plan.runsToDelete ::
                       r.name !in Active(plan, activeNow) && r.name in disk.runs && !Removable(disk.runs, r, trouble)
                       ==> disk.runs[r.name].size == 0)
  {
    var active := Active(plan, activeNow);
    var gone := Deleted(disk.runs, plan.runsToDelete, active, trouble, false);
    var failed := Failed(disk, plan, activeNow, trouble);
    var retained := Survivors(disk.runs, plan, activeNow, trouble, false);
    var logsGone := LogsGone(disk.logs, plan.logsToDelete, retained, active, trouble.logs, false);
    FreedBytesOverstate(disk.runs, plan.runsToDelete, active, gone);
    FreedRunsAre(disk.runs, plan.runsToDelete, gone);
    FreedLogsAre(disk.logs, plan.logsToDelete, logsGone);
    NoLogsFreed(disk.logs, plan.logsToDelete);
    BytesZeroIff(disk.runs, plan.runsToDelete, failed);
    forall r <- plan.runsToDelete ensures r.name in failed <==> r.name !in active && !Removable(disk.runs, r, trouble) {
      FailedIff(disk, plan, activeNow, trouble, r);
    }
    hide Removable, Survivors, LogsGone, CacheGone, PlanOk, Deleted, FreedRuns, FreedLogs, BytesOf, LogBytes, PlannedBytes, Failed;
  }

  /** It does happen: a run that changed after planning stays, and its ten bytes are reported as freed. */
  lemma KeptRunIsReported()
    ensures var plan := CreateCleanupPlan([RunInfo("kaseki-1", 1, 1)], {}, 0, None);
            var disk := Disk(map["kaseki-1" := RunDir(2, 10)], map[], map[]);
            var none := Trouble({}, {}, {});
            && PlanOk(plan)
            && Cleaned(disk, plan, {}, none, Options(false, false)) == disk
            && Reported(disk, plan, {}, none, Options(false, false)).freedBytes == 10
  {
    var listing := [RunInfo("kaseki-1", 1, 1)];
    var plan := CreateCleanupPlan(listing, {}, 0, None);
    var disk := Disk(map["kaseki-1" := RunDir(2, 10)], map[], map[]);
    PlansAreOk(listing, {}, 0, None);
    assert listing[1..] == [] && plan.runsToDelete == listing;
    assert Deleted(disk.runs, listing, {}, Trouble({}, {}, {}), false) == {};
    assert disk.runs - {} == disk.runs && disk.cache - {} == disk.cache;
    assert listing[..0] == [];
  }

  // ---------------------------------------------------------------- the loops

  lemma DeletedOneMore(runs: map<Name, RunDir>, front: seq<RunInfo>, run: RunInfo, active: set<Name>, trouble: Trouble, dryRun: bool)
    ensures Deleted(runs, front + [run], active, trouble, dryRun)
            == Deleted(runs, front, active, trouble, dryRun)
               + (if run.name !in active && (dryRun || Removable(runs, run, trouble)) then {run.name} else {})
    ensures Names(front + [run]) == Names(front) + {run.name}
    ensures Deleted(runs, front, active, trouble, dryRun) <= Names(front) - active
  {
    hide Removable;
  }

  lemma BytesOneMore(runs: map<Name, RunDir>, front: seq<RunInfo>, run: RunInfo, active: set<Name>)
    ensures PlannedBytes(runs, front + [run], active)
            == PlannedBytes(runs, front, active) + (if run.name in active then 0 else DirectorySize(runs, run.name))
  {
    assert (front + [run])[..|front|] == front;
  }

  lemma OneMoreGone<K, V>(m: map<K, V>, gone: set<K>, k: K)
    requires k !in gone
    ensures m - (gone + {k}) == (m - gone) - {k} && |gone + {k}| == |gone| + 1
  {
  }

  lemma NotYetSeen(planned: seq<RunInfo>, i: nat)
    requires DistinctNames(planned) && i < |planned|
    ensures planned[i].name !in Names(planned[..i])
  {
    var name := (r: RunInfo) => r.name;
    forall r <- planned[..i] ensures r.name != planned[i].name {
      var j :| 0 <= j < i && planned[j] == r;
      assert name(planned[j]) != name(planned[i]);
    }
  }

  lemma SameRemovable(runs: map<Name, RunDir>, now: map<Name, RunDir>, run: RunInfo, trouble: Trouble)
    requires run.name in now <==> run.name in runs
    requires run.name in runs ==> now[run.name] == runs[run.name]
    ensures Removable(runs, run, trouble) == Removable(now, run, trouble)
  {
  }

  lemma {:induction false} LogBytesSame(logs: map<string, LogFile>, planned: seq<RunLogInfo>, gone: set<string>, other: set<string>)
    requires forall l <- planned :: l.path in gone <==> l.path in other
    ensures LogBytes(logs, planned, gone) == LogBytes(logs, planned, other)
  {
    if planned != [] {
      assert planned[|planned| - 1] in planned;
      LogBytesSame(logs, planned[..|planned| - 1], gone, other);
    }
  }

  lemma LogsOneMore(logs: map<string, LogFile>, front: seq<RunLogInfo>, log: RunLogInfo, retained: set<Name>, active: set<Name>,
                    stuck: set<string>, dryRun: bool)
    requires forall l <- front :: l.path != log.path
    ensures var goes := LogGoes(logs, log, retained, active, stuck, dryRun);
            var gone := LogsGone(logs, front, retained, active, stuck, dryRun);
            var more := LogsGone(logs, front + [log], retained, active, stuck, dryRun);
            && log.path !in gone
            && more == gone + (if goes then {log.path} else {})
            && (goes ==> log.path in logs)
            && LogBytes(logs, front + [log], more) == LogBytes(logs, front, gone) + (if goes then logs[log.path].size else 0)
  {
    LogGoesMeans(logs, log, retained, active, stuck, dryRun);
    hide LogGoes;
    var gone := LogsGone(logs, front, retained, active, stuck, dryRun);
    var more := LogsGone(logs, front + [log], retained, active, stuck, dryRun);
    assert (front + [log])[..|front|] == front;
    LogBytesSame(logs, front, gone, more);
  }

  lemma LogGoesMeans(logs: map<string, LogFile>, log: RunLogInfo, retained: set<Name>, active: set<Name>, stuck: set<string>,
                     dryRun: bool)
    ensures LogGoes(logs, log, retained, active, stuck, dryRun) ==> log.path in logs
  {
  }

  lemma SameLog(logs: map<string, LogFile>, now: map<string, LogFile>, log: RunLogInfo, retained: set<Name>, active: set<Name>,
                stuck: set<string>, dryRun: bool)
    requires log.path in now <==> log.path in logs
    requires log.path in logs ==> now[log.path] == logs[log.path]
    ensures LogGoes(logs, log, retained, active, stuck, dryRun) == LogGoes(now, log, retained, active, stuck, dryRun)
  {
  }

  /** The state of the deletion loop after the planned runs in `done`. */
  ghost predicate RunsDone(runs: map<Name, RunDir>, done: seq<RunInfo>, active: set<Name>, kept: set<Name>, trouble: Trouble,
                           dryRun: bool, left: map<Name, RunDir>, retained: set<Name>, deletedCount: nat)
  {
    var gone := Deleted(runs, done, active, trouble, dryRun);
    && left == (if dryRun then runs else runs - gone)
    && retained == kept + (Names(done) - active - gone)
    && deletedCount == |gone|
  }

  lemma RunsTurn(runs: map<Name, RunDir>, front: seq<RunInfo>, run: RunInfo, active: set<Name>, kept: set<Name>,
                 trouble: Trouble, dryRun: bool, left: map<Name, RunDir>, retained: set<Name>, deletedCount: nat)
    requires run.name !in Names(front)
    requires RunsDone(runs, front, active, kept, trouble, dryRun, left, retained, deletedCount)
    ensures Removable(left, run, trouble) == Removable(runs, run, trouble)
    ensures DirectorySize(left, run.name) == DirectorySize(runs, run.name)
    ensures var goes := run.name !in active && (dryRun || Removable(left, run, trouble));
            var fails := run.name !in active && !(dryRun || Removable(left, run, trouble));
            RunsDone(runs, front + [run], active, kept, trouble, dryRun,
                     if goes && !dryRun then left - {run.name} else left,
                     if fails then retained + {run.name} else retained,
                     if goes then deletedCount + 1 else deletedCount)
  {
    hide Removable, Deleted, Names;
    var gone := Deleted(runs, front, active, trouble, dryRun);
    DeletedOneMore(runs, front, run, active, trouble, dryRun);
    assert run.name in left <==> run.name in runs;
    SameRemovable(runs, left, run, trouble);
    OneMoreGone(runs, gone, run.name);
    assert gone + {} == gone;
    RetainedTurn(Names(front), active, gone, kept, run.name);
  }

  lemma RetainedTurn(names: set<Name>, active: set<Name>, gone: set<Name>, kept: set<Name>, n: Name)
    requires n !in names && gone <= names
    ensures n in active ==> kept + (names + {n} - active - gone) == kept + (names - active - gone)
    ensures n !in active ==> kept + (names + {n} - active - gone) == kept + (names - active - gone) + {n}
    ensures kept + (names + {n} - active - (gone + {n})) == kept + (names - active - gone)
  {
  }

  /** The loop over the planned runs; a failed deletion adds its run to the retained ones. */
  method DeleteRuns(runs: map<Name, RunDir>, planned: seq<RunInfo>, active: set<Name>, kept: set<Name>, trouble: Trouble,
                    dryRun: bool)
    returns (left: map<Name, RunDir>, retained: set<Name>, deletedCount: nat, freedBytes: nat)
    requires DistinctNames(planned)
    ensures RunsDone(runs, planned, active, kept, trouble, dryRun, left, retained, deletedCount)
    ensures freedBytes == PlannedBytes(runs, planned, active)
  {
    left, retained, deletedCount, freedBytes := runs, kept, 0, 0;
    assert RunsDone(runs, planned[..0], active, kept, trouble, dryRun, left, retained, deletedCount) by {
      assert Deleted(runs, planned[..0], active, trouble, dryRun) == {} && Names(planned[..0]) == {};
      assert runs - {} == runs;
    }
    hide Removable, DistinctNames, RunsDone, DirectorySize;
    for i := 0 to |planned|
      invariant RunsDone(runs, planned[..i], active, kept, trouble, dryRun, left, retained, deletedCount)
      invariant freedBytes == PlannedBytes(runs, planned[..i], active)
    {
      var run := planned[i];
      NotYetSeen(planned, i);
      assert planned[..i + 1] == planned[..i] + [run];
      RunsTurn(runs, planned[..i], run, active, kept, trouble, dryRun, left, retained, deletedCount);
      BytesOneMore(runs, planned[..i], run, active);
      hide PlannedBytes;
      if run.name !in active {
        freedBytes := freedBytes + DirectorySize(left, run.name);
        if dryRun || Removable(left, run, trouble) {
          if !dryRun {
            left := left - {run.name};
          }
          deletedCount := deletedCount + 1;
        } else {
          retained := retained + {run.name};
        }
      }
    }
    assert planned[..|planned|] == planned;
  }

  /** The state of the loop of `cleanupRunLogs` after the logs in `done`. */
  ghost predicate LogsDone(logs: map<string, LogFile>, done: seq<RunLogInfo>, retained: set<Name>, active: set<Name>,
                           stuck: set<string>, dryRun: bool, left: map<string, LogFile>, deletedCount: nat, freedBytes: nat)
  {
    var gone := LogsGone(logs, done, retained, active, stuck, dryRun);
    && left == (if dryRun then logs else logs - gone)
    && deletedCount == |gone| && freedBytes == LogBytes(logs, done, gone)
  }

  lemma LogsTurn(logs: map<string, LogFile>, front: seq<RunLogInfo>, log: RunLogInfo, retained: set<Name>, active: set<Name>,
                 stuck: set<string>, dryRun: bool, left: map<string, LogFile>, deletedCount: nat, freedBytes: nat)
    requires forall l <- front :: l.path != log.path
    requires LogsDone(logs, front, retained, active, stuck, dryRun, left, deletedCount, freedBytes)
    ensures var goes := LogGoes(left, log, retained, active, stuck, dryRun);
            && (goes ==> log.path in left)
            && LogsDone(logs, front + [log], retained, active, stuck, dryRun,
                        if goes && !dryRun then left - {log.path} else left,
                        if goes then deletedCount + 1 else deletedCount,
                        if goes then freedBytes + left[log.path].size else freedBytes)
  {
    hide LogGoes, LogBytes, LogsGone;
    var gone := LogsGone(logs, front, retained, active, stuck, dryRun);
    LogsOneMore(logs, front, log, retained, active, stuck, dryRun);
    assert log.path in left <==> log.path in logs;
    SameLog(logs, left, log, retained, active, stuck, dryRun);
    OneMoreGone(logs, gone, log.path);
    assert gone + {} == gone;
  }

  /** `cleanupRunLogs`. */
  method CleanupRunLogs(logs: map<string, LogFile>, planned: seq<RunLogInfo>, hasLogDir: bool, retained: set<Name>,
                        active: set<Name>, stuck: set<string>, dryRun: bool)
    returns (left: map<string, LogFile>, deletedCount: nat, freedBytes: nat)
    requires Distinct(planned, (l: RunLogInfo) => l.path)
    ensures hasLogDir ==> LogsDone(logs, planned, retained, active, stuck, dryRun, left, deletedCount, freedBytes)
    ensures !hasLogDir ==> left == logs && deletedCount == 0 && freedBytes == 0
  {
    left, deletedCount, freedBytes := logs, 0, 0;
    if !hasLogDir {
      return;
    }
    assert LogsDone(logs, planned[..0], retained, active, stuck, dryRun, left, deletedCount, freedBytes) by {
      assert LogsGone(logs, planned[..0], retained, active, stuck, dryRun) == {};
      assert logs - {} == logs;
    }
    hide LogGoes, LogsDone, Distinct;
    for i := 0 to |planned|
      invariant LogsDone(logs, planned[..i], retained, active, stuck, dryRun, left, deletedCount, freedBytes)
    {
      var log := planned[i];
      LogNotYetSeen(planned, i);
      assert planned[..i + 1] == planned[..i] + [log];
      LogsTurn(logs, planned[..i], log, retained, active, stuck, dryRun, left, deletedCount, freedBytes);
      if LogGoes(left, log, retained, active, stuck, dryRun) {
        freedBytes := freedBytes + left[log.path].size;
        deletedCount := deletedCount + 1;
        if !dryRun {
          left := left - {log.path};
        }
      }
    }
    assert planned[..|planned|] == planned;
  }

  lemma LogNotYetSeen(planned: seq<RunLogInfo>, i: nat)
    requires Distinct(planned, (l: RunLogInfo) => l.path) && i < |planned|
    ensures forall l <- planned[..i] :: l.path != planned[i].path
  {
    var path := (l: RunLogInfo) => l.path;
    forall l <- planned[..i] ensures l.path != planned[i].path {
      var j :| 0 <= j < i && planned[j] == l;
      assert path(planned[j]) != path(planned[i]);
    }
  }

  /** `cleanupCacheDir`, over the entries in any order. */
  method CleanupCacheDir(cache: map<string, set<Name>>, retained: set<Name>, stuck: set<string>, dryRun: bool)
    returns (left: map<string, set<Name>>, removed: nat)
    ensures var gone := CacheGone(cache, retained, stuck, dryRun);
            left == (if dryRun then cache else cache - gone) && removed == |gone|
  {
    left, removed := cache, 0;
    var entries := cache.Keys;
    ghost var gone: set<string> := {};
    while entries != {}
      invariant entries <= cache.Keys
      invariant gone == set e <- cache.Keys - entries | ShouldRemoveCacheEntry(cache[e], retained) && (dryRun || e !in stuck) :: e
      invariant left == if dryRun then cache else cache - gone
      invariant removed == |gone|
      decreases |entries|
    {
      hide ShouldRemoveCacheEntry;
      var entry :| entry in entries;
      assert entry !in gone && entry in left && left[entry] == cache[entry];
      if ShouldRemoveCacheEntry(left[entry], retained) && (dryRun || entry !in stuck) {
        if !dryRun {
          left := left - {entry};
        }
        removed := removed + 1;
        gone := gone + {entry};
      }
      entries := entries - {entry};
    }
  }

  /** The figures reported for a plan that has something to delete. */
  function Reported(disk: Disk, plan: CleanupPlan, activeNow: set<Name>, trouble: Trouble, options: Options): CleanupResult {
    var active := Active(plan, activeNow);
    var retained := Survivors(disk.runs, plan, activeNow, trouble, options.dryRun);
    var logsGone := if plan.hasLogDir
                    then LogsGone(disk.logs, plan.logsToDelete, retained, active, trouble.logs, options.dryRun) else {};
    CleanupResult(
      |Deleted(disk.runs, plan.runsToDelete, active, trouble, options.dryRun)|,
      |logsGone|,
      PlannedBytes(disk.runs, plan.runsToDelete, active)
      + (if plan.hasLogDir then LogBytes(disk.logs, plan.logsToDelete, logsGone) else 0),
      if options.preserveCache then 0 else |CacheGone(disk.cache, retained, trouble.cache, options.dryRun)|)
  }

  class CleanupManager {
    var runs: map<Name, RunDir>
    var logs: map<string, LogFile>
    var cache: map<string, set<Name>>

    function Contents(): Disk
      reads this
    {
      Disk(runs, logs, cache)
    }

    /** The part of `cleanupOldRuns` that runs under the index lock, with the runs active at that time. */
    method CleanupOldRuns(plan: CleanupPlan, activeNow: set<Name>, trouble: Trouble, options: Options)
      returns (result: CleanupResult)
      requires PlanOk(plan) && Distinct(plan.logsToDelete, (l: RunLogInfo) => l.path)
      modifies this
      ensures Contents() == Cleaned(old(Contents()), plan, activeNow, trouble, options)
      ensures plan.runsToDelete != [] || plan.logsToDelete != [] ==>
                result == Reported(old(Contents()), plan, activeNow, trouble, options)
      ensures plan.runsToDelete == [] && plan.logsToDelete == [] ==> result == CleanupResult(0, 0, 0, 0)
    {
      hide Deleted, LogsGone, CacheGone, LogBytes, PlannedBytes, Distinct;
      result := CleanupResult(0, 0, 0, 0);
      if plan.runsToDelete == [] && plan.logsToDelete == [] {
        return;
      }
      var active := activeNow + plan.activeRunNames;
      ghost var wanted := Survivors(runs, plan, activeNow, trouble, options.dryRun);
      var leftRuns, retained, deletedCount, freedBytes :=
        DeleteRuns(runs, plan.runsToDelete, active, plan.retainedRunNames + active, trouble, options.dryRun);
      assert retained == wanted;
      hide Survivors;
      var leftLogs, deletedLogCount, logBytes :=
        CleanupRunLogs(logs, plan.logsToDelete, plan.hasLogDir, retained, active, trouble.logs, options.dryRun);
      var leftCache, cachedEntriesRemoved := cache, 0;
      if !options.preserveCache {
        leftCache, cachedEntriesRemoved := CleanupCacheDir(cache, retained, trouble.cache, options.dryRun);
      }
      result := CleanupResult(deletedCount, deletedLogCount, freedBytes + logBytes, cachedEntriesRemoved);
      runs, logs, cache := leftRuns, leftLogs, leftCache;
    }
  }
}
