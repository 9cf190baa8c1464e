# Kaseki coordination: a verified model

This project models, in Dafny, the coordination layer of the Kaseki API service and the
self-contained algorithms around it, and proves what they promise. Several controller processes
share one results directory; they must agree on who owns a lock, a queued job, an outbox callback
and an idempotency key, whatever crashes and interleavings occur. The model takes the form of the
source: objects that change in place are classes whose methods are proved against specification
functions on values, loops are loops with invariants, and properties of whole runs are lemmas about
those functions.

Check everything with `dafny verify dfyconfig.toml --resource-limit 2000000 --verification-time-limit 0 --warn-contradictory-assumptions`.

## The parts

| module | subject |
|---|---|
| LockProtocol | the lock directory, both implementations, as a step system: every file-system call is one atomic step of one client, and other clients, crashes and the clock step in between |
| JobRecords, JobsIndex, JobPersistence | versions of job records, the merge that keeps the most recent, restart claims, and the persistence manager with its index file |
| SoyuzOutbox, OutboxOverflow | the leased at-least-once outbox with its capacity bounds and compaction |
| Lines, IdempotencyLog, IdempotencyStore, RunSubmission | line splitting with a carried remainder, the incremental cache against the replay of the whole log, the store, and the submission route on top of it |
| SchedulerState, SchedulerRuns, SchedulerGates, SchedulerAwait, SchedulerIndex, SchedulerRecords, SchedulerOutcomes, JobScheduling, SchedulerRestart | the job scheduler: its operations as functions on a state, what every run keeps, the start gate and how jobs end, the await between start and launch, the pruning of the index, the records and webhooks that each operation writes, what each request promises, the class that does the same in place, and the restart from the durable index |
| Cleanup | retention plans, their refresh, and carrying them out with failing deletions |
| JsonScanner | the one-pass brace scanner against a grammar and against the rescanning scanner |
| StableJson | the canonical JSON printer and the request fingerprint |
| ImportClosure | the recursive import walk with shared visited set and results |
| Hashline | the line-splice editor anchored by hashes |
| InstanceIds, OutputTail, ApiAccess | instance numbers, the bounded output tail, the fixed-window rate limits |
| Wrappers, Seqs, Sorting | optional values, `filter` and `map`, stable sorting |

## What the proofs found

Most promises hold as stated. Where one does not, the code is modelled as it is, a lemma gives the
failing case, and another says exactly when the promise is kept:

- Mutual exclusion of the lock fails when a quarantining rename hits a directory whose owner was
  written after it was last read (`LockProtocol.RacingRenameBreaksMutualExclusion`). A step keeps
  every live holder anchored to the lock path if and only if it does not rename a held lock away
  (`StepKeepsAnchoredIff`). Without any hypothesis, a written lock of a live process is never deleted.
- Retrying a callback that was already delivered can push the pending entries over 5000
  (`OutboxOverflow.RetryOverfillsOutbox`); the bound is kept by every event if and only if it is not such a
  retry on a full outbox (`SoyuzOutbox.PendingBoundKeptIff`).
- Through the interface of the store the expiry recorded for a key can go down along the idempotency log
  (`IdempotencyStore.ExpiriesMayDecrease`): `StoreResponse` lowers it if and only if the loaded cache holds
  the key with an earlier expiry. The routes always claim before they store, and over every run of
  submissions it never goes down (`RunSubmission.ExpiryNeverDecreases`).
- After a crash between claim and store a second job for a key is possible exactly when the next request
  comes after the stale threshold or the expiry (`RunSubmission.SecondJobIff`).
- The cleanup of the idempotency store can drop another store's live claim from the log
  (`IdempotencyStore.CleanupDropsUnreadClaim`), exactly when the unread lines say something new about a live
  entry (`CacheCompleteIff`).
- A restart reverses the order of submission (`SchedulerRestart.RestartReversesOrder`): it survives if and
  only if no two claimed local jobs were created at different times. Within one process local jobs begin in
  the order in which they entered its queue.
- Cancelling a Soyuz job through `cancelJob` while its start is being written does not stop the launch, for
  any events in between, unless a shutdown finds the job in the index (`SchedulerAwait.CancelledJobLaunchesIff`);
  `cancelSoyuzJob` does stop it. If such a job is also dropped from a full index, its worker is spawned after
  shutdown (`SchedulerIndex.EvictedJobOutlivesShutdown`). `SchedulerAwait.SpawnIff` gives the exact condition
  in every state.
- A Soyuz job that is held after its authorization is not put back into the queue by authorizing it again
  (`SchedulerOutcomes.HoldThenAuthorizeStrands`, exact condition in `AuthorizePromise`).
- Cleanup can remove a cache entry used by a run that appeared and finished after planning
  (`Cleanup.LateRunLosesItsCache`; exact condition in `CacheConsistentIff`), and its freed bytes include
  the sizes of runs whose deletion failed (`KeptRunIsReported`; exact condition in `ReportIsRightIff`).
- The import validator passes over the entry file of a binary, so a missing direct import of that file
  goes unreported (`ImportClosure.EntryImportsUnchecked`).
- A comparator that ties two different keys, as a locale comparison may, makes the printed request depend
  on the order of its keys (`StableJson.TieShowsKeyOrder`).
- A hashline edit cannot delete lines outright: an empty replacement leaves an empty line
  (`Hashline.EmptyReplacementLeavesALine`).

## Assumptions

Times are integers and ISO strings are their time value. Liveness of a pid is accurate and death is
permanent; all processes share one clock and one pid space. Owner tokens are unique.
Operations under the index lock, the id lock or the idempotency lock are atomic transitions; writes
succeed and appends are whole lines. `JSON.parse` of a log line, SHA-256 and `localeCompare` are
parameters: a codec that reads back what it writes, a function on strings, a comparison of keys. The
worker's exit, its exit code, timeouts and the failure class found in its results are inputs.
Directory listings have distinct names. A record that
is not terminal is not marked final. What is left of a line of the log without its beginning does not parse.

## Model

| member | source | states |
|---|---|---|
| LockProtocol.StepKeepsInv | src/job-persistence-manager.ts:913-1140 | every step of every client, every crash and every tick keeps the invariant that ties each program counter to tokens, directories and quarantines |
| LockProtocol.RunKeepsInv | src/job-persistence-manager.ts:913-1140 | the invariant holds after every possible run, with any number of clients of either implementation |
| LockProtocol.DeletionNeedsObservedStaleOwner | src/job-persistence-manager.ts:1055-1108 | a directory with an owner file is removed only by stale removal, with the token observed before the rename, past the age limit and owned by a dead process; an ownerless one only if observed ownerless and old |
| LockProtocol.LiveOwnerSurvives | src/idempotency-store.ts:408-459 | a lock directory whose written owner is alive survives every step, and only a release of the lock path touches its owner file |
| LockProtocol.NoRunDeletesLiveLock | src/job-persistence-manager.ts:1055-1119 | no run, however it races, deletes a directory whose written owner is alive |
| LockProtocol.FaithfulRenameSparesHolders | src/job-persistence-manager.ts:1055-1075 | a rename that hits the directory whose owner was observed never takes a lock that a live client is using |
| LockProtocol.StepKeepsAnchoredIff | src/job-persistence-manager.ts:931-985 | every live holder's token stays the one at the lock path, if and only if the step does not rename a held lock away |
| LockProtocol.RunKeepsAnchored | src/job-persistence-manager.ts:913-1140 | over every run whose renames are faithful, every live holder's token is the one at the lock path |
| LockProtocol.TokensTellClientsApart | src/job-persistence-manager.ts:1006-1013 | two different clients never hold the same owner record |
| LockProtocol.MutualExclusion | src/job-persistence-manager.ts:913-1140 | after any run from the start whose renames are faithful, at most one live client is in the protected section, and its token is at the lock path |
| LockProtocol.StepKeepsAccountedIff | src/job-persistence-manager.ts:1055-1075 | a step keeps every live written owner at the lock path and in the hands of a client in the protected section, if and only if it does not rename a held lock away |
| LockProtocol.LockOwnerIsHolder | src/job-persistence-manager.ts:913-1140 | the converse: after any run from the start whose renames are faithful, an owner at the lock path that is alive belongs to a client in the protected section, with that owner; so nobody who has released the lock or given up leaves one behind |
| LockProtocol.ReleaseFreesLock | src/job-persistence-manager.ts:1121-1140 | the undisturbed steps of a holder from holding to idle leave the lock path free and its directory gone, and nothing else changed |
| LockProtocol.FreeLockIsAcquired | src/job-persistence-manager.ts:931-985 | on a free path three undisturbed steps make the client the holder, with its own record in the new directory |
| LockProtocol.TakenLockIsLookedAt | src/job-persistence-manager.ts:931-1054 | a client that finds the lock taken has changed nothing when it gives up, or when it goes on to remove it, which it does if and only if the lock is stale |
| LockProtocol.StaleLockIsRemoved | src/job-persistence-manager.ts:1055-1119 | the undisturbed steps of stale removal delete the lock if it is the one observed and still stale, and otherwise put it back as it was |
| LockProtocol.RestoreGivesWay | src/job-persistence-manager.ts:1085-1119 | putting a quarantined lock back takes a free path or the place of an empty directory, and gives way to an owned one |
| LockProtocol.ReplacedLockIsLeft | src/job-persistence-manager.ts:1085-1108 | a lock that was replaced while in quarantine is left there untouched, and so is its replacement |
| LockProtocol.FailedWriteTouchesNothing | src/job-persistence-manager.ts:986-1000 | a client whose directory is gone or owned by another when it writes its owner file leaves everything as it is, and gives up or looks at the owner it lost to |
| LockProtocol.RacingRenameBreaksMutualExclusion | src/job-persistence-manager.ts:1055-1075 | a concrete run with one racing rename that ends with two live clients in the protected section |
| JobRecords.CoreDecidesRecency | src/job-persistence-manager.ts:748-792 | the recency comparison does not look at the Soyuz and restart-claim overlays |
| JobRecords.AtLeastAsRecentIsPreorder | src/job-persistence-manager.ts:761-792 | the comparison by terminal state, time and diagnostics is reflexive, transitive and total |
| JobRecords.SelectIsMaximal | src/job-persistence-manager.ts:793-819 | the selected record is one of the two versions up to overlays, no older than either, and only turns the two one-way flags on |
| JobRecords.RecencyRule | src/job-persistence-manager.ts:748-788 | a version that ended replaces one that has not; else the one that moved later, by completion, start or creation; else the one with more diagnostics |
| JobRecords.SelectOverlays | src/job-persistence-manager.ts:793-819 | the merged Soyuz metadata field by field: the started callback stays the earlier one, a new terminal callback replaces the earlier, a claim callback is never lost and the one of the version updated last wins, and so do the details and the time; the rest of the record is that of the selected version |
| JobsIndex.MergeOneStep | src/job-persistence-manager.ts:713-747 | merging one record keeps every id's record maximal among all versions presented so far |
| JobsIndex.MergeStep | src/job-persistence-manager.ts:713-747 | so does merging any list of records, with repetitions |
| JobsIndex.RestartStep | src/job-persistence-manager.ts:231-294 | so does a restart; and a record that was running is then failed with 143 and api_restart, with nothing else of it changed but its completion time and claim, a queued one changes at most its claim, any other not at all, and none becomes completed |
| JobsIndex.EventStep | src/job-persistence-manager.ts:231-382 | every event on the index keeps it maximal and loses nothing |
| JobsIndex.IndexKeepsMaximumOfHistory | src/job-persistence-manager.ts:713-832 | after any sequence of persists, restarts and deliveries each record is maximal among all versions ever presented, and is one of them up to overlays |
| JobsIndex.RunExtends | src/job-persistence-manager.ts:713-832 | along any run no id is lost, a terminal record never becomes non-terminal, and both flags only go from false to true |
| JobsIndex.DeliveryReachesJob | src/job-persistence-manager.ts:423-507 | once a version naming a callback is persisted, and over any run without another terminal callback of the job, completing the callback marks the job as delivered, and it stays so over every later run |
| JobsIndex.LoadClaimsExclude | src/job-persistence-manager.ts:611-630 | another controller gets a claimed queued job if and only if the lease is over, or its holder is dead or is itself |
| JobsIndex.ClaimOutlastsQuietRun | src/job-persistence-manager.ts:231-294 | over any run of restarts and older versions within the lease no other controller takes over a claimed job |
| JobPersistence.MergePersistedJobs | src/job-persistence-manager.ts:713-747 | the loops over an insertion-ordered map compute the merge of the two lists, each id once, newest created first |
| JobPersistence.RestartEach | src/job-persistence-manager.ts:231-294 | the loop of loadPersistedJobs fails each running record with 143 and api_restart, claims the queued ones it may, leaves the others, and returns exactly the queued jobs held by this controller |
| JobPersistence.JobPersistenceManager.PersistJobs | src/job-persistence-manager.ts:300-343 | the durable index becomes the merge of what was there with the jobs given |
| JobPersistence.JobPersistenceManager.PersistJobStrict | src/job-persistence-manager.ts:346-382 | a second local job for an external run is refused, and nothing is written, if and only if the first record of that run has another id; otherwise the job is merged |
| JobPersistence.JobPersistenceManager.PersistTerminalCallback | src/job-persistence-manager.ts:423-443 | the job and its callback become durable together, or neither does; once written, the durable record of the job names the callback |
| JobPersistence.JobPersistenceManager.ClaimDueSoyuzCallbacks | src/job-persistence-manager.ts:452-484 | the outbox written and the entries returned are those of the claim, each on lease; the index does not change |
| JobPersistence.JobPersistenceManager.CompleteSoyuzCallback | src/job-persistence-manager.ts:485-507 | the callback is marked delivered and compacted; exactly the jobs that name it record the delivery, and nothing else of any record changes |
| JobPersistence.JobPersistenceManager.LoadPersistedJobs | src/job-persistence-manager.ts:231-294 | the durable index becomes the restarted one: what was running has failed with 143 and api_restart, field by field, no record becomes completed, and exactly the claimed queued jobs are handed out |
| SoyuzOutbox.RunKeepsUnique | src/job-persistence-manager.ts:444-526 | callback ids stay unique over every run of enqueue, claim, complete and retry |
| SoyuzOutbox.EnqueueOutcome | src/job-persistence-manager.ts:689-710 | which callbacks are refused: too large, an id in use for something else, or a full outbox; one that is there already is accepted without another entry, any other is appended |
| SoyuzOutbox.SelectedAreDue | src/job-persistence-manager.ts:452-484 | a claim selects at most `limit` due entries, and none that is not selected but due would come earlier |
| SoyuzOutbox.ClaimLeasesSelected | src/job-persistence-manager.ts:452-484 | exactly the selected entries are leased with one more attempt; every other entry is unchanged |
| SoyuzOutbox.ClaimReturnsSelected | src/job-persistence-manager.ts:452-484 | the caller receives the leased form of each selected entry, once, and nothing else |
| SoyuzOutbox.LeaseExcludesSecondClaim | src/job-persistence-manager.ts:452-526 | over any run inside the lease without a completion or retry of it, a leased callback is not returned again |
| SoyuzOutbox.RetryReschedules | src/job-persistence-manager.ts:508-526 | a retry leaves the callback pending with the given time and error, due from that time on and not before, and changes nothing else |
| SoyuzOutbox.RetriedWaits | src/job-persistence-manager.ts:452-526 | over any run in which it is not completed or retried again, no claim returns a retried callback before its time, and from then on a claim with room for all does |
| SoyuzOutbox.LeaseRunsOut | src/job-persistence-manager.ts:452-526 | at least once: over any run in which it is neither completed nor retried, a claimed callback is returned again after its lease, with one more attempt |
| SoyuzOutbox.CompletionMarks | src/job-persistence-manager.ts:485-507 | a completion marks exactly this callback as delivered now, without a lease, and leaves every other that it keeps as it was |
| SoyuzOutbox.UndeliveredSurvives | src/job-persistence-manager.ts:444-526 | no operation drops an undelivered callback or alters what it says; only its own completion delivers it |
| SoyuzOutbox.PendingBoundKeptIff | src/job-persistence-manager.ts:689-710 | an event keeps the bound of 5000 undelivered entries if and only if it does not reopen a delivered callback of a full outbox |
| OutboxOverflow.RetryOverfillsOutbox | src/job-persistence-manager.ts:508-526 | a run from the empty outbox whose last retry leaves 5001 undelivered callbacks |
| SoyuzOutbox.ReopeningAddsOne | src/job-persistence-manager.ts:508-526 | retrying a delivered callback raises the number of pending entries by one, and retrying another leaves it |
| SoyuzOutbox.RunKeepsPendingBound | src/job-persistence-manager.ts:689-710 | the bound holds over every run without such a reopening |
| SoyuzOutbox.CompletionBoundsDelivered | src/job-persistence-manager.ts:485-507 | after a completion at most 500 delivered entries remain |
| SoyuzOutbox.CompletionKeepsNewestDelivered | src/job-persistence-manager.ts:485-507 | what a completion compacts away is delivered, and no newer than any delivered entry that stays |
| Lines.JoinSplit | src/idempotency-store.ts:543-631 | joining the lines of a text gives the text back |
| Lines.SplitJoin | src/hashline-validator.ts:141-163 | splitting joined lines gives the lines back |
| Lines.SplitChunk | src/idempotency-store.ts:543-631 | splitting a prefix, then its remainder with the next chunk, is splitting the whole, wherever the cut is |
| IdempotencyLog.ReplayAgrees | src/idempotency-store.ts:543-631 | the replay of an orderly log from byte 0 agrees on every live key with the last line written for it |
| IdempotencyLog.RestoreFills | src/idempotency-store.ts:596-620 | a line of an older writer, field by field: without a state it counts as fulfilled, its job is the one named or else that of its response, and a missing response is a queued one for that job |
| IdempotencyLog.ReadKeepsAgreement | src/idempotency-store.ts:543-631 | reading the next line keeps the cache in agreement |
| IdempotencyLog.RereadKeepsAgreement | src/idempotency-store.ts:498-631 | reading a line again that the cache already reflects changes nothing live |
| IdempotencyLog.ReadsCoverFile | src/idempotency-store.ts:543-631 | the lines read so far followed by those the next read finds are the lines of the file |
| IdempotencyLog.AppendKeepsInStep | src/idempotency-store.ts:498-538 | a store stays in step while others append anything, complete lines or not |
| IdempotencyLog.OrderlyAppend | src/idempotency-store.ts:498-538 | appending a line that does not shorten a live entry keeps the log orderly |
| IdempotencyLog.OwnLineComesFirst | src/idempotency-store.ts:498-538 | the line a store appended is the first that its next read finds |
| IdempotencyStore.ExpiriesMayDecrease | src/idempotency-store.ts:194-234 | through the interface of the store, a concrete log along which a key's recorded expiry goes down: a store without a claim of its own fulfils an old one |
| IdempotencyStore.ClaimsNeverLower | src/idempotency-store.ts:126-193 | a claim never lowers a recorded expiry, because none lies beyond the one it gets |
| IdempotencyStore.ClaimsArePending | src/idempotency-store.ts:133-175 | a claim records a pending entry without a job, made now and valid for the time to live, with a queued placeholder or the response of the abandoned claim |
| IdempotencyStore.PutKeepsLogOk | src/idempotency-store.ts:498-517 | what every writer finds and leaves is kept by an entry that does not shorten a live one |
| IdempotencyStore.PersistStaysInStep | src/idempotency-store.ts:498-538 | after appending a line and applying it to the cache the store is still in step with the log |
| IdempotencyStore.IdempotencyStore.LoadFromDisk | src/idempotency-store.ts:543-631 | however earlier reads cut the file and whoever appended, the live part of the cache is that of a replay of the whole log |
| IdempotencyStore.IdempotencyStore.Persist | src/idempotency-store.ts:498-517 | cache and log record the entry, and the log stays orderly |
| IdempotencyStore.IdempotencyStore.PersistRemoval | src/idempotency-store.ts:518-538 | the key is gone from the recorded state, and the log stays orderly |
| IdempotencyStore.IdempotencyStore.ClaimOrGet | src/idempotency-store.ts:126-193 | the answer and the entry recorded depend on the shared log alone, not on which store is asked; a key bound to a response and not expired answers with that very response; no recorded expiry goes down; a refusal writes nothing |
| IdempotencyStore.IdempotencyStore.StoreResponse | src/idempotency-store.ts:194-234 | the key is fulfilled with exactly this response and its job, and keeps the expiry of the claim; the recorded expiry goes down if and only if the loaded cache holds the key with an earlier one, and then it had run out already |
| IdempotencyStore.IdempotencyStore.ReleasePendingClaim | src/idempotency-store.ts:235-257 | only an unfulfilled claim of the same payload without a job is undone |
| IdempotencyStore.StoredResponseAnswers | src/idempotency-store.ts:126-257 | over any run of claims, releases and stores of other keys by any stores in step, the entry of a stored response stays as it is until it expires, a claim with the same payload gets that very response, and one with another payload is refused |
| IdempotencyStore.IdempotencyStore.Cleanup | src/idempotency-store.ts:651-701 | expired entries leave the cache; when the log is rewritten it keeps its live entries if and only if the cache had them all, that is, if the store's unread lines say nothing new about a live entry; and the store's own next read changes nothing |
| IdempotencyStore.CacheCompleteIff | src/idempotency-store.ts:543-701 | a store in step has every live entry if and only if its unread lines say nothing new about one |
| IdempotencyStore.OwnRewriteReadsBack | src/idempotency-store.ts:543-701 | after a store rewrote the log, its next read, which may start in the middle of a line, leaves the cache as it is |
| IdempotencyStore.CleanupDropsUnreadClaim | src/idempotency-store.ts:651-701 | a concrete log from which a cleanup drops another store's live claim |
| RunSubmission.Submit | src/kaseki-api-routes.ts:767-816 | claim, submit and store on any store that shares the log is one transition of the recorded state, and gives its reply, whether a job is created, the failure is definite, or the outcome stays unknown |
| RunSubmission.SettledThroughRun | src/kaseki-api-routes.ts:767-816 | a submitted key stays bound to its job and its response over any later submissions within the time to live |
| RunSubmission.OneJobPerKey | src/kaseki-api-routes.ts:767-816 | after a key has produced a job, each later request for it within the time to live gets the very response of that job, or is refused if its payload differs |
| RunSubmission.NoConflictWithoutCrash | src/kaseki-api-routes.ts:574-604 | while every submission ends one way or the other, no request is ever answered as pending |
| RunSubmission.HeldAnswers | src/kaseki-api-routes.ts:767-816 | a key held by a claim without a job: a request goes ahead if and only if it comes late, with the same payload or after the expiry; before that it is a conflict or refused, and the claim stays |
| RunSubmission.SecondJobIff | src/kaseki-api-routes.ts:767-816 | after a crash between claim and store, or an unknown outcome, and any run without late requests for the key, the next one creates a job, possibly the second, if and only if it comes after the stale threshold or the expiry |
| RunSubmission.ExpiryNeverDecreases | src/kaseki-api-routes.ts:767-816 | over every run of submissions the expiry recorded for a key never goes down |
| SchedulerRuns.StartKeepsCore | src/job-scheduler.ts:710-742 | taking the first runnable entry and executing it keeps the slots, the queue, the ledger, the webhooks and the order of local jobs |
| SchedulerRuns.ProcessQueueKeeps | src/job-scheduler.ts:710-742 | processQueue keeps all that, and ends shutting down, at the cap, or with no runnable entry |
| SchedulerRuns.FinalizeKeeps | src/job-scheduler.ts:1422-1509 | finalizing a job that is not queued keeps the whole invariant, and no finalized record changes |
| SchedulerRuns.ShutdownKeeps | src/job-scheduler.ts:2127-2202 | shutdown starts nothing, finalizes every queued job and every running job that was not cancelled, and keeps the invariant |
| SchedulerRuns.StepKeeps | src/job-scheduler.ts:197-742 | every request, worker event and shutdown keeps the invariant: running never over the cap, queue without duplicates and apart from running, one start and one finish per job, counters, one terminal webhook, order, no idle slot; no record is lost and no finalized one changes |
| SchedulerRuns.RunKeeps | src/job-scheduler.ts:197-742 | so does every run, and a finalized record is the same at its end |
| SchedulerRuns.InitializeKeeps | src/job-scheduler.ts:1945-1990 | every scheduler starts in such a state, whatever records and claimed jobs it restores and in whatever order, with the gates of restored Soyuz jobs closed |
| SchedulerRuns.OneTerminalWebhook | src/job-scheduler.ts:1451-1509 | a job has exactly one terminal webhook once it is final and wants one, none before, none if shutdown aborted it while running; it says cancelled if and only if the failure class is cancelled, and otherwise completed or failed as the status is |
| SchedulerRuns.CountersAddUp | src/job-scheduler.ts:1699-1738 | successes plus failures is the number of jobs that passed through completeJob, each once, and these are the finalized jobs that were not restored so or cancelled while queued |
| SchedulerRuns.OvertakingIsGated | src/job-scheduler.ts:710-742 | within one process local jobs begin in the order in which they entered its queue: an overtaken or overtaking job is a Soyuz job |
| SchedulerRuns.NothingBeginsAfterShutdown | src/job-scheduler.ts:710-742 | in no run that follows shutdown is a job taken from the queue |
| SchedulerRuns.QuietStep | src/job-scheduler.ts:1086-1173 | after shutdown a worker is spawned if and only if a durable start write ends for a job that is not finalized, has no recorded Soyuz cancellation and does not fail to launch |
| SchedulerRuns.LateSpawnWasCancelled | src/job-scheduler.ts:2141-2174 | such a job had been cancelled by request and dropped from the index |
| SchedulerAwait.SpawnIff | src/job-scheduler.ts:1086-1173 | in every state, shutting down or not, the end of the await spawns the job if and only if it was awaiting, the write succeeded, it is not finalized, no Soyuz cancellation is recorded, and the launch does not throw |
| SchedulerAwait.OtherEventsQuiet | src/job-scheduler.ts:197-742 | no other event spawns a job that has left the queue, or ends its await |
| SchedulerAwait.CancelledJobLaunchesIff | src/job-scheduler.ts:560-651 | a job cancelled through cancelJob during its await is spawned at the end of it, after any events in between, if and only if the write succeeds, the launch does not throw, and no shutdown found it in the index |
| SchedulerAwait.SoyuzCancellationPreventsLaunch | src/job-scheduler.ts:654-705 | once cancelSoyuzJob has written its request during the await, the job is never spawned in any later run |
| SchedulerRestart.RestartKeeps | src/job-scheduler.ts:1964-1976 | the scheduler started on the durable index satisfies the invariant |
| SchedulerRestart.JobsAreRestored | src/job-persistence-manager.ts:595-610 | every stored job is restored as its record says: completed or failed with its results if it had ended, else queued, or running since now |
| SchedulerRestart.RestartKeepsSubmissionOrderIff | src/job-persistence-manager.ts:827-832 | the order of submission survives a restart if and only if no two claimed local jobs were created at different times, because the index is newest first |
| SchedulerRestart.RestartReversesOrder | src/job-scheduler.ts:1964-1976 | a concrete restart after which the later of two submitted jobs runs and the earlier waits |
| SchedulerRestart.StartService | src/job-scheduler.ts:1945-1990 | loading the index, claiming and starting give a sound scheduler on exactly the records then stored; each of them is what a restart may make of the one before, and is restored as it says |
| SchedulerOutcomes.AuthorizePromise | src/job-scheduler.ts:398-422 | after a successful authorization the job runs, or waits while no slot is free, if and only if it was in the queue or its gate had been closed |
| SchedulerOutcomes.HoldThenAuthorizeStrands | src/job-scheduler.ts:448-453 | a job held after its authorization is not put back by authorizing it again |
| SchedulerOutcomes.CompletePromise | src/job-scheduler.ts:1699-1738 | completing a job that is not queued makes its record final, with its completion time kept or set and nothing else changed, frees its slot and counts it once |
| SchedulerGates.StepKeepsGates | src/job-scheduler.ts:710-742 | no event starts a Soyuz job whose start is not authorized, or still to be checked again |
| SchedulerGates.OnlyAuthorizedJobsBegin | src/job-scheduler.ts:394-422 | over every run of every scheduler, through a restart, each Soyuz job that has begun was authorized and checked |
| SchedulerGates.ExitOutcome | src/job-scheduler.ts:1214-1340 | a job completes if and only if its worker exits with 0, in time, and was not cancelled through cancelJob; a Soyuz cancellation loses to an exit with 0; otherwise it fails with 143, 124 or the worker's code |
| SchedulerRecords.NoticesTellOutcome | src/job-scheduler.ts:1451-1509 | every webhook sent in any reachable state announces the outcome in the record of its job, which is final |
| SchedulerRecords.ProcessQueueKeepsOthers | src/job-scheduler.ts:710-742 | processQueue changes no record but those of the jobs it starts, and those only to running with their start time |
| SchedulerRecords.FinalizeConcludes | src/job-scheduler.ts:1422-1509 | the first finalization of a job gives its record exactly the results of the update, sends exactly one webhook of that outcome if it wants one, takes it off every list, and touches no other record but those of jobs started in the freed slot |
| SchedulerRecords.ExitConcludes | src/job-scheduler.ts:1214-1340 | the exit of a worker: the full record and the webhook in each of its cases; exit 0, in time and uncancelled, sends exactly a completed notice |
| SchedulerRecords.PersistedConcludes | src/job-scheduler.ts:1086-1173 | the end of the await: failed with 127 when the write failed, cancelled with 143 when that was asked for, else nothing but the launch |
| SchedulerRecords.EnqueuedIsSubmitted | src/job-scheduler.ts:197-328 | the record of a submitted job, field by field, queued or started at once; other records change only by being started |
| SchedulerRecords.ShutdownRecords | src/job-scheduler.ts:2127-2202 | shutdown record by record: queued jobs failed with 143 and announced in the order of the queue, uncancelled running ones failed with 143 and not announced, all others unchanged |
| SchedulerRecords.InitializeRecords | src/job-scheduler.ts:1945-1990 | after a restart every loaded record is as it was, but that queued Soyuz jobs are to be checked again and others may have started |
| SchedulerIndex.PruneKeepsNewest | src/job-scheduler.ts:1662-1694 | pruning keeps every job that is not terminal and exactly the newest terminal ones up to the limit |
| SchedulerIndex.EvictedJobOutlivesShutdown | src/job-scheduler.ts:2127-2202 | a concrete run in which a cancelled job is spawned after shutdown |
| JobScheduling.JobScheduler.constructor | src/job-scheduler.ts:1945-1990 | restoring, pruning, closing gates and starting what can start gives the initial state of a run, which is sound |
| JobScheduling.JobScheduler.PruneTerminalJobsIndex | src/job-scheduler.ts:1671-1694 | the sort, the slice and the loop of deletions do the pruning of the specification |
| JobScheduling.JobScheduler.ProcessQueue | src/job-scheduler.ts:710-742 | the loop with findIndex and splice does the specified starts, in place |
| JobScheduling.JobScheduler.ExecuteJob | src/job-scheduler.ts:1063-1117 | the job runs since now and holds a slot, and no other record changes; a Soyuz job waits for its start to be written and nothing is spawned; a local job is spawned, or its launch has thrown |
| JobScheduling.JobScheduler.ResumeExecuteJob | src/job-scheduler.ts:1086-1173 | keeps the scheduler sound and finalized records frozen; the job is spawned if and only if nothing stands against it; it is over with 127 if the write failed and with 143 if cancelled, record and webhook in full; a job that was not awaiting changes nothing |
| JobScheduling.JobScheduler.CompleteJob | src/job-scheduler.ts:1699-1738 | a finalized job is left alone; another that is over and not queued becomes final with the rest of its record kept, gives up its slot and is counted once |
| JobScheduling.JobScheduler.FinalizeJobIfNeeded | src/job-scheduler.ts:1422-1450 | a job that is not queued takes exactly the updates the first time, is announced with its outcome, is final and holds no slot; later calls change nothing; soundness and frozen records are kept |
| JobScheduling.JobScheduler.OnExit | src/job-scheduler.ts:1214-1340 | keeps the scheduler sound and finalized records frozen; the record and the one webhook of each kind of exit in full: cancelled with 143, timed out with 124, completed with 0, failed with the code and the class found; a job that was over only loses its process |
| JobScheduling.JobScheduler.OnSpawnError | src/job-scheduler.ts:1017-1060 | keeps the scheduler sound and finalized records frozen; the job is over with 127 and announced as failed, unless it was over before |
| JobScheduling.JobScheduler.SubmitJob | src/job-scheduler.ts:197-262 | keeps the scheduler sound and finalized records frozen; the new record field by field; the job runs, or waits while no slot is free or the scheduler is shutting down |
| JobScheduling.JobScheduler.SubmitSoyuzJob | src/job-scheduler.ts:265-328 | keeps the scheduler sound; the new record field by field; the job waits behind a closed gate and has not begun |
| JobScheduling.JobScheduler.AuthorizeSoyuzStart | src/job-scheduler.ts:398-422 | keeps the scheduler sound; the gate opens, or stays to be checked and nothing starts if the write fails, and nothing else of the record changes; otherwise the job has its turn exactly if it was in the queue or its gate had been closed |
| JobScheduling.JobScheduler.HoldSoyuzJob | src/job-scheduler.ts:448-453 | keeps the scheduler sound; a queued Soyuz job leaves the queue and stays in the index, the others keep their places |
| JobScheduling.JobScheduler.CancelJob | src/job-scheduler.ts:560-651 | keeps the scheduler sound and finalized records frozen; a queued job is final with 143, announced as cancelled and out of the queue; a running one is marked with 143 and nothing else changes; any other is untouched |
| JobScheduling.JobScheduler.CancelSoyuzJob | src/job-scheduler.ts:654-705 | keeps the scheduler sound; a queued job is final with 143 and announced; a running one whose request was written is marked and nothing else changes, or is final and announced if it has no process; a failed write changes nothing |
| JobScheduling.JobScheduler.Shutdown | src/job-scheduler.ts:2127-2202 | keeps the scheduler sound; nothing waits and nothing has begun; all that waited has failed with 143 and is announced, all that ran uncancelled has failed with 143 and is not, and no other record changes |
| OutputTail.TailOfTail | src/job-scheduler.ts:1511-1527 | one more chunk on the tail kept so far is the tail of the longer stream |
| OutputTail.FoldIsTail | src/job-scheduler.ts:1511-1527 | over any chunking the result is the last `limit` bytes of the stream |
| OutputTail.ChunkingIsInvisible | src/job-scheduler.ts:985-1001 | two chunkings of one stream leave the same tail |
| OutputTail.StreamTail.OnData | src/job-scheduler.ts:985-1001 | the tail reference is always the tail of everything received |
| InstanceIds.ParseInstanceId | src/job-persistence-manager.ts:894-904 | the number in an allocated id is read back |
| InstanceIds.ParsedIff | src/job-persistence-manager.ts:894-904 | a name carries a number if and only if the number is positive and the name is kaseki- with its decimal, possibly behind zeros |
| InstanceIds.DiscoverNextId | src/job-persistence-manager.ts:872-889 | the result exceeds every numbered job id and result directory, by one |
| InstanceIds.MembershipIsRedundant | src/job-persistence-manager.ts:549-568 | from there on no candidate is a job id, and only something that is not a directory can stand at its path |
| InstanceIds.InstanceIdAllocator.GenerateInstanceId | src/job-persistence-manager.ts:549-568 | the id is the first free one, at least the persisted number and above every numbered one; it fails exactly after 10000 occupied paths |
| InstanceIds.RunAllocations | src/job-persistence-manager.ts:549-568 | over any sequence of allocator calls, whatever jobs and listings they find, with failures and restarts in between, the numbers given grow strictly, so no id is given twice, and each is new to its call |
| Cleanup.PlansAreOk | src/cleanup-manager.ts:158-198 | no plan deletes a protected run; what it deletes and what it retains are apart and cover all runs; a planned log belongs to no retained run |
| Cleanup.PlanKeepsNewest | src/cleanup-manager.ts:158-198 | the plan keeps exactly the newest `retentionCount` unprotected runs, or all if fewer |
| Cleanup.RefreshOnlyShrinks | src/cleanup-manager.ts:201-228 | a refresh takes off exactly the runs and logs of the active runs, retains those and counts them as active, and the plan stays sound |
| Cleanup.ActiveRunsSurvive | src/cleanup-manager.ts:488-590 | no run that was retained or active when planned, or is active under the lock, is deleted or changed |
| Cleanup.RunGoneIff | src/cleanup-manager.ts:488-590 | a run is gone if and only if it was planned, is inactive, is still the same directory and its removal succeeds |
| Cleanup.LogGoneIff | src/cleanup-manager.ts:301-327 | a log is gone if and only if it was planned, is a regular file whose removal succeeds, and its run is neither retained nor active nor planned but kept |
| Cleanup.CacheGoneIff | src/cleanup-manager.ts:426-476 | a cache entry is gone if and only if the cache is not preserved, its removal succeeds, and it has users, none of which is retained, active, or planned but kept |
| Cleanup.LogsGoWithTheirRuns | src/cleanup-manager.ts:301-327 | the run of a deleted log is inactive and not retained, and is still there if and only if it appeared after planning |
| Cleanup.CacheConsistentIff | src/cleanup-manager.ts:426-476 | cache entries go only with all their runs if and only if every removable entry used by a run that came after planning has a user that still counts: retained, active, or planned but not removable |
| Cleanup.LateRunLosesItsCache | src/cleanup-manager.ts:426-476 | a concrete disk on which a run that stays loses its cache entry |
| Cleanup.DryRunForecast | src/cleanup-manager.ts:535-551 | a dry run reports at least what the real one deletes, and the same if and only if every inactive planned run can be removed |
| Cleanup.ReportIsRightIff | src/cleanup-manager.ts:535-561 | the reported bytes are those freed plus the sizes of the planned runs that stayed; so they are right if and only if every inactive planned run on disk that cannot be removed is empty |
| Cleanup.KeptRunIsReported | src/cleanup-manager.ts:535-551 | a concrete disk on which nothing is freed and ten bytes are reported |
| Cleanup.DeleteRuns | src/cleanup-manager.ts:535-551 | the loop deletes exactly the removable inactive planned runs, adds each failure to the retained names, and counts |
| Cleanup.CleanupRunLogs | src/cleanup-manager.ts:301-327 | the loop deletes exactly the planned regular logs of runs neither retained nor active |
| Cleanup.CleanupCacheDir | src/cleanup-manager.ts:441-476 | the sweep removes exactly the entries with users, none of which is retained |
| Cleanup.CleanupManager.CleanupOldRuns | src/cleanup-manager.ts:488-590 | the three loops together have the specified effect and report, and an empty plan does nothing |
| JsonScanner.ClosedIffObject | scripts/artifact-recovery.ts:39-68 | a text is what the scanner takes for one object if and only if it is a string-aware balanced object of the grammar, escapes as in section 7 of RFC 8259 |
| JsonScanner.SnippetIffGrammar | scripts/artifact-recovery.ts:39-68 | a range is a snippet if and only if it is such an object and follows complete top-level text |
| JsonScanner.CollectBalancedJsonObjects | scripts/artifact-recovery.ts:39-68 | the loop returns all snippets, in increasing order, disjoint and outermost, and nothing else |
| JsonScanner.ProcessStringCharacter | src/kaseki-api-gateway-smoke.ts:700-714 | the helper agrees with the scan inside a string |
| JsonScanner.FindJsonObjectEnd | src/kaseki-api-gateway-smoke.ts:720-748 | the result is the end of the object that opens at `start`, or negative if it never closes |
| JsonScanner.SnippetEndIsFound | src/kaseki-api-gateway-smoke.ts:720-748 | from a snippet's start it is exactly the snippet's end |
| JsonScanner.ExtractJsonObjects | src/kaseki-api-gateway-smoke.ts:770-786 | the loop returns, in order, the parsed values of all balanced objects anywhere in the text that parse |
| JsonScanner.SnippetsAreExtracted | src/kaseki-api-gateway-smoke.ts:770-786 | whatever the two scanners return for one text, every snippet of the first that parses is among the objects of the second |
| StableJson.QuotePrefix | src/kaseki-api-routes.ts:70-81 | a quoted string, escaped as in section 7 of RFC 8259, tells its content and where it ends, whatever follows |
| StableJson.QuotedIsRead | src/kaseki-api-routes.ts:79-81 | round trip: a printed string, read as section 7 of RFC 8259 says, stands for what was printed |
| StableJson.PrintedForm | src/kaseki-api-routes.ts:70-81 | the recursive printer is the map and join of the texts of items and members, with members in key order |
| StableJson.ValuePrefix | src/kaseki-api-routes.ts:70-81 | a printed value tells what it is, up to key order, and where it ends |
| StableJson.EquivalentPrintSame | src/kaseki-api-routes.ts:70-81 | values equal up to the order of keys at every depth print the same, for a total comparator without ties |
| StableJson.SamePrintIsEquivalent | src/kaseki-api-routes.ts:70-81 | equal texts mean values equal up to key order, for any comparator |
| StableJson.PrintsSameIffEquivalent | src/kaseki-api-routes.ts:70-81 | the text is a complete invariant of the value up to key order |
| StableJson.TieShowsKeyOrder | src/kaseki-api-routes.ts:74-79 | a comparator that ties two keys makes equivalent values print differently |
| StableJson.SameFingerprintIffSameRequest | src/kaseki-api-routes.ts:83-90 | two requests have one fingerprint if and only if they are equal up to key order and idempotency key, or their two printed texts collide under the hash |
| ImportClosure.MissingIff | scripts/validate-module-imports.ts:127-158 | an import is listed as missing if and only if nothing stands at any path tried for it |
| ImportClosure.TargetIff | scripts/validate-module-imports.ts:127-158 | without an extension an import stands for the source file, or for the compiled one if there is no source; with one for the path as written, or, if nothing stands there, for the compiled file beside a source |
| ImportClosure.ResolvedIff | scripts/validate-module-imports.ts:127-160 | the imports listed for a file name exactly the files that its imports stand for |
| ImportClosure.DependencyWalk.ResolveDependencies | scripts/validate-module-imports.ts:96-173 | the recursion ends on cyclic graphs; exactly the files visited by the call get a result, each is reachable and has its own record, their imports have all been visited, and older results stay |
| ImportClosure.Closure | scripts/validate-module-imports.ts:96-173 | the result keys are exactly the files reachable from the root, each with its own edges and missing imports |
| ImportClosure.OnlyRootCanBeMissing | scripts/validate-module-imports.ts:110-113 | every reachable file other than the root exists |
| ImportClosure.BinaryHasErrors | scripts/validate-module-imports.ts:203-245 | a binary fails if and only if its entry file is absent or another reachable file has a missing import |
| ImportClosure.EntryImportsUnchecked | scripts/validate-module-imports.ts:226-228 | a concrete binary that passes though its entry file imports a missing module |
| Hashline.AnchorIsUnique | src/hashline-validator.ts:58-131 | an anchor names at most one range |
| Hashline.HitIffBeginning | src/hashline-validator.ts:74-104 | a line is hit by its hash and by every beginning of it, and by nothing else |
| Hashline.LineHashIsShort | src/hashline-validator.ts:26-38 | the hash of a line is the first eight characters of its digest, with or without its newline |
| Hashline.HashlineValidator.ValidateAnchor | src/hashline-validator.ts:58-131 | the two searches find the anchored range, of at most `context_lines` + 15 lines, if and only if there is one |
| Hashline.SpliceLines | src/hashline-validator.ts:141-163 | the lines of the new text are those before, those of the replacement, and those after |
| Hashline.SpliceUndone | src/hashline-validator.ts:141-163 | every edit of a non-empty range is undone, to the byte, by putting the old lines back |
| Hashline.SpliceItself | src/hashline-validator.ts:141-163 | replacing lines by themselves changes nothing |
| Hashline.SplicesCommute | src/hashline-validator.ts:141-163 | edits of ranges that do not overlap can be made in either order |
| Hashline.EmptyReplacementLeavesALine | src/hashline-validator.ts:153-159 | an empty replacement leaves one empty line |
| Hashline.HashlineValidator.ApplyEdit | src/hashline-validator.ts:141-163 | the file becomes the splice, or nothing changes when the range is invalid or the file cannot be read or written |
| Hashline.HashlineValidator.ProcessEdit | src/hashline-validator.ts:187-230 | a range that validates is always accepted by the edit that follows, unless the file is read-only; a rejected or failed edit changes no file |
| Hashline.OutcomeIsUnique | src/hashline-validator.ts:187-230 | status and files after an edit are determined by the files before |
| Hashline.AppliedEditIsBounded | src/hashline-validator.ts:172-236 | an applied edit changes one file, replaces at most `context_lines` + 15 lines, and its line count adds up |
| Hashline.HashlineValidator.ProcessEdits | src/hashline-validator.ts:172-236 | every edit gets one result, in order, on the files that the edits before it left, and the summary tallies them |
| Hashline.TallyAddsUp | src/hashline-validator.ts:172-236 | applied, rejected and errors add up to the number of edits |
| ApiAccess.RateKeysDiffer | src/api-access-control.ts:78-79 | no two pairs of API key and category share a window |
| ApiAccess.CheckKeepsAgreement | src/api-access-control.ts:70-85 | while the clock does not go back, the count in the table is that of the checks in the window so far |
| ApiAccess.CheckAll | src/api-access-control.ts:35-85 | over every run of a controller with a clock that does not go back, at most `maximum` calls of one API key are let through in each window of each category |
| ApiAccess.LeastDelay | src/api-access-control.ts:52-56 | the greatest delay of the exceeded windows is the least whole number of seconds, at least one, that outlasts them all (delay-seconds, section 10.2.3 of RFC 9110) |
| ApiAccess.ApiAccessController.ConsumeRate | src/api-access-control.ts:70-85 | the window moves or counts on, and is reported if and only if it is over its limit |
| ApiAccess.ApiAccessController.CheckAndRecord | src/api-access-control.ts:35-57 | no delay if and only if no limit that applies is exceeded, otherwise the least sufficient one; the categories do not disturb each other, and usage counts once |

## Left out

- LockProtocol.MutualExclusion: needs that no quarantining rename races with the writing of an owner file; without that it is false, and the guarantee that remains is stated separately.
- LockProtocol.StepKeepsInv: writing the owner file is one step together with its exclusive creation, each process runs one acquisition at a time, and the number of retries is not limited.
- IdempotencyStore.IdempotencyStore.Cleanup: of other stores it says only when the rewrite keeps their live entries; a store that has read less than the rewritten log may then start its next read inside a line.
- IdempotencyStore.IdempotencyStore.LoadFromDisk: a log that is deleted, or replaced by one at least as long, behind a store's back is not modelled; one that became shorter is.
- RunSubmission.Submit: the lookup of the current job, from which the route rebuilds the body of the reply to a repeated request when it finds one; the reply here is the recorded response, which it gives otherwise.
- SchedulerRuns.StepKeeps: submitJob, submitSoyuzJob, authorizeSoyuzStart and cancelSoyuzJob are atomic around their own awaits; only the await in executeJob is split. Authorizing a job that exists only in the durable index, recording an admission failure, and updating Soyuz metadata are not events.
- SchedulerRuns.OneTerminalWebhook: webhooks other than the terminal ones, their delivery and their retries.
- JobScheduling.JobScheduler.OnExit: signals, kill timers, timeouts as such, containers, artifacts and caches; whether the worker timed out and which failure class its results name are inputs.
- InstanceIds.RunAllocations: loss of the next-id file, after which only the bound by numbered jobs and directories remains, and numbers beyond 2^53.
- Cleanup.RunGoneIff: a removal that fails after the directory has been renamed counts as one that leaves it in place.
- Cleanup.CleanupManager.CleanupOldRuns: reading the index and the directories that make up the protected and active names, which are inputs; stale staging directories and the npm cache.
- StableJson.EquivalentPrintSame: localeCompare on strings that it ties, `undefined` members and lone surrogates.
- ImportClosure.Closure: the extraction of imports from source text by regular expressions, and path resolution, which is a parameter; paths are taken as already normalized.
- Hashline.HashlineValidator.ValidateAnchor: SHA-256 itself and the texts of reasons; hashes are a function of the line.
- ApiAccess.ApiAccessController.CheckAndRecord: the recognition of diagnostic probes and webhook tests from path and query, which are inputs.
- JobPersistence.JobPersistenceManager.PersistJobs: claim intents, and the formatting of the index file.
- Byte-level UTF-8, real file-system failures other than those named above, pid reuse and clock skew.
- Webhook delivery, health and preflight checks, prompt heuristics, environment building, failure classification, scoring and report text, OpenAPI and command lines: tables and plumbing without a deep property.
