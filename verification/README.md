# A verified model of the PTR sync engine and the tag store it feeds

This project models, in Dafny, how the daemon keeps a copy of a public tag repository (PTR) and what it does
with the tags it gets from there, and proves what that machinery is for.

* The **sync protocol**. A remote log of update files grows; any number of workers, each with a run token, begin,
  fetch metadata, register it, download bodies in parallel rounds of three, flush them in batches, apply what has
  become processable, and complete, throttle, fail, cancel or crash at any point. Every database transaction is one
  atomic step. `SyncSystem` is the transition system, `SyncInvariants` what every step keeps, and `SyncTheorems`,
  `SyncLease`, `SyncStatus`, `SyncBatches` and `SyncRelisting` the results over every run. `HydrusBundle` is the database as a class whose methods
  perform the transaction bodies on its fields, row by row and with rollback; `SyncManager` is the manager's run
  loop over that class, proved to be a run of the transition system.
* The **mapping tables** current, deleted, pending and petitioned (`MappingTables`), and the replica a client would
  hold after replaying the log in one go (`Replay`), which is stated in tag text and file hashes and knows nothing
  of ids, batches or interruptions.
* The **upload** of pending mappings (`Upload`): grouping, encoding, commit.
* The **tag normal form** and **interning** over three tables (`Tags`, `Interning`), with cleaning against a one-pass
  reference (`TagCleaning`), and the **wire codec** above JSON (`Wire`), with what a JSON tree means, without a decoder
  (`WireMeaning`).
* The **tag read path** with its caches (`TagLookup`, `TagReads`) and the local write path that keeps the caches up
  to date (`TagCaches`).
* The **read-connection pool** (`ReadPool`) and **import and trash** of files (`FileLife`, `FileTables`), with what
  both write, row by row (`FileRows`).

`UpdateOrder` is the order of the log, `Repository` the transactions as functions from one state to the next, and
`SetLoops` what a loop over a set has visited.

`dafny verify dfyconfig.toml` checks everything.

## What the proofs found

* `Clean` is not idempotent on every input. The colon put before a lone leading colon is added after the text was
  cut to 1024 runes, so a result can have 1025 (`CleanIsNotIdempotent`). `CleanIdempotentIff` gives the exact
  condition, on the result and on the input.
* Pending and deleted mappings can overlap: a remote delete does not touch pending (`PendingAndDeletedMayOverlap`).
  They stay disjoint exactly when every remote update deletes no pair that is pending and that it does not add
  itself; the other operations never make them overlap (`StaysApartIff`, `StaysApartThroughoutIff`).
* A mapping staged between listing the pending table for an upload and committing it is committed without having
  been sent (`StagedDuringUploadIsCommittedUnsent`). `NothingUnsentIff` says exactly when nothing is: every pair
  staged meanwhile was listed, or was cleared again; staging only listed or current pairs is enough
  (`ListedStagesSendAll`).
* A stored update can be put back on the waiting list and its body written again: after a run that failed, was
  throttled or was ended by recovery the metadata is asked for from the same index again (`FailedRunRelists`).
  `RelistsIff` and `NeverRelistedIff` give the exact condition: an answer is registered while some stored update is not
  before the slice. A run that completes or is cancelled moves the slice past all of them (`EndedPastStored`), so when every
  run ends so no stored update is ever listed again and no body is written twice (`FinishedRunsNeverRelist`).
* `AddTags` keeps the current, pending and display-current caches right, but neither the deleted nor the
  display-pending cache. `DeletedCacheAgreesIff` and `DisplayPendingAgreesIff` give the exact conditions,
  and `AllAgreeIff` puts them together. Remote updates, staging and commits write no cache at all
  (`UnwrittenCacheGoesStale`); `UnwrittenCachesAgreeIff` says when the caches are still right.
* Through which file service a file is looked up can depend on the other files asked for, though its tags do not
  (`GroupDependsOnCohort`); `CohortIndependentIff` says exactly when it does not.
* Four metadata requests that each hold a connection while their lookups wait for a further one leave the read pool
  stuck (`StuckIsReachable`); with fewer it never is.

## Reading the model

* An update file is known by the local id of its hash, as the tables key it; such ids are never reassigned.
* The remote log is a finite map from update files to index and body. The server shows, at any time, all updates
  below some index that only grows, so that all files of one index appear together; a metadata answer lists, in any
  order, every update from the asked index on.
* Run tokens are fresh. The current time and retry times are parameters, and so is which queries for bodies
  fail, what is found on disk, and how fetching a body fails, if it does.
* The lower-case table of Unicode is a parameter of `Clean`.
* New ids are chosen by the database; a step says only that names keep their ids and that no id is given twice.

## Model

| member | source | states |
|---|---|---|
| SyncTheorems.IncrementalSyncIsReplay | internal/db/hydrusdb/ptrsync.go:3045-3124 | in every run the applied updates are a prefix of the log in index, kind, id order, and the store holds exactly the one-shot replay of what happened, definitions being those of the prefix |
| SyncTheorems.RemoteSyncIsReplay | internal/db/hydrusdb/ptrsync.go:2200-2251 | without local edits the id maps and mapping tables are the fold of the applied log prefix, however the run was batched or interrupted |
| SyncTheorems.EqualProgressEqualTables | internal/ptrsync/manager.go:700-1063 | two runs that applied equally many updates represent the same replicas, however different they were |
| SyncTheorems.AppliedExactlyOnce | internal/db/hydrusdb/ptrsync.go:3591-3611 | no update is applied twice, none is unapplied, a body is marked processed exactly when applied, and no later step resets the mark |
| SyncTheorems.ApplicableIffDefined | internal/db/hydrusdb/ptrsync.go:3549-3589 | when the lease holder reaches an update, its definitions are there exactly when the log defines its ids at the same or a smaller index |
| SyncTheorems.DefinitionsBeforeUse | internal/db/hydrusdb/ptrsync.go:3053-3084 | on a well-defined log no reachable application misses a definition, and it goes through |
| SyncTheorems.RowResolves | internal/db/hydrusdb/ptrsync.go:3549-3589 | right before an update's turn, one of its rows resolves in the replayed prefix exactly when its ids are defined by the update's index |
| SyncTheorems.ReplayOfRemote | internal/db/hydrusdb/ptrsync.go:3400-3547 | replaying a history gives the definitions of the fold of its log updates, and all of the fold when nothing was edited locally |
| SyncTheorems.ReplayedTag | internal/db/hydrusdb/ptrsync.go:3437-3463 | in the replayed log a tag id has the name given by the last update of the order that defines it: the clean form of that definition, or the placeholder when nothing is left of it |
| SyncTheorems.ReplayedHash | internal/db/hydrusdb/ptrsync.go:3417-3436 | a hash id has the hash of the last update that defines it |
| SyncTheorems.ReplayedPair | internal/db/hydrusdb/ptrsync.go:3468-3547 | a pair of the replayed log is current exactly when some update adds it, does not delete it, and none after deletes it; deleted exactly when some update deletes it and none after adds it; and nothing is pending or petitioned |
| SyncTheorems.ExecHistory | internal/db/hydrusdb/ptrsync.go:2200-2251 | what has been applied is never taken back by any later step |
| SyncTheorems.Reachable | internal/db/hydrusdb/ptrsync.go:1049-1081 | every state of every run from a fresh repository satisfies the invariant |
| SyncLease.Fenced | internal/db/hydrusdb/ptrsync.go:2323-2348 | once a lease is over its token is never live again and no step that carries it changes any table, under all interleavings |
| SyncLease.EndedIsFenced | internal/db/hydrusdb/ptrsync.go:2393-2409 | each way of ending a live lease, and recovery, fences its token for good |
| SyncLease.OneLiveLease | internal/db/hydrusdb/ptrsync.go:2274-2321 | while a token is live no other is, and a second begin changes nothing |
| SyncLease.SecondFailureWriteIsVoid | internal/ptrsync/manager.go:1119-1136 | after the retries are used up, the failure reported a second time by the run's own cleanup changes nothing, whatever happened in between |
| SyncLease.LeaseShape | internal/db/hydrusdb/ptrsync.go:1548-1700 | running, holding a token and syncing are equivalent; idle has no retry data; the retry attempt is the number of leases in a row that ended throttled, at most ten |
| SyncLease.RetriesRunOut | internal/ptrsync/manager.go:1107-1157 | a busy answer gives one more retry while fewer than ten leases in a row were throttled, and then an idle state with an error |
| SyncLease.RecoveryKeepsRetries | internal/db/hydrusdb/ptrsync.go:1644-1700 | in every reachable state start-up recovery leaves a waiting retry and a clean idle state as they are, with the count of throttled leases; any other state becomes idle without lease, error or retry, and slice, counters, updates, content and workers stay |
| SyncLease.SliceMonotone | internal/db/hydrusdb/ptrsync.go:2350-2412 | the metadata slice never decreases |
| SyncLease.SliceBounded | internal/db/hydrusdb/ptrsync.go:2743-2759 | the metadata slice never passes the end of the log |
| SyncLease.ChainIsBounded | internal/ptrsync/manager.go:1249-1259 | runs that follow each other at once are no more than the log has indices |
| SyncStatus.Coverage | internal/db/hydrusdb/ptrsync.go:2640-2679 | every registered update waits for its body or has the log's body and mime stored; nothing else waits or is stored |
| SyncStatus.CountersMatch | internal/db/hydrusdb/ptrsync.go:2800-2879 | the persisted counters are the table counts, done and unprocessed add up to downloaded, and done is the number of applied updates |
| SyncStatus.SuccessDrains | internal/db/hydrusdb/ptrsync.go:563-608 | completing leaves nothing unregistered or unprocessed, the whole known log applied in order, and the slice past it |
| SyncStatus.CompleteIffAllApplied | internal/db/hydrusdb/ptrsync.go:1796-1803 | a complete status means exactly: idle without error, nothing to download, every known update applied, and something known |
| SyncStatus.DrainedIffAllApplied | internal/db/hydrusdb/ptrsync.go:2860-2879 | with no body missing, nothing unprocessed is the same as the whole known log applied |
| SyncStatus.MappingsStayConsistent | internal/db/hydrusdb/ptrsync.go:3468-3547 | over every run current is disjoint from deleted and pending, petitioned lies in current, and no pair is forgotten |
| SyncBatches.StoredIffWritten | internal/db/hydrusdb/ptrsync.go:789-859 | over every run the stored bodies are exactly those of the batches written, and each batch has 1 to 27 updates, none twice |
| SyncBatches.StepStores | internal/db/hydrusdb/ptrsync.go:789-859 | the only step that adds stored bodies is the finalize transaction of the lease holder, which adds its batch of waiting updates |
| SyncRelisting.RelistsIff | internal/db/hydrusdb/ptrsync.go:2640-2679 | a step puts a stored update back on the waiting list exactly when it registers an answer while some stored update is not before the metadata slice |
| SyncRelisting.NeverRelistedIff | internal/db/hydrusdb/ptrsync.go:2640-2679 | over a run no stored update is ever waiting exactly when every answer is registered with all stored updates before the slice |
| SyncRelisting.WrittenOnce | internal/db/hydrusdb/ptrsync.go:789-859 | while that is so, every body is written at most once over the whole run |
| SyncRelisting.EndedPastStored | internal/db/hydrusdb/ptrsync.go:555-608 | a run that is cancelled or completed leaves every stored update before the slice |
| SyncRelisting.FinishedRunsNeverRelist | internal/ptrsync/manager.go:738-778 | when every lease that ends is cancelled or completed, no stored update is ever put back on the waiting list and no body is written twice |
| SyncRelisting.FailedRunRelists | internal/ptrsync/manager.go:778-800 | a run that stores a body and fails, followed by another that asks again, leaves the update both stored and waiting |
| SyncInvariants.ExecInv | internal/db/hydrusdb/tx.go:48-102 | the invariant of lease, tables, counters, history and lease holder holds after any steps |
| SyncInvariants.NextInv | internal/db/hydrusdb/tx.go:48-102 | each of the nineteen steps keeps the invariant |
| SyncInvariants.RegisterMetadata | internal/db/hydrusdb/ptrsync.go:2623-2679 | registering an answer, by replacing or by adding, yields exactly the log up to the answer's horizon |
| SyncInvariants.PersistMirror | internal/db/hydrusdb/ptrsync.go:2610-2741 | persisting metadata forgets no stored body of the log and keeps the tables a mirror of it |
| SyncInvariants.FinalizeMirror | internal/db/hydrusdb/ptrsync.go:789-859 | storing a batch adds unprocessed bodies, never resets a processed one, and takes exactly the batch off the waiting list |
| SyncInvariants.ProcessableContinuesLog | internal/db/hydrusdb/ptrsync.go:3053-3094 | what has been applied followed by what is processable is again a prefix of the log |
| SyncInvariants.MarkMirror | internal/db/hydrusdb/ptrsync.go:3591-3611 | marking the first processable update processed extends the applied prefix by it and leaves the rest of the list to do |
| SyncInvariants.DownloadInv | internal/ptrsync/manager.go:921-1003 | what is listed, batched and still waiting always accounts for every missing body exactly once |
| SyncInvariants.ApplyInv | internal/db/hydrusdb/ptrsync.go:2200-2251 | applying an update keeps the invariant, whether it goes through or is rolled back |
| SyncInvariants.ThrottleInv | internal/ptrsync/manager.go:1107-1157 | throttling keeps the retry count equal to the number of throttled leases in a row |
| UpdateOrder.Sorted | internal/db/hydrusdb/ptrsync.go:3086-3094 | the order in which updates are listed is strictly increasing and lists exactly the given ones |
| UpdateOrder.SortedIsUnique | internal/db/hydrusdb/ptrsync.go:3086-3094 | only one list is in that order |
| UpdateOrder.SortedPrefix | internal/db/hydrusdb/ptrsync.go:3053-3084 | updates that come with all earlier ones form a prefix of the whole order |
| UpdateOrder.PrefixIsDownClosed | internal/db/hydrusdb/ptrsync.go:3053-3084 | and a prefix has every earlier update |
| Repository.NextIndex | internal/db/hydrusdb/ptrsync.go:2743-2759 | the next index is above every registered one and reached by one of them, or 0 |
| Repository.RegisteredByRow | internal/db/hydrusdb/ptrsync.go:2640-2741 | what registering an answer does to each update id and each stored body |
| Repository.RegisterKeepsFirst | internal/db/hydrusdb/ptrsync.go:2640-2679 | an id keeps its index, or gets that of the first row that names it |
| Repository.StoredByItem | internal/db/hydrusdb/ptrsync.go:789-859 | what storing a batch does under each key: the last item for it, with the processed mark kept |
| Repository.InIdOrderLists | internal/db/hydrusdb/ptrsync.go:656-683 | the waiting ids are listed each once, the smallest first |
| Repository.ProcessableListed | internal/db/hydrusdb/ptrsync.go:3053-3094 | what is processable: stored, unprocessed and below every index that waits; and in which order: by index, definitions first, by hash id |
| Replay.ApplyRepresents | internal/db/hydrusdb/ptrsync.go:3400-3547 | applying an update to the id tables applies it to the replica they stand for |
| Replay.StageRepresents | internal/db/hydrusdb/ptrsync.go:3677-3744 | staging to the id tables stages to the replica |
| Replay.RepresentedReplicaIsUnique | internal/db/hydrusdb/ptrsync.go:3549-3589 | a store stands for one replica only, so representing loses nothing |
| Replay.RepresentsAfterInterning | internal/db/hydrusdb/tag_ids.go:79-123 | names interned by anyone else leave what is stored as it was |
| Replay.PairsRepresent | internal/db/hydrusdb/ptrsync.go:3549-3589 | rows resolve in the store exactly when they do in the replica, to the same pairs |
| HydrusBundle.Bundle.BeginSync | internal/db/hydrusdb/ptrsync.go:425-459 | takes the lease exactly when none is held, then syncing with the token and without error or retry time; attempts, slice and counters stay |
| HydrusBundle.Bundle.FinishSync | internal/db/hydrusdb/ptrsync.go:563-608 | ends a live lease in success or cancellation: at rest without error, the slice just past the largest registered index, and the mapping count taken on success only; void for any other token |
| HydrusBundle.Bundle.FinishFailure | internal/db/hydrusdb/ptrsync.go:970-1000 | ends a live lease at rest with the trimmed error text, or a fixed one when that is empty; slice and counters stay |
| HydrusBundle.Bundle.SetThrottled | internal/db/hydrusdb/ptrsync.go:936-966 | ends a live lease in a retry at the given time with at least one attempt; slice and counters stay |
| HydrusBundle.Bundle.RecoverFoundation | internal/db/hydrusdb/ptrsync.go:1548-1700 | with no lease held, a waiting retry and an idle state without error are left as they are; in every other case the service is idle without lease, error or retry, and slice, counters and mapping count stay |
| HydrusBundle.Bundle.PersistMetadata | internal/db/hydrusdb/ptrsync.go:463-540 | each listed update is registered under the index of its first row, unless it is added to the registered ones and is there already, and waits for a body; an answer that replaces forgets what it does not list; the counters are the table counts; or nothing changes |
| HydrusBundle.Bundle.Prune | internal/db/hydrusdb/ptrsync.go:2689-2741 | exactly the stored rows of kept updates remain |
| HydrusBundle.Bundle.ListPendingHashes | internal/db/hydrusdb/ptrsync.go:628-685 | the ids that wait for a body, each once and in increasing order, for a live lease only |
| HydrusBundle.Bundle.FinalizeDownloads | internal/db/hydrusdb/ptrsync.go:762-883 | the batch is stored whole or rolled back, the latter exactly when there is no lease or some mime is neither 28 nor 29: under each key the last item for it, with the processed mark kept; the items no longer wait, and the rest stays |
| HydrusBundle.Bundle.MinBlockedIndex | internal/db/hydrusdb/ptrsync.go:3053-3068 | an index is blocked exactly when it is not below the smallest index still waiting for a body |
| HydrusBundle.Bundle.ListProcessableUpdates | internal/db/hydrusdb/ptrsync.go:3045-3124 | exactly the stored, unprocessed bodies below every index that still waits for one, by index, definitions before mappings, and by hash id |
| HydrusBundle.Bundle.EnsureHashIds | internal/db/hydrusdb/ptrsync.go:3224-3280 | interns exactly the definitions' hashes, or reports a malformed one |
| HydrusBundle.Bundle.WriteTagDefinitions | internal/db/hydrusdb/ptrsync.go:3437-3463 | each defined id is mapped to the id a search finds for its clean tag, or for the placeholder when nothing is left of it; other ids keep theirs, and exactly those tags are interned |
| HydrusBundle.Bundle.ApplyContentOf | internal/db/hydrusdb/ptrsync.go:3400-3547 | the content of an update is written whole or not at all: definitions to the ids of their names, rows to the pairs they name; it fails exactly on its obstacle, which the error names |
| HydrusBundle.Bundle.ApplyProcessable | internal/db/hydrusdb/ptrsync.go:2200-2251 | one update in one transaction: its content, the mark of exactly its body and the counters, or no change and the reason: the run is over, a malformed hash, or the first id of the update that is not defined |
| HydrusBundle.Bundle.StagePending | internal/db/hydrusdb/ptrsync.go:143-214 | the pairs of a clean form of a given tag and a given hash, and no other, are staged: pending unless current, neither deleted nor petitioned; the result is the growth of pending; or nothing changes, and why |
| HydrusBundle.Bundle.CommitSuccess | internal/db/hydrusdb/ptrsync.go:353-391 | every pending pair becomes current and nothing else, every other pair stays, and the result is their number |
| SyncManager.Manager.RunStartedSync | internal/ptrsync/manager.go:700-1063 | one run, whatever others write between its transactions, is a run of the transition system that gives up its lease; on a well-defined log it completes exactly when the remote answers and every missing body can be loaded or fetched; it then has drained both backlogs, applied the log, written each missing body once, counted the mappings and moved the slice past the registered updates; otherwise it ends as a failure of the metadata request or of a missing body's fetch says, or with a recorded error |
| SyncManager.Manager.DownloadUpdates | internal/ptrsync/manager.go:921-1043 | the batches the loop adds to those written hold each listed update at most once, and exactly once when no round fails, in 25 to 27 updates and a smaller last batch; exactly their updates leave the waiting list; a failed fetch flushes what there is and stops, a body that cannot be loaded stops at once |
| SyncManager.Manager.DownloadSome | internal/ptrsync/manager.go:926-1030 | one round of three with the flush that may follow keeps the accounting of written, batched and listed updates |
| SyncManager.Manager.FetchRound | internal/ptrsync/manager.go:926-1003 | a round looks bodies up in the database, on disk and at the remote, moves its updates from the list to the batch and loses none unless a fetch fails; nothing happens when a body cannot be loaded |
| SyncManager.Manager.FlushBatch | internal/ptrsync/manager.go:838-919 | a flush writes exactly the batch, takes its updates off the waiting list, applies what became processable until no stored body is ready, and goes on with the rest |
| SyncManager.Manager.ApplyDownloaded | internal/ptrsync/manager.go:1065-1105 | applies the whole list in order, so that no stored body is ready any more; on a well-defined log it never fails |
| SyncManager.Manager.EndEarly | internal/ptrsync/manager.go:1107-1157 | a busy answer defers the run, with one more attempt counted, until ten are used up; a cancellation idles it and moves the slice past the registered updates; any other failure is recorded; the mapping count stays |
| SyncManager.Manager.FinishRun | internal/ptrsync/manager.go:1040-1063 | the final pass leaves nothing missing or unprocessed |
| SyncManager.Manager.BeginSync | internal/ptrsync/manager.go:632-698 | a run starts exactly when no lease is held and no retry waits for its time |
| SyncManager.Manager.PersistMetadata | internal/ptrsync/manager.go:804-822 | persisting the answer brings the known log up to the answer's horizon |
| SyncManager.FetchUpdatesInParallel | internal/ptrsync/manager.go:1297-1346 | whatever the order of answers and the requests cancelled, what arrives was asked for at most once and could be fetched; all of it arrives exactly when no fetch fails, and the error is that of a fetch that failed |
| SyncManager.DownloadRound | internal/ptrsync/manager.go:926-1003 | bodies found locally and fetched ones together are what was asked for, unless a body cannot be loaded or a fetch fails |
| SyncManager.Manager.OthersWrite | internal/db/hydrusdb/tx.go:48-102 | between any two transactions of a run others may stage, commit and intern and the server may publish, any number of times: the lease, the update tables and the workers stay as they are |
| SyncManager.Manager.WriteBatch | internal/db/hydrusdb/ptrsync.go:762-883 | the finalize transaction writes exactly the batch |
| MappingTables.RunKeepsConsistent | internal/db/hydrusdb/ptrsync.go:3468-3805 | any interleaving of remote add, remote delete, stage, commit and local add keeps the tables consistent and forgets no pair |
| MappingTables.PendingAndDeletedMayOverlap | internal/db/hydrusdb/ptrsync.go:3513-3544 | a pair staged and then remotely deleted is both pending and deleted |
| MappingTables.StaysApartIff | internal/db/hydrusdb/ptrsync.go:3468-3805 | disjoint pending and deleted tables stay disjoint under an operation exactly when it is no remote update that deletes a pair left pending |
| MappingTables.StaysApartThroughoutIff | internal/db/hydrusdb/ptrsync.go:3468-3805 | they are disjoint throughout a run exactly when every remote update meets that condition where it arrives |
| MappingTables.RemoteUpdateTwice | internal/db/hydrusdb/ptrsync.go:3468-3547 | applying the same update twice is applying it once |
| MappingTables.RowOrderIrrelevant | internal/db/hydrusdb/ptrsync.go:3474-3544 | neither the order of rows nor repeated rows matter |
| MappingTables.CommitMovesPending | internal/db/hydrusdb/ptrsync.go:3746-3805 | a commit moves exactly the pending pairs, and current grows by their number |
| MappingTables.UploadedPairsSettle | internal/ptrsync/manager.go:424-464 | in every interleaving each uploaded pair is current or deleted right after the commit |
| MappingTables.NothingUnsentIff | internal/ptrsync/manager.go:424-464 | nothing is committed unsent exactly when all that is pending at the commit was listed, and that is when every pair left staged by the operations in between was listed |
| MappingTables.ListedStagesSendAll | internal/ptrsync/manager.go:424-464 | staging only listed or already current pairs in between is enough for that |
| MappingTables.PendingOrigin | internal/db/hydrusdb/ptrsync.go:3677-3805 | a pair is pending after a run exactly when it was pending and never cleared, or was staged and not cleared since |
| MappingTables.CommitMovesUploadedIff | internal/ptrsync/manager.go:424-464 | exactly the uploaded pairs are moved exactly when nothing unsent is left staged and every uploaded pair was kept or staged again |
| MappingTables.StagedDuringUploadIsCommittedUnsent | internal/ptrsync/manager.go:441-458 | a pair staged during an upload is committed without having been sent |
| MappingTables.NormalizeRow | internal/db/hydrusdb/ptrsync.go:3549-3589 | a row is resolved to local ids, or its first unknown id is reported, the tag before the hashes and those in order |
| MappingTables.ServiceTables.ApplyMappings | internal/db/hydrusdb/ptrsync.go:3468-3547 | a pair some row of the deletes resolves to is deleted, and neither current nor petitioned; a pair only rows of the adds resolve to is current, and neither deleted nor pending; any other pair keeps its place in all four tables; it succeeds exactly when every row resolves, and otherwise reports the first id that is not defined |
| MappingTables.ServiceTables.StageTag | internal/db/hydrusdb/ptrsync.go:3691-3741 | each pair of the tag and a hash is pending unless current, and neither deleted nor petitioned; other pairs stay; and the number of rows inserted |
| MappingTables.ServiceTables.CommitPending | internal/db/hydrusdb/ptrsync.go:3746-3805 | each pending pair is current and nothing else, other pairs stay, and the count is both the pending size and the growth of current |
| MappingTables.ServiceTables.SetCurrent | internal/db/hydrusdb/clientapi_mutations.go:491-507 | a local add makes the pair current and nothing else; other pairs stay |
| Tags.SplitUndoesCombine | internal/core/tags/tags.go:46-66 | splitting a combined tag gives back every colon-free namespace with its subtag |
| Tags.CleanIsNormal | internal/core/tags/tags.go:16-66 | a clean tag is in normal form and is put together again by its own parts |
| Tags.NormalIsClean | internal/core/tags/tags.go:16-33 | conversely a tag in normal form within the limit is already clean |
| Tags.CleanIdempotentIff | internal/core/tags/tags.go:16-33 | cleaning twice is cleaning once exactly when the clean tag fits 1024 runes |
| Tags.CleanOverflow | internal/core/tags/tags.go:16-33 | which inputs exceed the limit, by one colon |
| Tags.CleanIsNotIdempotent | internal/core/tags/tags.go:16-33 | a colon and 1023 letters clean to 1025 runes, which clean to something else, under every case table |
| Tags.StripIsNeat | internal/core/tags/tags.go:69-80 | stripped text has no control characters and only single plain spaces between words |
| Tags.FieldsLength | internal/core/tags/tags.go:69-80 | joining words never lengthens text, and keeps its length exactly when it was dense |
| TagCleaning.StripIsOnePass | internal/core/tags/tags.go:69-80 | dropping, splitting, joining and trimming is one pass that keeps every other character and puts one space where some stood between two kept ones |
| TagCleaning.CleanByParts | internal/core/tags/tags.go:16-66 | a clean tag is made of the lowered first 1024 runes: without a colon their stripped text, with a lone leading colon a colon before that, and otherwise the two parts around the first colon, each stripped on its own and joined by a colon unless the first is empty and the second has none; stripping the whole first changes neither part |
| TagCleaning.NotEmptyIff | internal/core/tags/tags.go:46-54 | nothing is left of a tag exactly when it is empty or its only colon is at its end |
| TagCleaning.TrimCutsSpaces | internal/db/hydrusdb/ptrsync.go:970-1000 | trimming cuts off exactly the spaces at both ends |
| Tags.DefinitionTagNameIsNormal | internal/db/hydrusdb/ptrsync.go:3437-3450 | every repository tag is stored under a non-empty name in normal form |
| Tags.DefinitionTagNameIsStored | internal/db/hydrusdb/ptrsync.go:3439-3449 | the name is the clean tag, or the placeholder exactly when nothing is left of it |
| Interning.InterningIsABijection | internal/db/hydrusdb/tag_ids.go:79-123 | after any calls two tags share an id exactly when they clean to the same tag, and the id leads back to it alone |
| Interning.EnsureAllFinds | internal/db/hydrusdb/browse.go:458-516 | read-only search finds a clean tag exactly when it was interned, and ids are never reassigned |
| Interning.FindIsInjective | internal/db/hydrusdb/tag_ids.go:227-262 | two tags with one id are one tag |
| Interning.IdHasOneName | internal/db/hydrusdb/metadata_tags.go:1380-1411 | looking an id up gives the tag that was interned under it and no other |
| Interning.EnsureCleanFrame | internal/db/hydrusdb/tag_ids.go:161-262 | interning a tag leaves every other search as it was |
| Interning.EnsureCleanTagIds | internal/db/hydrusdb/tag_ids.go:161-262 | over the three tables together, interning adds one tag, keeps every id and gives none twice |
| Interning.CleanIsInterned | internal/db/hydrusdb/tag_ids.go:161-262 | interning gives a tag its three rows and adds no other but that of the empty namespace, which gets the id 1 unless it has an id or 1 is taken |
| Interning.MasterTags.EnsureTagID | internal/db/hydrusdb/tag_ids.go:79-123 | the id found or given, that of the row of the tag's namespace and subtag, with no other row added; and no change when nothing is left of the tag |
| Wire.DecodeUndoesEncode | internal/ptrsync/wire.go:1014-1029 | decoding undoes the dictionary encoder at every depth |
| Wire.RoundTrip | internal/ptrsync/wire.go:503-535 | with distinct keys the decoded value has exactly the encoded entries, at every depth |
| Wire.SelectiveAgreesWithFull | internal/ptrsync/wire.go:774-840 | where full decoding succeeds with distinct keys, each wanted field decoder is called once, exactly for the keys present, with the entry that decodes to the full decoder's value |
| Wire.SelectAgrees | internal/ptrsync/wire.go:804-840 | with repeated keys the last call for a key is the one that agrees |
| Wire.RefusalEndsThePass | internal/ptrsync/wire.go:826-840 | a field decoder that fails is the last one called, and up to it nothing differs |
| Wire.DecodeHydrusSerialisable | internal/ptrsync/wire.go:469-501 | the decoder ends on every JSON tree with the tree's value or its first error |
| Wire.DecodeHydrusDictionary | internal/ptrsync/wire.go:503-535 | the pair loop yields the last value of each key or the first error |
| Wire.DecodeHydrusList | internal/ptrsync/wire.go:537-554 | the item loop yields all values or the first error |
| Wire.DecodeHydrusMetaTuple | internal/ptrsync/wire.go:556-587 | JSON, bytes or a nested serialisable, by the meta type |
| Wire.DecodeHydrusMetadata | internal/ptrsync/wire.go:589-659 | the row loop yields all update rows, or the first error |
| Wire.RowsDecodeOneByOne | internal/ptrsync/wire.go:605-653 | the rows decode exactly when each does, to one update each in order; otherwise the error is that of the first row that fails |
| Wire.RowDecodesIff | internal/ptrsync/wire.go:606-652 | a row decodes exactly when it has an index, a list of hexadecimal hashes and two times, and the update has just those |
| Wire.HashesDecodeOneByOne | internal/ptrsync/wire.go:621-634 | the hashes of a row decode exactly when each is hexadecimal text, one by one in order |
| Wire.DecodeHydrusTagFilter | internal/ptrsync/wire.go:661-688 | the rule loop yields the rules by tag slice, or the first error |
| Wire.LastRuleCounts | internal/ptrsync/wire.go:667-685 | a tag slice has a value exactly when it has a rule, and it is that of its last rule |
| Wire.DecodeHydrusDictionarySelective | internal/ptrsync/wire.go:804-840 | the calls made, in order, and the error the pass stopped at |
| Wire.PtrSerialisableDictionary | internal/ptrsync/wire.go:1014-1021 | one pair an entry, in order |
| WireMeaning.MeansIff | internal/ptrsync/wire.go:469-688 | on every JSON tree and for every value, the decoder yields the value exactly when the tree means it: kind first, content last, dictionary keys with the value of their last pair, lists and rows in order, filters with their last rules |
| WireMeaning.MetaMeansIff | internal/ptrsync/wire.go:556-587 | the same for meta tuples: JSON as it is, bytes in hexadecimal, or a serialisable |
| WireMeaning.FieldsMeanIff | internal/ptrsync/wire.go:503-535 | the same for the pairs of a dictionary, at every depth |
| WireMeaning.RowMeansIff | internal/ptrsync/wire.go:606-652 | a metadata row decodes to an update exactly when it holds its index, the digits of its hashes in order, and its two times |
| WireMeaning.FilterMeansIff | internal/ptrsync/wire.go:661-688 | a tag filter has exactly the slices of its rules, each with the number of its last rule |
| WireMeaning.ItemsDecodeOneByOne | internal/ptrsync/wire.go:543-553 | the items of a list decode to one value each, in order; otherwise the error is that of the first item that fails |
| WireMeaning.HexDecodesIff | internal/ptrsync/wire.go:571-581 | text decodes to bytes exactly when it has, for each byte, the digit of its high and then of its low half, of either case |
| WireMeaning.HexUndoesWriting | internal/ptrsync/wire.go:621-634 | decoding undoes hexadecimal writing, in upper and in lower case |
| WireMeaning.WrittenRowDecodes | internal/ptrsync/wire.go:606-652 | a row whose hash texts are the hexadecimal of some hashes decodes to an update with those hashes |
| WireMeaning.WrittenBytesDecode | internal/ptrsync/wire.go:570-581 | a byte string in hexadecimal, as a meta tuple, decodes to the bytes |
| Upload.ListPendingMappingsForCommit | internal/db/hydrusdb/ptrsync.go:218-312 | one non-empty group a tag, together listing every pending pair with a hash text once, by tag id and then by hash id; a tag without text is an error |
| Upload.CollectByTag | internal/db/hydrusdb/ptrsync.go:265-286 | the row loop collects the hashes of each tag without losing or repeating a row |
| Upload.UploadIsExact | internal/db/hydrusdb/ptrsync.go:255-311 | the groups list exactly the pending mappings by name, each once |
| Upload.UploadAlwaysEncodes | internal/ptrsync/wire.go:934-984 | in every reachable state the groups of the pending table encode, unchanged, and list exactly what is pending |
| Upload.EncodeClientToServerUpdateBody | internal/ptrsync/wire.go:934-984 | a body results exactly when there is a group and each has a tag and valid hashes; it is the dictionary with one client-to-server update that pends, group by group, the trimmed tag and the trimmed, lowered hashes, with an empty reason |
| Upload.BodyDeterminesGroups | internal/ptrsync/wire.go:963-984 | the groups can be read back from the body |
| Upload.BodyIsPendRequest | internal/ptrsync/wire.go:963-984 | the body field by field: kinds 21, 40 and 23, action 2, content type 0 |
| Upload.UploadedInOrder | internal/db/hydrusdb/ptrsync.go:255-286 | the pairs uploaded are those of the pending rows with a hash text, each once, by tag id and then by hash id |
| Upload.ValidHashIsHex | internal/db/hydrusdb/ptrsync.go:3224-3280 | hash text is well formed exactly when it writes at least one byte in lower-case hexadecimal |
| Upload.CleanGroupsEncode | internal/ptrsync/wire.go:940-961 | groups of clean tags and valid hashes are encoded as they are |
| Upload.CommitPending | internal/ptrsync/manager.go:424-464 | what is sent is the request that pends the groups listing the pending pairs by name; the call succeeds exactly when every row has its tag and there is nothing to send or all of it can be encoded and is accepted; then the pending pairs are committed and the result is their number and the growth of current, and otherwise nothing changes |
| Upload.UploadGoesThrough | internal/db/hydrusdb/ptrsync.go:255-311 | in every reachable state nothing but the remote can refuse the upload, and the pairs sent are exactly the pending mappings |
| TagLookup.GroupHashIdsByTagCachedFileServiceId | internal/db/hydrusdb/metadata_tags.go:422-519 | the greedy pass puts each requested file in exactly one group: that of the service which, of those with caches that hold it, holds the most requested files or, among equals, has the smallest id; or the fallback when there is none |
| TagLookup.GroupIsFirstHolder | internal/db/hydrusdb/metadata_tags.go:453-494 | a file goes to the first service in order of size and id that holds it |
| TagLookup.GroupByMemberships | internal/db/hydrusdb/metadata_tags.go:422-519 | which group a file is in, from the memberships and the counts of requested files alone |
| TagLookup.GroupDependsOnCohort | internal/db/hydrusdb/metadata_tags.go:428-431 | through which service a file is looked up depends on what else is asked for |
| TagLookup.CohortIndependentIff | internal/db/hydrusdb/metadata_tags.go:422-494 | a file is looked up through the same service in every cohort exactly when its cached holder with the smallest id holds every file that another of its cached holders holds |
| TagLookup.CollectHolders | internal/db/hydrusdb/metadata_tags.go:432-445 | which services hold which requested files |
| TagReads.LookupFileTags | internal/db/hydrusdb/metadata_tags.go:113-364 | cohort independence: with caches that agree, whatever else was asked, whichever caches exist and in any order of completion, a tag is stored for a file exactly when its row is in the mapping table of that status, and shown as current or pending exactly when some such row's tag has it as its ideal or as an ancestor of that ideal |
| TagReads.CachedAnswerIsUncached | internal/db/hydrusdb/metadata_tags.go:1110-1354 | for a file a service holds, its caches and the tables give the same storage and display tags |
| TagReads.AnswerByRows | internal/db/hydrusdb/metadata_tags.go:1110-1354 | the answer tag by tag, in terms of mapping rows, sibling rows and ancestors |
| TagReads.ReadByRows | internal/db/hydrusdb/metadata_tags.go:1110-1354 | what a lookup through one file service finds, in terms of the rows of its caches and of the tables |
| TagReads.LookupStorage | internal/db/hydrusdb/metadata_tags.go:1110-1168 | per file and status exactly the rows of the cache that may be used and exists, and otherwise of the table |
| TagReads.LookupDisplayImplications | internal/db/hydrusdb/metadata_tags.go:1170-1255 | exactly each tag's ideal, by its sibling row or itself, and that ideal's ancestors |
| TagReads.LookupDisplay | internal/db/hydrusdb/metadata_tags.go:1300-1354 | per file exactly the rows of the display cache that may be used and exists, and otherwise the ideals of the stored tags and their ancestors; deleted and petitioned tags as stored |
| TagReads.AddDisplayImplications | internal/db/hydrusdb/metadata_tags.go:1257-1298 | each file gets what its own stored tags imply |
| TagReads.CollectTagIdsFromTable | internal/db/hydrusdb/metadata_tags.go:1070-1108 | exactly the requested files' rows are added |
| TagReads.RunJob | internal/db/hydrusdb/metadata_tags.go:190-245 | one worker's result is the uncached answer for its group |
| TagCaches.AddKeepsAgreement | internal/db/hydrusdb/clientapi_mutations.go:509-563 | adding pairs keeps the current, pending and display-current caches of every service in agreement |
| TagCaches.DeletedCacheAgreesIff | internal/db/hydrusdb/clientapi_mutations.go:509-563 | the deleted cache stays right exactly when no added pair of a held file had been deleted |
| TagCaches.DisplayPendingAgreesIff | internal/db/hydrusdb/clientapi_mutations.go:546-560 | the display-pending cache stays right exactly when no tag that stays pending on the file shares an implication |
| TagCaches.AllAgreeIff | internal/db/hydrusdb/clientapi_mutations.go:509-563 | adding pairs keeps all caches right, as the read path needs them, exactly when both conditions hold |
| TagCaches.UnwrittenCachesAgreeIff | internal/db/hydrusdb/ptrsync.go:3468-3805 | a remote update, a staging or a commit, which write no cache, leaves the caches right exactly when it changes no stored pair and no displayed tag of a file a cached service holds |
| TagCaches.UnwrittenCacheGoesStale | internal/db/hydrusdb/ptrsync.go:3468-3547 | a remote update that adds a pair of a file a cached service holds leaves its row out of the current cache |
| TagCaches.DeletedCacheGoesStale | internal/db/hydrusdb/clientapi_mutations.go:509-563 | a deleted pair that is added again leaves its row in the deleted cache |
| TagCaches.DisplayPendingGoesStale | internal/db/hydrusdb/clientapi_mutations.go:546-560 | adding one of two pending siblings takes their ideal out of the display-pending cache |
| TagCaches.AddedTwice | internal/db/hydrusdb/clientapi_mutations.go:114-134 | adding pairs in two goes is adding them in one |
| TagCaches.AddedByRows | internal/db/hydrusdb/clientapi_mutations.go:509-563 | what adding pairs writes, row by row, in terms of memberships, sibling rows and ancestors |
| TagCaches.TagServiceStore.AddTags | internal/db/hydrusdb/clientapi_mutations.go:56-138 | every pair of a tag and a file is current and under no other status; in every cached service that holds the file the current cache gains the pair and the pending cache loses it, and the display caches gain and lose, on that file, the tag's ideal with its ancestors; all other rows stay |
| TagCaches.TagServiceStore.AddPair | internal/db/hydrusdb/clientapi_mutations.go:120-131 | one pair reaches the tables and the caches of exactly the cached services holding the file |
| ReadPool.ConnectionsAreConserved | internal/db/hydrusdb/bundle.go:267-307 | free and held connections always add up to the pool size |
| ReadPool.StuckIff | internal/db/hydrusdb/bundle.go:288-299 | exactly when the pool is stuck |
| ReadPool.NotStuckBelowPoolSize | internal/db/hydrusdb/metadata.go:25-29 | with fewer outer holders than connections no reachable state is stuck |
| ReadPool.StuckPoolIsAllOuter | internal/db/hydrusdb/metadata_tags.go:190-206 | a stuck pool has given every connection to a metadata request |
| ReadPool.StuckIsReachable | internal/db/hydrusdb/metadata_tags.go:190-206 | the bound is tight: as many outer holders as connections can all be left waiting |
| ReadPool.ActionsUseUp | internal/db/hydrusdb/metadata_tags.go:190-299 | every action that changes the pool brings the requests nearer their end |
| ReadPool.AllRequestsFinish | internal/db/hydrusdb/metadata.go:25-29 | with fewer metadata requests than connections and no new requests the pool is never stuck, stops after boundedly many actions however they are ordered, and then every request is finished |
| ReadPool.ConnPool.AcquireReadConn | internal/db/hydrusdb/bundle.go:288-299 | a connection is given to one holder at a time |
| ReadPool.ConnPool.ReleaseReadConn | internal/db/hydrusdb/bundle.go:301-307 | giving one back always finds room |
| FileLife.TrashedStaysOut | internal/db/hydrusdb/trash.go:29-100 | over any run a trashed file never re-enters a local, storage, combined-local or combined-file table |
| FileLife.TrashedImportIsRefused | internal/db/hydrusdb/import.go:1273-1297 | a trashed file cannot be imported into a local domain again |
| FileLife.ReimportChangesNothing | internal/db/hydrusdb/import.go:84-212 | importing the same prepared file again, with only other files touched in between, returns the same id as already imported and changes no table |
| FileLife.SettledImport | internal/db/hydrusdb/import.go:104-150 | importing a file that has all it asks for changes nothing |
| FileLife.ExecInv | internal/db/hydrusdb/import.go:84-212 | over any run tables only have rows of imported files, trashed files are out, and a file has one pixel hash at most |
| FileLife.PlanServicesDiffer | internal/db/hydrusdb/import.go:514-631 | a plan writes each service once and never the trash |
| FileLife.TrashRows | internal/db/hydrusdb/trash.go:29-232 | trashing moves the file's rows of the removable kinds to the trash and affects no other file |
| FileLife.FirstImport | internal/db/hydrusdb/import.go:146-205 | a first import writes the rows of a new id and no others |
| FileLife.RepeatedImport | internal/db/hydrusdb/import.go:104-145 | a repeated import leaves membership, info and times as they were |
| FileRows.PlanIff | internal/db/hydrusdb/import.go:514-631 | which plan an import has: an update domain alone and without the inbox; a local domain with the only storage and the combined services that exist, only the local one of them with the time; and none otherwise |
| FileRows.FoundByKind | internal/db/hydrusdb/import.go:514-631 | a service is found by its kind exactly when it is the only one |
| FileRows.ImportByRows | internal/db/hydrusdb/import.go:84-212 | an import is refused exactly when nothing is planned, a stored row of a known file differs, or a row of a new file is taken; otherwise exactly the rows of the file are written, table by table |
| FileRows.TrashByRows | internal/db/hydrusdb/trash.go:29-232 | trashing is refused exactly when there is no such file, or it is not in the trash and the trash is missing or ambiguous, a combined service is ambiguous or there is nothing to remove; otherwise which current and deleted rows there are then, with which times |
| FileTables.FileStore.RecordPreparedLocalImport | internal/db/hydrusdb/import.go:84-212 | an import is refused, without a change, exactly when nothing is planned, a stored row of a known file differs, or a row of a new file is taken; a known file only gains its pixel hash, transparency and urls; a new one gets its id and its rows in every table |
| FileTables.FileStore.MoveToTrash | internal/db/hydrusdb/trash.go:29-100 | the file leaves its local, storage and combined tables and enters the trash now; the combined local service notes the deletion and the original import time, in the order of preference, and the combined file service the deletion; a known import time is kept; no other row changes; a file already there stays as it is, and a refusal, exactly when stated, changes nothing |
| FileTables.FileStore.MatchesPlan | internal/db/hydrusdb/import.go:1051-1119 | false exactly when some stored row contradicts the prepared import: its info, times, memberships, pixel hash or transparency |

## Left out

- SQLite, SQL text, schema creation and migrations: tables are sets and maps with their primary and unique keys, and each transaction body is one atomic step.
- zlib, JSON text and SHA-256: the wire model starts at JSON trees; file hashes are text.
- JSON numbers outside 64 bits or written with a fraction or exponent that is integral: a number of the model is an integer or not integral.
- The decoders of the two update bodies (internal/ptrsync/wire.go:198-421): an update file's decoded content is part of the log, and a body that does not decode is not modelled.
- Byte counts, download speed and the remote state row: they influence no decision that is modelled.
- Validation of batch items the manager never builds (blank hash, empty body, size or hash mismatch): only the unsupported mime is modelled.
- Petition reasons, and the fact that a stored tag of an earlier schema may lack its parts.
- The manager's `activeRun` field, timers and wake-ups: how often runs are started is left open, which covers every schedule.
- SyncManager.Manager.RunStartedSync: the others that write between its transactions stage, commit, intern and publish; workers with other tokens are left to the transition system, where they change no table (SyncLease.Fenced), and so are start-up recovery and crashes.
- Interleaving inside one transaction: the write gate and BEGIN IMMEDIATE make each transaction atomic, and that is taken as given.
- The values of new ids: which id a new name gets, and in which order new names are met, is left open.
- Upload.UploadAlwaysEncodes: takes as given that the hash column holds whole bytes, so that every hash has valid hexadecimal text.
- The payload maps of the tag read path (display names, legacy keys, sorting) and the combined tag service, which merges the per-service sets.
- TagReads.LookupFileTags: takes as given that the fallback service is not itself a cached one and that every cache agrees with the tables.
- ReadPool.NotStuckBelowPoolSize: a request whose context is cancelled is not modelled; cancellation only frees connections.
- Normalization of prepared imports (hash length, negative sizes, URL syntax): a prepared import is already normalized.
- Undeleting, deleting for good and copying files between local domains: the modelled operations are import and trash.
- HTTP, TLS, access control, configuration, the API handlers, the desktop program, thumbnails, ratings, notes, sessions and paging.
