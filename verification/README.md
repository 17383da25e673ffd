# Corvos: a verified model of its synchronisation and accounting logic

Corvos keeps notes of an Obsidian vault in step with a server. This project models that protocol and five smaller
algorithms of the same repository, and proves what each of them promises:

| area | modules |
|---|---|
| the upload queue and its drain loop | `QueueItems`, `Draining`, `PersistentQueues` |
| one batch: renames, deletes, upserts | `Batches` |
| the whole protocol as a step system: vault events, debounce, requests with partial effects, verdicts, reconcile, restart | `SyncStates`, `SyncSafety`, `SyncRequests`, `SyncUpserts`, `SyncTheorem` |
| when nothing is lost track of, exactly when something is, and what then goes wrong | `SyncClean`, `SyncTorn`, `SyncLost`, `SyncCrash`, `SyncDivergence` |
| whole rounds of the drain loop; liveness: rounds that succeed empty the queue | `SyncRuns`, `SyncLiveness` |
| what the phase order and the reconcile pass achieve | `Reordering`, `SyncTails`, `ReorderingExactly`, `Reconciling` |
| the engine object with its debouncers, tombstones and reconcile timer | `SyncEngines` |
| the server's note rows, as outcomes of the step system | `NoteStore` |
| the glob compiler, exclude lists, folder filters | `Regexes`, `Excludes`, `Splitting`, `GlobMeaning`, `GlobDocumented`, `ExcludeLists` |
| the incremental event-stream reader (WHATWG HTML Standard, section 9.2.6) | `Splitting`, `SseReader` |
| the two authentication rate limiters | `RateLimits` |
| the exact McNemar test | `McNemar` |
| the replicated publication: printing, checking, repairing (PostgreSQL manual, section 4.1.1) | `Publication`, `PublicationRepair`, `PublicationConnection` |

`Common` holds a few shared values. `dafny verify dfyconfig.toml` checks everything.
Every induction is written out: lemmas for which Dafny would add an induction hypothesis of its own carry
`{:induction false}`.

## How the protocol is stated

A state holds the vault, the server's live notes, the paths with a debounced edit, the queue, the queue on disk, and the
batch in flight with how far it has got. A step is a vault event, a firing debounce, a batch being taken, the reply to one
of its three requests together with what the server did, the reading of one file, a reconcile against any manifest
whatever, or a restart. Requests may succeed, report single items as failed, or raise any error after any partial effect,
so the theorems cover every outcome instead of the good ones only.

The code does lose track of a path on certain branches. The state therefore carries a history variable, `stale`, that no
step reads and that grows only there: a vault change the plugin does not see (made behind its back, or a rename to an
untracked name), an operation dropped or out of attempts, an operation the server acknowledged without carrying it out, an
operation put back while a later one on the same path is acknowledged in the same batch, and a restart that loses a
debounced edit or a batch already missing from the disk. Such a failure counts only for a path that nothing queued later
decides, and a path leaves the list as soon as a handler or a reconcile enqueues for it again.

`SyncTheorem.SyncIsSafe` says that every path that is neither pending nor stale agrees on both sides, in every state of
every run. `SyncLiveness.ReachesQuiet` says that every run can be continued, by requests that succeed and without
further edits, until nothing is pending. `SyncClean.CleanRunStaysInSync` says that nothing becomes stale while requests
succeed as a whole or stop the drain; `SyncTorn`, `SyncLost` and `SyncCrash` say exactly when a request, a refusal, the end
of an item's attempts, an enqueue or a restart makes a path unsettled; `SyncDivergence` has, for each of the failures
above, a run after which the two sides differ with nothing pending, one for each of the three requests where a batch is
torn; `Reconciling.ReconcileReachesSync` says exactly what a reconcile puts right.

`Reordering.DrainPhased` is the effect of draining a queue without errors, as a function of the server and the vault.
`SyncLiveness.RoundsEmptyQueue` ties it to the step system: successful rounds end in exactly that server.

## Where the code and its documentation disagree

The model follows the code. Each of these is a lemma.

- A rename onto a path that has a row, even a soft-deleted one, is skipped and answered as a success, so the old path stays live (`NoteStore.RenameLeavesOldPathIff`, as a run `SyncDivergence.CollidingMoveDiverges`).
- A note that was deleted and restored with its old text stays deleted although the upsert is answered as a success (`NoteStore.RestoredNoteStaysDeleted`, as a run `SyncDivergence.RestoredFileDiverges`).
- A second reconcile enqueues a file again, every time, when the file was touched without a change of content: the server keeps the old mtime (`Reconciling.SecondReconcileIsIdleIff`).
- An enqueue while a batch is in flight persists the queue without the batch, so a restart then loses it, against the comment that a crash mid-flight loses nothing (`SyncCrash.RestartKeepsBatchIff`).
- A delete reported as failed while the upsert of the same, re-created note succeeds is put back and then removes the live note (`SyncDivergence.TornNoteDiverges`, exactly when: `SyncTorn.SyncReplyTearsIff`).
- A rename reported as failed while the delete, or the next rename, of its new path is acknowledged in the same batch is put back and then brings the note back under that path (`SyncDivergence.TornDeleteDiverges`, `SyncDivergence.TornRenameDiverges`, exactly when: `SyncTorn.DeleteReplySettlesIff`, `SyncTorn.RenameReplySettlesIff`).
- Renaming a synced file to a name that is not tracked leaves it on the server (`SyncDivergence.MoveSettlesOldPathIff`).
- A slash right after `**` is swallowed, so `**/x` also covers `yx` (`GlobDocumented.CompiledAsDocumentedIff`).
- A `?` in an exclude pattern is not escaped and acts as a regular-expression quantifier, and the emitted dot does not cross a line terminator (`GlobMeaning.CompilerIsRightIff`, `GlobMeaning.PathIsDecidedRightlyIff`).
- The phase order, renames before deletes before upserts, does change what a queue means for a note with a debounced edit whose upsert was put back in front of its delete (`ReorderingExactly.DebouncedPathIsOvertaken`, exactly when: `ReorderingExactly.ReorderingAgreesIff`).
- A file that vanished is acknowledged when it is read and, if another note of the batch is sent and answered, once more with the answer, so the number of synced files counts it twice; a file that cannot be read is put back twice when the request then fails (`Batches.UpsertCounts`, `Batches.RetriedTwice`).
- Two rename operations share a key as soon as a path contains `=>` (`QueueItems.KeyIsUniqueIff`).
- The Redis counter's expiry is renewed by every request, not set once for a new key, so a client that keeps asking is never let in again (`RateLimits.SteadyClientIsLockedOut`).
- `ensure_publication` is silent on its second call only if every canonical table is ready; otherwise every start repeats the same statement (`PublicationConnection.SecondEnsureSendsNothingIff`).

## Model

| member | source | states |
|---|---|---|
| SyncTheorem.SyncIsSafe | obsidian/src/sync-engine.ts:160-237 | safety over whole runs: in every reachable state a path that no debounced, queued or owed operation touches, and that is not stale, holds on the server exactly what it holds in the tracked vault |
| SyncTheorem.QuietMeansEqual | obsidian/src/sync-engine.ts:29-32 | with nothing pending and nothing stale the server is the tracked, non-excluded vault, path by path |
| SyncTheorem.NextKeepsInv | obsidian/src/sync-engine.ts:160-400 | the inductive invariant is kept by every step, for every reply and every partial effect |
| SyncSafety.VaultEventKeepsSettled | obsidian/src/sync-engine.ts:160-237 | every vault event keeps every path settled that it does not make stale, whatever operations stand ahead of the queue and whatever copy the server has by then |
| SyncSafety.RenewedSettles | obsidian/src/sync-engine.ts:160-237 | a path for which a handler enqueues is settled whatever went wrong before, so it is taken off the stale list |
| SyncRequests.RenamesFirst | obsidian/src/sync-engine.ts:300-324 | running the renames of a batch before the rest keeps a settled path settled |
| SyncRequests.DeletesFirst | obsidian/src/sync-engine.ts:326-347 | so does running the deletes before the upserts |
| SyncRequests.RenameReplyKeepsInv | obsidian/src/sync-engine.ts:301-324 | any answer to the rename request, with any effect, keeps the invariant |
| SyncRequests.DeleteReplyKeepsInv | obsidian/src/sync-engine.ts:326-347 | any answer to the delete request, with any effect, keeps the invariant |
| SyncRequests.FinishKeepsInv | obsidian/src/queue.ts:168-191 | putting a batch's failed items back at the head keeps the invariant if they settle what is not lost |
| SyncUpserts.ReadNextKeepsInv | obsidian/src/sync-engine.ts:349-367 | reading one file for the request, at whatever moment between edits, keeps the invariant |
| SyncUpserts.SyncReplyKeepsInv | obsidian/src/sync-engine.ts:369-399 | any answer to the note request, with any effect, keeps the invariant although the files may have changed since they were read |
| SyncTheorem.DiffKeepsInv | obsidian/src/sync-engine.ts:473-512 | enqueuing upserts of wanted and deletes of unwanted paths keeps the invariant while anything else is pending, and takes those paths off the stale list |
| SyncTheorem.ReconcileKeepsInv | obsidian/src/sync-engine.ts:473-512 | reconciling against any manifest, however stale, does only that |
| SyncTheorem.RestartKeepsInv | obsidian/src/queue.ts:206-214 | a restart from the queue on disk keeps the invariant; a batch still on disk is simply run again |
| SyncClean.CleanStepAddsNothing | obsidian/src/sync-engine.ts:301-397 | a step whose request succeeds as a whole or stops the drain, with attempts left, makes nothing stale |
| SyncClean.CleanRunStaysInSync | obsidian/src/sync-engine.ts:160-397 | a run of such steps that starts in sync has an empty stale list throughout, so it is in sync whenever nothing is pending |
| SyncTorn.RenameReplySettlesIff | obsidian/src/sync-engine.ts:301-324 | after any rename request that does not stop, with any effect, a path is settled if and only if it is wanted, or something later deletes or renames it, or what was put back removes it, or nothing of it was put back and it is gone; if no rename of it was skipped or refused, it is unsettled exactly when it is unwanted, a rename onto it was put back, and nothing later deletes or renames it |
| SyncTorn.DeleteReplySettlesIff | obsidian/src/sync-engine.ts:326-347 | the same for any delete request; if no delete of the path was refused, it is unsettled exactly when it is unwanted, its delete was acknowledged, a rename onto it from the phase before is still to run, and nothing later removes it |
| SyncTorn.SyncReplySettlesIff | obsidian/src/sync-engine.ts:349-397 | after any note request, refused, stopping or partly failed, and whatever the server stored: a wanted path is settled if and only if it is debounced, queued, or its upsert is back with an attempt left, or else no delete or rename of it is back and the server has its content; an unwanted path if and only if a queued delete or rename decides it, or those put back remove it, or it is gone |
| SyncTorn.SyncReplyTearsIff | obsidian/src/sync-engine.ts:349-381 | where the note was stored if it was acknowledged, and nothing of the path is dropped or out of attempts, it is unsettled exactly when a delete or rename of a wanted path was put back, its upsert was not, and it is neither debounced nor queued |
| SyncTorn.DebouncedIsTornByRename | obsidian/src/sync-engine.ts:349-381 | a path whose edit is still debounced becomes stale there only through a rename onto it that was put back |
| SyncTorn.TornPairSettlesIff | obsidian/src/sync-engine.ts:326-381 | the smallest instance, from the verdict of the batch: of a delete and an upsert of one live note, what is put back settles it unless the delete is reported as failed while the upsert is taken |
| SyncLost.RefusedNoteSettlesIff | obsidian/src/sync-engine.ts:389-393 | when the note request is refused for good, a wanted note that was read stays settled if and only if it is debounced or queued, or nothing put back touches it and the server has its content |
| SyncLost.ExhaustedNoteSettlesIff | obsidian/src/queue.ts:183-188 | the same, for every reply, of a wanted note whose upserts have no attempt left |
| SyncLost.StoppedRenameSettlesIff | obsidian/src/sync-engine.ts:318-321 | a rename request that stops the drain leaves a path settled if and only if something later decides it or what has an attempt left does; with attempts left it always does |
| SyncLost.StoppedDeleteSettlesIff | obsidian/src/sync-engine.ts:341-344 | the same for a delete request that stops |
| SyncLost.RestartSettlesIff | obsidian/src/queue.ts:70-71 | after a restart at any moment a wanted path is settled if and only if the queue on disk has an operation of it, namely its upsert if an edit was debounced, or has none and the server has its content; an unwanted path if and only if the queue on disk has a delete or rename of it, or it is gone |
| SyncCrash.BatchIsSavedIff | obsidian/src/queue.ts:94-139 | over runs: while a batch is in flight it is on disk in front of the queue if and only if no step since it was taken has enqueued anything, the enqueuing steps being named by the handlers' guards |
| SyncCrash.RestartKeepsBatchIff | obsidian/src/queue.ts:8-10 | crash safety: a restart during a batch finds all that was in flight and queued if and only if nothing was enqueued since the batch was taken |
| SyncCrash.RestartWhenIdle | obsidian/src/queue.ts:206-214 | between batches a restart finds the whole queue |
| SyncDivergence.MoveSettlesOldPathIff | obsidian/src/sync-engine.ts:194-206 | from a quiet state, a move leaves the old path settled if and only if it does not take a synced file to an untracked name |
| SyncDivergence.RestartAfterEnqueueDiverges | obsidian/src/queue.ts:94-102 | a restart after an enqueue during a batch leaves a modified file unsynced with nothing pending for it |
| SyncDivergence.RestartLosesDebouncedEdit | obsidian/src/sync-engine.ts:222-237 | a restart loses a debounced edit; exactly when is SyncLost.RestartSettlesIff |
| SyncDivergence.DroppedUpsertDiverges | obsidian/src/sync-engine.ts:389-393 | an upsert refused for good is dropped, and the file differs with nothing pending |
| SyncDivergence.ExhaustedUpsertDiverges | obsidian/src/queue.ts:183-188 | an upsert that fails in every round is dropped after its last attempt, for every number of attempts |
| SyncDivergence.TornNoteDiverges | obsidian/src/sync-engine.ts:326-381 | a file removed and created again, the delete reported as failed and the upsert taken: after the next round nothing is pending and the server has lost the live note |
| SyncDivergence.TornDeleteDiverges | obsidian/src/sync-engine.ts:301-347 | a file moved and deleted, the rename reported as failed and the delete acknowledged: after the next round nothing is pending and the deleted note is back |
| SyncDivergence.TornRenameDiverges | obsidian/src/sync-engine.ts:301-324 | a file moved twice, the first rename reported as failed and the second acknowledged: after the next round nothing is pending and the note is live under the name in between |
| SyncDivergence.SkippedUpsertDiverges | obsidian/src/sync-engine.ts:375-381 | an upsert acknowledged without effect leaves the file different with nothing pending |
| SyncDivergence.CollidingMoveDiverges | backend/app/services/obsidian_plugin_indexer.py:408-426 | a file moved onto a name that has a row, all requests answered by the note store: nothing is pending and the old path is still live |
| SyncDivergence.RestoredFileDiverges | backend/app/indexing_pipeline/indexing_pipeline_service.py:263-277 | a Markdown file deleted, synced, and restored with its old text, all requests answered by the note store: nothing is pending and the server does not have it |
| SyncDivergence.UnseenChangeDiverges | obsidian/src/sync-engine.ts:172-183 | a change without a vault event leaves the file different with nothing pending |
| SyncRuns.RoundIsVerdict | obsidian/src/queue.ts:164-191 | a round of steps with any three replies and effects, stopping or not, leaves the queue that one turn of the drain loop leaves on the verdict of ProcessBatch for these replies |
| SyncRuns.RoundAnswered | obsidian/src/sync-engine.ts:290-400 | a round whose requests are answered without failures, whatever the server does and leaves at renamed paths, ends idle with the batch gone; only renames skipped and notes not stored are stale, and only where nothing later decides |
| SyncLiveness.RoundRunsPhased | obsidian/src/sync-engine.ts:290-400 | there is a successful round that does to the server what the batch does when run as renames, deletes, upserts |
| SyncLiveness.RoundsEmptyQueue | obsidian/src/queue.ts:164-198 | successful rounds work off the whole queue and end in the server of the phased drain |
| SyncLiveness.DrainReachesQuiet | obsidian/src/queue.ts:21-23 | liveness: an idle run with nothing debounced continues by successful rounds alone until nothing is pending, with every path that is not stale equal |
| SyncLiveness.IdleReachesQuiet | obsidian/src/queue.ts:21-23 | the same from every idle reachable state, once the debounced edits have fired |
| SyncLiveness.ReachesQuiet | obsidian/src/queue.ts:21-23 | and from every reachable state, by first finishing the batch in flight; then only paths of operations that had already failed in that batch can become stale |
| Reordering.ReorderingPreservesMeaning | obsidian/src/sync-engine.ts:290-397 | from every idle reachable state a path that is neither stale nor debounced ends with the same content whether the queue is drained in phased batches of any size or run in queue order, namely with the vault's content |
| SyncTails.RunKeepsTails | obsidian/src/queue.ts:94-139 | in every reachable state the last operation pending on a path that is not stale is an upsert of it or removes it, never a rename onto it |
| ReorderingExactly.ReorderingAgreesIff | obsidian/src/sync-engine.ts:290-397 | from every idle reachable state a path that is not stale, debounced or not, ends alike in both orders if and only if it is not the case that it is in the vault, its last operation removes it, and an upsert of it stands in the same batch |
| ReorderingExactly.DebouncedPathIsOvertaken | obsidian/src/sync-engine.ts:389-391 | the reachable queue on which they differ: read, removed during the request, put back by a lost connection, created again; the path is not stale |
| Reordering.ReorderingChangesMeaning | obsidian/src/sync-engine.ts:290-397 | an upsert followed by a delete of a note in the vault ends absent in order and present in phases |
| Reordering.Fate | obsidian/src/queue.ts:94-139 | running operations in order, the last one that touches a path decides what it holds |
| Reconciling.ReconcileRepairs | obsidian/src/sync-engine.ts:473-512 | reconciling a quiet engine against the true manifest leaves stale at most the files the mtime-and-size test overlooks and the freshly deleted paths |
| Reconciling.ReconcileReachesSync | obsidian/src/sync-engine.ts:451-460 | as a run: from any quiet state, whatever the server held before, a reconcile against the true manifest and successful rounds end quiet, and the paths that then still differ are exactly these: a wanted file whose row had another content but its size and a time stamp at most a second older, and an unwanted note held back as freshly deleted |
| Reconciling.ReconcileThenDrain | obsidian/src/sync-engine.ts:451-460 | the phased drain of what it enqueued makes a path equal to the vault if and only if the reconcile did not overlook it |
| Reconciling.SecondReconcileIsIdleIff | obsidian/src/sync-engine.ts:467-512 | a second reconcile enqueues nothing if and only if no file was enqueued the first time although the server already had its content |
| Reconciling.SecondPassIsIdleIff | obsidian/src/sync-engine.ts:467-512 | as a run: reconcile, successful rounds, and the next reconcile against the then true manifest leaves the queue empty under exactly that condition |
| Reconciling.RowsAfterDiff | obsidian/src/sync-engine.ts:485-509 | each server row after the diff has been drained, including the rows whose mtime and size stay old |
| QueueItems.EnqueueUpsertEffect | obsidian/src/queue.ts:94-102 | for every path and whatever else is queued, only the edited path's last operation changes, and no path's last delete or rename |
| QueueItems.EnqueueDeleteEffect | obsidian/src/queue.ts:104-117 | a delete becomes its path's last operation and no upsert of the path remains |
| QueueItems.EnqueueRenameEffect | obsidian/src/queue.ts:119-139 | a rename becomes the last operation of the old path, its upsert that of the new path, and nothing else changes |
| QueueItems.UpsertCoalesces | obsidian/src/queue.ts:94-102 | edits coalesce: the path's upsert stands once, at the end, with the new time and no attempts, and every other item keeps its place and all its fields |
| QueueItems.DeleteCoalesces | obsidian/src/queue.ts:104-117 | the delete stands once and no upsert of its path is left; every other item keeps its place and all its fields |
| QueueItems.RenameCoalesces | obsidian/src/queue.ts:119-139 | the rename and its upsert stand once each, at the end, no upsert of the old path is left; every other item keeps its place and all its fields |
| QueueItems.KeyIsUniqueIff | obsidian/src/queue.ts:225-228 | an operation shares its key with no other exactly when it is not a rename with an arrow in one of its paths |
| QueueItems.KeyCollision | obsidian/src/queue.ts:226 | for each of those, another rename with the same key |
| PersistentQueues.PersistentQueue.EnqueueUpsert | obsidian/src/queue.ts:94-102 | in memory and on disk the queue loses the path's older upsert, keeps every other item in place, and gains the new one |
| PersistentQueues.PersistentQueue.EnqueueDelete | obsidian/src/queue.ts:104-117 | in memory and on disk the queue loses the path's upsert and older delete, keeps every other item in place, and gains the new one |
| PersistentQueues.PersistentQueue.EnqueueRename | obsidian/src/queue.ts:119-139 | in memory and on disk the queue loses both paths' upserts and the same rename, keeps every other item in place, and gains the rename and its upsert |
| PersistentQueues.PersistentQueue.TakeBatch | obsidian/src/queue.ts:206-210 | removes and returns the head of the queue, without saving |
| PersistentQueues.PersistentQueue.Round | obsidian/src/queue.ts:164-198 | one turn of the loop: retried and unclassified items return to the head with one attempt more, unless exhausted |
| PersistentQueues.PersistentQueue.Drain | obsidian/src/queue.ts:153-204 | the loop terminates for every worker that lists an item at most twice, and its queue and summary are those of the recursive specification; a nested call does nothing |
| Draining.DrainStepShrinks | obsidian/src/queue.ts:164-191 | each batch makes the queue's weight, a sum of powers of three of the attempts left, strictly smaller even when items come back twice |
| Draining.EngineIsDecent | obsidian/src/sync-engine.ts:290-400 | the engine's own verdicts meet what termination asks of a worker, for all replies |
| Draining.DrainIsShort | obsidian/src/queue.ts:164-198 | a drain takes at most as many batches as the queue weighs |
| Draining.DeliveriesAreExplained | obsidian/src/queue.ts:165-190 | nothing is delivered beyond its attempts, and every item of every batch was in the queue from the start or was delivered before with one attempt less |
| Draining.RetryChainIsShort | obsidian/src/queue.ts:183-188 | along any chain of retries among the batches a drain delivers, an item is delivered at most maxAttempts + 1 times |
| Draining.NoKeyIsLost | obsidian/src/queue.ts:172-191 | after a batch each item's key is acked, dropped, back with one attempt more, or exhausted, for every worker |
| Draining.NoItemIsLost | obsidian/src/queue.ts:172-191 | with the engine's verdicts the same holds item by item, even where keys collide |
| Draining.DrainConserves | obsidian/src/queue.ts:153-204 | for a worker whose lists partition each batch, items before = acked + dropped + items after |
| Draining.DrainCounts | obsidian/src/queue.ts:153-204 | the summary from what was delivered: the number of batches, of the items acknowledged in them, of those refused for good or out of attempts, and stopped exactly when the last batch stopped or was interrupted |
| Draining.EndingErrorEndsDrain | obsidian/src/queue.ts:193-197 | a drain whose first batch meets an expired token or a lost connection delivers that batch only and reports stopped; each of its items is acknowledged, refused, out of attempts, or back with one attempt more |
| Draining.DrainKeepsOrder | obsidian/src/queue.ts:164-190 | what a drain leaves is redelivered items of the taken part followed by the untouched part in its order |
| Batches.ProcessBatch | obsidian/src/sync-engine.ts:290-400 | the imperative batch computes the specified verdict for every combination of replies and read outcomes |
| Batches.SortAnswered | obsidian/src/sync-engine.ts:307-313 | splits an answered request's items into acked and retried, in order |
| Batches.BuildPayloads | obsidian/src/sync-engine.ts:349-367 | vanished files are acked, failed builds retried, and the rest sent |
| Batches.EveryItemIsClassified | obsidian/src/sync-engine.ts:300-399 | unless it stops, a batch classifies each item and nothing else; when it stops, it drops only what an earlier phase's permanent refusal had dropped |
| Batches.VerdictStopsIff | obsidian/src/sync-engine.ts:622-638 | a batch stops if and only if a request it makes meets an expired token or a lost connection |
| Batches.VerdictSorts | obsidian/src/sync-engine.ts:300-397 | the table of a batch: on which lists each rename, delete and upsert ends, for every combination of replies and reads, errors named one by one |
| Batches.VerdictCounts | obsidian/src/sync-engine.ts:300-399 | with multiplicities: a batch that does not stop lists each item once, except the files vanished or unreadable next to a sent one, which are listed again |
| Batches.UpsertCounts | obsidian/src/sync-engine.ts:349-397 | exactly which upserts are listed twice, for every reply and every reading of the files |
| Batches.RetriesAtMostTwice | obsidian/src/sync-engine.ts:365-393 | an item is put back at most twice |
| Batches.RetriedTwice | obsidian/src/sync-engine.ts:391-393 | and twice is attained: a failed build next to a sent note in a request that raises an unknown error |
| SyncEngines.SyncEngine.constructor | obsidian/src/sync-engine.ts:71-78 | starts with the stored tombstones, no debounced edit, streak zero, and the timer armed at the base interval |
| SyncEngines.SyncEngine.OnCreateOrModify | obsidian/src/sync-engine.ts:160-183 | the handler refines the step system: a tracked note is debounced, another file queued, anything else ignored |
| SyncEngines.SyncEngine.OnDelete | obsidian/src/sync-engine.ts:185-192 | the handler refines the step system and records the tombstone |
| SyncEngines.SyncEngine.OnRename | obsidian/src/sync-engine.ts:194-206 | the handler refines the step system; a rename into an excluded place becomes a delete with a tombstone |
| SyncEngines.SyncEngine.OnMetadataChanged | obsidian/src/sync-engine.ts:208-220 | the handler cancels the debounced edit and queues the upsert |
| SyncEngines.SyncEngine.OnDebounceFires | obsidian/src/sync-engine.ts:226-230 | the firing debounce queues the upsert and forgets itself |
| SyncEngines.SyncEngine.DiffAndQueue | obsidian/src/sync-engine.ts:473-512 | the two loops enqueue and count the outdated local files and the remote-only paths; each path's last operation afterwards is an upsert if it is a local file not listed with its size and a time stamp at most 1000 ms older, a delete if it is remote only and not deleted here within 24 hours, and what it was otherwise |
| SyncEngines.DiffIsDecided | obsidian/src/sync-engine.ts:473-512 | the same of the step system's diff, for every queue before it |
| SyncEngines.SyncEngine.Reconcile | obsidian/src/sync-engine.ts:452-459 | the pass refines the step system, updates the streak, and keeps exactly the tombstones of the last 24 hours, without effect on any later pass |
| SyncEngines.SyncEngine.UpdateIdleStreak | obsidian/src/sync-engine.ts:515-523 | the armed interval equals base times min(2^streak, 8) afterwards; the timer is cleared and armed anew exactly when the capped streak changes |
| SyncEngines.SyncEngine.ResetIdleStreak | obsidian/src/sync-engine.ts:526-530 | the same after a reset, which leaves the timer alone exactly when the streak was zero already |
| SyncEngines.SyncEngine.RestartReconcileTimer | obsidian/src/main.ts:202-221 | arms the interval that belongs to the streak, or none if the setting is not positive |
| SyncEngines.MultiplierFollowsCap | obsidian/src/sync-engine.ts:519-522 | the multiplier changes exactly when the capped streak does |
| SyncEngines.MultiplierValues | obsidian/src/sync-engine.ts:81-84 | the interval doubles with each idle pass, from one up to eight times the base |
| SyncEngines.PruningIsHarmless | obsidian/src/sync-engine.ts:503-506 | pruning changes no later decision about which remote paths are freshly deleted |
| NoteStore.RenameLeavesOldPathIff | backend/app/services/obsidian_plugin_indexer.py:374-442 | a rename leaves the old path live if and only if the new path has a row |
| NoteStore.RenameMovesRow | backend/app/services/obsidian_plugin_indexer.py:374-442 | a rename onto a free name moves the whole row and touches no other; any other rename changes nothing |
| NoteStore.RenamesRefine | backend/app/routes/obsidian_plugin_routes.py:574-616 | a whole rename request is an outcome of the step system's rename step: nothing fails, and an operation is skipped exactly when it collides when its turn comes |
| NoteStore.RenameRefines | backend/app/services/obsidian_plugin_indexer.py:374-442 | one rename is an outcome of the step system, skipped if and only if a live note is renamed onto another path that has a row |
| NoteStore.DeletesRefine | backend/app/services/obsidian_plugin_indexer.py:445-481 | a whole delete request carries out every delete |
| NoteStore.DeleteRefines | backend/app/services/obsidian_plugin_indexer.py:445-481 | soft-deleting a note removes exactly that path from the live notes |
| NoteStore.UpsertsRefine | backend/app/routes/obsidian_plugin_routes.py:480-533 | a whole note request, even one that sends a path twice, is an outcome of the step system's note step, each note stored exactly when the content sent last is live afterwards |
| NoteStore.UpsertTakesEffectIff | backend/app/services/obsidian_plugin_indexer.py:277-371 | after an upsert the sent content is live if and only if it already was, or its text is new to the row and to every other document |
| NoteStore.UpsertStores | backend/app/services/obsidian_plugin_indexer.py:277-371 | a live row afterwards is the note as sent or the row as it was, its text ready once indexed; no other note changes; an error is reported exactly for a new path whose text another document has |
| NoteStore.RestoredNoteStaysDeleted | backend/app/services/obsidian_plugin_indexer.py:277-371 | restoring a deleted note with its old text is answered as a success and does not bring it back |
| NoteStore.UpsertRefines | backend/app/indexing_pipeline/indexing_pipeline_service.py:225-351 | every upsert is an outcome of the step system, skipped exactly when the sent content is not live afterwards |
| Excludes.CompileBody | obsidian/src/excludes.ts:19-41 | the index loop emits the body of the recursive specification |
| Excludes.PatternCache.Compile | obsidian/src/excludes.ts:15-49 | the cache always agrees with fresh compilation; a source that is no regular expression is never stored |
| Excludes.BodyReadsBack | obsidian/src/excludes.ts:21-41 | reading the emitted text by the regular-expression language's own syntax characters gives back the pattern's pieces, for every pattern |
| Excludes.SyntaxIsSpecial | obsidian/src/excludes.ts:34-38 | the escaped characters, with the star and the question mark, are all the syntax characters of the language |
| GlobMeaning.CompiledMeansCovers | obsidian/src/excludes.ts:15-49 | for a pattern without a question mark the compiled expression accepts exactly the one-line paths covered under the direct recursive glob semantics |
| GlobMeaning.CompilerIsRightIff | obsidian/src/excludes.ts:15-49 | the compiler is right for a pattern on all one-line paths if and only if the pattern has no question mark |
| GlobMeaning.QuestionMarkBreaks | obsidian/src/excludes.ts:34-39 | a pattern with a question mark that compiles accepts some path its glob does not cover |
| GlobMeaning.PathIsDecidedRightlyIff | obsidian/src/excludes.ts:15-49 | all patterns without a question mark are decided rightly on a path if and only if the path has no line terminator |
| Regexes.LineTerminators | obsidian/src/excludes.ts:21-32 | the characters the emitted dot does not match, by code points |
| GlobMeaning.CoversDescendants | obsidian/src/excludes.ts:43-45 | whatever is below a covered path is covered |
| GlobMeaning.PlainPatternMatchesSegment | obsidian/src/excludes.ts:43-45 | a pattern without slash or double star covers a path exactly when it matches one of the path's segments |
| GlobDocumented.CompiledAsDocumentedIff | obsidian/src/excludes.ts:24-29 | the compiled glob is the documented one, on all texts, if and only if no double star of the pattern is followed by a slash |
| ExcludeLists.IsExcluded | obsidian/src/excludes.ts:51-59 | the early-returning loop over trimmed, non-comment patterns decides as specified and keeps the cache valid |
| ExcludeLists.Spaces | obsidian/src/excludes.ts:54 | what is trimmed, by code points (ECMAScript Language Specification, sections 12.2 and 12.3) |
| ExcludeLists.ActiveMeans | obsidian/src/excludes.ts:53-56 | a line is idle if and only if it is white space or its first other character is a number sign; otherwise its pattern is the line without the white space at its ends |
| ExcludeLists.ExcludedMeansCovered | obsidian/src/excludes.ts:51-59 | without question marks a list excludes exactly what one of its patterns covers |
| ExcludeLists.ExclusionIsInherited | obsidian/src/excludes.ts:51-59 | whatever is below an excluded path is excluded |
| ExcludeLists.ParsingKeepsMeaning | obsidian/src/excludes.ts:61-66 | the parsed settings text excludes exactly what its lines, taken as patterns, exclude |
| ExcludeLists.NormalizeCuts | obsidian/src/excludes.ts:68-71 | only slashes are cut off, and none is left at either end |
| ExcludeLists.InFolderMeansSegments | obsidian/src/excludes.ts:69-78 | a path is in a folder exactly when the folder is the root or its segments begin the path's |
| ExcludeLists.IsFolderFiltered | obsidian/src/excludes.ts:81-94 | exclude folders win, and no include folders means everything |
| Splitting.SplitJoins | browser_extension/utils/corvos-api.ts:204-208 | the pieces, joined by separators, are the text |
| Splitting.PiecesAreFree | browser_extension/utils/corvos-api.ts:204-208 | no piece contains a separator |
| Splitting.PiecesHoldNoSeparator | browser_extension/utils/corvos-api.ts:204-208 | the same of every stretch of a piece and every form of a line break or blank line |
| Splitting.LengthIsZeroIff | browser_extension/utils/corvos-api.ts:204-208 | a cut is made wherever a separator starts, in whichever form |
| Splitting.SplitGrows | browser_extension/utils/corvos-api.ts:203-205 | when more text arrives all pieces but the last stay, and the last one goes on, even if a separator is cut in two |
| SseReader.StreamChatTurn | browser_extension/utils/corvos-api.ts:194-223 | the read loop yields what cutting the whole text once yields, without the unterminated tail, and holds back exactly that tail |
| SseReader.DataLines | browser_extension/utils/corvos-api.ts:209-211 | exactly the lines that start with the field name, colon and space carry data, trimmed, unless it is empty or the end marker |
| SseReader.FeedReadsWhole | browser_extension/utils/corvos-api.ts:198-220 | the chunk-by-chunk reader equals the one-shot reader |
| SseReader.ChunksDoNotMatter | browser_extension/utils/corvos-api.ts:198-220 | any two ways of cutting the same text give the same events and the same tail |
| SseReader.EventsMeanLines | browser_extension/utils/corvos-api.ts:204-219 | events cut at blank lines yield what the data lines of the whole text yield |
| SseReader.YieldedPlusBuffered | browser_extension/utils/corvos-api.ts:203-219 | conservation: what was yielded, then what the buffer would yield, is what all data lines so far yield |
| RateLimits.AuthLimiter.CheckMemory | backend/app/app.py:335-365 | one call of the sliding log updates the log and answers as specified |
| RateLimits.AuthLimiter.Check | backend/app/app.py:368-407 | one request, by Redis or by the fallback, answers as specified |
| RateLimits.LogIsRecentAccepts | backend/app/app.py:343-365 | after any run the stored log, seen at any later time, is exactly the accepted calls still inside the window, and never exceeds the maximum |
| RateLimits.StoredAfterAccept | backend/app/app.py:365 | right after an accept the stored log is exactly the accepts inside the window |
| RateLimits.StoredAfterCall | backend/app/app.py:343-365 | the same after any call, accepted or not, and a key without recent accepts is not stored |
| RateLimits.MemoryAcceptsIff | backend/app/app.py:335-365 | the log accepts a call if and only if fewer than the maximum of the key's accepted calls are less than a window ago |
| RateLimits.SlidingWindowBound | backend/app/app.py:335-365 | in every run no half-open interval of the window's length contains more than the maximum of one key's accepted calls |
| RateLimits.CounterIsBurst | backend/app/app.py:382-386 | since every request renews the expiry, the live counter is the length of the current burst |
| RateLimits.RedisAcceptsIff | backend/app/app.py:382-407 | the counter accepts a call if and only if the burst before it, rejected calls included, is shorter than the maximum |
| RateLimits.LimiterAnswersIff | backend/app/app.py:368-407 | with outages: a request that finds Redis up passes if and only if its burst of counted requests is within the maximum; one that finds it down, if and only if fewer than the maximum of those the log accepted are recent |
| RateLimits.RedisImpliesMemory | backend/app/app.py:335-407 | on the same calls, what the counter accepts the sliding log accepts too |
| RateLimits.SteadyCallsStayInBurst | backend/app/app.py:382-386 | a client that asks more often than once per window stays in one burst for ever |
| RateLimits.SteadyClientIsLockedOut | backend/app/app.py:382-407 | so after its first calls up to the maximum the counter rejects every further one |
| RateLimits.CounterIsStricter | backend/app/app.py:335-407 | a stream on which the log accepts a call that the counter rejects |
| RateLimits.OutageBound | backend/app/app.py:379-396 | with any outages, one worker accepts at most twice the maximum in any interval of the window's length |
| McNemar.ExactPValue | evals/scripts/compute_blog_extras.py:80-99 | the summing loop computes the specified value |
| McNemar.ChooseIsFactorialRatio | evals/scripts/compute_blog_extras.py:74-77 | the coefficient is n! / (k! (n - k)!) |
| McNemar.PValueIsTwoTailed | evals/scripts/compute_blog_extras.py:80-99 | the value is the documented sum of both tails, clipped at 1 |
| McNemar.UnclippedIsTwoTails | evals/scripts/compute_blog_extras.py:86-98 | doubling the lower tail is adding the upper one |
| McNemar.ClipsIffBalanced | evals/scripts/compute_blog_extras.py:98-99 | the value exceeds 1 before clipping exactly when the counts are equal |
| McNemar.PValueIsProbability | evals/scripts/compute_blog_extras.py:80-99 | the value is above 0, at most 1, and the same with the counts exchanged |
| McNemar.LopsidedIsSmaller | evals/scripts/compute_blog_extras.py:80-99 | for a fixed number of discordant pairs it never grows with their difference |
| McNemar.GroupRows | evals/scripts/compute_blog_extras.py:105-112 | the grouping loop builds the specified table |
| McNemar.GroupedKeepsLast | evals/scripts/compute_blog_extras.py:111 | the table holds each question's and arm's last row |
| McNemar.CountPair | evals/scripts/compute_blog_extras.py:119-132 | the loop counts the four cells |
| McNemar.WhereCounts | evals/scripts/compute_blog_extras.py:119-132 | each cell is the number of questions that both arms answered with these two results |
| McNemar.CellsPartition | evals/scripts/compute_blog_extras.py:122-132 | every question both arms answered is in exactly one cell |
| McNemar.ArmsCommute | evals/scripts/compute_blog_extras.py:117-133 | the p-value does not depend on the order of the arms |
| Publication.BuildSetTableSql | backend/app/zero_publication.py:158-163 | the loop prints the statement of exactly the ready tables, in canonical order |
| Publication.SetTableReadsBack | backend/app/zero_publication.py:100-163 | round trip: reading the statement with the quoted-identifier rules recovers the publication's name, the tables and the column lists, whatever characters the names contain |
| Publication.OnlyPrintedReads | backend/app/zero_publication.py:100-163 | the other direction: a text that reads as a statement is, character for character, the statement printed for what was read |
| Publication.ExpectedColumnsAre | backend/app/zero_publication.py:115-125 | the canonical columns in order, then the version column for a versioned table that has it |
| PublicationRepair.StatementSetsReadyTables | backend/app/zero_publication.py:158-179 | the printed text runs exactly when the publication exists and some table is ready, and sets the shape restricted to the ready tables |
| PublicationRepair.ExecuteRunsIff | backend/app/zero_publication.py:166-179 | the server runs a printed statement if and only if the publication exists, no table is named twice, and every table and column exists, each column once |
| PublicationRepair.EmptyListDoesNotRead | backend/app/zero_publication.py:161-163 | with no ready table the printed text is not a statement |
| PublicationRepair.ReadyShapeMeans | backend/app/zero_publication.py:128-155 | the published shape holds exactly the tables with all their canonical columns present, each with its expected columns |
| PublicationRepair.PublishedColumns | backend/app/zero_publication.py:115-155 | from the tables alone: which canonical tables are published, and with exactly which columns |
| PublicationRepair.EnsureConverges | backend/app/zero_publication.py:182-207 | from an absent, partial or drifted publication alike, ensure leaves the canonical shape restricted to the ready tables, or fails exactly when stated |
| PublicationRepair.SecondEnsureIsSilentIff | backend/app/zero_publication.py:182-207 | a second ensure leaves the same database, and finds it canonical if and only if all tables are ready |
| PublicationConnection.SecondEnsureSendsNothingIff | backend/app/zero_publication.py:188-191 | a second ensure sends no statement if and only if all tables are ready |
| PublicationConnection.Connection.EnsurePublication | backend/app/zero_publication.py:182-207 | when it succeeds, the database it leaves and the statements it sends; when it fails, nothing changed |
| PublicationConnection.Connection.ApplyPublication | backend/app/zero_publication.py:166-179 | nothing without a publication, otherwise the ready shape by one statement |
| PublicationConnection.Connection.VerifyPublication | backend/app/zero_publication.py:237-270 | the report holds exactly the missing tables, wrong column lists and unexpected tables, and is empty if and only if the shape is canonical |
| PublicationConnection.ShippedDefinitionIsGood | backend/app/zero_publication.py:27-97 | the shipped definition names each table once and no column twice, and publishes the seed table whole |

## Left out

- HTTP, the Obsidian API, settings storage, JSON, SHA-256, base64, Redis, SQLAlchemy and Postgres: abstract maps, counters with an expiry, partial functions, or replies chosen freely.
- Status bar, modals, settings screens, health and capabilities, `backoffMs`, connect and the gating of a flush on it; settings do not change during a run.
- A worker or persist callback that throws out of the drain loop: every modelled reply is an answer or a raised request error, which `processBatch` handles itself.
- PersistentQueues.PersistentQueue.Drain: a stop request arrives through a parameter, and events during a request are steps of `SyncStates`, not of this method.
- Batches.ProcessBatch: the replies and read outcomes are parameters; their interleaving with edits is in the step system. Items of a batch are told apart by value, not by object identity.
- The command that uploads the current note even if it is excluded.
- Attachments are answered before they are indexed: the answer counts as acknowledged but not stored, so the path is stale until something is enqueued for it again. The store itself, which lands later, is no step of the model; what it does to the server, even after a reconcile, is outside the theorems.
- SyncStates timing: a debounce may fire at any moment, so its delay plays no part; a rename within the vault onto an existing path does not occur.
- RateLimits reads one clock for the log and the counter, non-decreasing; keys are strings, and the multiplication of the limit by the number of workers is not modelled.
- McNemar uses real numbers instead of floating point; the loop over all pairs of arms, `_percentile`, and the per-document and latency statistics are easy members.
- Regexes reads and matches only the constructs the compiler emits, on characters rather than UTF-16 code units.
- SseReader starts from decoded text: the decoder's handling of incomplete bytes and of a byte order mark is not modelled, nor is releasing the reader.
- PublicationConnection.Connection.VerifyPublication: the report's entries are exact but their wording and the order of unexpected tables are not stated.
- The order in which Postgres stores a publication's columns is not modelled, because the source compares sorted lists; nor are tables without columns.
- Server manifest, connector merge, and the rest of the backend and the user interfaces.
