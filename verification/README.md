# A model of the client's sync engine

This project models the offline-first client of an issue tracker: a replica in memory and in
IndexedDB fed by cursor-paged delta reads and by live batches, a persisted queue of mutations, and a
hand-kept team index; beside them the document save queue and four small algorithms. Code between two
awaits is one step, an IndexedDB transaction either commits or never happened, the network and the
server answer anything their contract allows.

## How it is laid out

| file | what it holds |
|---|---|
| Common, Positions, Cursor | optional values; cursor pairs and their maximum; the text form of cursors |
| Rows, Replica, Stores | rows and actions; what an action does to memory, as functions; the stores that do it in place |
| Flush | the disk copy, the reordered closing transaction, and which batches keep the copies equal |
| IssueStore | the issue pool with its team index, single and bulk |
| Conflicts | the net effect of a batch on each row, and exactly when order, a gap or an echo matters |
| Client, Bootstrap | all a tab holds, placeholders included, and what a batch does to it; the bootstrap's two copies |
| SyncManager | `doApplyActions`, the flush, the bootstrap and the delta loop over those stores |
| DeltaLoop, Interference | the page loop against the page contract, alone and with live batches between its awaits |
| Server | transactions, the fence and a client, as a state machine |
| ApplyChain | the promise chain that serializes applies |
| Stream, Crash | what lies between two cursors; a tab that can die at any await and the cache it leaves |
| CatchUp | a page loop left alone catches up, from every state of those runs |
| Rebootstrap, CacheStamp | a bootstrap under a running page loop; the completeness stamp across builds |
| TransactionQueue, QueueRuns | the mutation queue in place; its runs with failures, connectivity and reloads |
| Replay | what becomes of each mutation over those runs, against a ledger that only watches |
| SaveQueue | the document save queue in place and over runs |
| Fuzzy, Csv, Sorting, Chart | search score, CSV export, multi-key sorting, axis labels |

## Where the code does not keep its promise

Each of these is proved as a lemma with a concrete history, next to the exact condition under which the
promise holds.

- A delete and a later write of the same id in one batch leave memory and disk different
  (`Flush.WriteAfterDeleteDiverges`, condition in `Flush.CopiesAgreeExactly`).
- A live batch that jumps over a running transaction makes its row unreachable by later deltas
  (`Server.PushCanLoseARow`, condition in `Server.PushKeepsPromisesExactly`).
- A live batch still behind the fence at the loop's last request is overwritten by an older page and
  never read again (`Interference.LatePushIsLost`, condition in `Interference.LatePushExactly`).
- A live batch that repeats what a page has brought takes a row back, although the comment at
  src/lib/sync-manager.ts:887-891 has the lock rule that out (`Interference.EchoOverwrites`, condition in
  `Interference.EchoMattersToTheLoopExactly`). Any mixture of the two kinds is in
  `Interference.LiveMattersExactly`.
- A bootstrap scheduled by a change of membership does not stop a running page loop. A loop that catches
  up from behind repairs what it overwrote (`Rebootstrap.BootstrapHandsOver`); one that stops short leaves
  a stale row and one that was ahead leaves a gap, in a cache the next load accepts
  (`Rebootstrap.StaleRowIsReached`, `Rebootstrap.MissingRowIsReached`; conditions in
  `Rebootstrap.StoppedShortExactly` and `Rebootstrap.LoopAheadExactly`).
- A bootstrap empties the favourites in memory and keeps them on disk (`Bootstraps.BootstrapAgreesExactly`).
- The completeness stamp accepts a cache with a hole after a rollback followed by a roll-forward, although
  its comment calls extra names harmless (`CacheStamp.RollbackLeavesHole`, condition in
  `CacheStamp.CompleteExactly`).
- An issue dropped from the pool behind the index and written back on another team is listed on both
  (`IssueStores.MovedGhostIsListedTwice`, condition in `IssueStores.SetIssueLookupsExactly`).
- Start-up hydrates after a whole delta sync, so a change made meanwhile can settle between the read of its
  row and the comparison, and is then sent a second time (`QueueRuns.MidFlightIsReached`,
  `QueueRuns.HydratingMidFlightSendsTwice`, condition in `QueueRuns.SettledOnce`).
- An error callback that throws leaves a non-empty queue asleep (`QueueRuns.RefusedIsReached`,
  `QueueRuns.ThrowingCallbackStrands`, condition in `QueueRuns.StepKeepsAlive`).
- The pending indicator lags a hydration that found rows of another session
  (`QueueRuns.IndicatorLagsHydration`, condition in `QueueRuns.StepCacheRightExactly`).
- In the save queue an older send that fails while a newer one is in flight is kept as the failure. Retried
  from the error status it overwrites the newest edit under the status "saved"
  (`SaveQueues.StaleRetryOverwrites`, conditions in `SaveQueues.StepKeepsFreshExactly` and
  `SaveQueues.FreshExactly`). Retried at once, while still saving, it can lose the newest edit (`SaveQueues.EagerRetryLosesNewest`, condition in
  `SaveQueues.RetrySafeExactly`); the queue's own interface allows that, the editor never offers it
  (src/components/documents/document-editor.tsx:173-184).

## Model

| member | source | states |
|---|---|---|
| `Cursor.ActionCursorRoundTrip` | src/lib/sync-manager.ts:42-73 | An encoded action cursor decodes to its `(xactId, id)` pair, for every plausible xid; an xid at or above the ceiling decodes to zero. |
| `Cursor.LegacyCursor` | src/lib/sync-manager.ts:43-52 | A bare id decodes to `(0, id)`. |
| `Cursor.CompareIsLexicographic` | src/lib/sync-manager.ts:24-40 | The sign of the comparison is the lexicographic order of the decoded pairs, and swapping the arguments negates it. |
| `Cursor.SplitIsPlausible` | src/lib/sync-manager.ts:53-66 | Whatever the text, the decoded transaction is at least zero and below the ceiling. |
| `Cursor.NumeralsParse` | src/lib/sync-manager.ts:45-66 | Hexadecimal, octal and binary numerals in either case parse to their value. |
| `Cursor.SignedParse` | src/lib/sync-manager.ts:45-66 | A signed decimal numeral parses to its signed value. |
| `Cursor.BlanksAreTrimmed` | src/lib/sync-manager.ts:45-66 | Blanks around a number do not matter and blanks alone are zero. |
| `Cursor.StaleCursorIsOvertaken` | src/lib/sync-manager.ts:55-62 | Against a stale or unreadable first component any real action wins the comparison. |
| `Cursor.AdvanceDecodes` | src/lib/sync-manager.ts:1156-1161 | Keeping the later of two cursor texts is taking the maximum of the pairs they stand for. |
| `Cursor.AdvanceThroughDecodes` | src/lib/sync-manager.ts:1156-1164 | Running that over a batch gives the maximum over the batch, so cursors may be reasoned about decoded. |
| `Positions.LaterOfIsMaximum` | src/lib/sync-manager.ts:933-1161 | The cursor left by a batch bounds every action of it and is attained by one of them or by the start. |
| `Positions.LaterOfConcat` | src/lib/sync-manager.ts:933-1161 | Cutting a batch in two does not change where the cursor ends. |
| `Rows.NormalizeTwice` | src/stores/issue-store.ts:24-32 | A row normalized for both sinks is not changed by the second normalization inside the store. |
| `Replica.AppliedRow` | src/stores/issue-store.ts:24-32 | An applied issue row puts the columns it sends under its id, with `labelAssignments` if sent, else `labels`, else `labelIds`, else the labels the issue had; no other issue changes. |
| `Replica.LabelsAfterAll` | src/lib/sync-manager.ts:1030-1089 | After a batch the labels of an issue are those of the last row under its id that names labels, if it is not deleted after that. |
| `Replica.ColumnsAfterAll` | src/lib/sync-manager.ts:1030-1089 | After a batch the columns of an issue are those of the last row under its id, if it is not deleted after that. |
| `Replica.DeletedAfterAll` | src/lib/sync-manager.ts:1030-1060 | An issue deleted in a batch and not sent again is gone. |
| `Replica.NobodyElsesRows` | src/lib/sync-manager.ts:1092-1146 | Over any batch no row of a personal model, notifications and favourites, that belongs to another user enters memory. |
| `Replica.OwnRowsAreTaken` | src/lib/sync-manager.ts:1092-1151 | Every other row is taken, and deletes always are. |
| `Stores.EntityPool.ApplySyncAction` | src/stores/apply-pool-sync-action.ts:29-42 | Upserts replace the row, bodyless upserts do nothing, a delete removes one key. |
| `Stores.IssueRelationStore.RemoveForIssue` | src/stores/issue-relation-store.ts:34-40 | The loop removes exactly the edges that touch the issue. |
| `Stores.IssueRelationStore.ApplySyncAction` | src/stores/issue-relation-store.ts:55-57 | The relation arm of the replica step. |
| `Stores.CustomFieldStore.RemoveValuesForIssue` | src/stores/custom-field-store.ts:94-100 | The loop removes exactly the values of the issue. |
| `Stores.CustomFieldStore.UpsertValues` | src/stores/custom-field-store.ts:88-92 | Later rows under the same issue and field win. |
| `Stores.CustomFieldStore.ApplyDefinitionSyncAction` | src/stores/custom-field-store.ts:102-112 | Definition upsert or delete, with the cascade to its values. |
| `Stores.CustomFieldStore.ApplyValueSyncAction` | src/stores/custom-field-store.ts:119-133 | The payload replaces the whole value set of the issue; a delete clears it; no payload changes nothing. |
| `Replica.ApplyAllConcat` | src/lib/sync-manager.ts:1015-1162 | Applying two batches is applying their concatenation. |
| `Replica.Idempotent` | src/lib/sync-manager.ts:1015-1162 | Applying one action twice in a row is applying it once, bare rows and cascades included. |
| `Replica.StayJoined` | src/lib/sync-manager.ts:1015-1162 | If an action brings two states together, it still does after any other action has come between. |
| `Replica.EarlyActionAbsorbed` | src/lib/sync-manager.ts:1015-1162 | An action applied early makes no difference once the ordered stream has delivered it again. |
| `Replica.EarlyDeliveryAbsorbed` | src/lib/sync-manager.ts:771-788 | A stream with any of its own later actions mixed in anywhere, any number of times, ends in the same rows as the stream. |
| `Replica.RedeliveryAbsorbed` | src/lib/sync-manager.ts:880-891 | From any state, any selection of a stream's actions applied before the whole stream leaves the stream's result. |
| `Conflicts.BatchActs` | src/lib/sync-manager.ts:1015-1162 | The content of a row after a batch is its net effect, read off the batch alone, on what the row was. |
| `Conflicts.OrderMattersExactly` | src/lib/sync-manager.ts:880-891 | Two batches in the wrong order, with a third after them, end in the rows of the right order if and only if no row clashes: none on which the two disagree and the third leaves it so. |
| `Conflicts.GapMattersExactly` | src/lib/sync-manager.ts:843-849 | Leaving a batch out of a stream makes no difference if and only if no row is lost: none that it put otherwise, wrote other columns of, or deleted with an issue, with nothing later to cover that. |
| `Conflicts.EchoMattersExactly` | src/lib/sync-manager.ts:1015-1161 | Applying again actions that were applied before makes no difference if and only if no row goes back: none that the echo leaves otherwise than it was last put or written, with nothing later to cover that. |
| `Conflicts.DeliveryMattersExactly` | src/lib/sync-manager.ts:880-891 | Two deliveries of the same actions, in any order and any number of times, end in the same rows if and only if every row has the same last word in both. |
| `Conflicts.LastWordIsLastAction` | src/lib/sync-manager.ts:1015-1161 | For every row but an issue or a relation the last word is the last action that names it. |
| `Flush.FlushIsSweptMemory` | src/lib/sync-manager.ts:1167-1297 | For every batch: what the reordered closing transaction writes is memory after the batch, less every row some delete of the batch matches. |
| `Flush.HoldsAfterAll` | src/lib/sync-manager.ts:1015-1154 | Which rows a batch leaves in memory, read off the batch: the last write that nothing displaces, or an undisturbed old row. |
| `Flush.MarkedRowsAreRevived` | src/lib/sync-manager.ts:1193-1297 | The rows the transaction drops although memory keeps them are exactly those written for good after a delete of the same batch. |
| `Flush.CopiesAgreeExactly` | src/lib/sync-manager.ts:1015-1297 | Memory and disk that agree before a batch agree after it if and only if the batch revives no row it deleted. |
| `Flush.NoReuseIsSafe` | src/lib/sync-manager.ts:1193-1297 | On a stream that never writes under a deleted id every batch cut from it keeps the copies equal. |
| `Flush.WriteAfterDeleteDiverges` | src/lib/sync-manager.ts:1193-1297 | A delete of an issue followed by a new row for its id in one batch: in memory, gone from disk. |
| `Flush.AgreementIsUnique` | src/lib/sync-manager.ts:446-476 | Disk contents determine memory contents: two pools that agree with one disk are equal. |
| `Flush.ValuesStayOwned` | src/stores/custom-field-store.ts:119-133 | Value rows stay filed under their own issue and field. |
| `Flush.CollectStaysOrdered` | src/lib/sync-manager.ts:1077-1087 | The pending value sets and the order they were first named in stay in step. |
| `Clients.CleanBatch` | src/lib/sync-manager.ts:1015-1164 | Where no placeholder sits under the id of a server row, what a batch does to the server rows and notes for disk is the fold of the replica steps, and placeholders only ever go. |
| `Clients.PutsWereSent` | src/lib/sync-manager.ts:1030-1151 | Every row put on disk for a batch was sent by an action of it that is no delete, and goes under its own id; issues without an id stay out. |
| `SyncManagers.SyncManager.ApplyIssue` | src/lib/sync-manager.ts:1030-1089 | Issue arm, placeholders included: row with labels, both cascades and the value set reach their stores, and the same writes are noted for disk. |
| `SyncManagers.SyncManager.ApplyOther` | src/lib/sync-manager.ts:1019-1151 | The other arms: memory takes the replica step and the buckets take the matching disk writes. |
| `SyncManagers.SyncManager.DoApplyActions` | src/lib/sync-manager.ts:921-1164 | Any batch: the stores hold the fold of the single steps, placeholders included, the buckets are what that fold notes, the cursor is the maximum, and the flag says whether the batch holds a change of the user's own memberships. |
| `SyncManagers.SyncManager.FlushBuckets` | src/lib/sync-manager.ts:1167-1297 | The closing transaction: the four passes in order, and the cursor with them. |
| `SyncManagers.SyncManager.ApplyActions` | src/lib/sync-manager.ts:914-919 | Both halves of a batch, with the disk as the flush of the noted writes, and one re-bootstrap scheduled exactly if it holds a change of the user's own memberships; an empty batch touches nothing. |
| `SyncManagers.MovesUserExactly` | src/lib/sync-manager.ts:1114-1119 | A batch moves the user exactly if they are signed in and some action of it is a membership naming them. |
| `SyncManagers.SyncManager.FetchPage` | src/lib/sync-manager.ts:789-866 | One turn of the page loop with live batches between its awaits is one turn of the socket-free loop plus the interleaving; a stopped manager asks for nothing. |
| `SyncManagers.SyncManager.RunPages` | src/lib/sync-manager.ts:788-866 | Pages until the last or the limit: the requests, batches and exit are those of the socket-free loop. |
| `SyncManagers.SyncManager.FullBootstrap` | src/lib/sync-manager.ts:581-756 | Pools, order, index, tables and both cursors are those of the payload, whatever was there before, except for the one table the transaction keeps; a failed fetch, or a bootstrap under way, changes nothing. |
| `Bootstraps.BootstrapAgreesExactly` | src/lib/sync-manager.ts:586-645 | After a bootstrap memory and disk hold the same rows if and only if the kept table, the favourites, was empty. |
| `Bootstraps.TablesAfterBootstrap` | src/lib/sync-manager.ts:586-756 | After a bootstrap every table holds exactly the last payload row under each id, values under issue and field in memory and under their row id on disk, and the disk keeps its favourites beside the payload's. |
| `SyncManagers.SyncManager.AdvancePast` | src/lib/sync-manager.ts:833-852 | The local cursor after a page: its own actions, then the end of the unfiltered page. |
| `SyncManagers.SyncManager.DeltaSync` | src/lib/sync-manager.ts:764-878 | Whatever live batches do, the loop requests and hands over what it would without them, and the stores hold the fold of the interleaving; at the end the shared cursor is raised to the local one and never lowered; a loop that falls back ends with the rows, the cache and the cursor of the bootstrap, unless one is under way; a second or a stopped call does nothing. |
| `DeltaLoop.HonestNextCursor` | src/lib/sync-manager.ts:833-852 | Against the page contract the next cursor is the end of the page, however much of it is filtered away. |
| `DeltaLoop.LoopIsComplete` | src/lib/sync-manager.ts:788-869 | Requests strictly increase; on a caught-up exit the batches are, in order and once each, exactly the visible rows after the starting cursor; at the page limit they are the rows there was room for. |
| `DeltaLoop.BacklogIsDrained` | src/lib/sync-manager.ts:75-79 | A backlog of at most 1,000,000 rows always reaches the caught-up exit. |
| `Interference.QuietLoop` | src/lib/sync-manager.ts:788-866 | Without a socket the batches applied are the pages handed over. |
| `Interference.LiveBatchesAreAbsorbed` | src/lib/sync-manager.ts:779-869 | If the loop has yet to be served every pushed action when it is applied, memory ends exactly where the backlog alone would have taken it; actions it will not be served any more may come in between, if all of them follow once more. |
| `Interference.LiveMattersExactly` | src/lib/sync-manager.ts:1331-1336 | For any live batches at any awaits, ahead of the loop, echoing it, or behind the fence: the rows are those of the ordered stream if and only if every row has the same last word in what was applied. |
| `Interference.EchoMattersToTheLoopExactly` | src/lib/sync-manager.ts:1015-1161 | A live batch that repeats what the loop has applied: the rows are those of the backlog if and only if the echo takes no row back. |
| `Interference.EchoOverwrites` | src/lib/sync-manager.ts:887-891 | A page with two writes of a row and then a frame with the first: the loop ends caught up, nothing lies beyond its cursor, and the row keeps the first. |
| `Interference.LatePushExactly` | src/lib/sync-manager.ts:843-849 | A push that the last request does not see, and whose tail does not follow: the rows are those of the ordered stream if and only if no row clashes between it and what the loop applied over it. |
| `Interference.LatePushIsLost` | src/lib/sync-manager.ts:1156-1164 | A push of a newer write before the page with the older one: the loop ends caught up, the cursor stands on the push, and the row keeps the older write. |
| `Server.XminExists` | src/server/services/sync.service.ts:734-743 | There is exactly one fence, the oldest running transaction or the next to come. |
| `Server.SettledRows` | src/server/services/sync.service.ts:734-743 | A read sees exactly the committed rows of transactions older than every running one, in cursor order. |
| `Server.SettledOnlyGrows` | src/lib/sync-config.ts:11-16 | What a read could see is a prefix of what it can see after any step. |
| `Server.NextKeepsInv` | src/lib/sync-manager.ts:16-23 | Begin, write, commit in any order, abort, delta read, and a bootstrap that takes its cursor first and its rows later, keep: delivered below the cursor, running above it, nothing delivered that was not committed and visible. |
| `Server.NoRowIsSkipped` | src/lib/sync-manager.ts:16-23 | The same for every state of every run. |
| `Server.CaughtUpMeansComplete` | src/lib/sync-manager.ts:843-849 | A client whose cursor is at the end holds exactly the committed visible rows. |
| `Server.ReadShortensWhatIsLeft` | src/server/services/sync.service.ts:719-760 | A read of any size takes exactly its rows off what is left for the client and delivers their visible part, and a non-empty one moves the cursor up. |
| `Server.BootCursorIsTheEnd` | src/server/services/sync.service.ts:900-945 | The cursor of a bootstrap stands right behind what is settled: nothing settled is read again, every row still to settle is, and with nothing settled it is not far behind. |
| `Server.FencedServerIsHonest` | src/lib/sync-config.ts:11-16 | Reads of a running fenced server satisfy the contract the page loop relies on. |
| `Server.PushKeepsPromisesExactly` | src/lib/sync-manager.ts:1156-1164 | A live push keeps the promises if and only if it jumps over no undelivered row and no running transaction. |
| `Server.PushKeepsInv` | src/lib/sync-manager.ts:1331-1336 | Such a push keeps the whole invariant. |
| `Server.PushesSkipNothing` | src/lib/sync-manager.ts:16-23 | Every run in which pushes jump over nothing keeps it. |
| `Server.SlowAndFastIsReached` | src/lib/sync-manager.ts:16-23 | The state of the next row is reached by four ordinary steps. |
| `Server.PushCanLoseARow` | src/lib/sync-manager.ts:1156-1164 | A push over a slow transaction: its row, once committed, is never read again. |
| `ApplyChain.RunKeepsInv` | src/lib/sync-manager.ts:903-912 | In every run the chain is released tasks, at most one running, then waiting ones; disk cursor, pending cursor and shared cursor stay ordered. |
| `ApplyChain.OneAtATimeInOrder` | src/lib/sync-manager.ts:880-913 | A task starts only after every task submitted before it has settled. |
| `ApplyChain.NeverWedged` | src/lib/sync-manager.ts:905-911 | A task that throws does not block the next: while one is unsettled some step is enabled. |
| `ApplyChain.CursorsNeverGoBack` | src/lib/sync-manager.ts:867-919 | Between bootstraps neither the cursor in memory nor the one on disk decreases. |
| `ApplyChain.AppliesNeverMix` | src/lib/sync-manager.ts:880-919 | Memory holds the started batches and disk the flushed ones since the last bootstrap, each whole and in submission order, whatever throws. |
| `ApplyChain.CursorsCoverWhatIsHeld` | src/lib/sync-manager.ts:1156-1164 | In every run no action in memory lies beyond the shared cursor and none on disk beyond the persisted one, and a batch in flight lies below the cursor it will persist. |
| `Crash.OwnStamp` | src/lib/sync-manager.ts:680-690 | The stamp a bootstrap writes covers the required collections. |
| `Stream.PageIsSeen` | src/lib/sync-manager.ts:833-852 | A page carries exactly what is to be seen between the cursor and the page's end. |
| `Stream.EarlierPageIsSeen` | src/lib/sync-manager.ts:789-793 | So does a page that the server cut before the latest rows settled. |
| `Crash.StepKeepsInv` | src/lib/sync-manager.ts:581-756 | Every step, a crash at any await and a bootstrap put under a running page loop included: a stamped cache is a committed bootstrap plus the stretches of the stream paged over it, cursors fit their ends, and memory is ahead of the cache by the batch in flight. |
| `Crash.RunKeepsInv` | src/lib/sync-manager.ts:1164-1329 | The same for every run. |
| `Crash.StepKeepsStraightExactly` | src/lib/sync-manager.ts:1300-1329 | A step keeps the stretch whole and starting at the bootstrap's own cursor if and only if it is not a bootstrap committed under a loop that stands elsewhere. |
| `Crash.AcceptedCacheIsExact` | src/lib/sync-manager.ts:419-441 | A cache that is accepted equals the last committed bootstrap plus those stretches; in a run without such an overlap, plus the visible rows up to its persisted cursor. |
| `Crash.CaughtUpRows` | src/lib/sync-manager.ts:788-869 | A tab that has caught up holds the bootstrap, what a loop left that stopped short of it, and every visible row from where the present loop began. |
| `Crash.CaughtUpIsComplete` | src/lib/sync-manager.ts:788-869 | Without an overlap that is the bootstrap and every visible row after it, wherever earlier tabs died. |
| `Crash.CrashesLeaveNoTrace` | src/lib/sync-manager.ts:1164-1297 | Two such histories caught up on one log from one bootstrap have equal memory, and equal disk once flushed, crashes or not. |
| `CatchUps.LoopCatchesUp` | src/lib/sync-manager.ts:788-878 | A page loop left alone, wherever it stands, ends at rest with nothing beyond its cursor, after at most one page and one flush per 5,000 rows left and one more of each. |
| `CatchUps.AnyTabCatchesUp` | src/lib/sync-manager.ts:764-878 | From every state of every run, crashes included, a tab at rest over a bootstrap that starts a loop ends caught up, and without an overlap holds the bootstrap and every visible row after it. |
| `Rebootstrap.BootstrapHandsOver` | src/lib/sync-manager.ts:284-300 | A loop that pages from no further than the snapshot reaches and catches up ends with the rows of the whole stream, whatever it put over the snapshot and whatever the snapshot reflected early. |
| `Rebootstrap.StoppedShortExactly` | src/lib/sync-manager.ts:1315-1329 | If a loop stopped before it reached the bootstrap, a tab that has caught up since has the right rows if and only if no row clashes between the pages it put over the snapshot and the actions it never got to. |
| `Rebootstrap.LoopAheadExactly` | src/lib/sync-manager.ts:779-788 | If the loop was already beyond the snapshot, it has the right rows if and only if none is lost to the gap between them: none that the gap put otherwise, wrote other columns of, or deleted with an issue, with nothing later to cover that. |
| `Rebootstrap.StaleRowIsReached` | src/lib/sync-manager.ts:1315-1329 | A run that ends up to date, with an accepted cache, holding an old row over a newer one. |
| `Rebootstrap.MissingRowIsReached` | src/lib/sync-manager.ts:1315-1329 | A run that ends up to date, with an accepted cache, without a row the server has. |
| `CacheStamp.DeltaKeepsCompleteExactly` | src/lib/sync-manager.ts:1120-1130 | Pages keep a complete table complete if and only if the build that reads them knows the collection or they hold nothing on it. |
| `CacheStamp.GrowingBuildsAreSafe` | src/lib/db-collections.ts:13-32 | If builds only add collections, an accepted cache is complete for the build that accepts it. |
| `CacheStamp.AcceptedIsComplete` | src/lib/db-collections.ts:65-79 | In general it is complete on the collections no build has dropped. |
| `CacheStamp.StepCompleteExactly` | src/lib/sync-manager.ts:1120-1130 | Between bootstraps a step leaves a table complete if and only if it was and the step is not a page read by a build without the collection over an action on it. |
| `CacheStamp.CompleteExactly` | src/lib/db-collections.ts:13-32 | So from one bootstrap to the next a table is complete if and only if no build without the collection has paged an action on it. |
| `CacheStamp.BootstrapIsComplete` | src/lib/sync-manager.ts:680-690 | Right after a bootstrap every collection of the build is complete. |
| `CacheStamp.RollbackLeavesHole` | src/lib/db-collections.ts:68-71 | After a rollback and a roll-forward the stamp still covers a collection that misses an action. |
| `IssueStores.SetIssueKeepsIndex` | src/stores/issue-store.ts:97-104 | A single write keeps the index equal to the one a scan would build. |
| `IssueStores.DeleteIssueKeepsIndex` | src/stores/issue-store.ts:107-113 | So does a delete, which drops an emptied bucket. |
| `IssueStores.IndexAgreesWithScan` | src/stores/issue-store.ts:70-113 | After any run of single writes, bulk writes and deletes the index is the index of a scan. |
| `IssueStores.LooseLookup` | src/stores/issue-store.ts:138-156 | The weaker form, which tolerates ids that are gone, is enough for a lookup to equal a filter over the pool. |
| `IssueStores.DropKeepsLoose` | src/hooks/use-issue-create.ts:90-92 | Deleting from the pool behind the index keeps the weaker form. |
| `IssueStores.SetIssueKeepsLooseExactly` | src/stores/issue-store.ts:97-104 | A write keeps it if and only if the id is in the pool or listed under no team but its own. |
| `IssueStores.SetIssueLookupsExactly` | src/stores/issue-store.ts:97-104 | After a write every team lookup equals a filter over the pool if and only if the id kept its team or the issue is trashed or archived. |
| `IssueStores.ExactIsLoose` | src/stores/issue-store.ts:70-113 | An exact index also has the weaker form. |
| `IssueStores.DeleteKeepsLoose` | src/stores/issue-store.ts:107-113 | So does a store that is loose before one of its own deletes. |
| `IssueStores.LookupStaysRight` | src/hooks/use-issue-list-page.ts:209-211 | In any run mixed with deletions behind the index every team lookup equals a filter over the pool, as long as ids that come back keep the team they had. |
| `IssueStores.LookupInColumns` | src/stores/issue-store.ts:138-156 | After any such run the lookup of a team lists exactly the pool issues on that team that are neither trashed nor archived. |
| `IssueStores.MovedGhostIsListedTwice` | src/stores/issue-store.ts:97-104 | Otherwise the old team lists an issue that is not on it. |
| `IssueStores.SyncedServerRows` | src/stores/issue-store.ts:264-294 | On server rows a sync action is the replica step, and of the placeholders at most one goes and none changes. |
| `IssueStores.SyncedPool` | src/stores/issue-store.ts:264-294 | What a row does to the pool: it is there under its id with its columns, an inserted server row takes the place of the first stand-in of its team and title, and every other issue stays. |
| `IssueStores.SyncKeepsOrder` | src/stores/issue-store.ts:264-294 | Whatever arrives, the order goes on listing the keys of the pool, each once, and a new one comes last. |
| `IssueStores.IssueStore.IndexAddTo` | src/stores/issue-store.ts:70-78 | Adds one id to one bucket, which it creates if needed. |
| `IssueStores.IssueStore.IndexRemoveFrom` | src/stores/issue-store.ts:81-93 | Takes one id out of one bucket and drops it when it empties. |
| `IssueStores.IssueStore.Set` | src/stores/issue-store.ts:97-104 | Pool and buckets after a single write. |
| `IssueStores.IssueStore.Delete` | src/stores/issue-store.ts:107-113 | Pool and buckets after a delete. |
| `IssueStores.IssueStore.OptimisticUpdate` | src/stores/issue-store.ts:210-217 | A patch goes through the indexed write; an unknown id changes nothing. |
| `IssueStores.IssueStore.UpsertMany` | src/stores/issue-store.ts:219-262 | The bulk write is the fold of single writes, and replaces exactly the buckets that gained or lost an id on the way. |
| `IssueStores.IssueStore.FindByTeamId` | src/stores/issue-store.ts:138-156 | With an index that is at least loose, exactly the issues of the pool on that team that are neither trashed nor archived, each once. |
| `IssueStores.IssueStore.ApplySyncAction` | src/stores/issue-store.ts:264-294 | Delete, ignored bodyless upsert, or a write; an insert takes the place of the first matching placeholder in the order of the pool. |
| `IssueStores.IssueStore.DropPlaceholder` | src/stores/issue-store.ts:275-286 | The loop deletes the first match and stops there. |
| `TransactionQueues.TransactionQueue.ProcessNext` | src/lib/transaction-queue.ts:298-321 | Starts the head if the queue is idle, non-empty and online; registers the listener even when offline. |
| `TransactionQueues.TransactionQueue.EnqueueTransaction` | src/lib/transaction-queue.ts:96-122 | Appends, registers callbacks, clears the cache and issues the put. |
| `TransactionQueues.TransactionQueue.GetPendingIds` | src/lib/transaction-queue.ts:134-144 | The cached set, or without one exactly the ids that queued transactions carry under `id` or among `ids`. |
| `TransactionQueues.PendingIdsExactly` | src/lib/transaction-queue.ts:66-80 | Pending are exactly the ids that some queued transaction carries under `id` or among `ids`. |
| `TransactionQueues.TransactionQueue.SendSucceeded` | src/lib/transaction-queue.ts:323-354 | Shifts the head and issues the delete of its row. |
| `TransactionQueues.TransactionQueue.SendFailed` | src/lib/transaction-queue.ts:375-409 | Pauses offline without counting, gives up on a permanent or fourth failure, otherwise bumps the count and stores it. |
| `TransactionQueues.TransactionQueue.AfterUnpersist` | src/lib/transaction-queue.ts:354-402 | Runs the callback that is left and goes on, unless an error callback throws. |
| `TransactionQueues.TransactionQueue.BeginHydrate` | src/lib/transaction-queue.ts:178-194 | Reads the table unless the page is hydrated already. |
| `TransactionQueues.TransactionQueue.Has` | src/lib/transaction-queue.ts:204-206 | Whether a transaction with the id is in memory. |
| `TransactionQueues.TransactionQueue.ResumeHydrate` | src/lib/transaction-queue.ts:199-222 | Pushes the listed rows that are not in memory with a fresh budget, then drops foreign rows or starts draining. |
| `QueueRuns.PushMissingExtends` | src/lib/transaction-queue.ts:201-210 | Hydration extends the queue by rows of its list that were not in it, once each, with no retries counted, and leaves none out. |
| `QueueRuns.StepKeepsShape` | src/lib/transaction-queue.ts:298-416 | At most one request is in flight and it is the head; the loop waits for at most one write; nobody has more than three retries counted. |
| `QueueRuns.StepKeepsFifo` | src/lib/transaction-queue.ts:308-415 | What was pushed is what settled followed by what is queued, in that order; no transaction fails online a fifth time, and none is given up before its fourth failure. |
| `QueueRuns.StepKeepsAlive` | src/lib/transaction-queue.ts:298-416 | A queue that is draining, about to be kicked, or offline with its listener stays so after every step if and only if the step is not an error callback that throws with nothing left to wake it. |
| `QueueRuns.NeverStalls` | src/lib/transaction-queue.ts:298-416 | So in every run without such a throw the queue never stalls. |
| `QueueRuns.AliveMoves` | src/lib/transaction-queue.ts:298-321 | While online, such a queue always has a next step of its own. |
| `QueueRuns.QueueDrains` | src/lib/transaction-queue.ts:27-28 | Without new pushes the number of attempts that count is bounded by the sum of the attempts left, which is zero only for an empty queue. |
| `QueueRuns.StepKeepsDurable` | src/lib/transaction-queue.ts:349-402 | A stored row leaves the table only after the server settled the transaction or hydration dropped it as foreign. |
| `QueueRuns.HydratedQueue` | src/lib/transaction-queue.ts:178-222 | Whenever hydration reads the table, every row owed to the session ends up in the queue. |
| `QueueRuns.ReloadLosesNothing` | src/lib/transaction-queue.ts:178-222 | Reload at any moment, with any of the pending writes applied, then hydrate: every owed transaction is queued again, oldest first. |
| `QueueRuns.StepKeepsOnce` | src/lib/transaction-queue.ts:355-402 | No transaction's callback runs twice, over all pages. |
| `QueueRuns.StepKeepsCache` | src/lib/transaction-queue.ts:58-67 | The cached pending ids are those of the queue, except while hydration waits for foreign rows to go. |
| `QueueRuns.StepCacheRightExactly` | src/lib/transaction-queue.ts:209-219 | A step leaves a right cache wrong if and only if it is a hydration with foreign rows to drop first and a listed row, not in memory, that names an entity outside the cached ids. |
| `QueueRuns.IndicatorRightExactly` | src/lib/transaction-queue.ts:58-67 | Over a run the cached ids are right throughout if and only if no hydration is of that kind. |
| `QueueRuns.StoredOfflineIsReached` | src/lib/transaction-queue.ts:96-122 | Enqueued and stored on a page that is offline. |
| `QueueRuns.LeftBehindIsReached` | src/lib/transaction-queue.ts:124-126 | Another session on the same page, another enqueue, a reload: rows of two sessions in the table. |
| `QueueRuns.IndicatorLagsHydration` | src/lib/transaction-queue.ts:209-219 | From there hydration leaves the cached ids without the hydrated row until the foreign row is gone. |
| `QueueRuns.RunKeepsInv` | src/lib/transaction-queue.ts:96-416 | All of these in every run, across reloads. |
| `QueueRuns.ResumeDistinctExactly` | src/lib/transaction-queue.ts:199-210 | A hydration that resumes pushes no id a second time if and only if its listing is not stale: no listed row has settled on this page and left the queue. |
| `QueueRuns.SettledOnce` | src/lib/transaction-queue.ts:178-222 | In every run, whenever and however often hydration is called: no id is pushed twice on a page if and only if no hydration resumes with a stale listing; and then none settles twice. |
| `QueueRuns.MidFlightIsSent` | src/lib/transaction-queue.ts:96-122 | A session is opened and a change made before start-up has hydrated: its send is out. |
| `QueueRuns.MidFlightIsReached` | src/providers/sync-provider.tsx:82-100 | Start-up then hydrates that session, and the read lists the row being sent. |
| `QueueRuns.AnswerMakesStale` | src/lib/transaction-queue.ts:349-354 | The answer arrives before hydration resumes: the listing is stale. |
| `QueueRuns.HydratingMidFlightSendsTwice` | src/lib/transaction-queue.ts:201-210 | From there the settled transaction is sent a second time, with no row behind it. |
| `QueueRuns.FirstSentIsReached` | src/lib/transaction-queue.ts:298-321 | A transaction with an error callback is being sent. |
| `QueueRuns.RefusedIsReached` | src/lib/transaction-queue.ts:375-402 | A second one waits behind it when the server refuses it for good. |
| `QueueRuns.ThrowingCallbackStrands` | src/lib/transaction-queue.ts:389-402 | The callback throws: the second transaction waits and nothing will wake the queue. |
| `Replays.NoneGivenUpEarly` | src/lib/transaction-queue.ts:389-407 | Over every run: a transaction that was given up failed online exactly four times on the page, one that was accepted or refused for good fewer than five, and one still queued at most three. |
| `Replays.LeavesExactly` | src/lib/transaction-queue.ts:375-409 | In every reachable state: an answer takes the head off the queue exactly if it is a success, a refusal for good, or a fourth failure online; otherwise the queue keeps its order. |
| `Replays.SendsStartOnline` | src/lib/transaction-queue.ts:298-320 | A request goes out only while the browser is online, for the head of the queue, with none in flight. |
| `Replays.OfflineCostsNothing` | src/lib/transaction-queue.ts:375-387 | A request that fails while the browser is offline leaves queue, counts and rows alone and goes out again once the browser is back. |
| `Replays.TheRightCallbackRuns` | src/lib/transaction-queue.ts:355-398 | Over every run: callbacks run when the row has been dealt with and at no other time, and the one that runs is the one passed at the enqueue for this outcome, unless the session was closed since. |
| `Replays.NoMutationIsForgotten` | src/lib/transaction-queue.ts:96-122 | Over every run, reloads included: each transaction ever enqueued is settled, or dropped with another session's, or stored exactly as enqueued, or about to be, or its write is known to have failed; what waits in memory is what was enqueued. |
| `Replays.SettledIsOver` | src/lib/transaction-queue.ts:349-363 | What the server has answered is never sent again, on this page or after any number of reloads, unless deleting its row failed or was cut off, or a hydration resumed with a stale listing. |
| `Replays.HydratedExactly` | src/lib/transaction-queue.ts:170-206 | After a reload and a hydration the queue is made of the session's rows in the table and of no others. |
| `Replays.OthersRowsAreDropped` | src/lib/transaction-queue.ts:207-213 | A hydration deletes the rows of other sessions, all of them and nothing else. |
| `Replays.NobodyElsesMutations` | src/lib/transaction-queue.ts:36-41 | A page that serves one session never sends another one's mutations, whatever rows earlier users left. |
| `SaveQueues.SaveQueue.Schedule` | src/components/documents/document-save-queue.ts:123-132 | The slot of the field, and the status, after an edit. |
| `SaveQueues.SaveQueue.DoDispatch` | src/components/documents/document-save-queue.ts:54-63 | Hands the pending value to the transport, once, and forgets an older failure. |
| `SaveQueues.SaveQueue.Flush` | src/components/documents/document-save-queue.ts:95-100 | Sends the value of every pending field, once, in the order the timers were first set, and nothing else. |
| `SaveQueues.SaveQueue.Cancel` | src/components/documents/document-save-queue.ts:81-93 | Drops what is pending, and reports idle when nothing is in flight and no failure is kept. |
| `SaveQueues.SaveQueue.Retry` | src/components/documents/document-save-queue.ts:113-122 | Sends exactly the kept failures whose field has no newer pending edit, oldest failure first. |
| `SaveQueues.SaveQueue.OnError` | src/components/documents/document-save-queue.ts:64-71 | Keeps the value unless a newer edit is pending. |
| `SaveQueues.SaveQueue.OnSuccess` | src/components/documents/document-save-queue.ts:72-75 | One send fewer in flight. |
| `SaveQueues.SaveQueue.HasPending` | src/components/documents/document-save-queue.ts:101-103 | Whether the debounce timer of the field is set. |
| `SaveQueues.SaveQueue.IsDirty` | src/components/documents/document-save-queue.ts:109-111 | Whether an edit is waiting or sent and unanswered. |
| `SaveQueues.StartIsSafe` | src/components/documents/document-save-queue.ts:27-34 | A new queue meets every invariant below. |
| `SaveQueues.SaveQueue.SetStatus` | src/components/documents/document-save-queue.ts:36-41 | Subscribers hear every change of status and no repetition; the last thing they heard is the present status. |
| `SaveQueues.StepKeepsSound` | src/components/documents/document-save-queue.ts:43-52 | Saving exactly while something is pending or in flight, error exactly when nothing is and a failure is kept; counters match the sends. |
| `SaveQueues.RetrySafeExactly` | src/components/documents/document-save-queue.ts:113-122 | A retry keeps the newest edit safe from loss if and only if it does not send an older failure behind it. |
| `SaveQueues.StepKeepsSafe` | src/components/documents/document-save-queue.ts:54-132 | Every other step keeps it. |
| `SaveQueues.UnsafeCanLose` | src/components/documents/document-save-queue.ts:64-71 | The condition is no stronger than needed: otherwise failing the sends in flight loses the edit. |
| `SaveQueues.NoEditIsLost` | src/components/documents/document-editor.tsx:173-184 | With retries offered only from the error status the newest edit of each field is always pending, in flight, accepted or kept as failed. |
| `SaveQueues.StepKeepsFreshExactly` | src/components/documents/document-save-queue.ts:64-71 | A step keeps "nothing older can reach the server last" if and only if it is not an older send failing behind a newer one in flight. |
| `SaveQueues.FreshExactly` | src/components/documents/document-save-queue.ts:64-71 | The condition is no stronger than needed: once all sends are taken and the kept failure is retried and taken, the server's last value is the newest edit if and only if it held or the failure was the newest edit. |
| `SaveQueues.SavedMeansStored` | src/components/documents/document-save-queue.ts:43-52 | Without such a failure the status "saved" means the server's last value is the newest edit. |
| `SaveQueues.SavedMeansTaken` | src/components/documents/document-save-queue.ts:43-52 | Over every run: the status "saved" means the server has accepted a send. |
| `SaveQueues.CancelReportsIdle` | src/components/documents/document-save-queue.ts:81-93 | A cancel that leaves nothing in flight and no kept failure reports idle. |
| `SaveQueues.EventsOnAField` | src/components/documents/document-save-queue.ts:54-122 | What a dispatch, a retry, a flush, a cancel and a failure leave of a field's timer, value, count and failure. |
| `SaveQueues.OlderFailedIsReached` | src/components/documents/document-save-queue.ts:64-71 | Two edits, the first failing while the second is in flight: reached in five steps. |
| `SaveQueues.EagerRetryLosesNewest` | src/components/documents/document-save-queue.ts:113-122 | From there an immediate retry can lose the newest edit. |
| `SaveQueues.StaleRetryOverwrites` | src/components/documents/document-save-queue.ts:113-122 | And a retry from the error status overwrites it on the server under the status "saved". |
| `Fuzzy.GreedyIsComplete` | src/lib/fuzzy-search.ts:31-46 | The greedy scan matches as long a prefix of the query as any embedding does. |
| `Fuzzy.TallyBounds` | src/lib/fuzzy-search.ts:34-54 | Every match scores at least one and at most what an unbroken run would. |
| `Fuzzy.FuzzyScore` | src/lib/fuzzy-search.ts:13-55 | Positive exactly for subsequences; 1 for equality, 0.9 and a tenth of the share covered for a proper prefix, otherwise 0.8 times the points of the leftmost embedding over those of an unbroken run; always within [0, 1]. |
| `Fuzzy.SubsequenceScore` | src/lib/fuzzy-search.ts:31-55 | For a subsequence 0.8 times the points of the leftmost embedding, each match one more than the run before it, over those of one unbroken run. |
| `Fuzzy.ScoreOfRuns` | src/lib/fuzzy-search.ts:31-46 | The tally of the scan is the points of the leftmost embedding. |
| `Csv.RowsToCsv` | src/lib/csv-export.ts:26-35 | The mark, then header and rows, cells joined by commas and lines by CRLF; a reader of the file finds the headers first and every cell in its place. |
| `Csv.ScanCell` | src/lib/csv-export.ts:13-24 | A printed cell is read back, whatever commas, quotes, CR or LF it holds. |
| `Csv.FileHolds` | src/lib/csv-export.ts:13-35 | A reader of the file gets the headers first and then every cell in its row and column: nothing for a missing one, lists joined by a semicolon. |
| `Csv.PrintedBare` | src/lib/csv-export.ts:13-24 | A text is put in quotes exactly if it holds a comma, a quote or a line break. |
| `Csv.ReadsBackExactly` | src/lib/csv-export.ts:26-35 | An RFC 4180 reader recovers the table if and only if no row is empty; an empty row reads as one empty cell. |
| `Csv.PrintIsInjective` | src/lib/csv-export.ts:26-35 | Two different tables without empty rows never print alike. |
| `Sorting.Comparator` | src/lib/filter-engine.ts:229-273 | The loop returns what the first deciding field says. |
| `Sorting.ComparatorIsPreorder` | src/lib/filter-engine.ts:229-273 | For every list of fields the comparator is a total preorder, given that the collation is one. |
| `Sorting.ApplySortingSorts` | src/lib/filter-engine.ts:220-274 | The result is the one stable sort of the list by the comparator, and a permutation of it. |
| `Sorting.NoPriorityLast` | src/lib/filter-engine.ts:235-244 | Among issues tied on the fields before, those without a priority come last in both directions. |
| `Sorting.ColumnsAreInOrder` | src/lib/filter-engine.ts:220-274 | Of two issues tied on the fields before, the earlier one in the result has the smaller column if the field sorts up and the greater if it sorts down. |
| `Chart.EndsAreLabelled` | src/components/cycles/chart-geometry.ts:80-89 | With two points or more the first and the last keep their labels. |
| `Chart.LabelsNeverCrowdExactly` | src/components/cycles/chart-geometry.ts:67-89 | Any two kept labels are at least 52 px apart if and only if the plot is at least 52 px wide. |
| `Chart.LabelsInPixels` | src/components/cycles/chart-geometry.ts:67-89 | In pixels: labels are 52 px apart exactly if the chart is at least 100 px wide. |
| `Chart.StepIsLeast` | src/components/cycles/chart-geometry.ts:67-79 | The step is the least that gives each label 52 px. |
| `Chart.NoLabelIsDroppedInVain` | src/components/cycles/chart-geometry.ts:80-89 | Every multiple of the step keeps its label unless it is nearer than a step to the last point. |

## Left out

- MobX reactivity, Dexie internals, `fetch`, logging, user interface, sessions and the WebSocket client: plumbing around the modelled state.
- IndexedDB transactions that fail: a failed flush leaves memory ahead of disk and the next batch persists a cursor past it; Crash and Flush assume that transactions commit or are cut off by a crash.
- Several tabs on one IndexedDB.
- Crash.StepKeepsInv: runs with delta reads and bootstraps only, because a live batch may move the persisted cursor past unread rows (`Server.PushKeepsPromisesExactly`).
- Crash.AcceptedCacheIsExact: favourites are outside it (`Bootstraps.BootstrapAgreesExactly`); the emptiness test on organizations is modelled as a flag that a bootstrap sets, because its payload always carries the organization.
- Bootstraps.BootstrapAgreesExactly: parsing the response and keeping a placeholder apart from a server row are outside it; a payload is parsed and holds server rows only.
- Flush.CopiesAgreeExactly: initiative-to-project links and the organization row are outside it, because the code treats the two copies of these differently on purpose or by omission (an initiative's delete cascades in memory only, an archive of a link is written to disk only, the organization has no store).
- Flush.CopiesAgreeExactly: assumes that the server names a row by its own id, that no issue has the empty id, and that a value row keeps its id, issue and field and occurs once per set; the string key `issueId:definitionId` is a pair here.
- Replica.EarlyDeliveryAbsorbed: assumes the server names a row by its own id; placeholders are outside it.
- Clients.CleanBatch: a placeholder under the id of a server row lends that row its labels; there the client's own fold is the only description.
- SyncManagers.SyncManager.ApplyActions: cursors are held decoded, which Cursor.AdvanceThroughDecodes justifies; scheduling is a count of calls, since the timer behind it is a step that may happen at any time.
- SyncManagers.SyncManager.DeltaSync: what a fallback would fetch is a parameter; the status line and the follow-up timer are not modelled.
- CatchUps.LoopCatchesUp: leaves the page limit aside; a loop with more than 1,000,000 rows before it is cut there (`DeltaLoop.LoopIsComplete`) and the next one goes on.
- Interference.LiveBatchesAreAbsorbed: assumes a pushed action is one the loop has yet to be served, or one that follows; all other pushes are in `Interference.LiveMattersExactly`, and one of a row that no delta ever brings in `Server.PushCanLoseARow`.
- Optimistic rollback chains: two rejected updates in a row do not restore the original row, so no clean law holds.
- Unknown verbs and unknown models, which the stores ignore, and a visibility change that turns an update into a delete on the server.
- Retention: a pruned cursor is the answer `Stale`, which ends the loop in a bootstrap; when the server gives it is not modelled.
- Callbacks that enqueue from inside `onSuccess` or `onError`, and queue listeners that throw.
- QueueRuns.StepKeepsFifo: counts failures per push, so a transaction hydrated again starts a new count, as its comment promises.
- Delays and jitter: timers are steps that may happen at any time.
- Csv.RowsToCsv: `String(value)` is a parameter of the cell; `downloadCsv` is left out.
- Fuzzy.FuzzyScore: scores are reals, and lower-casing is any function that is empty on the empty string alone.
- Sorting.ApplySortingSorts: the engine's sort is taken at its word, a stable sort, and proved to leave no choice; numbers are finite.
- Chart.LabelsNeverCrowdExactly: coordinates are reals.
- Filter matching, coercion of stored filters, y-axis ticks and SVG paths: they would only add easy members.
- The other stores that only forward to `applyPoolSyncAction`: one generic pool covers them.
