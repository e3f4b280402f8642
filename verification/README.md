# A model of the unisonfs sync core

`unisonfs` mounts a remote document store as a file system. Reads and writes go to a local
cache, a set of SQLite tables; a push worker sends local edits to the server and a pull
loop brings other clients' edits back. This project models that cache and that protocol in
Dafny 4.11 and proves what they guarantee, for all inputs and all runs, and where they do
not, the exact condition under which they do. `dafny verify dfyconfig.toml` checks it all.

Code that updates tables or objects in place is modelled by classes and methods (`Database`,
`PushWorker`, `DbFile`, `UnisonFs`, `Pull`, `MemFs`, `Hydration`). Each method is proved equal
to a function on values, or to a property of its result, and the theorems are about those
functions. Protocols are transition systems: a run is any list of steps, and a step that is
not enabled changes nothing. Fields marked "history" record what happened; nothing
branches on them.

| part | modules |
|---|---|
| push queue, its worker, every interleaving of workers and enqueuers | `PushQueue`, `PushWorker`, `PushRuns`, `PushReorder`, `PushRetries`, `NoisePaths` |
| chunked files against a flat buffer | `ChunkStore`, `ChunkGaps`, `DbFile` |
| the cached tree against a map from path to bytes; deriving and resolving paths | `Paths`, `Tree`, `PathRoundTrip`, `TreeRuns`, `Database`, `UnisonFs` |
| timestamps and pull reconciliation | `Calendar`, `Pull`, `PullRuns` |
| the whole sync protocol | `Sync`, `SyncRuns`, `SyncEdits`, `SyncRefinement`, `SyncQueue` |
| the in-memory file system | `MemTree`, `MemRuns`, `MemEffects`, `MemMarkers`, `MemFs` |
| hydration queue, directory paging, marker files, agent hints | `Hydration`, `NfsReaddir`, `Marker`, `AgentHint`, `HintRuns` |

## What the code does not guarantee

Each of these is a proved statement with a concrete run or an exact condition.

- A push is not atomic: it clears the dirty flag when it settles, whatever happened since it
  was sent (`SyncRuns.SettleKeepsFlagsIff`). An edit made meanwhile can be overwritten by a
  pull although nobody else touched the document (`SyncRuns.LostEditRun`), and a document can
  diverge with no trace left in the queue, the flags or the watermark
  (`SyncRuns.SilentDivergenceRun`). `Sync.LosesNews` is the one coincidence behind the second;
  without it nothing diverges unnoticed, it never happens where a push iteration is one
  step, and `SyncRuns.LostNewsDivergesIff` says when it does its harm. Where no push settles
  while there is an edit it does not carry, a pull leaves the bytes of a document with edits
  not sent yet if and only if the document is recorded and the newest write or flush among
  them is no older than the pulled stamp, or the bytes are the same
  (`SyncEdits.EditsSurvivePullIff`).
- A truncation raises no dirty flag, so a pull takes that of a clean document back even where
  what it brings is stamped no later (`SyncEdits.TruncationLostRun`).
- Between the dirty guard and the upsert another task can take the lock; a write that falls
  there is lost although the guard would have held the document off
  (`SyncEdits.RaceLosesIff`). Hydration upserts with no guard at all
  (`PullRuns.HydrationOverwrites`).
- A new file that was written but never flushed has no `fs_remote` row, so the dirty guard
  does not see it and a pull overwrites it (`Pull.DirtyGuardIff`, `PullRuns.UnflushedFileLost`).
- A full pull can lower the watermark, where newer documents are held off by their dirty flags
  (`Pull.FullLowersIff`, `PullRuns.FullPullGoesBack`).
- A write that starts in a chunk after the one the file ends in leaves a hole, and a truncation
  that grows a file adds no bytes (`ChunkStore.WriteAgreesIff`, `ChunkStore.TruncateAgreesIff`).
  A read of bytes that are missing can panic (`ChunkGaps.GapReadPanicsIff`,
  `ChunkGaps.GrownReadPanicsIff`), come back short, or return bytes from further up as if they
  were the ones asked for (`ChunkGaps.ShiftedRead`); `ChunkGaps.GapReadRightIff` and
  `ChunkGaps.GrownReadRightIff` say exactly which reads are right, and
  `ChunkGaps.HoleFilledIff` which later writes mend the file.
- An enqueue on a row that failed and still has a pending op puts the older op after the
  newer one (`PushRuns.EnqueueKeepsOrderIff`), and the older one can then win on the server
  (`PushRuns.ReorderingRun`), unless the row is poisoned (`PushReorder.ReorderedSendsIff`).
- A path whose row is poisoned is never pushed again, although later edits are still enqueued
  there (`PushRuns.PoisonedNeverSent`).
- The shutdown drain leaves each job it claims in flight for good; its comment says the job is
  put back (`PushWorker.DrainRemaining`, `PushRuns.LeakedNeverSent`).
- `build_path_for_ino` gives back the path of an inode for paths of up to 64 names under
  `private` or `workspace`, for one odd shape of 66 names, and for no others
  (`PathRoundTrip.BuildInvertsResolve`), so a new file at the root spoils the recorded paths
  (`TreeRuns.RootFileKeepsPathsIff`); the comment on `parse_iso8601_ms` says that leap years
  are ignored, but the code counts them (`Calendar.DaysBeforeYearClosed`).
- Removing a directory entry leaves it in the LRU cache (`UnisonFs.RemoveKeepsCoherentIff`,
  `UnisonFs.LookedUpThenRemoved`).
- `MemFs::rename` into a directory that is not there, into the moved subtree, or onto a
  directory breaks the tree, unless that directory has run out of links and of other entries
  (`MemRuns.RenameGoodIff`).
- `MemFs::rmdir` drops whatever bears the hidden marker's name: another name of it then dangles,
  and what a directory of that name held is lost (`MemMarkers.RmdirGoodIff`,
  `MemMarkers.LinkedMarkerRun`).
- Paging through a directory with two links of one inode goes wrong where a full page ends on
  the later one, and only there (`NfsReaddir.PagingIff`); with pages of one entry it then never
  ends (`NfsReaddir.OneByOneEndsIff`).
- Taking out a hint block that does not start a line leaves a stray `<` (`AgentHint.StripTidyIff`,
  `AgentHint.StripMidLine`).
- A marker value with a line feed, or one that ends in a double quote, does not read back as
  written (`Marker.ParseFormatIff`).

## Model

| member | source | states |
|---|---|---|
| Database.Db.constructor | crates/unisonfs-core/src/cache/db.rs:34-107 | a fresh database holds the root directory, and nothing is queued, dirty or pulled |
| Database.Db.SetDirtySince | crates/unisonfs-core/src/cache/db.rs:145-151 | sets or clears the flag of one inode; an inode without a row gets none |
| Database.Db.SetRemotePath | crates/unisonfs-core/src/cache/db.rs:132-138 | records or replaces the remote path of one inode and of no other |
| Database.Db.DeleteRemotePath | crates/unisonfs-core/src/cache/db.rs:140-143 | forgets the remote path of one inode and of no other |
| Database.Db.InoByRemotePath | crates/unisonfs-core/src/cache/db.rs:182-191 | finds an inode recorded for the path exactly when there is one |
| Database.Db.PushQueueUpsert | crates/unisonfs-core/src/cache/db.rs:210-261 | latest wins: a new row, a replaced op with its attempts forgotten, or the pending slot of a row in flight; noise paths change nothing; all other rows stay |
| Database.Db.PushQueueClaimNext | crates/unisonfs-core/src/cache/db.rs:264-300 | claims nothing exactly when nothing is claimable; otherwise a row of least stamp, of which only the in-flight mark changes |
| Database.Db.PushQueueFinalizeSuccess | crates/unisonfs-core/src/cache/db.rs:302-333 | the row is gone, or carries its pending op with no attempts used |
| Database.Db.PushQueueFinalizeFailure | crates/unisonfs-core/src/cache/db.rs:335-352 | one more attempt, out of flight, not before the backoff; op and pending op stay |
| Database.Db.PushQueuePoison | crates/unisonfs-core/src/cache/db.rs:354-372 | the row is poisoned and out of flight, with both its ops |
| Database.Db.ReadAllContent | crates/unisonfs-core/src/cache/db.rs:416-443 | all chunk rows in index order, cut to the recorded size; nothing for a missing inode |
| Database.Db.BuildPathForIno | crates/unisonfs-core/src/cache/db.rs:448-487 | the path built from the names on the way up, or none for the root and for orphans |
| PushWorker.Settle | crates/unisonfs-core/src/sync/push.rs:84-146 | what each answer does to the row of the job; a successful write clears the flag of its inode, a successful delete the flag and the remote row of the inode recorded for the path, and nothing else changes |
| PushWorker.DrainOnce | crates/unisonfs-core/src/sync/push.rs:66-147 | one iteration: nothing when nothing is claimable; else one claimed job, sent or, out of attempts, poisoned |
| PushWorker.DrainAvailable | crates/unisonfs-core/src/sync/push.rs:65-148 | for any server and any clock the loop ends, within the budget of the rows it began with; nothing is claimable then, and the flags and remote rows that are gone are those of the writes and deletes that succeeded |
| PushWorker.DrainTurn | crates/unisonfs-core/src/sync/push.rs:166-174 | the job it claims stays in flight, pushed by nobody; rows in flight before are left alone |
| PushWorker.DrainRemaining | crates/unisonfs-core/src/sync/push.rs:151-175 | if anything was claimable when it began, a row is left in flight at the end |
| PushQueue.PassSpendsBudget | crates/unisonfs-core/src/sync/push.rs:65-148 | each iteration, whatever the server answers, lowers the sum of 11 less the attempts per row that is not poisoned plus 11 per pending op |
| PushQueue.BackoffBounds | crates/unisonfs-core/src/sync/push.rs:136-136 | while a job may be sent, its backoff is within 500 to 30000 ms and does not shrink with the next failure; the power stays at most 512 |
| PushQueue.InflightUntouched | crates/unisonfs-core/src/sync/push.rs:65-148 | a drain leaves alone every row that was in flight when it began |
| PushRuns.MutualExclusion | crates/unisonfs-core/src/cache/db.rs:210-372 | in every interleaving of enqueuers and workers a row is in flight exactly when one worker holds its job or it was let go of, two workers never hold one path, and attempts stay within 10 |
| PushRuns.HeldRowsAreStable | crates/unisonfs-core/src/cache/db.rs:210-372 | no step changes the op under its holder, and poisoned and leaked rows stay that way |
| PushRuns.NoLostUpdate | crates/unisonfs-core/src/cache/db.rs:210-372 | in every interleaving the newest op of a path is in its row's op slot, in its pending slot, or was sent with success |
| PushRuns.SentAtMostTenTimes | crates/unisonfs-core/src/sync/push.rs:65-148 | in every interleaving an enqueued op is sent at most 10 times |
| PushRuns.EnqueueKeepsOrderIff | crates/unisonfs-core/src/cache/db.rs:225-258 | an enqueue keeps the slots in order if and only if the row is not out of flight with a pending op |
| PushRuns.PerPathOrder | crates/unisonfs-core/src/cache/db.rs:225-352 | in runs without such enqueues the sends of a path follow enqueue order, and where the row is gone the last successful send was the last enqueue |
| PushRuns.ReorderingRun | crates/unisonfs-core/src/cache/db.rs:245-257 | a run of one worker and one path in which a stale delete reaches the server after the newer write |
| PushReorder.ReorderedSendsIff | crates/unisonfs-core/src/cache/db.rs:225-258 | after an enqueue on a row out of flight with a pending op, some continuation without enqueues sends the path's ops out of order if and only if the row is not poisoned; on a poisoned one none does, whatever follows |
| PushRuns.LeakedNeverSent | crates/unisonfs-core/src/sync/push.rs:166-173 | a job that was claimed and let go of is never sent again, whatever happens |
| PushRuns.PoisonedNeverSent | crates/unisonfs-core/src/cache/db.rs:245-257 | nothing is sent any more for a path whose row is poisoned, whatever is enqueued: an enqueue replaces the op and leaves the poison |
| PushRuns.OvertakenAtMostOnce | crates/unisonfs-core/src/cache/db.rs:264-372 | while a ready row waits, no other path is claimed twice at readings above its stamp, and paths not queued yet do not come first |
| PushRuns.NotOvertakenTwice | crates/unisonfs-core/src/cache/db.rs:264-372 | the same for two claims of a run: while a row is ready, untouched and stamped t, claims at readings above t are of different paths |
| PushRuns.OvertakingBound | crates/unisonfs-core/src/cache/db.rs:264-372 | a ready row is overtaken at most once per other row of the queue |
| PushRetries.FailureSettles | crates/unisonfs-core/src/sync/push.rs:114-142 | in every reachable state a failure with Auth, Forbidden, FsContract or Rejected poisons the row and counts no attempt; one with NotFound, Conflict, RateLimited, Server or Network counts one attempt more and stamps the row 500, 1000, 2000, 4000, 8000, 16000 or, from the seventh on, 30000 ms after the claim; no other row changes |
| PushRetries.SuccessSettles | crates/unisonfs-core/src/cache/db.rs:302-333 | a success takes the row away, or makes its pending op the op at once with no attempts used |
| PushRetries.UsedUpSettles | crates/unisonfs-core/src/sync/push.rs:72-80 | a job whose row counts ten attempts is not sent, and its row is poisoned |
| PushRetries.WorkerFinishes | crates/unisonfs-core/src/sync/push.rs:65-147 | a busy worker can always send its job, with any answer, unless it has it or ten attempts are used up, and then settle it |
| PushRetries.AttemptsAreFailures | crates/unisonfs-core/src/cache/db.rs:245-352 | in every interleaving the attempt count of a row is the number of retryable failures since its last success or the last enqueue that replaced its op |
| PushRetries.PoisonedOnlySo | crates/unisonfs-core/src/sync/push.rs:65-148 | in every interleaving a poisoned row was poisoned by one of the four refusals, or when claimed after ten retryable failures |
| PushRetries.RetryWaits | crates/unisonfs-core/src/cache/db.rs:264-352 | after a retryable failure the path is not claimed in any continuation at a reading before its delay is over, unless it is enqueued again |
| PushRetries.RetryReadyIff | crates/unisonfs-core/src/cache/db.rs:264-352 | while nothing touches the path, a free worker can claim it at a reading if and only if the delay is over by then and no ready row has an older stamp |
| PushRetries.EnqueueLeaves | crates/unisonfs-core/src/cache/db.rs:225-258 | what an enqueue of any op leaves: in the pending slot alone while the row is in flight, else in the op slot with no attempts used and ready at its reading, poison and pending op as they were; no other row changes |
| PushRetries.DrainedInOrder | crates/unisonfs-core/src/sync/push.rs:65-82 | the k-th iteration of a drain claims, at the k-th reading, a ready row of least stamp, and asks the server unless ten attempts are used up |
| PushRetries.PassLeaves | crates/unisonfs-core/src/sync/push.rs:65-147 | what an iteration leaves of that row, for no answer, a success, each refusal and each retryable failure; all other rows stay |
| PushRetries.UnflaggedIff | crates/unisonfs-core/src/sync/push.rs:94-110 | after a drain an inode has lost its flag if and only if a write of it succeeded or it was cleaned up after a delete, and its remote row if and only if the latter; it was then recorded for the deleted path |
| PushRetries.DeletedIsCleaned | crates/unisonfs-core/src/sync/push.rs:103-110 | an inode alone recorded for a path whose delete succeeded has lost its remote row |
| NoisePaths.NoiseIff | crates/unisonfs-core/src/cache/db.rs:566-595 | a path of ordinary names is noise if and only if its first name begins with one of four prefixes, or its last name with `._` or is one of eight names |
| NoisePaths.NoiseIsDropped | crates/unisonfs-core/src/cache/db.rs:217-219 | an op for such a path changes no row |
| NoisePaths.OrdinaryIsQueued | crates/unisonfs-core/src/cache/db.rs:210-258 | an op for a path whose first and last name begin with no dot and whose last is not `Icon` and a carriage return is in the row of that path afterwards, stamped with the reading, and no other row changes |
| ChunkStore.ReadRefines | crates/unisonfs-core/src/cache/file.rs:38-79 | a read at any offset and length returns what the flat buffer returns, and does not panic |
| ChunkStore.MergeMeaning | crates/unisonfs-core/src/cache/file.rs:135-165 | the length and every byte of a chunk after its part of a write, gaps filled with zeros |
| ChunkStore.WriteRefines | crates/unisonfs-core/src/cache/file.rs:81-198 | a covered write leaves exactly the chunks that stand for the overwritten buffer |
| ChunkStore.TruncateRefines | crates/unisonfs-core/src/cache/file.rs:200-255 | a truncation that does not grow the file leaves exactly the chunks of the shorter buffer |
| ChunkStore.ReplaceRefines | crates/unisonfs-core/src/cache/fs.rs:406-436 | a body written from scratch is cut into exactly the chunks that stand for it |
| ChunkStore.ReadAllRefines | crates/unisonfs-core/src/cache/db.rs:416-443 | reading the whole file returns the buffer it stands for |
| ChunkStore.ReadAllIs | crates/unisonfs-core/src/cache/db.rs:416-443 | for any rows and size it is as many of the first bytes of the rows as the size allows |
| ChunkStore.WriteAgreesIff | crates/unisonfs-core/src/cache/file.rs:81-198 | the whole content after a write is the overwritten buffer if and only if offset/chunk <= size/chunk (for an empty write: offset <= size) |
| ChunkStore.TruncateAgreesIff | crates/unisonfs-core/src/cache/file.rs:200-255 | the whole content after a truncation is the resized buffer if and only if it does not grow |
| ChunkStore.GrowingTruncate | crates/unisonfs-core/src/cache/file.rs:220-255 | a larger size is recorded, but no chunk grows |
| ChunkGaps.GapReadPanicsIff | crates/unisonfs-core/src/cache/file.rs:46-78 | after any write beyond a hole, any read panics if and only if it starts in a chunk before the written ones and its rows hold fewer bytes, before and after the hole, than lie in front of its offset in that chunk |
| ChunkGaps.GapReadRightIff | crates/unisonfs-core/src/cache/file.rs:46-78 | it returns what the flat buffer returns if and only if it starts in a written chunk or past the end, asks only for bytes from before, or for none without panicking, or finds as many and the same bytes further up |
| ChunkGaps.ShiftedRead | crates/unisonfs-core/src/cache/file.rs:46-78 | a read that silently returns the written bytes in the place of missing ones |
| ChunkGaps.HoleFilledIff | crates/unisonfs-core/src/cache/file.rs:81-198 | a later write makes the chunks those of the flat buffer again if and only if it starts no later than in the chunk the file ended in and reaches the first written chunk |
| ChunkGaps.GrownReadPanicsIff | crates/unisonfs-core/src/cache/file.rs:75-78 | after any growing truncation a read panics if and only if it starts in the new part and not where a chunk starts |
| ChunkGaps.GrownReadRightIff | crates/unisonfs-core/src/cache/file.rs:46-78 | such a read returns what the flat buffer returns if and only if it starts past the end, asks only for bytes from before, or for none without panicking |
| ChunkStore.StepAgreesIff | crates/unisonfs-core/src/cache/file.rs:38-255 | each operation keeps file and buffer equal if and only if it is covered |
| ChunkStore.RunRefines | crates/unisonfs-core/src/vfs/mem.rs:546-581 | over any covered sequence every read returns what the in-memory handle returns, and so does the whole content at the end |
| DbFile.DbFile.Read | crates/unisonfs-core/src/cache/file.rs:38-79 | the read of the theorems above, or the database error for an inode without a row |
| DbFile.DbFile.Write | crates/unisonfs-core/src/cache/file.rs:81-198 | the write of the theorems above on this inode's rows only, its length, and the dirty flag set; an empty write changes nothing |
| DbFile.DbFile.MergeChunks | crates/unisonfs-core/src/cache/file.rs:104-177 | the fetched chunks, merged in turn and put back, are the rows after the write |
| DbFile.DbFile.MergeOne | crates/unisonfs-core/src/cache/file.rs:135-165 | one pass of the merge loop |
| DbFile.DbFile.Truncate | crates/unisonfs-core/src/cache/file.rs:200-255 | the truncation of the theorems above; the dirty flag is not touched |
| DbFile.DbFile.Flush | crates/unisonfs-core/src/cache/file.rs:257-282 | registers the derived path of a new file, marks it dirty and enqueues a write under that path; without a path nothing changes |
| Paths.ParentParts | crates/unisonfs-core/src/cache/fs.rs:440-462 | the directory an upsert resolves is the one its directories were ensured for, for every path string |
| Paths.AbsoluteParts | crates/unisonfs-core/src/cache/fs.rs:477-486 | taking an absolute path apart gives back its names, for resolving and for upserting |
| Tree.OnePath | crates/unisonfs-core/src/cache/schema.sql:26-32 | in a tree with one entry per inode no inode has two paths |
| Tree.MakeDirsGrows | crates/unisonfs-core/src/cache/fs.rs:375-402 | ensuring directories makes the path resolve and adds nothing that does not lead there |
| Tree.PlaceMeaning | crates/unisonfs-core/src/cache/fs.rs:440-470 | placing a document keeps the tree well formed, finds or makes its inode, and records a remote path for a new one only |
| Tree.UpsertKeepsFiles | crates/unisonfs-core/src/cache/fs.rs:440-474 | no other inode's size or chunk rows change |
| Tree.UpsertUpdatesOnePath | crates/unisonfs-core/src/cache/fs.rs:440-474 | an upsert gives its path exactly the new body, changes no other document and no other path's inode, and the only other paths it makes are directories on the way |
| PathRoundTrip.ClimbMeaning | crates/unisonfs-core/src/cache/db.rs:452-471 | the climb collects the last 64 names of the path, in order |
| PathRoundTrip.MountPathMeaning | crates/unisonfs-core/src/cache/db.rs:475-485 | joined names pass through under a writable root, and are private notes otherwise |
| PathRoundTrip.BuildInvertsResolve | crates/unisonfs-core/src/cache/db.rs:448-487 | the built path is the inode's path, and resolves to the inode, if and only if the path round-trips: at most 64 names under private or workspace, or the one shape of 66 |
| PathRoundTrip.UpsertKeepsPaths | crates/unisonfs-core/src/cache/fs.rs:440-474 | an upsert keeps every recorded remote path resolving to its own inode |
| PathRoundTrip.FlushKeepsPathsIff | crates/unisonfs-core/src/cache/file.rs:265-280 | the first flush of a file keeps that if and only if its path round-trips |
| TreeRuns.StepRefines | crates/unisonfs-core/src/cache/fs.rs:375-486 | upsert, mkdir, create, covered write, shrinking truncation and flush do to the tree what they do to a map of documents and a set of directories |
| TreeRuns.TreeRefinesMap | crates/unisonfs-core/src/cache/fs.rs:375-676 | after any run of them the documents of the tree are those of the map: the same paths with the same bytes |
| TreeRuns.InodesAreStable | crates/unisonfs-core/src/cache/fs.rs:375-676 | a resolved path keeps its inode through any run |
| TreeRuns.RemotePathsConsistent | crates/unisonfs-core/src/cache/file.rs:265-280 | in runs whose first flushes are of round-tripping paths every remote path resolves to its own inode and no two inodes share one |
| TreeRuns.RootFileKeepsPathsIff | crates/unisonfs-core/src/cache/file.rs:265-280 | creating and flushing a new file at the root keeps the remote paths consistent if and only if it is named private or workspace |
| UnisonFs.CacheGetIsTable | crates/unisonfs-core/src/cache/fs.rs:234-250 | what a coherent cache answers is what the table answers |
| UnisonFs.RemoveKeepsCoherentIff | crates/unisonfs-core/src/cache/fs.rs:318-326 | removing an entry from the table alone keeps the cache coherent if and only if the entry is not cached |
| UnisonFs.LookedUpThenRemoved | crates/unisonfs-core/src/cache/fs.rs:234-250 | an entry looked up and then removed from the table is still found through the cache |
| UnisonFs.LeastRecentlyUsed | crates/unisonfs-core/src/cache/fs.rs:234-250 | after any sequence of lookups that hit, an entry is cached, with the inode of its last use, if and only if no more than `capacity` keys, itself counted, were used since that use |
| UnisonFs.NeverUsed | crates/unisonfs-core/src/cache/fs.rs:234-250 | a key that was never used is not cached |
| UnisonFs.UnisonFs.LookupIno | crates/unisonfs-core/src/cache/fs.rs:234-250 | the table's answer, whatever is cached and evicted; the entry is put in front within capacity |
| UnisonFs.UnisonFs.CreateInode | crates/unisonfs-core/src/cache/fs.rs:264-306 | a new inode under the next number, empty |
| UnisonFs.UnisonFs.InsertDentry | crates/unisonfs-core/src/cache/fs.rs:308-316 | inserts or replaces one entry; the cache stays coherent where nothing is replaced |
| UnisonFs.UnisonFs.EnsureDirsForPath | crates/unisonfs-core/src/cache/fs.rs:375-402 | the tables after ensuring the directories of the path, empty components skipped |
| UnisonFs.UnisonFs.ResolvePathToIno | crates/unisonfs-core/src/cache/fs.rs:477-486 | the inode a walk over the non-empty components reaches, if any |
| UnisonFs.UnisonFs.WriteContentToIno | crates/unisonfs-core/src/cache/fs.rs:406-436 | the inode's rows and size are exactly those of the body cut from scratch |
| UnisonFs.UnisonFs.UpsertBrainDoc | crates/unisonfs-core/src/cache/fs.rs:440-474 | the tables and the inode of the upsert the theorems are about; the cache stays coherent |
| UnisonFs.UnisonFs.Mkdir | crates/unisonfs-core/src/cache/fs.rs:603-623 | a new directory under a vacant name, or the error that applies, in the order of the checks, with the tables unchanged |
| UnisonFs.UnisonFs.CreateFile | crates/unisonfs-core/src/cache/fs.rs:648-676 | a new file, or the existing inode, or the error that applies |
| Calendar.DaysFromEpoch | crates/unisonfs-core/src/sync/pull.rs:297-306 | the loops compute the day number |
| Calendar.DaysBeforeYearClosed | crates/unisonfs-core/src/sync/pull.rs:278-301 | the days before a year equal 365 per year plus the leap days counted by y/4 - y/100 + y/400 |
| Calendar.DaysClosed | crates/unisonfs-core/src/sync/pull.rs:278-306 | for every year from 1970, month and day the day number is 365 y + y/4 - y/100 + y/400 + (153 m + 2)/5 + day - 719469, with months m and years y counted from March |
| Calendar.NextDayCountsOne | crates/unisonfs-core/src/sync/pull.rs:282-306 | the next day of the calendar has the next number |
| Calendar.DaysIncrease | crates/unisonfs-core/src/sync/pull.rs:297-306 | a later valid date has a larger number |
| Calendar.DaysBijective | crates/unisonfs-core/src/sync/pull.rs:297-306 | valid dates since 1970-01-01 and the naturals correspond one to one, each natural is reached, and in order |
| Calendar.ParseRender | crates/unisonfs-core/src/sync/pull.rs:248-276 | reading a UTC timestamp with any fraction gives its second since the epoch, in milliseconds |
| Calendar.ParseUnits | crates/unisonfs-core/src/sync/pull.rs:248-276 | the number read is 1000 (86400 days + 3600 hours + 60 minutes + seconds) |
| Calendar.OneStamp | crates/unisonfs-core/src/sync/pull.rs:248-276 | 2024-04-15T12:34:56.789Z reads as 1713184496000 |
| Calendar.UnreadIff | crates/unisonfs-core/src/sync/pull.rs:248-268 | a text is not read if and only if it has fewer than three fields on either side of its first `T`, or one of the six that count is no number |
| Basics.ParseIntReads | crates/unisonfs-core/src/sync/pull.rs:262-268 | a field of digits is read as its number, with either sign, if it fits 64 bits |
| Calendar.StringOrderAgrees | crates/unisonfs-core/src/sync/pull.rs:45-56 | the string order of the watermark never contradicts the number order of the dirty guard |
| Pull.ReconcileDoc | crates/unisonfs-core/src/sync/pull.rs:48-65 | a document is applied exactly when the dirty guard does not protect its inode; the tables are then those of the upsert, and the flag of the inode is cleared |
| Pull.ReconcileAll | crates/unisonfs-core/src/sync/pull.rs:44-69 | the cache, the count and the newest timestamp after the loop over a listing |
| Pull.DeltaPull | crates/unisonfs-core/src/sync/pull.rs:25-76 | the cache, the watermark and the count after a delta pull |
| Pull.FullPull | crates/unisonfs-core/src/sync/pull.rs:93-153 | the same for a full pull, which skips nothing and overwrites the watermark |
| Pull.PullAtPath | crates/unisonfs-core/src/sync/pull.rs:44-69 | for any listing, at every path: the body of the last document applied to it and no dirty flag, or the bytes, flag and inode it had |
| Pull.NewerLocalEditWins | crates/unisonfs-core/src/sync/pull.rs:49-57 | an inode whose edit is no older than every document listed for it keeps its bytes and its flag |
| Pull.DirtyGuardIff | crates/unisonfs-core/src/sync/pull.rs:49-65 | an inode at a listed path keeps its rows and flag if and only if that path is recorded for it and its flag is up and no older, or it is clean and holds just the listed body |
| Pull.GuardByTheClock | crates/unisonfs-core/src/sync/pull.rs:48-65 | a document stamped in the server's form, listed for a recorded dirty inode, changes nothing if its time in milliseconds, written out, is no later than the flag; if it is later, its path holds its body and has no flag |
| Pull.UnreadStampApplies | crates/unisonfs-core/src/sync/pull.rs:48-65 | a document whose stamp does not read as a time is applied whatever the flag |
| Pull.NoTimeUnread | crates/unisonfs-core/src/sync/pull.rs:248-252 | a stamp without the letter between date and time does not read as one |
| Pull.NewestMeaning | crates/unisonfs-core/src/sync/pull.rs:67-69 | the newest timestamp is the start or one applied, and none applied is later |
| Pull.DeltaNeverLowers | crates/unisonfs-core/src/sync/pull.rs:72-74 | a delta pull never lowers the watermark: it rises to the newest timestamp applied |
| Pull.FullMark | crates/unisonfs-core/src/sync/pull.rs:147-149 | a full pull sets it to the newest timestamp applied, whatever it was, and leaves it where nothing with a timestamp was applied |
| Pull.FullLowersIff | crates/unisonfs-core/src/sync/pull.rs:147-149 | for consistent caches and comparable listings it lowers it if and only if, by the dirty flags before the pull, some listed document is not held off and all that are not are older |
| PullRuns.FullPullGoesBack | crates/unisonfs-core/src/sync/pull.rs:115-149 | a document pulled and edited, then listed in a full pull beside an older one, takes the watermark back to the older one |
| PullRuns.UnflushedFileLost | crates/unisonfs-core/src/sync/pull.rs:49-65 | a file created and written but not flushed loses its bytes and its flag to a pulled document of its path, however late the edit |
| PullRuns.HydrationOverwrites | crates/unisonfs-core/src/cache/fs.rs:94-107 | hydrating a path puts the fetched body in the place of its bytes, flag or no flag, and leaves flag and watermark as they are |
| Pull.LaterBeatsGuard | crates/unisonfs-core/src/sync/pull.rs:51-56 | a document that gets past the guard of an edit is no earlier, as a string, than one the edit held off |
| Pull.DeltaPullIdempotent | crates/unisonfs-core/src/sync/pull.rs:25-76 | a second delta pull of the same listing reconciles nothing and changes nothing |
| Sync.StepSafe | crates/unisonfs-core/src/sync/push.rs:65-112 | every step of the protocol keeps the invariant that ties local bytes, server bytes, queue, flags, jobs under way, listing and watermark together, but for one coincidence at a pull step |
| Sync.InvMeansNoSilentDivergence | crates/unisonfs-core/src/sync/pull.rs:25-76 | under the invariant a path that differs is queued, unflushed, or above the watermark |
| SyncRuns.NothingDivergesSilently | crates/unisonfs-core/src/sync/pull.rs:25-76 | from an empty cache and any server, in every run without that coincidence: no path differs unnoticed |
| SyncRuns.AtomicPushesAreCareful | crates/unisonfs-core/src/sync/push.rs:82-101 | runs whose pull steps do not fall between sending and settling are such runs |
| SyncRuns.PullKeepsSafeIff | crates/unisonfs-core/src/sync/pull.rs:44-57 | a pull step keeps the invariant if and only if the coincidence does not hold |
| SyncRuns.LostNewsDivergesIff | crates/unisonfs-core/src/sync/pull.rs:49-74 | after the coincidence, if nothing else interferes, the document diverges silently once the pull is over if and only if one at least as new was applied by then |
| SyncRuns.FreshPullConverges | crates/unisonfs-core/src/sync/pull.rs:25-76 | with an empty queue and nothing unflushed one fresh pull makes cache and server hold the same documents |
| SyncRuns.QuietRunsConverge | crates/unisonfs-core/src/sync/pull.rs:25-76 | so does it after every careful run that comes to rest |
| SyncRuns.SettleKeepsFlagsIff | crates/unisonfs-core/src/sync/push.rs:100-101 | settling a successful push keeps every unpushed edit flagged if and only if there is none newer than the job |
| SyncRuns.SilentDivergenceRun | crates/unisonfs-core/src/sync/push.rs:100-101 | a run that ends with nothing queued, unflushed, dirty or above the watermark, and different bytes |
| SyncRuns.LostEditRun | crates/unisonfs-core/src/sync/push.rs:100-101 | a run that loses a flushed edit of a document nobody else touched |
| SyncEdits.UnsentIsFlagged | crates/unisonfs-core/src/sync/push.rs:100-101 | in every run from an empty cache where no push settles while there is an edit it does not carry, the dirty flags are those of the writes and flushes neither sent nor replaced, at their own times, and no others; truncations have none |
| SyncEdits.SettleKeepsUnsentIff | crates/unisonfs-core/src/sync/push.rs:100-101 | a successful push of a document with unsent edits settles with the flags still matching if and only if there is no newer edit, or only truncations |
| SyncEdits.EditsSurvivePullIff | crates/unisonfs-core/src/sync/pull.rs:49-65 | in such runs a pull that comes to a document with unsent edits, truncations included, and does not skip it leaves its bytes if and only if the path is recorded and the newest of their writes and flushes is no older than the stamp, or the bytes are the same |
| SyncEdits.UnsentYieldsOnly | crates/unisonfs-core/src/sync/pull.rs:49-57 | and no other step but a local edit changes them |
| SyncEdits.TruncationLostRun | crates/unisonfs-core/src/cache/file.rs:200-255 | a run in which a pull takes back a truncation later than the stamp of what it brings |
| SyncEdits.RaceLosesIff | crates/unisonfs-core/src/sync/pull.rs:48-65 | an edit between the guard and the upsert is lost where the same edit before the guard is not, if and only if it is a write of other bytes to a recorded document, no older than the stamp |
| SyncEdits.SettledIsSent | crates/unisonfs-core/src/sync/push.rs:84-112 | a push that settles with nothing newer leaves the server with the edit's bytes, or with a change made after it that a pull will bring |
| SyncRefinement.GuardsAgree | crates/unisonfs-core/src/sync/pull.rs:49-57 | the protocol's dirty guard is that of the tables |
| SyncRefinement.ReconcilePictures | crates/unisonfs-core/src/sync/pull.rs:44-69 | the protocol's pull step is a document reconciled on the tables |
| SyncRefinement.WholePullPictures | crates/unisonfs-core/src/sync/pull.rs:25-153 | listing, all its documents and the watermark, with nothing in between, are a delta pull or a full pull of the tables, watermark included, for listings of canonical paths that meet no directory |
| SyncRefinement.EditPictures | crates/unisonfs-core/src/cache/file.rs:81-255 | its edit is a write or truncation of the file at the path |
| SyncRefinement.CreatePictures | crates/unisonfs-core/src/cache/fs.rs:648-676 | creating a file is its edit to nothing, with no flag |
| SyncRefinement.FlushPictures | crates/unisonfs-core/src/cache/file.rs:257-282 | its flush is a flush of a file whose path round-trips |
| SyncRefinement.ReadPictures | crates/unisonfs-core/src/sync/push.rs:178-182 | the bytes its worker reads are those of the file at the path, or none |
| SyncRefinement.SettlePictures | crates/unisonfs-core/src/sync/push.rs:84-112 | its settling clears the flag of just the inode whose write succeeded |
| SyncQueue.QueueRunsHappen | crates/unisonfs-core/src/sync/push.rs:65-174 | for every interleaving of workers and of flushes of cached documents in `PushRuns` there is a run of the protocol that leaves the same rows and the same jobs under way |
| SyncQueue.SendPicturesIff | crates/unisonfs-core/src/sync/push.rs:65-82 | reading and sending is possible in the protocol for just the jobs a worker may send, and leaves the same queue |
| SyncQueue.SettlePicturesIff | crates/unisonfs-core/src/sync/push.rs:84-146 | so is settling |
| SyncQueue.OthersLeaveQueue | crates/unisonfs-core/src/sync/pull.rs:25-153 | edits, other clients and pulls leave the queue alone |
| MemTree.ShapedIsGood | crates/unisonfs-core/src/vfs/mem.rs:231-521 | the inductive shape gives the promise: live entries, exact link counts, all reachable |
| MemTree.UnlinkedShaped | crates/unisonfs-core/src/vfs/mem.rs:388-409 | taking one entry of a file away keeps the shape, with the inode gone when it was the last |
| MemTree.MovedShaped | crates/unisonfs-core/src/vfs/mem.rs:474-521 | moving an entry outside its own subtree keeps everything reachable and every count |
| MemRuns.MkdirShaped | crates/unisonfs-core/src/vfs/mem.rs:231-268 | mkdir, with its hidden marker, keeps the shape |
| MemRuns.RmdirShaped | crates/unisonfs-core/src/vfs/mem.rs:270-322 | so does rmdir, also where it puts a new marker back and fails |
| MemRuns.RenameShaped | crates/unisonfs-core/src/vfs/mem.rs:474-521 | so does a rename to a vacant name, over another file, over another name of the same file, or onto itself |
| MemRuns.StepShaped | crates/unisonfs-core/src/vfs/mem.rs:231-581 | so does every operation, errors included |
| MemRuns.LinkCountsStayExact | crates/unisonfs-core/src/vfs/mem.rs:231-521 | after any run every entry names a live inode, each file's link count is the number of entries naming it, and every live inode is reachable |
| MemEffects.MkdirEffect | crates/unisonfs-core/src/vfs/mem.rs:231-268 | mkdir names a new directory, with two links and a new empty marker in it, under the free name, and counts a link of its parent; no other entry or node changes, and on an error none does |
| MemEffects.CreateEffect | crates/unisonfs-core/src/vfs/mem.rs:337-386 | create names a new empty file with one link, or answers with the inode that is there |
| MemEffects.SymlinkEffect | crates/unisonfs-core/src/vfs/mem.rs:422-447 | symlink names a new link that holds the target as given |
| MemEffects.LinkEffect | crates/unisonfs-core/src/vfs/mem.rs:449-472 | link adds one entry for the file and one to its count |
| MemEffects.UnlinkEffect | crates/unisonfs-core/src/vfs/mem.rs:388-409 | after unlink the entry is gone and every other names what it named; the inode is gone if and only if that was its only entry, and else only its count falls, by one |
| MemEffects.RmdirOutcome | crates/unisonfs-core/src/vfs/mem.rs:270-322 | rmdir succeeds if and only if the directory holds nothing but its marker |
| MemEffects.RmdirRemoves | crates/unisonfs-core/src/vfs/mem.rs:270-322 | then the directory, its marker and its entry are gone, its parent counts a link less, and nothing else changes |
| MemEffects.RmdirRefused | crates/unisonfs-core/src/vfs/mem.rs:295-310 | else a marker it had is replaced by a new empty one, and nothing else changes |
| MemEffects.RenameEffect | crates/unisonfs-core/src/vfs/mem.rs:474-521 | after a rename the inode is under the new name and not under the old one; a file that had the name is unlinked, and nothing else changes |
| MemEffects.RenameToNowhere | crates/unisonfs-core/src/vfs/mem.rs:490-520 | a rename to a parent that is not there or no directory fails with that error and leaves the entry out, all else as it was |
| MemEffects.WriteEffect | crates/unisonfs-core/src/vfs/mem.rs:555-571 | a write changes the bytes of its file as of a flat buffer, and nothing else |
| MemEffects.TruncateEffect | crates/unisonfs-core/src/vfs/mem.rs:573-581 | so does a truncation |
| MemRuns.RenameGoodIff | crates/unisonfs-core/src/vfs/mem.rs:474-521 | from any such state a rename keeps that if and only if it goes to an existing directory outside the moved subtree, and onto no directory but one that is down to its last link and holds nothing but the moved entry |
| MemMarkers.RmdirGoodIff | crates/unisonfs-core/src/vfs/mem.rs:270-322 | from any good tree with one entry per directory, whatever bears the marker's name, rmdir keeps it good if and only if what does in the directory, if anything, is a file with one link or a directory that holds nothing |
| MemMarkers.LinkedMarkerRun | crates/unisonfs-core/src/vfs/mem.rs:285-295 | a marker linked under another name dangles there after rmdir |
| MemFs.MemFs.MakeDirectory | crates/unisonfs-core/src/vfs/mem.rs:231-268 | new state and outcome of mkdir, every error included |
| MemFs.MemFs.Create | crates/unisonfs-core/src/vfs/mem.rs:337-386 | a new empty file, or what is there, or the error |
| MemFs.MemFs.SymbolicLink | crates/unisonfs-core/src/vfs/mem.rs:422-447 | new state and outcome of symlink |
| MemFs.MemFs.HardLink | crates/unisonfs-core/src/vfs/mem.rs:449-472 | new state and outcome of link |
| MemFs.MemFs.RemoveFile | crates/unisonfs-core/src/vfs/mem.rs:388-409 | new state and outcome of unlink |
| MemFs.MemFs.RemoveDirectory | crates/unisonfs-core/src/vfs/mem.rs:270-322 | new state and outcome of rmdir |
| MemFs.MemFs.MoveEntry | crates/unisonfs-core/src/vfs/mem.rs:474-521 | new state and outcome of rename, also where it fails after the entry was taken out |
| MemFs.MemFileHandle.Read | crates/unisonfs-core/src/vfs/mem.rs:546-553 | the flat read, or why not |
| MemFs.MemFileHandle.Write | crates/unisonfs-core/src/vfs/mem.rs:555-571 | the flat write, on regular files only |
| MemFs.MemFileHandle.Truncate | crates/unisonfs-core/src/vfs/mem.rs:573-581 | the flat resize, on regular files only |
| Hydration.HydrationScheduler.Enqueue | crates/unisonfs-core/src/cache/hydration.rs:62-82 | prunes old completions, and accepts a key exactly when it is not recent, queued or in flight |
| Hydration.HydrationScheduler.ClaimNext | crates/unisonfs-core/src/cache/hydration.rs:84-90 | moves the oldest key from queue to in flight |
| Hydration.HydrationScheduler.Complete | crates/unisonfs-core/src/cache/hydration.rs:92-96 | moves a key from in flight to recent |
| Hydration.HydrationScheduler.StartTasks | crates/unisonfs-core/src/cache/hydration.rs:133-159 | starts the oldest keys, as many as there are free permits |
| Hydration.RunsOk | crates/unisonfs-core/src/cache/hydration.rs:62-163 | in every run pending is the queue without duplicates, the three sets do not overlap, claims follow accepted requests in order, and at most 4 keys are in flight |
| Hydration.AcceptedAgainIff | crates/unisonfs-core/src/cache/hydration.rs:62-82 | in every run any key is accepted, and put last in the queue, if and only if it is neither queued nor in flight and was not completed less than 2000 ms before |
| Hydration.NewKeyQueued | crates/unisonfs-core/src/cache/hydration.rs:62-82 | a key never accepted before is |
| Hydration.StartsIff | crates/unisonfs-core/src/cache/hydration.rs:84-163 | a task starts, on the oldest key, if and only if fewer than four are running and a key is queued |
| Hydration.FinishForgets | crates/unisonfs-core/src/cache/hydration.rs:92-96 | a finished key is in flight no more, and its completion is remembered |
| NfsReaddir.Readdir | crates/unisonfs-core/src/mount/nfs.rs:384-422 | one page: the first entries after the given number, and whether fewer were left than asked for |
| NfsReaddir.ResumesIff | crates/unisonfs-core/src/mount/nfs.rs:402-409 | going on after an entry resumes with the next if and only if its number is not 0 and not that of an earlier entry |
| NfsReaddir.FromMissing | crates/unisonfs-core/src/mount/nfs.rs:402-409 | going on after a number that is not listed finds nothing |
| NfsReaddir.PagingIff | crates/unisonfs-core/src/mount/nfs.rs:384-422 | for any listing and page size from 1 the pages end and are exactly the listing if and only if each full page ends on an entry whose number is not 0 and not that of an earlier entry; else they end with more, or never |
| NfsReaddir.DistinctIff | crates/unisonfs-core/src/mount/nfs.rs:402-409 | that holds for all page sizes if and only if the numbers are distinct and none is 0 |
| NfsReaddir.OneByOneEndsIff | crates/unisonfs-core/src/mount/nfs.rs:402-409 | with pages of one entry paging ends at all if and only if the numbers are distinct and none is 0 |
| NfsReaddir.ListAll | crates/unisonfs-core/src/mount/nfs.rs:384-422 | the client's loop ends with exactly the listing where each full page ends on such an entry |
| NfsReaddir.HardLinks | crates/unisonfs-core/src/mount/nfs.rs:402-409 | one listing with two links of an inode: endless with pages of one, right with pages of two, too long with pages of three |
| Marker.FormatMarker | crates/unisonfs/src/cmd/marker.rs:37-52 | the printed text: a line per field that is set, quotes escaped |
| Marker.ParseMarkerText | crates/unisonfs/src/cmd/marker.rs:60-80 | the fields read, the last line of a key winning |
| Marker.LineSets | crates/unisonfs/src/cmd/marker.rs:62-76 | a line of a key, an equals sign and a value without quotes in it sets that field, with any white space around the three and with or without quotes around the value; other keys set nothing |
| Marker.LineIgnored | crates/unisonfs/src/cmd/marker.rs:62-67 | blank lines, lines that begin with `#` and lines without an equals sign set nothing |
| Marker.LinesAre | crates/unisonfs/src/cmd/marker.rs:62-62 | lines end in a line feed, with or without a carriage return |
| Marker.UnescapeEscape | crates/unisonfs/src/cmd/marker.rs:40-73 | unescaping undoes escaping |
| Marker.ParseFormatIff | crates/unisonfs/src/cmd/marker.rs:37-80 | a printed marker reads back as it was if and only if no value contains a line feed or ends in a double quote |
| AgentHint.Strip | crates/unisonfs-core/src/agent_hint.rs:204-237 | the text without the first block of the tag and the line feeds around it; the text itself where a marker is missing |
| AgentHint.Write | crates/unisonfs-core/src/agent_hint.rs:169-191 | the text with the block at its end, and whether it changed |
| AgentHint.Remove | crates/unisonfs-core/src/agent_hint.rs:193-202 | the text without the block, ending in one line feed, and whether it changed |
| AgentHint.EditsWithoutBlock | crates/unisonfs-core/src/agent_hint.rs:169-202 | in a text without the tag's marker, installing leaves the text up to its final line feeds, one empty line and the block, and uninstalling the text and one line feed; of a text of line feeds only, the block or nothing |
| AgentHint.EditsWithBlock | crates/unisonfs-core/src/agent_hint.rs:169-237 | in a text that ends in a block of the tag and line feeds, the new block takes the place of the old one, or the block is gone |
| AgentHint.SanitizeIs | crates/unisonfs-core/src/agent_hint.rs:31-33 | a dash of a tag becomes an underscore if and only if it is one of a pair, told off from the left in each row of dashes; nothing else changes |
| AgentHint.ProseIs | crates/unisonfs-core/src/agent_hint.rs:72-90 | the lines between the markers, which name the path twice |
| AgentHint.StripRemoves | crates/unisonfs-core/src/agent_hint.rs:204-237 | in a text laid out as user text and blocks, stripping takes out that block and keeps the others in order |
| AgentHint.StripTidyIff | crates/unisonfs-core/src/agent_hint.rs:204-237 | stripping leaves the text before the block, ending in one line feed, and the text after it, if and only if the block starts a line or follows nothing but line feeds |
| AgentHint.StripMidLine | crates/unisonfs-core/src/agent_hint.rs:225-236 | any other block leaves its first character in the text |
| HintRuns.TextIsBlocks | crates/unisonfs-core/src/agent_hint.rs:169-237 | after any sequence of installs and uninstalls the text is the user's text followed by the blocks of a list |
| HintRuns.UninstallUndoes | crates/unisonfs-core/src/agent_hint.rs:169-237 | once every tag is uninstalled, in any order, the user's text is back up to line feeds at its end |
| HintRuns.ReinstallIsNoOp | crates/unisonfs-core/src/agent_hint.rs:169-185 | installing the tag installed last again changes nothing |
| HintRuns.UninstallKeepsOthers | crates/unisonfs-core/src/agent_hint.rs:193-202 | uninstalling one tag keeps every other block's text, in order |
| HintRuns.RenderedLibraryOk | crates/unisonfs-core/src/agent_hint.rs:31-90 | rendered blocks meet the assumptions for tags without angle brackets and line feeds that stay distinct when sanitized, and mount paths that hold no marker: the text around the path says nothing like one |

## Left out

- SQLite, locks, async scheduling and notifications: tables are maps, and database errors do
  not happen except where a missing row is one.
- Steps made of several locked sections: reconciling a document (the guard, the upsert, clearing
  the flag), settling a push, flushing, and `MemFs` creating a file are one step each in the
  runs here. In the source another task can come between; `SyncEdits.RaceLosesIff` says what an
  edit between guard and upsert loses, and no run here shows the others.
- `hydrate_path` in the protocol: `Sync` has no step for it, so the theorems about runs are for
  caches nothing is hydrated into.
- Integer widths: sizes, offsets, stamps and counts are unbounded, so overflow of `usize` and
  `i64` is not modelled, except that a parsed field must fit `i64`.
- Wall clocks: each clock reading is a parameter; `PushRuns` and `Hydration` assume readings do
  not go back, the drain theorems and `Sync` assume nothing.
- Columns that nothing here reads: `last_error`, `last_status`, `mirrored_updated_at`,
  `last_push_at`, `last_pull_at`, times, owners and modes of inodes, `statfs`.
- Delete and Rename pushes as seen by the server, and the title sent with a write: `PushRuns`
  covers their queueing and `PushWorker` their clean-up; `Sync` has writes only.
- Lossy UTF-8 conversion of pushed bodies: bodies are bytes, so `Sync` speaks of text documents.
- Listings: `Sync` assumes them complete and documents never deleted on the server, with time
  stamps strictly increasing as strings; the request limit of 500 documents is not modelled, and
  there is one puller.
- Noise paths in `Sync`: they are never pushed, so they diverge by design.
- `UnisonFs` unlink, rmdir, rename, link, symlink, deletion scan and import: after them the entry
  cache may be stale, so the tree theorems are for insert-only runs.
- `NameTooLong` counts characters here and bytes in the source.
- Database.Db.BuildPathForIno: with several entries for one inode the source takes any of them,
  and the contract then says nothing.
- Pull.ReconcileDoc: requires consistent remote paths, since with two inodes recorded for one path
  the row the source finds is arbitrary.
- PushWorker.DrainRemaining: its 30-second timeout is a number of turns, and waiting between turns
  is left out.
- MemFs.MemFs.MakeDirectory: requires the shape that guarded runs keep, as do the other operations
  that allocate or remove; states after a rename that breaks the tree are not followed further.
- Pull.FullLowersIff: where one path is listed twice, requires one spelling and time stamps in the
  server's form.
- SyncRuns.LostNewsDivergesIff: follows the one run in which nothing else interferes.
- Hydration.RunsOk: a task that panics would give its permit back without completing its key; tasks
  here do not panic.
- AgentHint: locating, locking and replacing files, and sweeping orphan blocks.
- `find_marker` and the other directory walks around marker files.
- HTTP client, FUSE and NFS serving, daemon, IPC, installation and the command line: glue around
  the core.
