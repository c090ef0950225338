# TurboNFS cache and flush-commit machine, in Dafny

TurboNFS is a write-back NFSv3 client. This project models the parts of it that decide whether an
application's data is kept and returned correctly, and proves what they promise.

* `Chunks`, `Counters`: chunks of a file with their buffers and flags; the running byte counters and
  the sums they stand for. The chunk map is the sequence of its chunks in ascending order.
* `Get`, `Release`, `Cache`, `ChunkCache`, `Truncate`: the per-file chunk cache. The scans, purge,
  prune and truncate are carried out step by step and proved against specifications; class
  `BytesChunkCache` keeps every counter equal to its sum through all of them.
* `Coherence`, `CoherenceRun`: readers, writers, flushers, committers, cache pruning and the NFS server
  as one system of steps, and its runs. The server keeps stable storage and, for UNSTABLE writes, memory on top of it (sections
  3.3.7 and 3.3.21 of RFC 1813).
* `Fcsm`, `FcsmMachine`, `FcsmRun`, `FcsmCommit`, `FcsmCache`: the flush-commit state machine as functions,
  as a class that carries them out, as runs under every interleaving of callers, completions and
  callbacks, what a commit promises in them, and what its items and byte counts are in the chunk map.
* `Packer`, `InodeMap`, `TaskPool`: packing of chunks into backend writes, the inode map, the pool of RPC tasks.

Locks are modelled by making what happens under them one step. Where other threads act in the middle
of a truncate, of a release or of the creation of an inode, what they do is an input, a script.
Thresholds, prune goals and the readahead window are parameters; what an allocator leaves in a fresh
buffer is an arbitrary function. One backend write completion (clear dirty, clear flushing, add to
flushed_seq_num) is one step.

Places where the code does not give what it sets out to, each with the exact condition under which it does:

* The left edge that getx() reports is not maximal when the range starts in a gap between two chunks
  (`Get.LeftEdgeNotMaximal`, `Get.GetX`).
* get_cache_size() asserts a bound that a buffer outside the map can break (`Truncate.SizeAssertCanFail`,
  `ChunkCache.SizeAssertSafeIff`).
* Write verifiers are never compared, so a server restart between WRITE and COMMIT loses data unnoticed
  (`CoherenceRun.RestartLosesWrite`, `CoherenceRun.CommitSafeIff`, `CoherenceRun.RestartIsSafeIff`). Runs take a COMMIT for good
  only if the verifiers match; without restarts they always do (`CoherenceRun.NoRestartMatches`).
* The read path marks a buffer uptodate after zeroing a piece of it without asking whether the piece is
  the whole buffer, against the rules stated in file_cache.h (`CoherenceRun.PartialZeroShowsJunk`, `CoherenceRun.ZeroIsSafeIff`).
* A flush callback that waited all through a commit starts a commit of nothing if it enters before the
  commit's callback (`FcsmRun.StaleCallbackCommitsNothing`, `FcsmRun.WindowCommitsNothing`); a flush asked for with
  nothing dirty during a commit stalls the machine (`FcsmRun.EmptyFlushStalls`, `Fcsm.HandleCommitKeeps`). Runs exclude
  these two by guards on commits only; runs with stable writes, the default, are not restricted.
* With unstable writes a flush may take less than the next goal asks for (`FcsmRun.GapIsNotEnough`,
  `FcsmRun.EnoughIffContiguous`).
* A full commit is meant to have all dirty data flushed and committed when it is told. It need not be: a hole in the
  dirty data may be filled by other writers, whose bytes then count for the goal (`FcsmCommit.HoleLeavesWrite`,
  `FcsmCommit.FullCommitSafeIff`, `FcsmCommit.CommitPromise`), and bytes in flight at the call are not counted into the goal
  (`FcsmCommit.EarlyCommitLeavesWrite`, `FcsmCommit.FullGoalIff`).
* Comments say both target queues are in increasing order; the commit queue need not be
  (`FcsmRun.CommitQueueUnsorted`, `FcsmRun.CommitQueueSortedIff`).

## Model

| member | source | states |
|---|---|---|
| `Get.GetX` | turbonfs/src/file_cache.cpp:1176-2041 | the scan for get()/getx(): the returned list and the new map are `Pieces` and `Fill`, the counters follow the map, the extent is cached, has chunk edges at both ends and outside the range only chunks waiting for a flush; it cannot grow to the right, and to the left exactly when the range starts in a gap right after such a chunk |
| `Get.FillWf` | turbonfs/src/file_cache.cpp:1794-1925 | the map stays sorted and disjoint |
| `Get.FillKeepsOld` | turbonfs/src/file_cache.cpp:1467-1787 | every old chunk is still there, changed in nothing but the inuse count of those that meet the range |
| `Get.FillAddsOnlyGaps` | turbonfs/src/file_cache.cpp:1794-1925 | every other chunk of the new map is a fresh buffer inside the range where nothing was cached |
| `Get.FillCovers` | turbonfs/src/file_cache.cpp:1794-1925 | afterwards exactly the old bytes and the bytes of the range are cached |
| `Get.PiecesTile` | turbonfs/src/file_cache.cpp:1467-1787 | the returned list is ordered, gap-free and exactly the requested range |
| `Get.PiecesDescribeFill` | turbonfs/src/file_cache.cpp:1467-1925 | entry by entry the list is the part inside the range of the consecutive chunks of the new map that meet it; is_whole holds exactly for a whole chunk, is_new exactly where nothing was cached |
| `Get.PieceShowsBytes` | turbonfs/inc/file_cache.h:600-700 | the buffer position in an entry shows the bytes of the file even after the chunk was trimmed from the left |
| `Get.Locate` | turbonfs/src/file_cache.cpp:1176-1452 | the case analysis on where the range starts, including the look-back test that runs after next_offset was advanced |
| `Get.Walk` | turbonfs/src/file_cache.cpp:1467-1800 | the loop over iterators yields the specified list and knows the right edge so far |
| `Get.Collect` | turbonfs/src/file_cache.cpp:1176-1800 | search of the map before anything is inserted |
| `Get.InsertNew` | turbonfs/src/file_cache.cpp:1840-1925 | late insertion of new chunks, with inuse counts and all counters |
| `Get.LookLeft` | turbonfs/src/file_cache.cpp:1988-2012 | search for the left edge of the extent |
| `Get.LookRight` | turbonfs/src/file_cache.cpp:2014-2036 | search for the right edge of the extent |
| `Get.LeftEdgeNotMaximal` | turbonfs/src/file_cache.cpp:1384-1419 | a map for which the reported left edge is not maximal although a chunk waiting for a flush touches the range |
| `Release.FirstPass` | turbonfs/src/file_cache.cpp:1467-1787 | first pass of a release: what is trimmed, which chunks are noted for deletion, how many bytes are counted |
| `Release.SecondPass` | turbonfs/src/file_cache.cpp:1930-1964 | second pass: erases exactly the chunks of the span that are safe now, reports their bytes, moves their buffers out of the map |
| `Release.ReleaseMeaning` | turbonfs/src/file_cache.cpp:1930-1980 | with other threads at work between the passes: every byte of the range whose chunk was safe and not cut in its middle is gone, and no byte is gone unless its chunk was safe at the first pass or, wholly inside, at the second |
| `Release.QuietRelease` | turbonfs/src/file_cache.cpp:1467-1964 | with no other thread at work: a byte stays cached if and only if it is outside the range, or its chunk was not safe, or was cut strictly in the middle |
| `Release.ReleaseKeepsContent` | turbonfs/src/file_cache.cpp:1467-1964 | no byte appears, and one that stays shows the same value |
| `Release.ReleaseCounts` | turbonfs/src/file_cache.cpp:1966-1980 | bytes reported equal the drop in cached bytes, never exceed the length, and the second pass frees at least what the first counted |
| `Release.ReleaseWf` | turbonfs/src/file_cache.cpp:1467-1964 | the map stays sorted and disjoint |
| `Cache.CountOpExact` | turbonfs/src/file_cache.cpp:383-886 | each flag method of membuf moves the counters by exactly the change in its buffer's share |
| `Cache.ApplyFlags` | turbonfs/src/file_cache.cpp:383-886 | the flag methods keep what the flags promise about each other |
| `Cache.Prune` | turbonfs/src/file_cache.cpp:2480-2590 | pruning and purging erase, lowest offset first, exactly what may go and is not protected, till the goal is met, and keep the counters |
| `Cache.PruneKeeps` | turbonfs/src/file_cache.cpp:2712-2851 | what is left is part of the old map, in order, and everything that is in use, locked, dirty, commit pending or protected is left |
| `Cache.PruneMeetsGoal` | turbonfs/src/file_cache.cpp:2480-2590 | pruning erases what may go among the chunks before the first place where the memory freed reaches the goal, or all of it if the goal is out of reach, and leaves the rest of the map alone |
| `Cache.PurgeIsFull` | turbonfs/src/file_cache.cpp:2712-2851 | a purge leaves nothing that may go |
| `Cache.EarlyExitRefinesLoop` | turbonfs/src/file_cache.cpp:2672-2685 | if dirty plus commit-pending bytes equal the allocated bytes the loop would have erased nothing |
| `Cache.BytesToFlushExact` | turbonfs/inc/file_cache.h:1409-1416 | the constant-time count never exceeds the total of the full scan, and equals it if and only if no write is between clearing dirty and clearing flushing, or nothing waits |
| `Cache.UptodateFits` | turbonfs/inc/file_cache.h:1822-1850 | by disjointness the uptodate bytes of the map never exceed the cache size |
| `ChunkCache.BytesChunkCache.constructor` | turbonfs/inc/file_cache.h:952-955 | an empty cache is valid |
| `ChunkCache.BytesChunkCache.Flag` | turbonfs/src/file_cache.cpp:383-886 | one flag method on a chunk of the map: new state, counters, and set_uptodate() raising the cache size |
| `ChunkCache.BytesChunkCache.FlagDetached` | turbonfs/src/file_cache.cpp:383-886 | the same on a buffer that has left the map |
| `ChunkCache.BytesChunkCache.Destroy` | turbonfs/src/file_cache.cpp:84-177 | the destructor takes exactly the buffer's share off the counters |
| `ChunkCache.BytesChunkCache.ClearNolock` | turbonfs/src/file_cache.cpp:2666-2851 | a purge, with its early exit, leaves exactly what may not go |
| `ChunkCache.BytesChunkCache.InlinePrune` | turbonfs/src/file_cache.cpp:2443-2590 | pruning to a goal, protecting the readahead window; short of the goal before the last chunk erased, not after it |
| `ChunkCache.BytesChunkCache.GetRange` | turbonfs/inc/file_cache.h:1040-1110 | get()/getx(): prune, deferred purge, scan; keeps all counters equal to their sums |
| `ChunkCache.BytesChunkCache.ReleaseRange` | turbonfs/src/file_cache.cpp:1926-1990 | release() with what other threads do between the passes as an input: only they change anything there, a chunk not safe to release that they leave alone stays as it is, the bytes returned are the drop in bytes_cached and at most the length |
| `ChunkCache.BytesChunkCache.Others` | turbonfs/src/file_cache.cpp:1968-1985 | other threads call flag methods on chunks they hold, or fill them, one after the other, and keep the counters |
| `ChunkCache.WorkIsQuiet` | turbonfs/src/file_cache.cpp:1968-1985 | a chunk that is safe to release stays so while the map is locked |
| `ChunkCache.UnsafeStays` | turbonfs/src/file_cache.cpp:1942-1965 | a chunk that is not safe to release and that nobody works on outlives a release unchanged |
| `ChunkCache.BytesChunkCache.GetBytesToFlush` | turbonfs/inc/file_cache.h:1409-1416 | the count against the scan over all live buffers |
| `ChunkCache.BytesChunkCache.HoldDirty` | turbonfs/src/file_cache.cpp:3093-3131 | the scan of a range finds exactly the chunks that start in it and wait for a flush, holds them, and totals their bytes |
| `ChunkCache.WholeFile` | turbonfs/src/file_cache.cpp:3093-3131 | over the whole file that total is everything that waits for a flush |
| `ChunkCache.CachedIsInMap` | turbonfs/src/file_cache.cpp:1911-1965 | bytes_cached and num_chunks equal the sums over the map |
| `ChunkCache.UptodateWithinSize` | turbonfs/inc/file_cache.h:1822-1850 | what the map adds to bytes_uptodate is at most the cache size |
| `ChunkCache.SizeAssertSafeIff` | turbonfs/inc/file_cache.h:1830-1847 | the assertion of get_cache_size() holds for every map and cache size if and only if no buffer outside the map is uptodate |
| `Truncate.SizeAssertCanFail` | turbonfs/inc/file_cache.h:1830-1847 | calls of get(), the flag methods and truncate() after which that assertion fails |
| `Truncate.TruncateCache` | turbonfs/src/file_cache.cpp:2048-2405 | truncate under any script of readers: chunks that start before the cut survive with their data and what else is left is old, cached bytes fall by what is reported, every chunk ends with exactly the inuse count and lock that the script gives to readers, what was cut off is marked truncated and free for its destructor, the number returned is that of the chunks that still reach past the cut, and none of them is one that no reader has to do with, whatever readers do to the others; the cache size is recomputed unless it returned early |
| `Truncate.IdleReadersUnchanged` | turbonfs/src/file_cache.cpp:2137-2333 | if readers neither come nor go, the chunks before the cut have the inuse counts and locks they had |
| `Truncate.CutKeepsContent` | turbonfs/src/file_cache.cpp:2048-2405 | a byte below the cut stays cached in the same chunk and shows the same value if it was uptodate |
| `Truncate.FirstAffected` | turbonfs/src/file_cache.cpp:2096-2113 | the first chunk that reaches past the cut |
| `Truncate.TakeInuse` | turbonfs/src/file_cache.cpp:2115-2135 | step 1: an inuse count on every affected chunk |
| `Truncate.Readers` | turbonfs/src/file_cache.cpp:2150-2166 | readers acting at one point in time: they come to hold what the script says, waiting for locks that the truncate has |
| `Truncate.WaitForLock` | turbonfs/src/file_cache.cpp:2198-2201 | set_locked() returns with the lock free if readers let go of it sooner or later |
| `Truncate.LockAll` | turbonfs/src/file_cache.cpp:2138-2208 | step 2: every affected chunk is locked or, if readers have to do with that very chunk, skipped and given back; the number skipped is counted |
| `Truncate.CutAll` | turbonfs/src/file_cache.cpp:2210-2333 | step 3: locked chunks are trimmed or erased unless a reader has come by then; all is given back |
| `Truncate.RecomputeSize` | turbonfs/src/file_cache.cpp:2335-2368 | the cache size becomes the right edge of the last uptodate chunk |
| `CoherenceRun.NoLostWriteNoStaleRead` | turbonfs/inc/file_cache.h:440-540 | over every run, server restarts included: uptodate chunks show the logical file, a read of the server brings it, every byte in no dirty or commit-pending chunk is in stable storage with its last value, so with nothing dirty or pending all of the file is |
| `CoherenceRun.RunCoherent` | turbonfs/inc/file_cache.h:440-540 | every state of every run is coherent, and the logical file is the fold of the writes |
| `Coherence.Keeps` | turbonfs/src/file_cache.cpp:472-828 | every step of any thread or of the server keeps the cache coherent |
| `Coherence.KeepsWrite` | turbonfs/src/nfs_inode.cpp:947-1131 | a copy of application data into a whole or uptodate chunk |
| `Coherence.KeepsReadStart` | turbonfs/src/rpc_task.cpp:3575-3600 | a READ for a chunk that is not uptodate, its lock held till the data arrives |
| `Coherence.KeepsReadDone` | turbonfs/src/rpc_task.cpp:4160-4178 | arrival of the data: it is what the file holds, whatever happened meanwhile; uptodate only if the whole chunk was read |
| `Coherence.KeepsReadEof` | turbonfs/src/rpc_task.cpp:4178-4225 | a read that meets the end of the file: the rest is released and what is left uptodate if nobody else uses the chunk |
| `Coherence.KeepsHeld` | turbonfs/src/nfs_inode.cpp:1074-1122 | taking and dropping counts and locks that no flush, commit or read owns, also dropping the count under the lock |
| `Coherence.KeepsRestart` | turbonfs/src/rpc_task.cpp:838-960 | a server restart: what only its memory held is gone and its verifier is another |
| `Coherence.KeepsZero` | turbonfs/src/rpc_task.cpp:3618-3652 | a hole filled with zeros through a whole chunk |
| `Coherence.KeepsFlushStart` | turbonfs/src/nfs_inode.cpp:654-942 | start of a flush |
| `Coherence.KeepsServerWrites` | turbonfs/src/rpc_task.cpp:1330-1390 | the server takes any byte of a chunk in flight at any time |
| `Coherence.KeepsFlushDone` | turbonfs/src/rpc_task.cpp:1103-1196 | end of a flush, stable or unstable |
| `Coherence.KeepsCommitStart` | turbonfs/src/file_cache.cpp:2930-3017 | start of a commit |
| `Coherence.KeepsCommitDone` | turbonfs/src/rpc_task.cpp:894-950 | successful end of a commit answered with the verifier of the writes |
| `Coherence.KeepsRedirty` | turbonfs/src/nfs_inode.cpp:460-557 | commit-pending data made dirty again, by a failed commit or by the switch to stable writes |
| `Coherence.KeepsGet` | turbonfs/src/file_cache.cpp:1794-1925 | get() of any range |
| `Coherence.KeepsShed` | turbonfs/inc/file_cache.h:788-792 | dropping any part of chunks that are safe to release |
| `Coherence.TrimSheds` | turbonfs/src/file_cache.cpp:1467-1787 | the first pass of a release drops nothing else |
| `Coherence.SweepSheds` | turbonfs/src/file_cache.cpp:1930-1964 | nor does the second, other threads having acted in between |
| `Coherence.PruneSheds` | turbonfs/src/file_cache.cpp:2443-2851 | pruning and purging drop nothing else |
| `Coherence.WriteKeepsRules` | turbonfs/src/file_cache.cpp:766-804 | in every coherent state the flag methods of a copy run without failing an assertion and have the step's effect |
| `Coherence.FlushKeepsRules` | turbonfs/src/file_cache.cpp:550-643 | likewise for the start and the end of a flush |
| `Coherence.CommitKeepsRules` | turbonfs/src/file_cache.cpp:472-540 | likewise for the start and both ends of a commit |
| `Coherence.ReadKeepsRules` | turbonfs/src/file_cache.cpp:383-440 | likewise for the arrival of read data |
| `CoherenceRun.CommitSafeIff` | turbonfs/src/rpc_task.cpp:890-950 | whatever the server has kept, taking a COMMIT for good is right if and only if every commit-pending WRITE was answered with the verifier of the COMMIT |
| `CoherenceRun.RestartIsSafeIff` | turbonfs/src/rpc_task.cpp:890-950 | a restart before the commit is harmless, whatever the server has kept, if and only if nothing is commit pending |
| `CoherenceRun.NoRestartMatches` | turbonfs/src/rpc_task.cpp:890-950 | in a run without a restart the verifiers match all the time |
| `CoherenceRun.RestartLosesWrite` | turbonfs/src/rpc_task.cpp:890-950 | a run in which a restart before the commit loses a write: write verifiers are not compared |
| `CoherenceRun.ZeroIsSafeIff` | turbonfs/src/rpc_task.cpp:3625-3645 | whatever the buffer holds, zeroing a piece and marking the buffer uptodate is right if and only if the piece is the whole chunk |
| `CoherenceRun.PartialZeroShowsJunk` | turbonfs/src/rpc_task.cpp:3625-3645 | a run after which zeroing part of a fresh chunk makes junk bytes count as uptodate |
| `Fcsm.EnsureFlushKeeps` | turbonfs/src/fcsm.cpp:658-871 | ensure_flush() keeps the machine's invariant: conservation, idle means done, goals attainable and in order |
| `Fcsm.EnsureCommitKeeps` | turbonfs/src/fcsm.cpp:413-653 | ensure_commit() keeps it |
| `Fcsm.FlushGoalIsLast` | turbonfs/src/fcsm.cpp:712-717 | the goal computed from the front of the queue is the bytes reachable now and at least every queued goal |
| `Fcsm.CommitGoalAttainable` | turbonfs/src/fcsm.cpp:471-520 | a commit goal lies above committed_seq_num and within reach; on a stopped machine there is data to flush or to commit for it |
| `Fcsm.FlushAsked` | turbonfs/src/fcsm.cpp:712-840 | ensure_flush() tells the waiter at once only if nothing is dirty or under way; else the machine runs and a target covers everything not yet flushed |
| `Fcsm.CommitAsked` | turbonfs/src/fcsm.cpp:463-650 | ensure_commit() tells the waiter at once only if there is nothing to do; else a target is queued for exactly what is dirty, commit pending, or dirty beyond the extent that may stay, or, if writes become stable, a flush of everything is awaited |
| `Fcsm.FullCommitGoal` | turbonfs/src/fcsm.cpp:481-520 | a full commit with nothing in flight or pending has the goal flushing_seq_num plus all dirty bytes |
| `Fcsm.StartedAsks` | turbonfs/src/fcsm.cpp:255-303 | a write that need not wait sets going the flush of everything dirty, and the commit, that it was found to need, and nothing else |
| `Fcsm.InlineAsks` | turbonfs/src/fcsm.cpp:224-252 | an inline write is told at once only if there is nothing to flush or commit, else it waits for all of it |
| `Fcsm.SyncKeeps` | turbonfs/src/nfs_inode.cpp:654-942 | a flush moves dirty bytes to in-flight bytes, with or without the switch to stable writes, and marks the machine running |
| `Fcsm.HandleFlushKeeps` | turbonfs/src/fcsm.cpp:1143-1347 | a flush callback past its re-check sees flushed equal flushing, starts a commit that has data or a flush that reaches the goal, or stops with empty queues; the last branch is unreachable |
| `Fcsm.HandleCommitKeeps` | turbonfs/src/fcsm.cpp:934-1082 | the commit callback keeps the invariant and leaves the machine running with nothing under way if and only if a flush target is queued and nothing is dirty |
| `Fcsm.CommitReplyKeeps` | turbonfs/src/fcsm.cpp:893-921 | when a commit ends flushing, flushed, committing and committed are equal |
| `Fcsm.CompleteKeeps` | turbonfs/src/fcsm.cpp:1092-1123 | end of a backend write |
| `Fcsm.EnsureFlushAccounts` | turbonfs/src/fcsm.cpp:779-788 | the waiter is queued or told, once |
| `Fcsm.EnsureCommitAccounts` | turbonfs/src/fcsm.cpp:499-607 | the waiter is queued or told, once, on all paths including the switch to stable writes |
| `Fcsm.HandlersAccount` | turbonfs/src/fcsm.cpp:1178-1230 | the callbacks lose no waiter and tell none twice |
| `FcsmMachine.Machine.constructor` | turbonfs/src/fcsm.cpp:10-23 | a new machine |
| `FcsmMachine.Machine.EnsureFlush` | turbonfs/src/fcsm.cpp:658-871 | carries out ensure_flush(), with the assertions of the source |
| `FcsmMachine.Machine.EnsureCommit` | turbonfs/src/fcsm.cpp:413-653 | carries out ensure_commit() |
| `FcsmMachine.Machine.HandleFlush` | turbonfs/src/fcsm.cpp:1143-1347 | carries out on_flush_complete() under the lock |
| `FcsmMachine.Machine.HandleCommit` | turbonfs/src/fcsm.cpp:934-1082 | carries out on_commit_complete() under the lock |
| `FcsmMachine.Machine.PopFlushTargets` | turbonfs/src/fcsm.cpp:1178-1230 | the loop over reached flush targets |
| `FcsmMachine.Machine.PopCommitTargets` | turbonfs/src/fcsm.cpp:948-1000 | the loop over reached commit targets |
| `FcsmMachine.Machine.GoOn` | turbonfs/src/fcsm.cpp:1239-1344 | commit, flush on, or stop |
| `FcsmMachine.Machine.CtgtqCleanup` | turbonfs/src/fcsm.cpp:313-362 | tells every waiter of the commit queue and empties it |
| `FcsmMachine.Machine.FtgtqCleanup` | turbonfs/src/fcsm.cpp:364-411 | tells every waiter of the flush queue and empties it |
| `FcsmRun.CleanupFindsNothing` | turbonfs/src/nfs_inode.cpp:1586-1592 | with stable writes the clean-up before a truncate finds no flush target left to tell |
| `FcsmMachine.Machine.SwitchToStableWrite` | turbonfs/src/nfs_inode.cpp:460-557 | commit-pending data is dirty again, the commit queue is cleaned up |
| `FcsmMachine.Machine.SyncMembufs` | turbonfs/src/nfs_inode.cpp:654-942 | flushing_seq_num grows by exactly the bytes sent |
| `FcsmMachine.Machine.CommitMembufs` | turbonfs/src/nfs_inode.cpp:602-645 | committing_seq_num grows by exactly the commit-pending bytes |
| `FcsmMachine.Machine.Run` | turbonfs/src/fcsm.cpp:119-311 | run() carries out `AfterWrite`: a frontend write is told at once or queued once, everybody else stays accounted for, and the flush and commit it needs are asked for |
| `FcsmRun.FlushPromise` | turbonfs/src/fcsm.cpp:712-788 | stable writes, any interleaving: a blocking flush is answered only when everything dirty or in flight at the call, none of it written then, is written, and by the end of the second round after it |
| `FcsmRun.GoalsAttainable` | turbonfs/src/fcsm.cpp:712-770 | in every reachable state each goal in either queue is at most flushing_seq_num plus the dirty bytes, and the flush queue is in order |
| `FcsmRun.ReachNeverShrinks` | turbonfs/inc/file_cache.h:1409-1416 | that sum never decreases |
| `FcsmRun.NothingForgotten` | turbonfs/src/fcsm.cpp:675-677 | in-flight bytes are the difference of the sequence numbers; a stopped machine has empty queues and nothing under way; a running one has something under way |
| `FcsmRun.CallbackGoesOn` | turbonfs/src/fcsm.cpp:1143-1344 | a callback past its re-check sees flushed equal flushing and never reaches the last branch |
| `FcsmRun.ToldExactlyOnce` | turbonfs/src/fcsm.cpp:119-411 | every waiter is in one queue once or has been told once, also across both clean-ups; none is left when the machine stops |
| `FcsmRun.UnstableCommits` | turbonfs/src/fcsm.cpp:902-1000 | with unstable writes: flushed is committed plus commit pending, the front commit target is not reached, a commit that starts has data, and when it ends all four numbers agree |
| `FcsmRun.RunInv` | turbonfs/src/fcsm.cpp:413-1347 | the invariant in every state of every run |
| `FcsmRun.StaleCallbackCommitsNothing` | turbonfs/src/fcsm.cpp:1143-1261 | a run in which a flush callback enters between the end of a commit and its callback and starts a commit of nothing |
| `FcsmRun.WindowCommitsNothing` | turbonfs/src/fcsm.cpp:1239-1261 | in every run, any flush callback that enters between the end of a commit and its callback starts a commit of nothing |
| `FcsmRun.EmptyFlushStalls` | turbonfs/src/fcsm.cpp:1014-1060 | a run in which a flush asked for with nothing dirty during a commit leaves the machine running with nothing under way |
| `FcsmRun.CountingMustBeAtomic` | turbonfs/src/fcsm.cpp:1112-1172 | the assertion that flushed equals flushing fails if a callback enters between clearing flags and counting |
| `FcsmRun.EnoughIffContiguous` | turbonfs/src/fcsm.cpp:1263-1300 | the next flush reaches every goal a target may have if and only if writes are stable or the dirty data is contiguous |
| `FcsmRun.ContiguousIsEnough` | turbonfs/src/fcsm.cpp:1290-1300 | then a triggered flush takes at least what the next goal asks for |
| `FcsmRun.GapIsNotEnough` | turbonfs/src/fcsm.cpp:1290-1300 | a run in which a flush callback finds a gap in the dirty data and the assertion on the amount fails |
| `FcsmRun.CommitQueueSortedIff` | turbonfs/src/fcsm.cpp:517-545 | a call keeps the commit queue in order if and only if the last goal is not above the new one |
| `FcsmRun.CommitQueueUnsorted` | turbonfs/src/fcsm.cpp:517-545 | a run that leaves the commit queue out of order |
| `FcsmCommit.CommitPromise` | turbonfs/src/fcsm.cpp:413-653 | unstable writes, any interleaving: a commit told while writes are still unstable has as many bytes committed as it asked for and all that was pending written; a full commit has everything dirty at the call written, if nothing was in flight and no hole lay at or beyond its goal |
| `FcsmCommit.FullCommitSafeIff` | turbonfs/src/fcsm.cpp:795-830 | a full commit on a stopped machine sends out all that was dirty or makes writes stable, whatever is written meanwhile, if and only if the dirty data starts below the append position or has no hole at or beyond that position plus its size |
| `FcsmCommit.HoleLeavesWrite` | turbonfs/inc/fcsm.h:109-129 | a run in which a full commit is told with an item it was to cover not written |
| `FcsmCommit.FullGoalIff` | turbonfs/src/fcsm.cpp:481-520 | the goal of a full commit covers all that can be reached if and only if nothing is in flight or the front target does |
| `FcsmCommit.EarlyCommitLeavesWrite` | turbonfs/src/fcsm.cpp:472-485 | a run in which a full commit asked for during a flush is told with what was dirty not written |
| `FcsmCommit.RunEnds` | turbonfs/src/file_cache.cpp:3019-3088 | a flush with unstable writes takes the dirty run up to the first hole |
| `FcsmCache.CountersAgree` | turbonfs/inc/file_cache.h:1409-1447 | the dirty, in-flight and commit-pending bytes of the machine are the counters of the cache |
| `FcsmCache.GoalFromCounters` | turbonfs/src/fcsm.cpp:712-717 | get_bytes_to_flush() is what ensure_flush() means to flush, and the sequence numbers differ by the cache's flushing and commit-pending bytes |
| `FcsmCache.StandsInOrder` | turbonfs/inc/file_cache.h:1898-1909 | the machine's dirty items are in the order of the chunk map and do not overlap |
| `FcsmCache.WriteRefines` | turbonfs/src/file_cache.cpp:766-804 | a write into a clean chunk is the machine's step that makes an item dirty |
| `FcsmCache.FlushRefines` | turbonfs/src/nfs_inode.cpp:654-942 | a flush of the map's waiting chunks is the machine's flush |
| `FcsmCache.CompletionRefines` | turbonfs/src/rpc_task.cpp:1103-1196 | the end of a chunk's write is the machine's completion of its item |
| `Packer.BcIovec.AddBc` | turbonfs/inc/rpc_task.h:390-489 | a chunk joins if and only if it is the first, or contiguous and within both limits |
| `Packer.PackAll` | turbonfs/src/nfs_inode.cpp:704-910 | the packing loop yields the greedy ends, and flushing_seq_num grows by the sum of the lengths |
| `Packer.EndsPack` | turbonfs/inc/rpc_task.h:365-389 | the writes cover the chunks in order, each contiguous and within the limits, each ended by a refusal that a limit forced |
| `Packer.FewestWrites` | turbonfs/inc/rpc_task.h:365-389 | no other way of packing the chunks in order needs fewer writes |
| `Packer.BcIovec.OnIoComplete` | turbonfs/src/rpc_task.cpp:1103-1196 | after a partial write the wholly written chunks have left and exactly the rest of the range is queued |
| `InodeMap.NfsClient.InodeFromInodeMap` | turbonfs/src/nfs_client.cpp:682-732 | finds the inode of a file if and only if it is in the map, with one reference more |
| `InodeMap.NfsClient.AddInode` | turbonfs/src/nfs_client.cpp:865-953 | insert under the exclusive lock unless another thread was faster, whose inode is then returned |
| `InodeMap.NfsClient.GetNfsInode` | turbonfs/src/nfs_client.cpp:740-953 | with any critical sections of other threads before and between the two looks: the caller gets the inode of the file, the same one if it already held it, and beyond what the others did there is exactly one reference more |
| `InodeMap.NfsClient.Others` | turbonfs/src/nfs_client.cpp:682-1145 | any sequence of critical sections of other threads has exactly the effect of its calls, one after the other, and leaves a held inode with its file |
| `InodeMap.NfsClient.Dircache` | turbonfs/inc/nfs_inode.h:1388-1396 | a directory cache coming to refer to an inode, or ceasing to |
| `InodeMap.NfsClient.PutNfsInode` | turbonfs/src/nfs_client.cpp:1045-1145 | the inode is freed if and only if both counts are zero then |
| `InodeMap.OneInodePerFile` | turbonfs/src/nfs_client.cpp:758-768 | an inode given out for a file and still referenced later is the one the file has then |
| `InodeMap.IncrefKeeps` | turbonfs/inc/nfs_inode.h:1345-1396 | changing the counts of an inode keeps the map unique, counted and alive |
| `TaskPool.RpcTaskHelper.constructor` | turbonfs/inc/rpc_task.h:2513-2534 | all indices are free at first |
| `TaskPool.RpcTaskHelper.GetFreeIdx` | turbonfs/inc/rpc_task.h:2639-2680 | an index nobody has, or none; a reserved caller gets none only if at least 1000 reserved tasks are out |
| `TaskPool.RpcTaskHelper.ReleaseFreeIndex` | turbonfs/inc/rpc_task.h:2682-2704 | the index is free again |
| `TaskPool.EmptyMeansReserveInUse` | turbonfs/inc/rpc_task.h:2639-2665 | an empty pool means the reserve is in reserved hands |
| `TaskPool.PopKeeps` | turbonfs/inc/rpc_task.h:2639-2680 | taking an index keeps free, regular and reserved indices a partition of the range |
| `TaskPool.PushKeeps` | turbonfs/inc/rpc_task.h:2682-2704 | giving an index back keeps it |

## Left out

- Get.GetX: does not claim the left edge maximal where the range starts in a gap between two chunks, because the scan does not look back there.
- Truncate.TruncateCache: readers may not add chunks to the map while it runs, and no flush or commit of the file is under way, as its callers arrange; cutting a chunk being filled keeps the part below the cut but says nothing of bytes still being read.
- CoherenceRun.NoLostWriteNoStaleRead: one client; truncate and buffers outside the map are not steps; a backend write is taken to be answered as a whole by one server instance.
- Coherence.KeepsZero: the step is for whole chunks, the only case in which it is right; the code does it for parts as well.
- Coherence.KeepsRedirty: the source stops with a failed assertion after a failed commit; the model goes on from the state it leaves.
- FcsmRun.FlushPromise: for stable writes; with unstable writes a flush takes the contiguous prefix of the dirty data only and gives no such bound.
- FcsmRun.UnstableCommits: for runs in which no flush callback enters between the end of a commit and its callback and no flush is asked for with nothing dirty during a commit; what happens otherwise is stated apart.
- FcsmCommit.CommitPromise: for runs whose dirty items never overlap, as chunks of a map do not (`FcsmCache.StandsInOrder`); once writes are stable a commit target is answered by the switch and nothing is claimed of it.
- FcsmCache.FlushRefines: for stable writes; the contiguous-prefix and commit-pending scans appear only through their results in `Fcsm`.
- InodeMap.NfsClient.PutNfsInode: attribute updates, the retry loop of decref() and the forget count are not modelled.
- Buffers are values inside their chunks, so sharing of one buffer by two chunk objects is not visible; iterators are indices.
- File-backed caches, mmap, drop() and load(); use of tail room, which is compiled out.
- Purge at shutdown and failed writes, which drop dirty data knowingly.
- Waiting, timeouts, condition variables, error injection, logging and statistics.
- Flush, commit, inline and prune thresholds, whose results are parameters.
- Readahead, directory and name caches, silly rename, attribute revalidation, FUSE handlers, connections, configuration, jukebox retry.
- flush_cache_and_wait() and wait_for_ongoing_flush(), which wait in loops for the machine modelled here.
