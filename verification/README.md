# Makalu, ulib and nvm_malloc: verified models

This project models the parts of the repository whose correctness is hardest to see, and proves
what they promise. Check everything with `dafny verify dfyconfig.toml` (Dafny 4.11).

## What is modelled

**Persistent memory** (`NvmModel.dfy`). NVM behind a write-back cache. The processor executes
stores, line flushes and fences. A dirty line may be written back at any moment, and a flush is
certain only at the next fence. A crash keeps some image that `Survives` allows;
`EvictionsAreCovered` shows that this includes every image an explicit cache with arbitrary
evictions can leave.

**Makalu's failure-atomic sections** (`UndoLog.dfy`, `FlushTable.dfy`, `Persistence.dfy`).
Logging with immediate flushes, data flushes through an 8-entry hash table, commit by bumping the
log version, and recovery by replaying the log backwards. All of it is executed as a trace of
single instructions, and the guarantees hold for a crash after every prefix of the trace.

**Makalu's heap blocks** (`BlockMap.dfy`, `FreeLists.dfy`, `Headers.dfy`, `PageIndex.dfy`,
`BlockTheory.dfy`, `RebuildTheory.dfy`, `BlockHeap.dfy`, `BlockRecovery.dfy`,
`HeaderCache.dfy`). Block headers live in the memory above and are stored to only through the
section macros. The free lists, the two-level page index and the list of unused headers are
volatile. Freeing coalesces, allocation splits, and the coupling invariant `Heap.AtRest` says that
headers, index, lists, counters and an abstract map of blocks all agree. The chain of results ends
in `RestartAfterCrash`: a crash at any instruction of an operation, any number of interrupted
recoveries, the log replay and the rebuild from the headers together give a working heap with
exactly the blocks from before or from after the operation.

**Makalu's marker** (`MarkTheory.dfy`, `Marker.dfy`, `ParallelMarker.dfy`, `ParallelProgress.dfy`,
`ParallelLoss.dfy`, `MarkRestart.dfy`). The sequential state machine with a bounded stack that discards
entries on overflow, the parallel marker with work stealing, credit and termination detection as
interleaved atomic steps of any number of threads, and the offline loop in which the roots-pushed step
is any finished run of the parallel marker. The heap is an object graph whose edges are the words that the marker
accepts as pointers.

**Makalu's free-list truncation** (`TruncationTheory.dfy`, `Truncation.dfy`). Objects go back to their
pages one at a time, or in batches through a small table with collisions. The batched loop has a
meaning on every list (`Fast`), which reports an object whose page is gone, and counts wrap like
machine words.

**ulib's open hash table** (`Probing.dfy`, `TableState.dfy`, `Rehash.dfy`, `OpenHash.dfy`).
Triangular probing, tombstones and the in-place rehash, as a class that refines a finite map.

**ulib's spin locks** (`McsQueue.dfy`, `McsLock.dfy`, `McsProgress.dfy`, `RwTicket.dfy`). The MCS lock with both
unlock functions and the ticket reader/writer lock, as state machines whose steps are single
memory accesses of any number of threads.

**ulib's bitmaps** (`Bitmap.dfy`, `BitmapGrammar.dfy`). The in-place left shift over words, the printer and the parser of
comma-grouped hexadecimal text. A word is modelled as its 64 bits.

**nvm_malloc's bins** (`ArenaBins.dfy`). Allocation and deallocation of small objects in the runs of a
bin, for an arena that was created fresh.

Where a class stands for code that updates state in place, its methods follow the code's order of
accesses. `hide` statements only keep definitions away from the solver where they are not needed.

## Results that differ from a first reading

- The ticket reader/writer lock excludes writers exactly if at most 256 tickets are outstanding
  (`WritersAreAlone`), or at most 256 threads use it (`EnoughTickets`); with 257 a try-lock lets a
  second writer in.
- New values in a range of words that is registered once are safe after the flush of the table exactly
  if the range fits into one cache line (`RangeCoveredIff`, `WriteRange`), because the loop enters the
  first line in every round. Of the 4096 bytes of a cleared log, all but the first line may be lost
  (`LogRangeLost`).
- The tests for an overflow of merged block sizes never fail for a heap in the lower half of the
  address space (`MergedFits`), so coalescing is always complete and canonical
  (`CoalescedUnique`).
- Truncating one at a time bears an object that is deallocated twice, as long as its page survives
  (`Bearable`). On these lists the batches leave the same pages exactly if every object is marked and
  occurs once (`FastIff`); `DoubleFreeDiffers` shows a page that ends up with two marks and a count of one.
- The offline loop with parallel marking always ends. A phase that starts with the root ranges loses
  entries only after it has marked a new object (`LossFollowsMark`), because the credit of one scan is just
  enough for all of the roots: shared out, the 512 words cost two words more than the credit, and these
  are the last two (`Suffices`).
- The exits "came back to the start" of the hash table's probe loops are unreachable.

## Model

| member | source | states |
|---|---|---|
| `NvmModel.EvictionsAreCovered` | makalu_alloc/src/internal_include/makalu_persistent.h:78-97 | whatever lines the cache evicts and whenever it does, the image left in NVM is one that the crash model allows |
| `UndoLog.CrashInSection` | makalu_alloc/src/makalu_persistent.c:353-386 | for every image that survives a crash inside a section, replaying the log restores every word that was logged, even several times, or not written |
| `UndoLog.CrashInCommit` | makalu_alloc/src/makalu_persistent.c:162-164 | while the version is being bumped, every surviving image is undone as a whole or kept as a whole |
| `UndoLog.CrashInRecovery` | makalu_alloc/src/makalu_persistent.c:353-386 | a crash at any moment of recovery leaves an image from which recovery produces the same words |
| `UndoLog.RecoveryRerun` | makalu_alloc/src/makalu_persistent.c:353-386 | recovery interrupted and rerun any number of times always produces the same words |
| `UndoLog.SealEntry` | makalu_alloc/src/makalu_persistent.c:190-194 | because the version of an entry is stored last, no surviving image holds a torn entry with the current version |
| `FlushTable.CoverEnter` | makalu_alloc/src/makalu_persistent.c:93-102 | entering a line, with the flush of the line it displaces, keeps every word settled, owed a flush or awaiting a fence |
| `FlushTable.FlushAllSettles` | makalu_alloc/src/makalu_persistent.c:70-86 | flushing the table between two fences makes every word equal in cache and in every surviving image |
| `FlushTable.RangeCoveredIff` | makalu_alloc/src/makalu_persistent.c:70-103 | after stores of new values to a range, its registration and a flush of the table, every surviving image holds them if and only if the range fits into one line |
| `FlushTable.BeyondIsLost` | makalu_alloc/src/makalu_persistent.c:88-103 | for every word of the range beyond the first line some surviving image holds the old value |
| `FlushTable.LogRangeLost` | makalu_alloc/src/makalu_persistent.c:340-349 | after the log has been cleared and registered, some surviving image still holds any given old word beyond the first line |
| `Persistence.Nvm.WriteRange` | makalu_alloc/src/makalu_persistent.c:70-103 | executing the stores, one registration and the flush settles the range if and only if it fits into one line |
| `Persistence.Nvm.AddToFlushTable` | makalu_alloc/src/makalu_persistent.c:88-103 | the loop over the range leaves the first line in its slot and flushes only a line it displaces |
| `Persistence.Nvm.FlushAll` | makalu_alloc/src/makalu_persistent.c:70-86 | the table is empty and exactly its lines have been flushed between two fences |
| `Persistence.Nvm.StartAtomic` | makalu_alloc/src/makalu_persistent.c:151-160 | a section starts with an empty log, and a crash right away undoes nothing |
| `Persistence.Nvm.CreateLogEntry` | makalu_alloc/src/makalu_persistent.c:183-196 | the entry is durable when the method returns, and every crash on the way is safe |
| `Persistence.Nvm.LogNvm` | makalu_alloc/src/internal_include/makalu_persistent.h:242-245 | the first entry for a word holds its value from before the section |
| `Persistence.Nvm.NoLogStore` | makalu_alloc/src/internal_include/makalu_persistent.h:170-174 | only words that are neither logged nor given their old value become unprotected |
| `Persistence.Nvm.StoreNvm` | makalu_alloc/src/internal_include/makalu_persistent.h:214-240 | log, store and registration of the flush in this order keep every crash safe |
| `Persistence.Nvm.EndAtomic` | makalu_alloc/src/makalu_persistent.c:162-176 | for a crash at any instruction since the section started, recovery undoes the whole section or keeps all of it; afterwards every store is durable |
| `Persistence.Nvm.Recover` | makalu_alloc/src/makalu_persistent.c:353-386 | the two loops restore exactly the words that the image means, and a crash at any instruction of them may be recovered from again |
| `BlockTheory.CoalescedUnique` | makalu_alloc/src/makalu_block.c:425-453 | the heap and the blocks in use determine the free blocks, if no two free blocks are neighbours |
| `BlockMap.MergeTiles` | makalu_alloc/src/makalu_block.c:425-453 | merging two neighbouring blocks keeps the blocks an exact tiling of the heap |
| `BlockMap.SplitTiles` | makalu_alloc/src/makalu_block.c:471-496 | splitting a block keeps the blocks an exact tiling of the heap |
| `BlockMap.GrowTiles` | makalu_alloc/src/makalu_block.c:340-371 | adding new pages as a block tiles the grown heap |
| `BlockTheory.ListedBytes` | makalu_alloc/src/makalu_block.c:293-324 | the byte counters of the lists add up to the bytes of all free blocks |
| `FreeLists.ListsAreOrdered` | makalu_alloc/src/makalu_block.c:255-262 | size classes are in range and monotone, and the first ones hold one size each |
| `FreeLists.Lists.Remove` | makalu_alloc/src/makalu_block.c:264-299 | unlinking takes exactly that block off its list, keeps all lists linked both ways and the counters exact |
| `FreeLists.Lists.Add` | makalu_alloc/src/makalu_block.c:304-332 | the block becomes the first of its list, all lists stay linked both ways and the counters exact |
| `Headers.RestoredDescribes` | makalu_alloc/src/makalu_hdr.c:452-558 | fields that were stored to without logging mean nothing after recovery: the recovered headers describe the same blocks |
| `Headers.CrashDescribes` | makalu_alloc/src/makalu_persistent.c:353-386 | after a crash at any instruction of a section the recovered headers tell the old or the new blocks, with the right total of free bytes |
| `Headers.HeaderStore.Finish` | makalu_alloc/src/makalu_persistent.c:162-176 | every crash since the start of the section restores the old headers, up to fields that mean nothing, or the new ones |
| `PageIndex.Index.Find` | makalu_alloc/src/internal_include/makalu_hdr.h:122-130 | the hash chain leads to the bottom index with the given key, or there is none |
| `PageIndex.Index.Get` | makalu_alloc/src/makalu_hdr.c:55-60 | the two-level lookup returns the entry of the page |
| `PageIndex.Index.Ensure` | makalu_alloc/src/makalu_hdr.c:330-377 | a new bottom index is put in front of its chain and in its place in the ascending and descending lists; no entry changes |
| `PageIndex.Index.PrevBlock` | makalu_alloc/src/makalu_hdr.c:671-700 | returns the highest block start at or below the page, or none, across bottom indices and forwarding counts |
| `PageIndex.Index.Heads` | makalu_alloc/src/makalu_hdr.c:607-631 | the traversal meets every block start exactly once |
| `PageIndex.Index.InstallCounts` | makalu_alloc/src/makalu_hdr.c:580-594 | exactly the inner pages of the block get forwarding counts, capped at the longest jump |
| `PageIndex.Index.RemoveCounts` | makalu_alloc/src/makalu_hdr.c:597-603 | exactly the inner pages of the block are cleared |
| `BlockTheory.PointsForward` | makalu_alloc/src/internal_include/makalu_hdr.h:143-145 | forwarding never jumps over a block start |
| `BlockHeap.Heap.FreeBlockEndingAt` | makalu_alloc/src/makalu_block.c:228-253 | returns the free block that ends at the page, if and only if there is one |
| `BlockHeap.Heap.RemoveFromFl` | makalu_alloc/src/makalu_block.c:264-302 | the block is off its list and its size and flags are logged |
| `BlockHeap.Heap.AddToFl` | makalu_alloc/src/makalu_block.c:304-336 | the block is on the list of its size class and marked free |
| `BlockHeap.Heap.RemoveHeader` | makalu_alloc/src/makalu_hdr.c:311-326 | the header has no size and names no block, is free for reuse, and the index forgets it |
| `BlockHeap.Heap.AllocHdr` | makalu_alloc/src/makalu_hdr.c:191-220 | an unused header is taken whose fields recovery will not miss |
| `BlockHeap.Heap.InstallHeader` | makalu_alloc/src/makalu_hdr.c:563-577 | the new header names the block and the index leads to it |
| `BlockHeap.Heap.FreeHblk` | makalu_alloc/src/makalu_block.c:395-459 | exactly the given block leaves the blocks in use; tiling, coalescing, lists, index and totals hold again; a crash at any instruction shows the old or the new blocks |
| `BlockHeap.Heap.NewFreeHblk` | makalu_alloc/src/makalu_block.c:340-384 | the heap grows by exactly the new pages, the blocks in use stay, everything agrees again; a crash at any instruction shows the old or the new blocks |
| `BlockHeap.Heap.GetFirstPart` | makalu_alloc/src/makalu_block.c:471-496 | the block is cut at the requested size, and the rest has a header, an index entry and its place on a list |
| `BlockHeap.Heap.SetupHeader` | makalu_alloc/src/makalu_block.c:502-524 | the header describes the block in use |
| `BlockHeap.Heap.Search` | makalu_alloc/src/makalu_block.c:544-573 | finds a suitable block of the list unless there is none, although it skips blocks in favour of better ones |
| `BlockHeap.Heap.AllocNth` | makalu_alloc/src/makalu_block.c:526-593 | takes a suitable block of the list or changes nothing; a crash at any instruction shows the old or the new blocks |
| `BlockHeap.Heap.AllocHblk` | makalu_alloc/src/makalu_block.c:604-637 | returns 0 if and only if no free block is large enough; else a block that was free is in use with the given size and kind, and no other block in use changes |
| `BlockHeap.Heap.RebuildIndex` | makalu_alloc/src/makalu_hdr.c:452-558 | from headers that describe the blocks, the index leads from every page to its block and the unused headers are exactly those without a size |
| `BlockHeap.Heap.RebuildLists` | makalu_alloc/src/makalu_reclaim.c:55-118 | every free block is on the list of its size class and nothing else is |
| `BlockHeap.Heap.Rebuild` | makalu_alloc/src/makalu_init.c:281-300 | a heap rebuilt from headers that tell the blocks is at rest with these blocks |
| `BlockHeap.Heap.ApplyToAllBlocks` | makalu_alloc/src/makalu_hdr.c:607-631 | the function is applied to every block in use exactly once and to nothing else |
| `BlockRecovery.RestartAfterCrash` | makalu_alloc/src/makalu_init.c:281-300 | a crash at any instruction of an operation, any number of interrupted recoveries and a restart give a new heap at rest with exactly the old or exactly the new blocks |
| `BlockRecovery.RestartAndFree` | makalu_alloc/src/makalu_init.c:281-300 | the restarted heap can be operated: freeing a block that was in use all along takes exactly it out of the blocks in use |
| `BlockRecovery.AllocFreeIsIdentity` | makalu_alloc/src/makalu_block.c:395-459 | allocating a block and freeing it gives back the same blocks |
| `BlockTheory.KnownIsRight` | makalu_alloc/src/makalu_hdr.c:319-321 | a header that has been in use and names a block is the one that the index leads to |
| `HeaderCache.Cache.Get` | makalu_alloc/src/makalu_hdr.c:123-134 | a lookup through the cache equals the lookup in the index, whatever has been freed, merged and reused since the entry was filled |
| `HeaderCache.Cache.GetAndUpdate` | makalu_alloc/src/makalu_hdr.c:136-154 | returns the header of the block and keeps the cache trustworthy |
| `HeaderCache.Cache.Update` | makalu_alloc/src/makalu_hdr.c:114-121 | one slot changes and the cache stays trustworthy |
| `MarkTheory.ClosedMarksReachable` | makalu_alloc/src/makalu_mark.c:69-94 | when Invariant I holds with an empty stack, everything reachable from the roots is marked |
| `Marker.Collector.PushObj` | makalu_alloc/src/internal_include/makalu_mark.h:193-205 | the object's range is pushed, or entries are discarded and the state becomes invalid |
| `Marker.Collector.PushContents` | makalu_alloc/src/internal_include/makalu_mark.h:218-277 | the target is marked; unless the state becomes invalid, no word loses its good standing; every change marks a new object |
| `Marker.Collector.MarkFrom` | makalu_alloc/src/makalu_mark.c:791-983 | keeps the invariant and marks a new object or leaves less work on the stack |
| `Marker.Collector.ShareOut` | makalu_alloc/src/makalu_mark.c:831-843 | halving large ranges, with an overlap of one word, loses no word and never adds work |
| `Marker.Collector.PushMarked` | makalu_alloc/src/makalu_mark.c:436-481 | the marked objects of the block need no further attention, unless the state is invalid |
| `Marker.Collector.PushNextMarked` | makalu_alloc/src/makalu_mark.c:487-498 | one more block is taken care of, or the scan is complete |
| `Marker.Collector.PushRootRanges` | makalu_alloc/src/makalu_mark.c:205-228 | every root word is marked through or on the stack, the pushes never overflow it, and the new ranges with the words between them fit into the roots |
| `Marker.Collector.MarkSome` | makalu_alloc/src/makalu_mark.c:544-654 | each step keeps the invariant and makes progress; TRUE means that the marks are closed under pointers; after a restart the roots are pushed onto an empty stack only |
| `Marker.Collector.MarkOffline` | makalu_alloc/src/makalu_mark.c:659-675 | without parallel marking: terminates, refuses exactly the unexpected states, and marks everything reachable however often the stack overflows |
| `Marker.Collector.Collect` | makalu_alloc/src/makalu_mark.c:677-702 | without parallel marking: afterwards an object is marked if and only if it is reachable from the persistent roots |
| `ParallelMarker.StepKeeps` | makalu_alloc/src/makalu_mark.c:1011-1250 | every atomic step of every thread keeps the invariant: unless the state is invalid, each word still to be scanned is on the global stack or held by a thread counted active |
| `ParallelMarker.LeaveKeeps` | makalu_alloc/src/makalu_mark.c:1184-1198 | when a thread finds no active thread and an empty stack, no thread holds any work |
| `ParallelMarker.RunInv` | makalu_alloc/src/makalu_mark.c:1126-1219 | the invariant holds in every state of every run |
| `ParallelMarker.ParallelMarkComplete` | makalu_alloc/src/makalu_mark.c:1225-1250 | when the initiating thread returns, the stack is used up and everything reachable is marked or the state is invalid; nothing unreachable is marked |
| `TruncationTheory.DropClears` | makalu_alloc/src/makalu_reclaim.c:459-556 | truncation clears exactly the mark bits of the objects, on whatever page |
| `TruncationTheory.DropFrees` | makalu_alloc/src/makalu_reclaim.c:507-532 | a page is freed if and only if as many of its objects are given back as it has marks |
| `TruncationTheory.DropTwice` | makalu_alloc/src/makalu_reclaim.c:566-660 | giving objects back in two parts or all at once leaves the same pages, counts and reclaim states |
| `Truncation.Reclaimer.TruncateFreelist` | makalu_alloc/src/makalu_reclaim.c:459-556 | exactly the marked ones among the dropped objects are given back, also if some occur twice; the ring keeps the rest in order |
| `Truncation.Reclaimer.RemoveEntries` | makalu_alloc/src/makalu_reclaim.c:566-660 | the marks and counts of a range of the table are taken off their pages, wrapping like words, and emptied pages are freed |
| `Truncation.Reclaimer.TruncateFast` | makalu_alloc/src/makalu_reclaim.c:667-735 | on every list, the pages that the batches mean, or the report that an object was met whose page was gone |
| `TruncationTheory.FastFresh` | makalu_alloc/src/makalu_reclaim.c:667-735 | for distinct marked objects in any order and any pattern of collisions, the batches give back exactly these |
| `TruncationTheory.FastIff` | makalu_alloc/src/makalu_reclaim.c:459-735 | on every list that truncation one at a time can bear, batches and one at a time give the same pages if and only if every object is marked and occurs once |
| `TruncationTheory.DoubleFreeDiffers` | makalu_alloc/src/makalu_reclaim.c:494-501 | an object deallocated twice: one at a time leaves two marks and a count of two, a batch two marks and a count of one |
| `Truncation.TruncateBoth` | makalu_alloc/src/makalu_reclaim.c:459-735 | run side by side, both ways agree if and only if every object is marked and occurs once |
| `ParallelMarker.NeverStuck` | makalu_alloc/src/makalu_mark.c:1126-1250 | in every reachable state, while a helper takes part or the initiating thread has not returned, some thread can take a step, where waking a waiting thread counts only if there is work and nobody is active |
| `ParallelProgress.SomebodyImproves` | makalu_alloc/src/makalu_mark.c:791-1250 | until the initiating thread has returned, some thread can lower a measure of unmarked objects, unscanned words and steps within three of its next steps, with the code's limits for stealing, scanning, sharing and returning |
| `ParallelProgress.CanFinish` | makalu_alloc/src/makalu_mark.c:1126-1250 | every run in which the initiating thread has begun can be continued until that thread has returned |
| `ParallelLoss.FullCredit` | makalu_alloc/src/makalu_mark.c:791-848 | for separate ranges within the roots, the credit of one scan lasts until the last part of the lowest range is scanned, also if one of them is shared out |
| `ParallelLoss.NothingGiven` | makalu_alloc/src/makalu_mark.c:1086-1116 | before the first mark no thread returns entries |
| `ParallelLoss.LossFollowsMark` | makalu_alloc/src/makalu_mark.c:1011-1250 | in every run of any number of threads that starts with separate ranges within the roots, entries have been lost only if an object has been marked since the start |
| `MarkRestart.SomeRuns` | makalu_alloc/src/makalu_mark.c:589-599 | every parallel phase has an outcome, for any number of threads |
| `MarkRestart.ParallelPhase` | makalu_alloc/src/makalu_mark.c:589-611 | for every outcome that some interleaving of n threads can have: TRUE exactly if no entry was lost, and then the marks are closed; else the state is invalid, the invariant of the rescan holds, and a phase after a restart has marked a new object |
| `MarkRestart.MarkOffline` | makalu_alloc/src/makalu_mark.c:544-675 | with any finished parallel runs as roots-pushed steps, the loop terminates, refuses exactly the unexpected states, marks everything reachable and, from clear marks, nothing else |
| `MarkRestart.Collect` | makalu_alloc/src/makalu_mark.c:677-702 | with parallel marking by any number of threads, too, exactly the reachable objects are marked afterwards |
| `Probing.ProbeInjective` | ulib-svn/include/ulib/hash_open_prot.h:120-132 | the first n triangular probes of a table with n buckets, n a power of two, are distinct |
| `Probing.ProbeCovers` | ulib-svn/include/ulib/hash_open_prot.h:120-132 | every bucket is met by one of the first n probes |
| `TableState.SearchBounded` | ulib-svn/include/ulib/hash_open_prot.h:126-131 | an unsuccessful search never comes back to its start |
| `TableState.SearchedAbsent` | ulib-svn/include/ulib/hash_open_prot.h:126-132 | a search that meets an empty bucket proves that the key is absent |
| `TableState.InsertKeepsTable` | ulib-svn/include/ulib/hash_open_prot.h:249-262 | writing an absent key over an empty or deleted bucket on its path adds exactly one entry |
| `TableState.DeleteKeepsTable` | ulib-svn/include/ulib/hash_open_prot.h:266-273 | a tombstone removes exactly one entry and breaks no path |
| `TableState.LiveCountIsSize` | ulib-svn/include/ulib/hash_open_prot.h:78-86 | the number of live buckets is the number of entries |
| `Rehash.Drop` | ulib-svn/include/ulib/hash_open_prot.h:176-190 | dropping the entry in hand at a new bucket and taking up its old resident loses and duplicates nothing |
| `OpenHash.Table.Counts` | ulib-svn/include/ulib/hash_open_prot.h:78-86 | the element count is exact and an occupied table is never full |
| `OpenHash.Table.Get` | ulib-svn/include/ulib/hash_open_prot.h:114-135 | finds a bucket if and only if the key is in the map, and the right one |
| `OpenHash.Table.FindSite` | ulib-svn/include/ulib/hash_open_prot.h:222-248 | the bucket of the key, or a free one on its probe path |
| `OpenHash.Table.Occupy` | ulib-svn/include/ulib/hash_open_prot.h:249-262 | adds the key to the map and reports a new or a reused bucket |
| `OpenHash.Table.Set` | ulib-svn/include/ulib/hash_open_prot.h:209-264 | adds the key or finds it; fails exactly if room had to be made and memory was refused |
| `OpenHash.Table.PutValue` | ulib-svn/include/ulib/hash_open_prot.h:301 | storing through the value of a live bucket changes exactly the entry of its key |
| `OpenHash.Table.Del` | ulib-svn/include/ulib/hash_open_prot.h:266-273 | removes exactly the entry of a live bucket |
| `OpenHash.Table.Clear` | ulib-svn/include/ulib/hash_open_prot.h:106-113 | the map is empty and the capacity unchanged |
| `OpenHash.Table.MoveEntry` | ulib-svn/include/ulib/hash_open_prot.h:164-191 | moving one entry, with all residents it displaces, terminates and keeps both tables in the arrays sound |
| `OpenHash.Table.Resize` | ulib-svn/include/ulib/hash_open_prot.h:137-207 | growing or shrinking in place keeps exactly the entries, leaves no tombstone and fails only for want of room or memory |
| `Bitmap.ShiftLeft` | ulib-svn/src/base/bitmap.c:165-190 | with one array as source and destination, every bit moves up, zeros come in, and bits beyond the bitmap are cleared |
| `Bitmap.ShiftMultiplies` | ulib-svn/src/base/bitmap.c:153-164 | the shift multiplies by a power of two modulo the size of the bitmap |
| `Bitmap.Snprintf` | ulib-svn/src/base/bitmap.c:374-399 | prints the groups of the bitmap, the highest one first, each with as many digits as it needs |
| `Bitmap.ParseInto` | ulib-svn/src/base/bitmap.c:416-475 | result and bitmap are those of reading the text group by group, with the same errors; on success the bitmap holds the number that the text writes, and it fits |
| `BitmapGrammar.ParseAccepts` | ulib-svn/src/base/bitmap.c:402-475 | parsing succeeds if and only if the text is white space, groups of at most 32 bits with single commas between them, and an optional last comma or white space, and its number fits |
| `Bitmap.ParseMeans` | ulib-svn/src/base/bitmap.c:416-475 | whatever has been read before, success means that no bit of the number has been lost |
| `Bitmap.ParseText` | ulib-svn/src/base/bitmap.c:374-475 | for every bitmap, parsing its text succeeds and gives back exactly its bits |
| `Bitmap.PrintAndParse` | ulib-svn/src/base/bitmap.c:374-475 | printing into a text and parsing it into another array copies the bitmap |
| `ArenaBins.AddrInverse` | src/arena.c:159-228 | page and number of an object are found from its address alone |
| `ArenaBins.Apart` | src/arena.c:126-133 | different objects never overlap |
| `ArenaBins.ClassIndex` | src/arena.c:101-103 | every small request is rounded up to a size that fits it and has a bin |
| `ArenaBins.Bin.SelectRun` | src/arena.c:107-123 | a run with idle objects becomes the current one, or there is none and no page for a new one |
| `ArenaBins.Bin.TakeObject` | src/arena.c:125-135 | the search in the current run always succeeds, with an object that is not handed out |
| `ArenaBins.Bin.Allocate` | src/arena.c:89-137 | fails exactly if no object is idle and there is no page; else exactly one object more is handed out, and it was not before |
| `ArenaBins.Bin.Free` | src/arena.c:227-274 | exactly that object is idle again; counters stay exact, and the list holds exactly the other runs with idle objects |
| `McsLock.AlwaysDefined` | ulib-svn/include/ulib/os_spinlock.h:156-220 | every pointer that an access stores through leads to an entry that another thread has in the queue |
| `McsLock.StepKeeps` | ulib-svn/include/ulib/os_spinlock.h:156-220 | every access of every thread, with either unlock, keeps the queue invariant |
| `McsLock.MutualExclusion` | ulib-svn/include/ulib/os_spinlock.h:156-220 | in every run, with both unlocks mixed at will, at most one thread is inside |
| `McsLock.FirstComeFirst` | ulib-svn/include/ulib/os_spinlock.h:183-196 | with the compare-and-swap unlock the thread inside arrived before all that wait |
| `McsLock.ServedInOrder` | ulib-svn/include/ulib/os_spinlock.h:183-196 | with the compare-and-swap unlock threads enter in the order of their arrival |
| `McsProgress.NeverStuck` | ulib-svn/include/ulib/os_spinlock.h:156-220 | in every run, with both unlocks mixed at will, while a thread is queued some queued thread can take its next access, which is never a failed spin |
| `RwTicket.StepKeeps` | ulib-svn/include/ulib/os_spinlock.h:357-455 | every access keeps the invariant while at most 256 tickets are outstanding |
| `RwTicket.WritersAreAlone` | ulib-svn/include/ulib/os_spinlock.h:357-455 | a writer is alone in every state of every run with at most n outstanding tickets, if and only if n is at most 256 |
| `RwTicket.TwoWriters` | ulib-svn/include/ulib/os_spinlock.h:389-405 | a run with 257 outstanding tickets lets two writers in |
| `RwTicket.EnoughTickets` | ulib-svn/include/ulib/os_spinlock.h:357-455 | a writer is alone in every run of at most n threads, if and only if n is at most 256 |
| `RwTicket.SomebodyIsNext` | ulib-svn/include/ulib/os_spinlock.h:357-436 | while nobody is inside and somebody waits, some waiting thread is next |

## Left out

- The large blocks and chunks of nvm_malloc, kiss_alloc, Makalu's local heaps, ulib's other containers and bitmap functions, ciphers and random numbers are not modelled.
- nvm_malloc's link replay, its object table and its recovery are not modelled.
- `BlockHeap.Heap.AllocHdr`: growing the header space is not modelled, so an unused header or room for one more is required (`HeaderLeft`).
- `BlockHeap.Heap.AllocNth`: where a block may have to be split, a header for the rest is required (`MaySplit`), because growing the header space is not modelled.
- `BlockHeap.Heap.AllocHblk`: where no free block fits exactly and some block may have to be split, a header for the rest is required (`MaySplit`, `ExactFit`), because growing the header space is not modelled.
- `BlockHeap.Heap.FreeHblk`: the abort on a block that is already free is excluded by the precondition, and the mode RESTARTING_OFFLINE, which skips the free lists and logs fewer fields, is not modelled.
- `BlockHeap.Heap.NewFreeHblk`: the heap-size and plausible-address words that the same section logs are not modelled; where no free block ends at the new pages, a header is required.
- `BlockHeap.Heap.SetupHeader`: descriptor, map and mark fields are not modelled; they do not take part in describing the blocks.
- `BlockHeap.Heap.Rebuild`: joins the index rebuild of the offline start with the free-list build of the following online restart; the collection between them is not part of it.
- `BlockHeap.Heap.ApplyToAllBlocks`: the function that is applied does not change the blocks.
- `Persistence.Nvm.CreateLogEntry`: values are words, so the type tag of an entry is not modelled; the log has 64 entries and a section that needs more is excluded.
- `Persistence.Nvm.AddToFlushTable`: the asynchronous flush tables are not part of the class; the lemmas about ranges hold for a table of any size.
- `Marker.Collector.MarkFrom`: bitmap and procedure descriptors, prefetching and the deferral of a range's last pointer are not modelled; whether a word is a pointer to an object is given by the heap.
- `Marker.Collector.MarkSome`: does not take the roots-pushed step if there are parallel markers; that step is `MarkRestart.ParallelPhase`.
- `ParallelMarker.StepKeeps`: the count of marks of a page, which threads raise with a separate load and store, is not modelled, so `TruncationTheory.Sound` assumes that it equals the marks; waking and waiting are left to the scheduler; the four loads that decide whether a thread shares its local stack are not ordered, so after a used-up credit it may share or go on whatever they show.
- `Truncation.Reclaimer.TruncateFreelist`: the links of the reclaim lists are not modelled, only whether a page is on one; neither are other threads that use the pages meanwhile.
- `Truncation.Reclaimer.TruncateFast`: the second loop over the table, which registers asynchronous flushes, is not modelled.
- `Bitmap.ShiftLeft`: source and destination are one array, as in the parser.
- `Bitmap.Snprintf`: the buffer is large enough for the text.
- `ArenaBins.Bin.SelectRun`: the page for a new run is a parameter.
- `ArenaBins.Bin.Allocate`: the page for a new run is a parameter, and the 16-bit and 32-bit counters do not wrap.
- `ArenaBins.Bin.Free`: the link pointers, the run's image in NVM and runs from before a restart are not modelled.
- `OpenHash.Table.Resize`: bucket numbers are powers of two, as the code's masks demand; the flag bits are one record per bucket instead of two bits in a packed word; integers do not wrap; 0.7 * n is the integer part of 7n/10, which agrees with the floating-point product for powers of two.
- `RwTicket.StepKeeps`: the variant for large CPU sets with 16-bit tickets is not modelled.
- The ticket lock, the K42 lock, the CLH lock and the other locks of os_spinlock.h.
