# The JinDisk storage engine, proved

JinDisk is a device-mapper target that stores encrypted blocks in log order. A write goes to a pool of
segment buffers; a full buffer is flushed to a fresh segment (or, when there is none, block by block to
a logging segment); an index from logical to physical block numbers is a log-structured merge tree whose
files are B+-trees built in one pass ("BIT" files); garbage collection empties segments and re-queues
what is still live. Five structures must agree: the index, the reverse index table (RIT), the data
segment table (DST, block bitmaps), the segment validity table (SVT) and the tree of victims.

This project models that engine and proves that it is a plain map from block number to data.

## How it is built

| files | what they hold |
|---|---|
| `Common`, `Index` | records, entries, tables; the index as a stack of tables; put, rotate and compaction on it |
| `Engine`, `EngineTree`, `EngineProofs`, `EngineRuns` | the whole engine as one state machine: its invariants, what every handler keeps, all runs |
| `Ownership`, `Exactness` | who owns a block at every level of the index; exactly when a step keeps the invariant and a request reads what was written |
| `RunSteps`, `Guards`, `LoggingHandover`, `EdgeCases` | runs, histories and inputs on which the code fails |
| `Memtable`, `Tables`, `Level`, `Merge`, `Compaction`, `Catalogue`, `CompactionJob`, `MajorCompaction`, `LsmTree` | the index as objects: memtable, sorted levels, the k-way merge, file ids, compaction |
| `BitShape`, `BitTree`, `BitBuilder`, `LruCache`, `LeafCache`, `BitFile` | the BIT file: size, bulk loader, leaf boundaries, search with cache, iterator |
| `Victims`, `Segments`, `SegmentBuffer` | allocator, bitmaps and victim tree, threaded logging, the buffer pool |
| `RangeSearch`, `ReadPath` | the range search and the coalescing of a read request |
| `HandlerSteps`, `Collection`, `JinDisk` | all objects together, with what a collection counts; each handler is one step of the state machine |
| `Sizing`, `Layout`, `DiskStructs` | how much of a device is usable, where everything lies, tables and bit sets on blocks |

The proof has two halves. `Engine` gives every handler as a function on one value, and `EngineRuns`
proves by induction over runs that reading returns what was last written. `JinDisk` is a class over the
objects of the code; every method shows that it does exactly what its function says, so the invariant
carries over: `JinDisk.ReadRequest` states the result about the objects.

A table of the index is a map from key to cell; a cell is a value, a negative record, or a value followed
by a negative record. A negative record says "absent" and stops the block it covers from being released.

## Guards

The code relies on circumstances that it does not enforce. Those a caller can look at before the call are
preconditions; the others drop the flag `ok` of the engine, and the theorems speak about runs in which it
is still up.

- **Room** (preconditions `RoomFor`, `PoolRoom`; `segment_buffer.c:196-209`, `lsm_tree.c:1795-1808`): the
  index must be able to take the puts of a handler without rotating onto an immutable memtable that still
  waits for its compaction, and the pool must not recycle a slot that still waits to be flushed.
- **Stale victim** (flag; `segment_allocator.c:91-99`): the zero-count test comes before the logging test, so
  a node of the logging segment that says "empty" hands that segment back, whether it is stale or true.
  `Guards.StaleVictimLosesData` is a run with a stale one, `LoggingHandover.HandedBack` a history with a true
  one; `Exactness.CollectExact` and `JinDisk.CollectSegment` give the exact condition.
- **Flushed copy** (flag; `segment_buffer.c:170-181`): a re-queued block is dropped when any buffer has its
  number, even one that was flushed already. `Guards.FlushedBufferLosesData`, `Exactness.CollectBlockExact`.
- **Reissued address** (flag; `metadata.c:488`): the release check compares the block number only. When an
  address returns to a block while an old record with that address survives, the live block is freed later.
  `Guards.ReissuedBlockIsFreed`, `Exactness.IssueExact`. `Ownership` shows that this can happen only at an
  address that a collection freed: a run without collections needs no guard but room.
- **Space** (flag; `segment_buffer.c:229-233`): threaded logging gives up a block for which no space is left.
- **Full level, empty file** (precondition and result of `JinDisk.Compact`; `lsm_tree.c:1642`): level 1 has
  room for one more file, and no builder is completed without an entry. `MajorCompaction.Run` says exactly
  when the latter happens; `EdgeCases.NothingLeft` is a history of the index that ends there.
- **Heap ties** (`lsm_tree.c:1328-1333`): the merge heap is taken to keep an entry at the root when an equal
  one is pushed. `EdgeCases.TieBringsBack` says what goes wrong otherwise, and exactly when.
- **Failed lookups** (`segment_allocator.c:113-114`, `lsm_tree.c:1508-1510`): the collector ignores the result
  of its search and the merge that of the reset; the model takes a failed one as no match.  In the collector
  the answer for an earlier block is left over then: while the invariant holds it cannot match, because no newest
  record is at a block whose own search fails (`EngineRuns.OutOfDate`); at the first block of a round it is not set.
- **Fresh device**: runs start from a formatted device; versions are then unique.

Three more facts differ from what one would expect of the code, and the model follows the code:

- Range search keeps the last record of a key in a leaf it just read, point search the first. A read request
  uses range search, so a block rewritten in the memtable that recorded its removal can come back empty: when
  both records lie in one leaf, that leaf is not cached, and the block is the first one of it that the request
  asks for. `RangeSearch.Misread` is that condition on files and caches, `RangeSearch.LostWhen` spells it out,
  `JinDisk.ReadRequest` proves it exact.
- Formatting a bit set can write one block more than it is allotted (`Layout.FormatOverrun`).
- `disk_bitset_get` checks the word, not the bit, so an index past the end can be answered from the padding
  (`DiskStructs.DiskBitset.Get`).

## Main results

1. `EngineRuns.EndToEnd`, `EngineRuns.AllocationSafety`: over every guarded run, reads return what was last
   written, and no live block is ever free or shared.
2. `Ownership.RunHeld`, `Ownership.QuietEndToEnd`, `Ownership.OnlyFreedAddresses`: over every run, guarded or
   not, every stored record owns its block unless a collection freed the address; without collections result 1
   needs room and nothing else.
3. `EngineRuns.StepTree`, `Exactness.CollectExact`, `Exactness.CollectBlockExact`, `Exactness.IssueExact`: the
   guards on collection and on reissued addresses are needed as well as enough.
4. `Guards.StaleVictimLosesData`, `Guards.FlushedBufferLosesData`, `Guards.ReissuedBlockIsFreed`,
   `LoggingHandover.HandedBack`: runs from a formatted device that break each of them.
5. `JinDisk.ReadRequest`, `Exactness.RequestExact`, `RangeSearch.Range`: a read request returns what was written
   if and only if no leaf misreads, stated on leaf boundaries and cache contents.
6. `JinDisk` (the class): every handler on the objects is exactly one step of the engine. What the step leaves
   open is pinned beside it: which place a flush takes (`FlushOldest`), which addresses a compaction frees
   (`Compact`, `EngineRuns.CompactExact`), how many blocks a collection answers (`CollectSegment`,
   `Collection.CountsLive`).
7. `Compaction.KWayMerge`, `MajorCompaction.Run`, `LsmTree.MinorCompaction`: compaction keeps every value, and
   the leaf caches of exactly the files that stay.
8. `BitBuilder.Complete`, `BitFile.Search`, `BitFile.RangeSearch`: a bulk-loaded file answers like its entries,
   for every state of its cache.
9. `Segments.FindLoggingBlock`, `SegmentBuffer.QueryBlock`, `ReadPath.Coalesce`, `Sizing.CalcAvailSectors`,
   `Sizing.FileIdsExact`, `Layout.RegionsDisjoint`: the allocator, the pool, the read path and the layout.

The table below has these and the parts they are made of.

## Model

| member | source | states |
|---|---|---|
| EngineRuns.EndToEnd | kernel-module/c/src/segment_buffer.c:159-307 | after any run of writes, flushes, compactions and collections whose guards held, reading any block gives the data last written to it, and nothing if it never was |
| EngineRuns.AllocationSafety | kernel-module/c/src/metadata.c:473-498 | in every such run a live block has its bitmap bit and its segment's bit set, the reverse index names its owner, and no other block lives at its address |
| EngineRuns.RunInv | kernel-module/c/src/segment_allocator.c:64-142 | the whole invariant holds at the end of every guarded run from a formatted device |
| EngineRuns.StepOk | kernel-module/c/src/lsm_tree.c:1727-1810 | each single handler keeps the invariant; only a write changes the map the user sees |
| EngineRuns.StepTree | kernel-module/c/src/segment_allocator.c:64-142 | every handler keeps bitmaps, segment bits, victim tree and logging segment in agreement, if and only if it is not a collection of the logging segment; no other guard is needed |
| EngineRuns.InitOk | kernel-module/c/src/metadata.c:1245-1266 | a formatted device stands for the empty map, with the reverse index zeroed rather than set to the reserved address |
| EngineRuns.ReadIsSpec | kernel-module/c/src/dm-jindisk.c:273-353 | under the invariant, pool then index then device is a lookup in the written map |
| EngineRuns.GcOk | kernel-module/c/src/segment_allocator.c:64-142 | a collection round on a victim with an exact bitmap changes nothing a reader sees and never hands back a segment a live record points into |
| EngineRuns.GcBlockOk | kernel-module/c/src/segment_allocator.c:102-130 | after one block, nothing live points at it, the map is unchanged, and no other address became live |
| EngineRuns.OutOfDate | kernel-module/c/src/segment_allocator.c:113-119 | a block whose reverse index entry leads to no record, or to one elsewhere, is nobody's live block |
| EngineTree.PopTree | kernel-module/c/src/segment_allocator.c:84-99 | the popped node is an exact copy of the segment's bitmap unless it is the logging segment's, and that one is popped only when it says "empty" |
| EngineTree.ReturnTreeIff | kernel-module/c/src/segment_allocator.c:131-138 | handing the popped segment back keeps the agreement if and only if it is not the logging segment |
| EngineTree.TakeTree | kernel-module/c/src/metadata.c:802-873 | taking a logging block, with leaving a full segment and choosing another, keeps the agreement, and the segment's bit is set afterwards |
| EngineRuns.CompactOk | kernel-module/c/src/lsm_tree.c:1659-1713 | a minor compaction, with its nested major one and all its releases, keeps the invariant |
| EngineRuns.CompactExact | kernel-module/c/src/lsm_tree.c:1498-1510 | a compaction clears the bit and resets the entry of exactly the addresses of overwritten level-1 records that still belong to their key |
| EngineRuns.ReleaseAllOk | kernel-module/c/src/lsm_tree.c:1498-1514 | the releases of overwritten records touch only the reverse index and the bitmaps, and never a live block |
| EngineProofs.FlushOk | kernel-module/c/src/segment_buffer.c:249-285 | flushing the oldest full buffer, to a fresh segment or by threaded logging, changes nothing a reader sees |
| EngineProofs.FlushUpToOk | kernel-module/c/src/segment_buffer.c:270-284 | after i blocks of a flush, exactly those are live with the buffer's contents and the remaining offsets are still reserved |
| EngineProofs.LogUpToOk | kernel-module/c/src/segment_buffer.c:213-247 | the same for threaded logging with the addresses find_logging_block answers |
| EngineProofs.PushOk | kernel-module/c/src/segment_buffer.c:159-211 | a push updates the map at its block and nowhere else, also when the pool rotates |
| EngineProofs.IssueOk | kernel-module/c/src/lsm_tree.c:1770-1810 | giving an unused address to a block keeps allocation safety and makes it the newest record of that block alone |
| EngineProofs.ReleaseOk | kernel-module/c/src/metadata.c:473-498 | releasing a block that is nobody's newest record keeps allocation safety |
| EngineProofs.TakeBlockOk | kernel-module/c/src/metadata.c:802-873 | taking a clear block marks it used, keeps the invariant, and the block is not live |
| Ownership.RunHeld | kernel-module/c/src/metadata.c:473-498 | in every run, guarded or not, each record stored at any level has its block's bit set and the reverse index naming its block, unless a collection freed the address; and no address outside those is stored twice for a block |
| Ownership.StepHeld | kernel-module/c/src/segment_allocator.c:64-142 | every handler keeps that; only a collection adds to the freed addresses |
| Ownership.IssueHeld | kernel-module/c/src/lsm_tree.c:1770-1810 | a reserved address that no record stores may be given out, and is the only one that stops being so |
| Ownership.CompactHeld | kernel-module/c/src/lsm_tree.c:1498-1514 | the releases of a compaction free no block that a surviving record outside the freed addresses points at |
| Ownership.StepFlag | kernel-module/c/src/segment_buffer.c:213-285 | with room and space, a step that is no collection drops the monitor if and only if it gives a freed address to a block whose old record with that address is still stored |
| Ownership.QuietEndToEnd | kernel-module/c/src/segment_buffer.c:159-307 | in a run without collections whose steps had room, reading any block gives the data last written to it |
| Ownership.OnlyFreedAddresses | kernel-module/c/src/metadata.c:718-731 | with room throughout, the monitor drops first at a collection, or at a flush that reissues an address which an earlier collection freed |
| Exactness.IssueExact | kernel-module/c/src/metadata.c:473-498 | giving a free block to an lba keeps the invariant if and only if no table still stores that address for that lba |
| Exactness.CollectBlockExact | kernel-module/c/src/segment_buffer.c:170-181 | collecting one block keeps the invariant if and only if its copies in the pool, if any, are not all flushed |
| Exactness.CoverExact | kernel-module/c/src/segment_allocator.c:102-138 | handing a segment back keeps the invariant if and only if the bitmap copy covers every live block of the segment |
| Exactness.CollectExact | kernel-module/c/src/segment_allocator.c:84-142 | a round on a popped victim keeps the engine sound if and only if the victim is not the logging segment, be its node stale or true |
| Exactness.RequestExact | kernel-module/c/src/lsm_tree.c:677-741 | a block of a read request is what was last written if and only if the pool has it or no leaf misreads it: the newest file that knows it does not hold a value and a negative in one leaf that is not cached when the search reaches the block |
| Exactness.LiveAfter | kernel-module/c/src/segment_allocator.c:102-130 | after any prefix of the collection loop the live records are those before, less the processed blocks |
| Guards.FlushedBufferLosesData | kernel-module/c/src/segment_buffer.c:170-181 | a run with two blocks per segment and three buffers: the collector drops the second block of a half-valid victim because a flushed buffer has it, and two writes later it is gone |
| Guards.StaleVictimLosesData | kernel-module/c/src/segment_allocator.c:88-99 | a run with two segments: the node a segment got while it was empty is popped after threaded logging filled it again, the segment is handed back in use, and the next buffer overwrites a live block |
| Guards.ReissuedBlockIsFreed | kernel-module/c/src/metadata.c:473-498 | a run with three segments: a block comes back to an address that level 1 still records for it, the next compaction frees the address under the live record, and threaded logging overwrites it |
| LoggingHandover.HandedBack | kernel-module/c/src/metadata.c:837-869 | a history of the allocator's objects: the collector hands back the empty logging segment under a flush, which goes on logging into it; the next allocation picks the segment by its clear bit and take_segment refuses it |
| EdgeCases.TieBringsBack | kernel-module/c/src/lsm_tree.c:1328-1333 | if an older file's value and negative are merged before the newer file's equal key, the key comes out right if and only if the newer file has a value; a lone negative brings the old value back |
| EdgeCases.EverythingDeleted | kernel-module/c/src/lsm_tree.c:1547-1573 | a merge that leaves the last builder without an entry |
| EdgeCases.NothingLeft | kernel-module/c/src/lsm_tree.c:1659-1713 | a history of the index from its creation whose third compaction has nothing to complete its file with |
| EdgeCases.RangeMisses | kernel-module/c/src/lsm_tree.c:677-741 | an index with a file of one leaf and an empty cache on which range search answers a negative and point search the record |
| EdgeCases.SplitIsRead | kernel-module/c/src/lsm_tree.c:554-560 | a value that ends its leaf is found, cached or not, although its negative begins the next leaf |
| EdgeCases.RewrittenCell | kernel-module/c/src/memtable.c:144-185 | putting a value over a negative in one memtable gives exactly the cell on which the searches differ |
| Index.PutLive | kernel-module/c/src/lsm_tree.c:1770-1810 | a put changes the newest record of its own key and of no other, also across a rotation |
| Index.PutOk | kernel-module/c/src/lsm_tree.c:1770-1810 | a put of an address not stored for the key keeps the tables sound and free of aliases |
| Index.MinorLive | kernel-module/c/src/lsm_tree.c:1659-1713 | minor compaction changes no newest value |
| Index.MinorOk | kernel-module/c/src/lsm_tree.c:1659-1713 | nor does it make two levels hold one key at one address |
| JinDisk.JinDisk.constructor | kernel-module/c/src/metadata.c:1245-1266 | the objects of a formatted device stand for the initial engine and the empty map |
| JinDisk.JinDisk.Write | kernel-module/c/src/segment_buffer.c:159-211 | a write is the engine's write step on the objects and records the data in the written map |
| JinDisk.JinDisk.ReadRequest | kernel-module/c/src/dm-jindisk.c:273-353 | on the objects, each page of a request is what was last written if and only if the pool has the block or no leaf misreads it, which the files and caches before the request decide; the caches afterwards are those of the search |
| JinDisk.JinDisk.FlushOldest | kernel-module/c/src/segment_buffer.c:144-157 | flushing the queued buffer is one enabled flush step of the engine: it goes to the first clear segment from the cursor on, leaving the logging segment alone, and is logged block by block if and only if every segment bit is set; with space the monitor drops if and only if a freed address is reissued, so never before the first collection |
| JinDisk.JinDisk.FlushBios | kernel-module/c/src/segment_buffer.c:249-285 | the loops that write the buffer do exactly that step, up to taking the buffer off the queue; a fresh segment is taken if and only if there is one |
| JinDisk.JinDisk.ThreadedLogging | kernel-module/c/src/segment_buffer.c:213-247 | every address used was in range and clear when it was given out, and the state is that of the engine's logging |
| JinDisk.JinDisk.CollectSegment | kernel-module/c/src/segment_allocator.c:64-169 | a collection is one enabled step of the engine; it finds nothing if and only if every node is a non-empty one of the logging segment; it answers how many blocks of the bitmap were up to date and readable before the round, which while the guards held is how many were live in the segment; the leaf caches are those of its searches; the objects stay sound if and only if it did not hand back the logging segment |
| JinDisk.JinDisk.PopSegment | kernel-module/c/src/segment_allocator.c:84-99 | the retry loop delivers the node the engine pops, with the least count among segments not being logged to |
| JinDisk.JinDisk.CollectBlocks | kernel-module/c/src/segment_allocator.c:102-130 | the bitmap loop processes exactly the set bits in order, and counts the blocks that were up to date and readable when it began |
| JinDisk.JinDisk.CollectBlock | kernel-module/c/src/segment_allocator.c:109-130 | one block is queued again if and only if its owner's newest record is at this address and its data opens; the search uses the caches of the files it asks |
| Collection.CountsLive | kernel-module/c/src/segment_allocator.c:102-130 | under the invariant the blocks that a round on a popped victim queues again are exactly the live blocks of the segment before it |
| Collection.OthersReclaimed | kernel-module/c/src/segment_allocator.c:109-130 | collecting one block does not change whether another one will be queued again |
| JinDisk.JinDisk.Compact | kernel-module/c/src/lsm_tree.c:1715-1725 | a minor compaction is one enabled compaction step of the engine, or changes nothing; when done, the addresses of exactly the old level-1 records that level 0 overwrites, and whose block the reverse index still gives to the same owner, have their bit clear and their entry reset, and all others keep both; files that stay keep their leaf caches and new ones have none |
| JinDisk.JinDisk.PutRecord | kernel-module/c/src/lsm_tree.c:1770-1810 | put with the release of the replaced block is the engine's put |
| JinDisk.JinDisk.ReleaseBlock | kernel-module/c/src/metadata.c:473-498 | reset of the reverse index and return of the block is the engine's release, and keeps the tables tied |
| JinDisk.JinDisk.FindBlock | kernel-module/c/src/metadata.c:802-873 | a logging block was clear and in range and is now taken; without one every segment bit is set |
| JinDisk.JinDisk.TakeFresh | kernel-module/c/src/segment_allocator.c:36-62 | allocation fails if and only if every segment bit is set; otherwise it is the engine's allocation of the first clear segment from the cursor on |
| JinDisk.JinDisk.Accounting | kernel-module/c/src/metadata.c:592-684 | between handlers the allocator's counter is the number of set segment bits, every count is its bitmap's population, a clear segment bit means no valid block, and a partly valid segment outside logging has an exact victim node |
| SegmentBuffer.SegmentBuffer.QueryBlock | kernel-module/c/src/segment_buffer.c:287-307 | the ring walk finds the newest copy in the pool |
| SegmentBuffer.SegmentBuffer.PushBlock | kernel-module/c/src/segment_buffer.c:159-211 | a user block is stored, a collected one only if no buffer has its number; a full buffer is queued and the oldest slot recycled |
| SegmentBuffer.SegmentBuffer.Rotate | kernel-module/c/src/segment_buffer.c:196-209 | advancing the cursor makes every buffer one rotation older and keeps the queue pointing at the same buffers |
| SegmentBuffer.SegmentBuffer.Dequeue | kernel-module/c/src/segment_buffer.c:144-157 | the front of the queue is the oldest full buffer |
| Victims.UpdateAgrees | kernel-module/c/src/metadata.c:677-684 | storing an entry and refreshing its node keeps the tree sorted, one exact node per segment, none missing |
| Victims.DropAgrees | kernel-module/c/src/metadata.c:686-731 | so does storing an empty or full entry and dropping the node |
| Victims.StartLogging | kernel-module/c/src/metadata.c:802-873 | so does turning a segment into the logging segment |
| Victims.StopLogging | kernel-module/c/src/metadata.c:802-873 | leaving a full logging segment makes every node exact again |
| Victims.BitsBound | kernel-module/c/src/metadata.c:851-861 | a bitmap has as many bits as offsets if and only if it has no clear one, so a segment below the limit always has a clear bit |
| Segments.SegValidator.Next | kernel-module/c/src/metadata.c:348-375 | the two-pass scan fails if and only if every bit is set, and otherwise finds the first clear bit from the cursor on, or from 0 |
| Segments.SegValidator.Take | kernel-module/c/src/metadata.c:333-346 | sets one bit, or refuses an index past the end |
| Segments.SegValidator.TestAndReturn | kernel-module/c/src/metadata.c:377-397 | clears one bit and tells what it was |
| Segments.SegValidator.ValidSegmentCount | kernel-module/c/src/metadata.c:411-426 | the scan counts the set bits |
| Segments.Dst.TakeSegment | kernel-module/c/src/metadata.c:686-716 | a segment is taken whole if and only if none of its blocks is valid |
| Segments.Dst.ReturnSegment | kernel-module/c/src/metadata.c:718-731 | no block of the segment is valid any more and the popped victim is settled |
| Segments.Dst.TakeBlock | kernel-module/c/src/metadata.c:733-764 | one more valid block, refused when the segment is full; the node follows; count and bitmap agree afterwards if and only if the bit was clear |
| Segments.Dst.ReturnBlock | kernel-module/c/src/metadata.c:766-800 | one bit is cleared and the count stays exact; a clear bit changes nothing |
| Segments.Dst.PopVictim | kernel-module/c/src/metadata.c:907-921 | a node with the least count leaves the tree |
| Segments.Dst.SettleLogging | kernel-module/c/src/metadata.c:802-849 | the retry loop ends with a logging segment that has room, unless there is neither one nor a victim nor a clear segment |
| Segments.Dst.FindLoggingBlock | kernel-module/c/src/metadata.c:802-873 | terminates; hands out the first clear offset, changing only its bit, in a segment whose bit is set; fails if and only if the logging segment is unset or full, no other victim exists and every segment bit is set; the "no zero bit" branch cannot be reached |
| Segments.Alloc | kernel-module/c/src/segment_allocator.c:36-62 | fails if and only if every segment bit is set, otherwise takes the first clear segment from the cursor on, and keeps the counter exact |
| Segments.TiedReturn | kernel-module/c/src/segment_allocator.c:131-169 | handing a segment back with the counter decrement keeps counter, bits, entries and nodes tied if and only if it is not the logging segment |
| Memtable.Memtable.Put | kernel-module/c/src/memtable.c:144-185 | the cell is updated, a value replaced by a value is handed back, one replaced by a negative is not, and `size` stays exactly values plus negatives |
| Memtable.Memtable.Get | kernel-module/c/src/memtable.c:187-198 | the value, else the negative, else nothing |
| Memtable.Memtable.Remove | kernel-module/c/src/memtable.c:200-224 | the key goes with all its records, and `size` stays exact |
| Memtable.InOrder | kernel-module/c/src/memtable.c:234-248 | the walk lists every key once, ascending |
| Tables.EntriesWeight | kernel-module/c/src/lsm_tree.c:1659-1713 | a memtable hands the builder exactly `size` entries |
| Tables.FirstIsTable | kernel-module/c/src/lsm_tree.c:636-675 | the first match in a file's entries is what its table answers |
| Tables.LastCellIs | kernel-module/c/src/lsm_tree.c:677-741 | the last match is the last record of the cell |
| Level.BitLevel.SearchFile | kernel-module/c/src/lsm_tree.c:981-1002 | binary search finds a place that keeps the level sorted |
| Level.BitLevel.AddFile | kernel-module/c/src/lsm_tree.c:1032-1056 | the file is inserted at one place unless the level is full, and the level stays sorted |
| Level.BitLevel.RemoveFile | kernel-module/c/src/lsm_tree.c:1132-1155 | a file with the id goes if there is one, and the rest closes up |
| Level.BitLevel.LocateFile | kernel-module/c/src/lsm_tree.c:1004-1030 | the file whose range has the key, or nothing if none has |
| Level.BitLevel.LinearSearch | kernel-module/c/src/lsm_tree.c:1058-1078 | the record of the newest file that knows the key |
| Level.BitLevel.Search | kernel-module/c/src/lsm_tree.c:1080-1101 | search of a disjoint level is a lookup in the table it stands for |
| Level.BitLevel.LowerBound | kernel-module/c/src/lsm_tree.c:1193-1214 | every earlier file ends before the key and every later one starts behind it; the file itself may be one early |
| Level.BitLevel.FindRelativeFiles | kernel-module/c/src/lsm_tree.c:1216-1245 | a contiguous run with every overlapping file and at most one file that does not overlap |
| Level.SortedApart | kernel-module/c/src/lsm_tree.c:973-979 | a level sorted by the comparison is disjoint as soon as its files are pairwise apart |
| Compaction.KWayMerge | kernel-module/c/src/lsm_tree.c:1467-1573 | over a newer file and a disjoint run, the builders' contents put together have strictly increasing keys, exactly the keys that keep a value, no negatives; the releases are those of the overwritten records; the last builder is empty exactly when the kept keys fill the earlier ones and the greatest key keeps nothing |
| Compaction.NewerIsNext | kernel-module/c/src/lsm_tree.c:1328-1333 | after an older file's record the newer file's record of the same key is the next root |
| Merge.CloseGroup | kernel-module/c/src/lsm_tree.c:1492-1518 | closing a key writes its kept value, and nothing for a key that keeps none, and tries the right release |
| CompactionJob.MergeMeaning | kernel-module/c/src/lsm_tree.c:1376-1594 | replacing the run by the new files keeps, for every key, the value of level 0 over level 1, and the level stays disjoint |
| CompactionJob.NewLevelOk | kernel-module/c/src/lsm_tree.c:1467-1584 | the new level 1 is sorted, its files sound, its ranges pairwise disjoint |
| CompactionJob.MoveOk | kernel-module/c/src/lsm_tree.c:1403-1416 | the move shortcut keeps every value and overwrites nothing |
| CompactionJob.RunAttempts | kernel-module/c/src/lsm_tree.c:1498-1514 | comparing with the run alone misses no overwritten record of the level |
| CompactionJob.OutCount | kernel-module/c/src/lsm_tree.c:1376-1594 | the merge writes exactly as many records as there are keys that keep a value |
| MajorCompaction.Run | kernel-module/c/src/lsm_tree.c:1376-1594 | level 0 ends empty, level 1 disjoint and at most one file longer with every value kept; exactly the files of the run leave, and the new ones have ids that no file had, versions of their own and are all full but one; it stops if and only if the last builder would be empty |
| MajorCompaction.MoveDown | kernel-module/c/src/lsm_tree.c:1403-1416 | without overlap the file changes level under a new version, and nothing else changes |
| MajorCompaction.Install | kernel-module/c/src/lsm_tree.c:1520-1573 | new files get ids that were free and the next versions in order, hold one builder each, and join the level |
| MajorCompaction.Uninstall | kernel-module/c/src/lsm_tree.c:1575-1584 | exactly the merged files leave the level and give their ids back |
| Catalogue.Catalogue.AllocFile | kernel-module/c/src/metadata.c:1014-1031 | the first free id from the cursor on, or failure if and only if every id is taken |
| Catalogue.Catalogue.ReleaseFile | kernel-module/c/src/metadata.c:1033-1046 | frees one id |
| LsmTree.LsmTree.Put | kernel-module/c/src/lsm_tree.c:1770-1810 | after a put the tree stands for the updated map; a missing record means absent; a replaced value is handed back |
| LsmTree.LsmTree.Search | kernel-module/c/src/lsm_tree.c:1727-1768 | search agrees with the map: its record for a key it has, nothing or a negative for any other; the leaf caches of the files it asked are used |
| LsmTree.LsmTree.MinorCompaction | kernel-module/c/src/lsm_tree.c:1659-1713 | keeps the map; is a compaction step of the engine with every release listed; gives up, changing nothing, if and only if the nested merge with the overlapping run would complete an empty file; files that stay, moved or not, keep their leaf caches, every new file of either level starts with none |
| LsmTree.SurvivingCarries | kernel-module/c/src/lsm_tree.c:1403-1416 | which caches are left after a compaction, file by file: the old one for a file with the same id and entries, none for a new file, none for an id without a file |
| LsmTree.LsmTree.WriteLevel0 | kernel-module/c/src/lsm_tree.c:1676-1713 | the new level-0 file holds the memtable, at most capacity entries, and is newer than every file of level 1 |
| LsmTree.LsmTree.MakeRoom | kernel-module/c/src/lsm_tree.c:1637-1657 | a full level 0 is emptied into level 1 first |
| LsmTree.InsertRefines | kernel-module/c/src/lsm_tree.c:1770-1810 | inserting a record refines the update of the map |
| LsmTree.MinorRefines | kernel-module/c/src/lsm_tree.c:1659-1713 | minor compaction refines doing nothing to the map |
| BitShape.BitHeight | kernel-module/c/src/lsm_tree.c:80-97 | the loop finds the least height whose leaves suffice |
| BitShape.BitArrayLen | kernel-module/c/src/lsm_tree.c:99-116 | inner nodes of a full tree of that height plus the leaves |
| BitShape.CalculateBitSize | kernel-module/c/src/lsm_tree.c:118-133 | the byte size of a file of that shape |
| BitShape.DefaultValid | kernel-module/c/src/lsm_tree.c:118-133 | the module's own constants give a file of 5815513 bytes |
| BitBuilder.BitBuilder.AddEntry | kernel-module/c/src/lsm_tree.c:170-259 | adding an entry, with every cascade and buffer flush it causes, keeps what is on file and in the buffer a prefix of the final tree |
| BitBuilder.BitBuilder.FlushIfFull | kernel-module/c/src/lsm_tree.c:158-168 | a flush moves bytes to the file and loses none; afterwards one node per level fits the buffer |
| BitBuilder.BitBuilder.Cascade | kernel-module/c/src/lsm_tree.c:170-259 | closing full levels never overflows a level nor the buffer |
| BitBuilder.BitBuilder.Complete | kernel-module/c/src/lsm_tree.c:261-361 | the file is one search tree over the added entries, its leaves linked in order and each where the one before said it would be, in at most the calculated bytes |
| BitBuilder.BytesFit | kernel-module/c/src/lsm_tree.c:118-133 | the bytes of all nodes a builder can write fit the calculated size |
| BitBuilder.NoRootYet | kernel-module/c/src/lsm_tree.c:135-156 | below capacity the top level never fills, so no level index runs over |
| LruCache.LruCache.Put | kernel-module/c/src/cache.c:39-74 | the key becomes the most recent, and exactly the least recently used key goes when the cache was full |
| LruCache.LruCache.Get | kernel-module/c/src/cache.c:76-92 | the stored value; a hit becomes the most recent |
| LruCache.LruCache.Delete | kernel-module/c/src/cache.c:94-107 | map and recency list lose exactly that key |
| LeafCache.TakenIs | kernel-module/c/src/lsm_tree.c:677-741 | what a lookup takes from a leaf is the cell's first record, or its last one when the leaf was not cached and has both |
| LeafCache.LeafIs | kernel-module/c/src/lsm_tree.c:540-563 | the leaf that answers for a key is fixed by the entries: it ends at or above the key and starts behind smaller ones |
| LeafCache.CachedWhen | kernel-module/c/src/cache.c:39-92 | when a range search reaches a key, its leaf is cached if an earlier key of the search was found in it, or if it was cached before and not evicted, which room for the keys of the search excludes |
| BitFile.BitFile.Search | kernel-module/c/src/lsm_tree.c:636-675 | for every reachable cache: the first record with the key, or nothing if and only if the key is absent; the cache afterwards |
| BitFile.BitFile.SearchCachedLeaf | kernel-module/c/src/lsm_tree.c:602-626 | a hit in the cache is the answer an uncached search would give, and there is one if and only if the key's leaf is cached and has it |
| BitFile.BitFile.SearchLeaf | kernel-module/c/src/lsm_tree.c:565-595 | an uncached leaf has the key's first record if and only if the file has the key |
| BitFile.BitFile.SearchLeafKeyPos | kernel-module/c/src/lsm_tree.c:540-563 | descends to the first leaf whose last key is not below the key |
| BitFile.BitFile.RangeSearch | kernel-module/c/src/lsm_tree.c:677-741 | answers exactly the keys of the range that the file has and that were not found before, each with the record its leaf gives in the cache as it is by then, and leaves the cache that follows from the lookups |
| BitFile.PickedLeaf | kernel-module/c/src/lsm_tree.c:540-563 | the two loops over cached inner nodes arrive at the leaf that the entries alone determine, under its last key |
| BitFile.BitIterator.Next | kernel-module/c/src/lsm_tree.c:760-798 | the next entry in order, until all were given |
| BitFile.ReadAll | kernel-module/c/src/lsm_tree.c:753-827 | iterating over a file gives back exactly its entries in order |
| BitFile.Build | kernel-module/c/src/lsm_tree.c:135-361 | any non-empty key-sorted sequence up to capacity makes a file that holds it |
| ReadPath.Coalesce | kernel-module/c/src/dm-jindisk.c:332-346 | the runs partition the collected blocks, each of consecutive addresses and maximal |
| ReadPath.CutUnique | kernel-module/c/src/dm-jindisk.c:332-346 | there is only one such partition |
| ReadPath.CutCovers | kernel-module/c/src/dm-jindisk.c:332-346 | every block lies in one run, at its address's distance from the start |
| ReadPath.FetchRuns | kernel-module/c/src/dm-jindisk.c:189-229 | every collected block is opened with its own record and delivered to its own page, and no other page changes |
| ReadPath.ReadRun | kernel-module/c/src/dm-jindisk.c:75-105 | block i of a run is opened from slot i |
| RangeSearch.Range | kernel-module/c/src/lsm_tree.c:1813-1885 | a record for a key of the range if and only if some level knows the key, from the newest such level, first or last record as leaf boundaries and the caches before the search decide; the caches afterwards; also when the search stops early |
| RangeSearch.LevelRange | kernel-module/c/src/lsm_tree.c:1104-1130 | a level adds exactly the keys it has that were not answered yet, with what their leaves give when their file is first searched; searching it again adds nothing |
| RangeSearch.FileRange | kernel-module/c/src/lsm_tree.c:677-741 | a file adds exactly its keys of the range that were not found before, and its cache afterwards is that of the same lookups |
| RangeSearch.RangeIsPoint | kernel-module/c/src/lsm_tree.c:1813-1885 | range search and point search agree on a key if and only if the newest file that knows it does not hold both a value and a negative of which the second is seen |
| RangeSearch.MisreadIs | kernel-module/c/src/lsm_tree.c:677-741 | they disagree if and only if both records lie in one leaf of that file and the leaf is not cached when the search reaches the key |
| RangeSearch.LostWhen | kernel-module/c/src/lsm_tree.c:677-741 | with room in the cache: if and only if the leaf was not cached before the request and no earlier key of the request was found in it |
| Sizing.CalcAvailSectors | kernel-module/c/src/metadata.c:1298-1330 | terminates with a whole number of segments; a non-zero result fits with its metadata and the preserved segments, and no larger one does; no subtraction wraps |
| Sizing.CalcTotalBit | kernel-module/c/src/metadata.c:167-181 | the loop sums, over the levels, the least number of files that hold the level's records, plus one |
| Sizing.FilesExact | kernel-module/c/src/metadata.c:167-181 | m files hold that many records if and only if m is at least the computed count |
| Sizing.TotalHolds | kernel-module/c/src/metadata.c:167-181 | the files of all levels hold a record for everything the levels may hold, wasting less than one file a level |
| Sizing.FileIdsExact | kernel-module/c/src/metadata.c:1157-1195 | there are ids for twice the files of a level, and m level-1 files hold a record for every block if and only if twice those and the level-0 file use at least all ids |
| Sizing.BytesExact | kernel-module/c/src/metadata.c:148-154 | b blocks hold the bytes if and only if b is at least the computed count |
| Sizing.ArrayExact | kernel-module/c/src/metadata.c:156-165 | b blocks of whole entries hold more than nr entries if and only if b is at least the computed count, which is therefore one too many when the entries fill their last block |
| Sizing.ValidityExact | kernel-module/c/src/metadata.c:210-217 | b blocks hold that many bits in whole words if and only if b is at least the computed count |
| Sizing.MetadataMono | kernel-module/c/src/metadata.c:1268-1288 | more segments never need less metadata |
| Sizing.NoWrap | kernel-module/c/src/metadata.c:1268-1288 | below 2^58 sectors no product reaches 2^64 |
| Layout.RegionsContiguous | kernel-module/c/src/metadata.c:236-307 | the regions follow each other without gap, and the data starts where calc_metadata_blocks says |
| Layout.RegionsDisjoint | kernel-module/c/src/metadata.c:236-307 | distinct regions and checkpoint copies are disjoint |
| Layout.TablesInside | kernel-module/c/src/disk_structs.c:12-20 | every access to a table lands in its own checkpoint copy |
| Layout.EntriesDisjoint | kernel-module/c/src/disk_structs.c:12-20 | distinct entries share no byte |
| Layout.BitInside | kernel-module/c/src/disk_structs.c:172-202 | a bit's word lies in the blocks allotted to the set |
| Layout.FormatOverrun | kernel-module/c/src/disk_structs.c:88-122 | formatting a bit set writes one block more than allotted if and only if its words fill their last block |
| Layout.FilesInside | kernel-module/c/src/metadata.c:189-201 | index files with distinct ids occupy disjoint bytes, all in the index region |
| Layout.DataOnDevice | kernel-module/c/src/dm-jindisk.c:654-662 | passing the size check puts the whole data region on the device |
| Layout.AvailPasses | kernel-module/c/src/dm-jindisk.c:654-662 | a target of the size calc_avail_sectors computes passes that check |
| DiskStructs.SetOne | kernel-module/c/src/disk_structs.c:22-54 | writing one entry's bytes changes that entry and no other |
| DiskStructs.DiskTable.Set | kernel-module/c/src/disk_structs.c:22-54 | the table is the old one with one entry replaced, and no block outside its allotment changes |
| DiskStructs.DiskTable.Get | kernel-module/c/src/disk_structs.c:56-86 | the entry, or failure past the end |
| DiskStructs.DiskTable.Format | kernel-module/c/src/disk_structs.c:88-122 | every entry is filled, and no block outside the formatted ones changes |
| DiskStructs.OneBit | kernel-module/c/src/disk_structs.c:187-202 | changing one bit of one little-endian word changes exactly one bit of the set |
| DiskStructs.DiskBitset.Operate | kernel-module/c/src/disk_structs.c:187-212 | read, change and write back of a word is the update of one bit, or failure past the end; no block outside the allotment changes |
| DiskStructs.DiskBitset.Get | kernel-module/c/src/disk_structs.c:214-225 | the bit for an index in range; an answer if and only if the word exists |
| DiskStructs.DiskBitset.Format | kernel-module/c/src/disk_structs.c:227-230 | every bit gets the value, and no block outside the allotment changes |

## Left out

- Exactness.IssueExact: one step, on a state that meets the invariant; that the condition can fail only at an address freed by a collection is `Ownership.OnlyFreedAddresses`, and that a failure loses data is shown for the run in `Guards`, not for every continuation.
- MajorCompaction.Run: when the last builder is empty the code writes a root in front of the file's start; the model stops instead, says exactly when, and does not follow the damage.
- BitBuilder.BitBuilder.Complete: for the same reason, a builder without entries is not completed.
- BitFile.Build: trees of three levels, as the root, inner node and leaf walk of the search assumes; the builder itself is proved for every height of at least two.
- JinDisk.JinDisk.CollectSegment: one round of the collection loop with its counter update; the loop over rounds adds a threshold and a target and nothing else.
- Compaction.KWayMerge: the kernel's min_heap, whose header is not part of this model, is a map with a root index that obeys the tie rule under "Guards".
- DiskStructs.DiskBitset.Operate: words are little-endian 64-bit, as on the machines the module is built for.
- Files of the index are identified with their entries in `Level` to `JinDisk`; that a stored file behaves like its entries, cache included, is what `BitFile` shows with the same functions of `LeafCache`. That the files of a tree lie in disjoint slots of one store is `Layout.FilesInside`.
- Encryption is symbolic: opening a sealed block gives its contents exactly with the key and sequence number that sealed it; the tag is part of the sealed block. Node and metadata encryption are left out.
- Handlers are atomic steps; locks, work queues, the completion counter of a read and the timer are left out. `LoggingHandover` is the one place where a collection runs inside a flush.
- rbtree, radix tree, bsearch and dm-bufio are maps, sequences and blocks.
- Journal and checkpoint packs, superblock serialisation and checksum, reload from an existing disk.
- Out-of-memory and I/O errors, memory freeing, statistics, sysfs and ioctl.
- Reads and writes of less than a block, and the final flush of a partly filled buffer on destruction.
- `user-cli`, `demos` and scripts.
