# Spry: the LSM emulator with range-delete filters, and the block caches

A Dafny model of two parts of the repository, with proofs of what they promise.

**The emulator** (`development/emulation`) keeps points and closed-interval range deletes in a buffer, flushes it
into an LSM tree, and pushes one file at a time from saturated levels into the next.  Beside the tree are a plain and a
split range-delete filter per level and one skyline filter with timetags.  The central result is about whole
workloads: after any sequence of inserts and range deletes, with all the flushes and cascades they cause, the point
query with the plain filters and the one with the split filters return what a plain map would, for every key; both
entry-count equations hold; no level is saturated and none is empty above a full one.  The skyline query
differs from it exactly for a stored key whose last insert lies between the newest range delete and the newest one that
the filter's lookup gets to see.  A run that stops instead does so for one of three reasons of the code's own, each with a condition that then holds.

**The block caches** (`development/rocksdb/cache`) are the lock-free clock cache and the LRU shard.  The clock cache's
meta word and its usage counters are modelled as atomic steps of any number of threads in any order, the word as long as
neither of its counters reaches its top bit; its table and its clock hand are modelled as sequential code.  The LRU shard is a list in three priority pools, a chained hash table and an account of charges.

## Layout

- `Options`, `Entries`, `EntryLists`: intervals, points, and lists of both, with sorting and merging.
- `PerLevelFilter`, `Skyline`: the range-delete filters.
- `FileCut`, `Levels`, `Compaction`, `Disk`, `Tree`: cutting a list into files, a level, one merge, and the tree with
  its cascade.  `Tree.OkFrom` is what every level keeps; `Tree.MeaningFrom` is what the tree says about a key: the
  first level with a point or a covering tombstone decides.
- `Queries`, `Emulator`: the three queries, the buffer, the recorder and the driver.
- `ClockMeta`, `ClockSlot`, `ClockUsage`: the packed word, one slot under all interleavings, the two usage counters
  under all interleavings.
- `Probing`, `ClockTable`: double hashing, displacement counts, charging and eviction.
- `ClockAlone`: the steps of a slot, run without interruption, against the operations of the table.
- `LruList`, `LruShard`, `LruTable`: the pools, the shard, the hash table.

`dafny verify dfyconfig.toml` checks everything.

## Where code and documentation differ

- The skyline filter is meant to tell whether a range delete came after an insert.  Two things in the code break that:
  its set does not insert a range equal to one it holds, and its lookup reads at most two of the three elements
  that can hold a key.  `Skyline.Hidden` says for which histories the newest delete of a key is not seen; `SkylineExact`
  proves that the filter is right on all others and on no others, `SkylineAnswers` what it answers for each key and tag.
- Cutting a range of the skyline in two narrows its pieces to int.  `AddedExact` proves that this is the only way in which an
  insertion goes wrong; `WideExample` is one.
- Cutting a file can take out its last point and then read the element before the first.  `FileCut.Underflows` names
  the lists on which that happens; `UnderflowExample` is one.
- The comment above `CorrectNearOverflow` promises the same logical countdown after the correction.  The check also
  triggers below the bound the comment gives; `CorrectionKeepsCountdown` says when the countdown is kept, and
  `CorrectionExample` is a release that loses it.
- `SetCapacity` of the LRU shard changes the pool capacities without rebalancing the pools.  The next insert at the head of the
  low pool then miscounts them: `LowInsertExact`, `OverfullExample`.

## Model

| member | source | states |
|---|---|---|
| PerLevelFilter.MergeRanges | development/emulation/range_delete_filter/perlevel_range_delete_filter_by_vector.cc:37-111 | the batch add of two lists ascending by start gives a list of maximal, non-touching intervals that covers exactly the union; what was absorbed is counted |
| PerLevelFilter.AddRange | development/emulation/range_delete_filter/perlevel_range_delete_filter_by_vector.cc:7-34 | adding one range delete covers the old keys and the new ones and leaves maximal, non-touching intervals |
| PerLevelFilter.RemoveRanges | development/emulation/range_delete_filter/perlevel_range_delete_filter_by_vector.cc:114-241 | removal is exact set difference, and the remaining intervals are again maximal and non-touching |
| PerLevelFilter.SplitByPoints | development/emulation/range_delete_filter/perlevel_range_delete_filter_by_vector.cc:462-533 | splitting takes exactly the given point keys out of the filter |
| PerLevelFilter.IsEntryAlive | development/emulation/range_delete_filter/perlevel_range_delete_filter_by_vector.cc:439-447 | the binary search answers alive exactly for keys no interval covers |
| PerLevelFilter.ApartUnique | development/emulation/range_delete_filter/perlevel_range_delete_filter_by_vector.cc:37-111 | a set of keys has only one list of maximal, non-touching intervals, so the filter is determined by what it covers |
| EntryLists.SortPointsSorts | development/emulation/tree_builder/entry.cc:753-757 | sorting points of distinct keys gives strictly rising keys and keeps every key's value and the number of points |
| EntryLists.SortRangesSorts | development/emulation/tree_builder/entry.cc:759-763 | sorting tombstones by start keeps their number and the keys they cover |
| EntryLists.SortRangesKeeps | development/emulation/tree_builder/entry.cc:765-771 | sorting disjoint tombstones by end finds them sorted already |
| EntryLists.ApplyRanges | development/emulation/tree_builder/entry.cc:190-221 | the tombstones of the upper list delete exactly the lower points they cover, and the number counted is that of the covered points |
| EntryLists.MergePoints | development/emulation/tree_builder/entry.cc:224-277 | the merge of two point lists has the upper value of a key in both lists, loses no other key, and counts what it dropped |
| EntryLists.MergeOwnRanges | development/emulation/tree_builder/entry.cc:344-375 | merging the tombstones of one list gives maximal, non-touching ones with the same coverage, and counts what it absorbed |
| FileCut.Fill | development/emulation/tree_builder/entry.cc:612-661 | filling a file takes a prefix of the points and tombstones in key order, within the byte limit, and stops only when the next entry does not fit |
| FileCut.SplitOut | development/emulation/tree_builder/entry.cc:568-702 | cutting one file off a list keeps the points and the covered keys, puts every key of the file below every key of the rest, respects the byte limit, makes progress, and adds one tombstone per counted split; the file was filled until the next entry did not fit and gave back only points that left no room for a piece of the tombstone around them; it reads past the front of the points exactly on the lists `Underflows` names |
| FileCut.UnderflowSeen | development/emulation/tree_builder/entry.cc:673-677 | a filled file must give up its last point if and only if the list underflows, which is told from the list and the sizes alone |
| FileCut.NoUnderflow | development/emulation/tree_builder/entry.cc:673-677 | a list whose tombstones fit into a file beside one point never underflows |
| FileCut.UnderflowExample | development/emulation/tree_builder/entry.cc:664-682 | a list with a tombstone below its only point and one around it underflows in a file of two entries |
| Levels.CutFiles | development/emulation/workload_executor.cc:366-400 | cutting a whole list succeeds if and only if no list left over on the way underflows, and then gives the chain of files of one cut after the other, with strictly increasing key spans, that holds its points, its coverage and one more tombstone per split |
| Levels.SstKeys | development/emulation/tree_builder/sst_file.cc:698-711 | the file's smallest and largest key, computed from point and range keys with -1 for a missing kind, are the true ends of the keys it mentions |
| Levels.Overlapping | development/emulation/tree_builder/entry.cc:449-538 | gathering by overlap takes a contiguous stretch of files: exactly those whose span meets the list's span, with all their entries |
| Levels.Splice | development/emulation/workload_executor.cc:366-414 | the splice replaces one contiguous stretch of files, exactly those that overlap the new ones |
| Compaction.FileRemoved | development/emulation/tree_builder/disk_meta_file.cc:313-355 | unlinking a file and clearing its tombstones from the filters leaves a level in order with both filters right, and level and file together say what the level said |
| Compaction.MergedIntoLevel | development/emulation/workload_executor.cc:766-781 | a level after a merge says of every key what the list says and else what the level said, stays a chain of disjoint files, and has both filters right: the plain one covers its tombstones, the split one those that no point of the level lies in |
| Compaction.MergedCounts | development/emulation/tree_builder/entry.cc:224-277 | the splice neither loses nor duplicates entries |
| Compaction.StretchUnique | development/emulation/workload_executor.cc:366-414 | the stretch of files a key span overlaps is unique, so the splice replaces what was gathered |
| Disk.GatherAndMerge | development/emulation/workload_executor.cc:766-776 | the gathered entries, filtered by the list's tombstones and merged under it, mean what the list means over the gathered files; the points counted as deleted are those of the level that the list's tombstones cover, and all others dropped are counted as merged |
| Disk.UpdateFilters | development/emulation/tree_builder/disk_meta_file.cc:777-829 | both filters gain the merged tombstones; the split filter loses the merged points; splitting twice changes nothing more |
| Disk.WriteLevel | development/emulation/workload_executor.cc:719-786 | writing a list into a level keeps order, filters, meaning and counts, leaves every file the list is clear of, and adds only files that fit; it stops on the tile check if and only if the level is empty and the list has some points but fewer than a tile |
| Disk.WriteMerged | development/emulation/workload_executor.cc:772-786 | writing a merged list stops if and only if a cut of it underflows, and else gives the level its meaning, counts and files |
| Disk.TileMismatchWhen | development/emulation/workload_executor.cc:747-751 | the two-part tile check fails exactly on lists with some points but fewer than a tile |
| Tree.MaxFilesAtLeastTwo | development/emulation/tree_builder/memory_buffer.cc:28-38 | for every buffer size, size ratio and file size: no level is saturated by a single file, if and only if the first one is not, that is, buffer size times ratio is at least twice what a file counts for |
| Tree.MaxFilesGrow | development/emulation/tree_builder/memory_buffer.cc:28-38 | from level to level the file limit grows at least by the size ratio |
| Tree.MinOverlapFile | development/emulation/tree_builder/disk_meta_file.cc:168-184 | the file pushed down is the first one with the fewest overlaps in the next level |
| Tree.OverlapCountIs | development/emulation/tree_builder/disk_meta_file.cc:168-184 | the overlap count is the number of files of the next level that reach over the smallest point key of a file and start below its largest |
| Tree.Sorted | development/emulation/workload_executor.cc:719-732 | sorting the incoming list, and merging its tombstones on the way to level 1, does not change what it says |
| Tree.DiskMetaFile.SortAndWrite | development/emulation/workload_executor.cc:719-786 | after writing a list into a level and all pushes it causes: every level from there down is in order, below its file limit, without an empty level above a full one, both filters right, and every file within the file size; every key means what the list says over what the tree said, and the counts balance; if the write alone leaves the level unsaturated nothing else changes, and the write stops on the tile check exactly when it must |
| Tree.DiskMetaFile.CheckAndAdjustLevelSaturation | development/emulation/tree_builder/disk_meta_file.cc:267-360 | a level below its file limit is left alone with the whole tree; else the recursive cascade terminates, leaves the level with one file less than the limit, all of them its own, and every level below within its limit, and changes neither the meaning of any key nor the counts |
| Tree.DiskMetaFile.PushOne | development/emulation/tree_builder/disk_meta_file.cc:313-355 | one push unlinks the chosen file and writes it into the next level |
| Tree.PushedDown | development/emulation/tree_builder/disk_meta_file.cc:313-355 | compacting one file into the next level leaves the meaning of the whole tree unchanged and both levels' filters right |
| Tree.PushedKey | development/emulation/tree_builder/disk_meta_file.cc:313-355 | for each key: level without the file, over the next level with it, says what both said before |
| Tree.PushedCounts | development/emulation/tree_builder/disk_meta_file.cc:313-355 | pushing a file conserves points and tombstones, with merges, deletions and splits counted |
| Tree.WroteOne | development/emulation/workload_executor.cc:734-786 | one level rewritten, with its filters and those of the level above: order, meaning and counts of the tree from there down |
| Tree.DiskMetaFile.Flush | development/emulation/tree_builder/memory_buffer.cc:79-89 | flushing the buffer keeps the tree valid and makes every key mean what the buffer says over the tree; unless the write saturates level 1 all other levels stay as they are |
| Skyline.SkylineRangeDeleteFilter.Add | development/emulation/range_delete_filter/skyline_range_delete_filter.cc:69-145 | the erase loop and the set insertions give the elements x does not overlap, the pieces of the others, and x, inserted in the set's order |
| Skyline.AddedIs | development/emulation/range_delete_filter/skyline_range_delete_filter.cc:69-145 | where both pieces of an element that is cut in two fit into ints, erasing and re-inserting yields the list written from left to right: what ends before x, the cut-off head, x, the cut-off tail, the rest; an equal one-key element keeps its old tag |
| Skyline.AddedExact | development/emulation/range_delete_filter/skyline_range_delete_filter.cc:69-145 | on every ordered list, adding a range gives the list written from left to right if and only if it cuts no element in two or both pieces fit into ints |
| Skyline.InsertedView | development/emulation/range_delete_filter/skyline_range_delete_filter.cc:69-145 | adding a range changes, for every key, which elements hold it and with which tags exactly as the per-key step says |
| Skyline.InsertedLined | development/emulation/range_delete_filter/skyline_range_delete_filter.h:33-44 | the elements stay ordered, touch at most in end keys, and are pairwise different |
| Skyline.IsEntryAlive | development/emulation/range_delete_filter/skyline_range_delete_filter.cc:312-341 | the lookup reads the element at the lower bound and the one before it, and answers from their tags |
| Skyline.SkylineExact | development/emulation/range_delete_filter/skyline_range_delete_filter.cc:312-341 | for every history with rising tags and every key: the filter is right for all tags if and only if the newest delete of the key is not hidden, that is, it does not start at the key after an earlier delete of the key alone with none reaching over the key in between |
| Skyline.SkylineAnswers | development/emulation/range_delete_filter/skyline_range_delete_filter.cc:312-341 | for every history with rising tags, every key and every tag: the filter lets an entry live if and only if its tag is above that of the newest delete the lookup gets to see, one that does not start at the key behind an earlier delete of the key alone |
| Skyline.SkylineWrong | development/emulation/range_delete_filter/skyline_range_delete_filter.cc:312-341 | for every key and tag the answer is wrong if and only if the tag lies above the newest delete seen and at or below the newest one; an entry that is alive is never taken for dead |
| Skyline.MissedHidden | development/emulation/range_delete_filter/skyline_range_delete_filter.cc:312-341 | only a key whose newest delete is hidden has such entries |
| Skyline.HiddenExample | development/emulation/range_delete_filter/skyline_range_delete_filter.cc:312-341 | deleting 5 and then 5 to 7 leaves an entry of key 5 written in between alive |
| Skyline.WideExample | development/emulation/range_delete_filter/skyline_range_delete_filter.cc:86-100 | a range cut in two goes through ints, so an end key of 2^32 is lost and a dead entry lives |
| Queries.SearchLevel | development/emulation/query_runner.cc:390-425 | searching the files of a level finds the value the level stores for the key, with its early stop, and counts the files opened |
| Queries.OneProbe | development/emulation/query_runner.cc:390-425 | a level opens at most one file for a key |
| Queries.ProbedWhen | development/emulation/query_runner.cc:390-405 | a level opens a file for a key exactly if the key lies in the span of the point keys of one of its files |
| Queries.TotalLevelCount | development/emulation/tree_builder/disk_meta_file.cc:149-165 | the number of levels before the first empty one |
| Queries.QueryPlain | development/emulation/query_runner.cc:388-435 | the levels with the plain filters, asked after the files, give the meaning of the tree |
| Queries.QuerySplit | development/emulation/query_runner.cc:476-529 | the levels with the split filters, asked before the files, give the meaning of the tree |
| Queries.QuerySkyline | development/emulation/query_runner.cc:570-621 | without level filters the first stored point decides, if the skyline says it is alive |
| Queries.ProbeOrder | development/emulation/query_runner.cc:390-433 | the split query opens no more files than the plain one, and that no more than the skyline query, in every reachable tree and for every key |
| Emulator.RemovePointsInRange | development/emulation/tree_builder/entry.cc:102-121 | a range delete takes exactly the covered points out of the buffer, with their number and bytes |
| Emulator.SearchBuffer | development/emulation/query_runner.cc:352-385 | the buffer is searched points first, then tombstones |
| Emulator.MemoryBuffer.PutPoint | development/emulation/workload_executor.cc:190-220 | an insert updates the point of its key in place or appends one; the buffer statistics stay exact |
| Emulator.MemoryBuffer.PutTombstone | development/emulation/workload_executor.cc:260-269 | a range delete adds a tombstone and drops the points it covers; the buffer statistics stay exact |
| Emulator.WorkloadExecutor.CheckBufferFlush | development/emulation/workload_executor.cc:227-257 | exactly a saturated buffer is flushed; the flush changes nothing that is said about any key; only a flush can stop the program, and one of fewer points than a tile into an empty tree does |
| Emulator.WorkloadExecutor.InsertEntry | development/emulation/workload_executor.cc:190-225 | an insert with the flush and compactions it triggers keeps buffer, tree and counters sound |
| Emulator.WorkloadExecutor.DeleteEntries | development/emulation/workload_executor.cc:260-274 | a range delete with the flush and compactions it triggers keeps buffer, tree and counters sound |
| Emulator.WorkloadRecorder.Insert | development/emulation/workload/workload_recorder.cc:10-15 | the ground truth maps the key to the value, and the insert stamp is kept |
| Emulator.WorkloadRecorder.Remove | development/emulation/workload/workload_recorder.cc:21-25 | the ground truth loses exactly the keys of the closed range |
| Emulator.Emulator.Insert | development/emulation/instruction_decoder.cc:10-20 | an insert keeps buffer, tree, recorder, stamps and skyline in agreement |
| Emulator.Emulator.RangeDelete | development/emulation/instruction_decoder.cc:21-30 | a range delete keeps buffer, tree, recorder, stamps and skyline in agreement |
| Emulator.Emulator.PointQuery | development/emulation/query_runner.cc:350-435 | in every valid state the query with plain filters returns the ground truth, for every key |
| Emulator.Emulator.PointQuerySplit | development/emulation/query_runner.cc:438-529 | in every valid state the query with split filters returns the ground truth, for every key |
| Emulator.Emulator.PointQuerySkyline | development/emulation/query_runner.cc:532-621 | in every valid state and for every key: the skyline query with the recorded stamp differs from the ground truth if and only if the buffer says nothing about the key, a point of it is stored, and the stamp lies above the newest delete the filter sees and at or below the newest one |
| Emulator.SkylineTruth | development/emulation/query_runner.cc:570-621 | below a buffer that says nothing, what the first stored point and the filter's answer together get wrong |
| Emulator.Emulator.CheckEquation | development/emulation/checking/system_verifier.cc:349-372 | both entry-count assertions hold in every valid state |
| Emulator.Emulator.Run | development/emulation/instruction_decoder.cc:6-35 | every workload, with all flushes and cascades, ends in a valid state whose ground truth is the replay of the instructions, or stops at a flush for one of three named reasons, and then a condition for that reason holds |
| ClockMeta.Unpacked | development/rocksdb/cache/clock_cache.h:324-371 | the fields of the packed word can be read back; GetRefcount is the difference of the counters modulo 2^30 |
| ClockMeta.PackedOnce | development/rocksdb/cache/clock_cache.h:324-371 | two words are equal only if all fields are, so a compare-exchange compares state and both counters |
| ClockMeta.CorrectionIdle | development/rocksdb/cache/clock_cache.cc:243-260 | near-overflow correction changes nothing while both counters are low |
| ClockMeta.CorrectionKeepsRefs | development/rocksdb/cache/clock_cache.cc:243-260 | the correction keeps the reference count if and only if it is not triggered or both or neither top bit is set |
| ClockMeta.CorrectionKeepsCountdown | development/rocksdb/cache/clock_cache.cc:198-260 | the correction keeps the countdown of an unreferenced entry if and only if it is not triggered, the counter is low, or it is at least 3 above its top bit |
| ClockMeta.CorrectionExample | development/rocksdb/cache/clock_cache.cc:198-260 | releasing the last of 2^29 references triggers the correction although the release counter read before is below its top bit, and turns a countdown of 3 into 0 |
| ClockSlot.ActionAsserts | development/rocksdb/cache/clock_cache.cc:681-766 | whoever references, releases, hides, builds or frees finds the slot in the state the code asserts |
| ClockSlot.ActionCounts | development/rocksdb/cache/clock_cache.cc:457-537 | each atomic step of any thread keeps acquires minus releases equal to the references held, and one owner exactly while the slot is under construction |
| ClockSlot.ActionLeaves | development/rocksdb/cache/clock_cache.cc:75-119 | a step of one thread leaves the references of another to the entry they were taken on |
| ClockSlot.ActionOnWord | development/rocksdb/cache/clock_cache.cc:457-537 | while counters are low every atomic operation on the packed word does what the step does on the fields |
| ClockSlot.InterleavingSafe | development/rocksdb/cache/clock_cache.cc:614-860 | after every interleaving of lookups, inserts, references, releases, erases, clock updates and sweeps in which no counter reaches its top bit: acquires minus releases is the number of references held, each held reference is to the entry in the slot and its key, and an owner is alone with the slot |
| ClockSlot.KeysMatch | development/rocksdb/cache/clock_cache.cc:643-672 | after every interleaving: whoever credits, hides or erases the entry in the slot asked for its key; the comparison takes the reference back exactly if the entry has another key than was asked for, and else keeps it for the lookup, credits the insert or goes on to hide |
| ClockSlot.TakenOnlyAlone | development/rocksdb/cache/clock_cache.cc:75-119 | at every step that takes the slot for freeing no other thread holds a reference |
| ClockUsage.ActionUsage | development/rocksdb/cache/clock_cache.cc:262-374 | each atomic step keeps usage equal to the charges stored and held |
| ClockUsage.ActionPermits | development/rocksdb/cache/clock_cache.cc:395-440 | each atomic step keeps entries and granted places within the occupancy limit |
| ClockUsage.ActionStrict | development/rocksdb/cache/clock_cache.cc:262-317 | no step of the strict variant takes usage beyond capacity |
| ClockUsage.ActionAsserts | development/rocksdb/cache/clock_cache.cc:262-374 | no counter drops below zero, and who proceeds after having to evict has evicted something |
| ClockUsage.InterleavingSafe | development/rocksdb/cache/clock_cache.cc:262-440 | after every interleaving of charging, evicting, rolling back and reclaiming: strict usage is within capacity, the table is within its occupancy limit, and at rest usage is the table charge plus all entry charges and occupancy the number of entries |
| ClockUsage.FailureJustified | development/rocksdb/cache/clock_cache.cc:262-317 | over every interleaving: an insert fails for lack of capacity only if usage has been at the capacity while it was under way, for lack of a place only if occupancy has been beyond its limit while it was under way and it evicted nothing, and as too large only beyond the capacity |
| Probing.ProbesDiffer | development/rocksdb/cache/clock_cache.cc:932-952 | the probes of a key with an odd increment modulo a power of two are all different |
| Probing.ProbesReach | development/rocksdb/cache/clock_cache.cc:932-952 | so they reach every slot |
| ClockTable.HyperClockTable.Rollback | development/rocksdb/cache/clock_cache.cc:959-967 | rollback terminates and takes one displacement back at exactly the slots the key probes before the entry |
| ClockTable.NothingBehind | development/rocksdb/cache/clock_cache.cc:672-676 | behind a slot with displacement count zero there is no entry of the key |
| ClockTable.HyperClockTable.Lookup | development/rocksdb/cache/clock_cache.cc:614-679 | lookup with its early stop finds a visible entry if there is one, the first on the probe path, and takes one reference; displacement counts stay right |
| ClockTable.HyperClockTable.Place | development/rocksdb/cache/clock_cache.cc:444-571 | probing for an insert always ends at the first slot of the path that is free or has an entry of the same key, and either way the displacement counts are the number of entries whose path passes each slot |
| ClockTable.HyperClockTable.Insert | development/rocksdb/cache/clock_cache.cc:395-571 | an insert keeps a slot free, occupancy and usage right, and strict usage within the capacity; it moves the clock hand just as far as what it is short of takes, and a loose one that does not fit frees its own charge and the extra or all that can go; it finds no room if and only if the entry is too large for a strict capacity or does not fit with what has been evicted, or occupancy is at its limit and nothing went; the entry goes into the first slot of its path that is free unless its key comes before, is found there, and is referenced exactly if kept |
| ClockTable.HyperClockTable.ChargeStrict | development/rocksdb/cache/clock_cache.cc:262-317 | the strict charge succeeds if and only if the entry is not larger than the capacity, fits with what has been evicted, and a missing place has been made; it evicts just what it is over the capacity by; usage follows the entries either way, and a failure other than for size has evicted all that was evictable |
| ClockTable.HyperClockTable.ChargeLoose | development/rocksdb/cache/clock_cache.cc:319-374 | an entry that does not fit evicts its own charge, and while usage is over the capacity the extra, or all that can be evicted; one that fits evicts nothing; the charge fails if and only if a place is missing and nothing could be evicted; usage follows the entries either way |
| ClockTable.HyperClockTable.Charge | development/rocksdb/cache/clock_cache.cc:411-440 | both ways of charging in one contract |
| ClockTable.HyperClockTable.PlaceCharged | development/rocksdb/cache/clock_cache.cc:444-571 | an entry that is charged and counted is placed; one that finds its key becomes standalone if a handle is wanted, and is uncharged if not |
| ClockTable.HyperClockTable.Release | development/rocksdb/cache/clock_cache.cc:681-754 | the last reference of an invisible or to-be-erased entry frees it and its charge, nothing else does; a useful release keeps its acquire for the clock |
| ClockTable.HyperClockTable.Erase | development/rocksdb/cache/clock_cache.cc:791-860 | no visible entry of the key is left, wherever it was: unreferenced ones are freed, referenced ones invisible and still referenced, and nothing else changes |
| ClockTable.HyperClockTable.Tick | development/rocksdb/cache/clock_cache.cc:75-119 | a clock update leaves referenced entries, counts others down, and frees those whose countdown is over |
| ClockTable.HyperClockTable.Evict | development/rocksdb/cache/clock_cache.cc:980-1037 | an eviction run stops after the first step that has freed enough or after three turns, updates each slot as often as the hand visits it, frees exactly the charge and count it reports, and if it falls short of the request it has evicted every unreferenced entry that was invisible or had a countdown of at most 2 |
| ClockTable.ClockRank | development/rocksdb/cache/clock_cache.cc:75-119 | an unreferenced entry survives exactly as many clock updates as its countdown, at most 3 |
| ClockTable.UsefulRank | development/rocksdb/cache/clock_cache.cc:688-698 | the last reference given back as useful lets an entry survive one clock update more than given back as not, up to the largest countdown |
| LruList.LruList.Remove | development/rocksdb/cache/lru_cache.cc:256-278 | removing a handle keeps the three pools in order, each pointer on the last handle of its pool, and every counter equal to its pool's charge |
| LruList.LruList.Insert | development/rocksdb/cache/lru_cache.cc:280-320 | inserting puts the handle at the head of the list, of the low pool or of the bottom pool, keeps pools, pointers and counters, and moves the pool boundaries no further than the capacities demand; only at the head of the low pool it needs the high pool within its capacity |
| LruList.LruList.InsertLow | development/rocksdb/cache/lru_cache.cc:293-304 | shrinking the pools while the low pointer is still behind the new handle is right as long as the high pool is within its capacity; the low pool gives up only what is beyond its capacity |
| LruList.LruList.MaintainPoolSize | development/rocksdb/cache/lru_cache.cc:322-343 | both loops find a handle to move, keep order and charges, end within the pool limits, and move no handle more than that takes; within the limits nothing changes |
| LruList.LruList.SetPools | development/rocksdb/cache/lru_cache.cc:481-493 | changing the pool ratios rebalances the pools, moving the boundaries no further than the capacities demand |
| LruList.LruList.SetCapacities | development/rocksdb/cache/lru_cache.cc:381-383 | a new capacity sets the pool capacities and leaves the pools as they are |
| LruList.LowInsertExact | development/rocksdb/cache/lru_cache.cc:293-343 | inserting at the head of the low pool, with both loops run before the pointer is set, leaves pools and counters right if and only if the high pool was within its capacity before |
| LruList.OverfullExample | development/rocksdb/cache/lru_cache.cc:377-388 | one insert and a smaller capacity lead to an overfull high pool on which the next handle of low priority breaks pools or counters |
| LruList.RawLowRight | development/rocksdb/cache/lru_cache.cc:334-342 | the second loop keeps pools and counters right |
| LruList.OverfullBreaks | development/rocksdb/cache/lru_cache.cc:322-343 | from an overfull high pool the first handle moved is the new one, so a charge goes missing from the high pool's counter or a handle behind it leaves the pool as well |
| LruShard.LRUCacheShard.EvictFromLRU | development/rocksdb/cache/lru_cache.cc:345-359 | eviction takes handles from the old end of the list, the last of which was needed, until the charge fits or the list is empty; if it fits at once nothing changes |
| LruShard.LRUCacheShard.Insert | development/rocksdb/cache/lru_cache.cc:395-451 | an insert evicts just what it takes, then replaces the entry of its key and changes no other; it fails if and only if the charge does not fit then and the limit is strict or no handle is wanted; list, table and usage stay right, also after a change of capacity |
| LruShard.LRUCacheShard.Lookup | development/rocksdb/cache/lru_cache.cc:453-471 | a lookup returns the cached handle of the key, references it, marks it hit, and takes it off the list if it was on it; the order of the others stays |
| LruShard.LRUCacheShard.Ref | development/rocksdb/cache/lru_cache.cc:473-479 | one more reference to a referenced handle |
| LruShard.LRUCacheShard.Release | development/rocksdb/cache/lru_cache.cc:495-540 | the last reference frees an uncached handle, or a cached one over capacity or to be erased, and else puts it on the list at the place its priority gives; list, table and usage stay right |
| LruShard.LRUCacheShard.CreateStandalone | development/rocksdb/cache/lru_cache.cc:581-611 | in every valid state a standalone handle of the key evicts just what it takes, is charged unless a strict shard is full, and then it is refused or goes uncharged |
| LruShard.LRUCacheShard.Erase | development/rocksdb/cache/lru_cache.cc:613-637 | an erased handle leaves the table, and is freed unless referenced |
| LruShard.LRUCacheShard.SetCapacity | development/rocksdb/cache/lru_cache.cc:377-388 | a new capacity evicts down to it and no further; list, table and usage stay right |
| LruTable.LRUHandleTable.Lookup | development/rocksdb/cache/lru_cache.cc:50-52 | the chain of the hash's upper bits has the handle of a key if the table has |
| LruTable.BucketHalves | development/rocksdb/cache/lru_cache.cc:97-99 | the bucket comes from the upper hash bits: one bit more splits a bucket into two neighbours |
| LruTable.LRUHandleTable.Insert | development/rocksdb/cache/lru_cache.cc:54-77 | an insert replaces the handle of its key and changes no other; the table doubles exactly when it has as many handles as chains and may grow, so that chains stay below one handle on average |
| LruTable.LRUHandleTable.Remove | development/rocksdb/cache/lru_cache.cc:79-95 | a removal takes out the handle of its key and changes no other |
| LruTable.LRUHandleTable.Resize | development/rocksdb/cache/lru_cache.cc:106-138 | doubling the table keeps every key's handle and their number |
| FileCut.Trim | development/emulation/tree_builder/entry.cc:664-682 | points are taken back out of a file only while the cut-off piece of the next tombstone does not fit beside them, or the last point would go |
| FileCut.Sever | development/emulation/tree_builder/entry.cc:683-693 | a tombstone that straddles the end of the file is cut behind the file's last point; file and rest cover what the list covered |
| Disk.CompactAndFlush | development/emulation/workload_executor.cc:326-419 | exactly if no cut underflows, the list is cut into files that fit, and they take the place of the files they overlap |
| Disk.SpliceIn | development/emulation/workload_executor.cc:366-414 | the files of the merged list replace exactly the stretch of files its key span overlaps |
| Disk.FlushMerged | development/emulation/workload_executor.cc:772-781 | exactly if no cut underflows, a merged list goes into its level and both filters, and the level then means what the list says over it |
| Tree.DiskMetaFile.WriteInto | development/emulation/workload_executor.cc:719-781 | one level is written: the levels below and the files the list is clear of stay, new files fit, the covered points are counted as deleted, and the list's tombstones leave the filters of the level above; the tile check stops it exactly on an empty level and a list with some points but fewer than a tile |
| Tree.DrainedMore | development/emulation/tree_builder/disk_meta_file.cc:275-356 | pushing one file and draining the rest drains the level to one file less than its limit |
| Tree.TakeOut | development/emulation/tree_builder/disk_meta_file.cc:750-760 | below level 1 the filter above loses exactly the list's tombstones |
| Tree.DiskMetaFile.constructor | development/emulation/tree_builder/disk_meta_file.cc:8-9 | the tree starts empty with one empty filter of each kind |
| Skyline.SkylineRangeDeleteFilter.EraseOverlapped | development/emulation/range_delete_filter/skyline_range_delete_filter.cc:76-139 | the loop erases exactly the overlapped elements and collects their pieces |
| Skyline.BuildOk | development/emulation/range_delete_filter/skyline_range_delete_filter.cc:69-145 | after every history the list is ordered and holds, for every key, the tags the per-key steps give |
| Skyline.StepsRead | development/emulation/range_delete_filter/skyline_range_delete_filter.cc:312-341 | along a history the tags the lookup reads include the newest one exactly while it is not hidden, and never exceed it |
| Skyline.StepsSee | development/emulation/range_delete_filter/skyline_range_delete_filter.cc:312-341 | along a history the newer of the two tags the lookup compares with is that of the newest delete seen |
| Queries.LevelStep | development/emulation/query_runner.cc:390-433 | what a level's files and filters together tell about a key |
| Queries.QueryLevels | development/emulation/query_runner.cc:390-433 | what every level a query looks at tells about a key with its files and filter, what it adds to the files opened, and that there is nothing below |
| Queries.Walk | development/emulation/query_runner.cc:390-433 | the loop over the levels finds what the levels tell together, and opens as many files |
| Queries.AskLevel | development/emulation/query_runner.cc:396-433 | a filter asked before the files, the files, and a filter asked after them decide whether the level tells about the key |
| Queries.FindStored | development/emulation/query_runner.cc:570-608 | the search without level filters finds the first stored point |
| Queries.NothingBelow | development/emulation/tree_builder/disk_meta_file.cc:149-165 | below the first empty level the tree says nothing, so the level count may stop there |
| Queries.FirstStoredIs | development/emulation/query_runner.cc:570-621 | the first stored point has the tree's value whenever the tree says the key is live |
| Emulator.Find | development/emulation/workload_executor.cc:195-210 | the linear search of the buffer finds the point of a key if there is one |
| Emulator.Emulator.Decode | development/emulation/instruction_decoder.cc:6-35 | one instruction changes the ground truth of every key as it should |
| ClockMeta.AddAcquires | development/rocksdb/cache/clock_cache.cc:643-645 | adding to the packed word adds to the acquire counter alone while it is low |
| ClockMeta.AddReleases | development/rocksdb/cache/clock_cache.cc:690-693 | adding the release increment adds to the release counter alone while it is low |
| ClockMeta.SubAcquires | development/rocksdb/cache/clock_cache.cc:694-698 | taking acquires back does not borrow from the other fields |
| ClockMeta.Occupy | development/rocksdb/cache/clock_cache.cc:460-467 | setting the occupied bit turns an empty slot into one under construction and changes no other |
| ClockMeta.Hide | development/rocksdb/cache/clock_cache.cc:805-812 | clearing the visible bit makes a shareable entry invisible |
| ClockMeta.AcquireOverflow | development/rocksdb/cache/clock_cache.h:333-345 | a full acquire counter overflows into the release counter |
| ClockSlot.ActionKeeps | development/rocksdb/cache/clock_cache.cc:457-537 | each step keeps the acting thread's references on the entry in the slot |
| ClockSlot.ActionKey | development/rocksdb/cache/clock_cache.cc:643-672 | each step keeps the acting thread to the key it asked for |
| ClockSlot.TakenAlone | development/rocksdb/cache/clock_cache.cc:715-734 | a successful compare-exchange to under construction happens only with no other reference held |
| ClockSlot.StepKeeps | development/rocksdb/cache/clock_cache.cc:457-860 | every step of every thread keeps the invariant, meets the code's assertions, and acts on the packed word as on its fields |
| ClockAlone.LookupAlone | development/rocksdb/cache/clock_cache.cc:614-679 | a lookup that is not interrupted references the entry exactly if it is visible and of the key, and else leaves the slot as it is |
| ClockAlone.ReleaseAlone | development/rocksdb/cache/clock_cache.cc:681-754 | a release that is not interrupted leaves the slot as the table's release does |
| ClockAlone.EraseAlone | development/rocksdb/cache/clock_cache.cc:791-860 | an erase that is not interrupted leaves the slot as the table's erase does |
| ClockAlone.ClockUpdateAlone | development/rocksdb/cache/clock_cache.cc:75-119 | a clock update that is not interrupted leaves the slot as the table's does |
| ClockAlone.InsertAlone | development/rocksdb/cache/clock_cache.cc:457-537 | an insert that is not interrupted builds its entry in an empty slot, boosts an entry of its key, and leaves every other as it is |
| ClockAlone.SweepAlone | development/rocksdb/cache/clock_cache.cc:903-922 | a sweep that is not interrupted frees the entry exactly if it is not referenced |
| ClockUsage.ActionPlaces | development/rocksdb/cache/clock_cache.cc:402-440 | each step keeps occupancy equal to the entries stored and the places held |
| ClockUsage.ActionExplained | development/rocksdb/cache/clock_cache.cc:262-317 | each step of an operation that could not reserve its whole charge, or had to evict for its place, keeps what it has met |
| ClockUsage.LooseEvicts | development/rocksdb/cache/clock_cache.cc:319-352 | the loose variant goes to evict exactly if it needs a place, or its entry does not fit and usage holds as much |
| ClockUsage.StepKeeps | development/rocksdb/cache/clock_cache.cc:262-440 | every step of every thread keeps the invariant and meets the code's assertions |
| Probing.OddCancels | development/rocksdb/cache/clock_cache.cc:935-938 | an odd factor cancels modulo a power of two |
| ClockTable.HyperClockTable.FreeSlot | development/rocksdb/cache/clock_cache.cc:742-746 | freeing a slot takes its entry and the entry's displacements away |
| ClockTable.HyperClockTable.TickFour | development/rocksdb/cache/clock_cache.cc:1004-1024 | one step of the hand updates four slots and reports what it freed |
| ClockTable.HyperClockTable.MakeRoom | development/rocksdb/cache/clock_cache.cc:286-291 | an eviction run for an insert gives its places back and goes just as far as the request takes it |
| ClockTable.HyperClockTable.EraseAt | development/rocksdb/cache/clock_cache.cc:794-848 | the part of an erase at one slot |
| ClockTable.AllEvicted | development/rocksdb/cache/clock_cache.cc:992-1000 | three turns of the hand evict every unreferenced entry that was invisible or had a countdown of at most 2 |
| ClockTable.MoreSlots | development/rocksdb/cache/clock_cache.cc:543-553 | with a slot free, the probes of a key cannot all hit entries |
| LruList.LruList.ShrinkHigh | development/rocksdb/cache/lru_cache.cc:323-332 | the high pool overflows its oldest handles to the low pool until it is within its capacity, and no more than that takes; within it nothing changes |
| LruList.LruList.OverflowHigh | development/rocksdb/cache/lru_cache.cc:323-332 | the handle behind the low pointer exists, is the oldest of the high pool, and joins the low pool |
| LruList.LruList.ShrinkLow | development/rocksdb/cache/lru_cache.cc:334-342 | the low pool overflows its oldest handles to the bottom pool until it is within its capacity, and no more than that takes; within it nothing changes |
| LruList.LruList.OverflowLow | development/rocksdb/cache/lru_cache.cc:334-342 | the handle behind the bottom pointer exists, is the oldest of the low pool, and joins the bottom pool |
| LruList.LruList.InsertHigh | development/rocksdb/cache/lru_cache.cc:283-292 | a handle at the head of the list joins the high pool, and both pools give up only what is beyond their capacities |
| LruList.LruList.InsertBottom | development/rocksdb/cache/lru_cache.cc:305-318 | a handle at the head of the bottom pool leaves the other pools as they are; with an empty low pool both pointers move to it |
| LruList.LruList.Unlink | development/rocksdb/cache/lru_cache.cc:259-267 | a pointer to the removed handle goes to the one before it, and both pointers still mark the ends of their pools |
| LruList.MarkedRemoved | development/rocksdb/cache/lru_cache.cc:259-264 | moving back only the pointers that name the removed handle keeps both at the ends of their pools |
| LruList.MarkedBottom | development/rocksdb/cache/lru_cache.cc:313-318 | moving the low pointer along only if it equals the bottom pointer keeps both at the ends of their pools |
| LruShard.LRUCacheShard.EvictOldest | development/rocksdb/cache/lru_cache.cc:349-357 | the handle at the old end leaves list, table and usage |
| LruShard.LRUCacheShard.Unlist | development/rocksdb/cache/lru_cache.cc:256-278 | a handle comes off the list, and the order of the others stays |
| LruShard.LRUCacheShard.Uncache | development/rocksdb/cache/lru_cache.cc:617-629 | a handle leaves the table, and the list and usage too if it is not referenced |
| LruShard.LRUCacheShard.Replace | development/rocksdb/cache/lru_cache.cc:422-443 | a new handle takes the key's place; the old one is freed or stays with its references |
| LruShard.LRUCacheShard.Add | development/rocksdb/cache/lru_cache.cc:422-443 | a new handle enters table, usage and, unreferenced, the list at the place its priority gives |
| LruShard.LRUCacheShard.Drop | development/rocksdb/cache/lru_cache.cc:508-521 | the last reference puts a cached handle back on the list at the place its priority gives |
| LruTable.FindPointer | development/rocksdb/cache/lru_cache.cc:97-104 | the walk along a chain stops at the handle of the key or at the end |
| LruTable.MoveChain | development/rocksdb/cache/lru_cache.cc:122-133 | moving a chain keeps every key's handle |
| LruTable.Doubled | development/rocksdb/cache/lru_cache.cc:106-138 | after moving all chains the doubled table holds the same handles |
| LruTable.LRUHandleTable.PutHandle | development/rocksdb/cache/lru_cache.cc:64-69 | a handle takes the place of the one with its key in its chain, or the end of the chain |

## Left out

- Emulator.Emulator.PointQuerySkyline: requires at most 2^31 instructions, since tags of cut ranges go through ints.
- Emulator.Emulator.Run: the three reasons to stop come with a condition that holds then, not with one that decides beforehand whether the run stops; for one level Disk.WriteLevel and for one list Levels.CutFiles decide exactly.
- LruShard.LRUCacheShard.Insert: where it lists the new handle at the head of the low pool it requires the high pool within its capacity, which only SetCapacity can break; by LowInsertExact the pools are wrong otherwise.
- LruShard.LRUCacheShard.Release: has that requirement where it lists the handle there.
- Tree.MaxFilesAtLeastTwo: level sizes are integers; that they go through a double is not modelled.  The tree requires what this lemma shows to be necessary.
- Keys of 2^31 and more: the emulator narrows keys to int when it asks a file for its smallest and largest key, so inserts and range deletes take keys from 0 to 2^31 - 1.
- Range deletes whose first key is behind their last: the emulator's merging loops do not handle them.
- Level 32 and beyond: there are 31 level heads; a write behind the last one is a stop with its own reason, as are the tile check and the cut that reads past the front.
- PerLevelFilter.MergeRanges: like the other per-level filter operations it takes and returns the filter's list of intervals as a value; that the object's list is edited in place is not modelled.
- EntryLists.MergePoints: like the other operations on entry lists it works on values, so the moving of vectors between lists and files and the linked list of files are not modelled.
- Pages and delete tiles inside a file: a file is its sorted points and tombstones; the search within it is a lookup.
- Delete keys, secondary range queries, statistics, experiments, printing and the workload generators.
- The point lookup past the end of the tombstones in `apply_range_delete_on_point_entry_vector`, which reads but does not use one element too many.
- Floating point: the buffer's saturation is a quotient of reals, the table's occupancy limit 84 percent in integers; pool capacities are given as numbers.
- Integer width of sizes, charges and counters other than the clock cache's acquire and release counters.
- Memory orderings: the atomic steps of the clock cache are sequentially consistent.
- ClockSlot.InterleavingSafe: assumes that no counter reaches its top bit; the correction that is to ensure it is stated on one word only, not as a step.
- Standalone handles of the clock cache beyond their charge, and its `ConstApplyToEntriesRange`.
- LruList.LruList.Insert: the list is a sequence of handles and its two boundary pointers are identities of handles; the next and prev links of each handle are not modelled.
- LruShard.LRUCacheShard.Lookup: uses a map from keys to handles; that the chained hash table behaves as such a map is in LruTable.
- Allocators, deleters, eviction callbacks, secondary caches, tracing additions and the set-based per-level filter.
