# RocksDB: compaction, SuperVersions, caches and obsolete files

This project models five parts of the RocksDB storage engine and proves what they promise. Each part
is a group of modules that stands on its own.

**Compaction as a transformation that preserves meaning.** A compaction (or flush) reads a sorted
stream of versioned records and writes a smaller one. It drops versions no snapshot can see, drops
tombstones with nothing below them, cancels SingleDelete/Put pairs, and zeroes sequence numbers.
`Records` says what a read at a snapshot returns; `CompactionRules` has the record rules of
`CompactionIterator`; `ReadPreservation` proves that no read at a live snapshot, nor at the tip,
changes. `OutputShape` is about order, tombstones and write conflicts; `DeeperLevels` proves the
cursor-based question whether a key exists below, instead of assuming its answer;
`CompactionIteration` is the iterator itself, an object updated in place that refines the rules;
`SubcompactionBoundaries` and `Subcompactions` split the work by key range, with `UnnotedOutput` on
the one difference a split can make. `SnapshotZero` tells exactly when a snapshot taken at sequence
number 0 breaks the promise.

**SuperVersions.** Readers cache the current SuperVersion in thread-local slots by swap and
compare-and-swap, while installs replace it and scrape the slots. `SuperVersionProtocol` is the state
machine of all interleavings, one step per atomic access; `SuperVersionSafety` has the invariant,
`SuperVersionSteps` that every step keeps it, and `SuperVersionRuns` what follows for whole runs and
for every reachable state, the last state of any run.

**Caches.** `ClockProtocol`, `ClockSafety`, `ClockSteps` and `ClockRuns` treat the CLOCK cache shard as
a concurrent protocol with slot reuse, and `ClockEviction` its eviction loop. `LRUHandleTables` proves
that the chained hash table refines a map; `LRULists`, `LRUEntries` and `LRUShard` are the LRU shard
with its reference counts, its two-pool list and its usage counters, and `LRURuns` any sequence of its
operations.

**Compaction picking.** `UniversalPicker` and `UniversalRuns` cover the universal picker and runs of
flushes, picks and completions. `LevelFiles`, `LevelInputs`, `RunningCompactions`, `LevelChoice` and
`LevelPicker` cover the level picker, and `SanitizeInputs` the completion of a set of input files.

**Obsolete files.** `PurgeProtocol` models how table files come into use and are found obsolete under
the mutex, and are deleted later without it. `PurgeSafety` proves that nothing in use is deleted,
`PurgeLeaks` that nothing is forgotten, `PurgeOnce` and `PurgeGap` exactly when a file goes only once.

## Where a promise holds only under a condition

- A snapshot at sequence number 0 doubles as "no snapshot" in the iterator. Every live read is preserved
  if and only if `NoneLostAtZero`: with such a snapshot, no record at sequence number 0 is the only
  version of its key, or the Put under a SingleDelete that no other snapshot separates from it
  (`SnapshotZero.PreservedExactly`; a value under such a SingleDelete is taken to be non-empty, since an
  empty one reads the same when it is kept).
- Subcompactions write the records of one run, and two more for each boundary at which the split loses
  track, because `SeekToFirst` does not note that the key was output. So they write the same if and only
  if no boundary does (`Subcompactions.SplitEqualsWhole`). A boundary loses track if the range before it
  outputs something, and the first key output from it on meets, before it is output again, a SingleDelete
  and a version with the same readers, written after the write-conflict snapshot. Every read is preserved
  in any case.
- The newest write of a key above the write-conflict snapshot survives if and only if the key does not
  start with two SingleDeletes in one stripe (`OutputShape.NewestWriteKept`).
- The comment at db_impl_files.cc:134-139 says that a full scan avoids deleting a file twice. The code
  does not quite: a background purge takes a file from `purge_queue_`, releases the mutex and deletes
  then, and a full scan in that gap may take the file up again. A step keeps "one owner per file" if and
  only if it is no such scan (`PurgeOnce.StepKeepsOnce`). Without such scans each file goes at most once
  (`PurgeOnce.DeletedAtMostOnce`), and after one the run can always go on to delete the file twice
  (`PurgeGap.TakenUpIsDeletedTwice`). No file is leaked in any run (`PurgeLeaks.NeverLeaked`).
- In the CLOCK cache, `EvictFromCache` compares for the last time before the last look of its second turn.
  It succeeds if and only if the charge fits beside what is left then: the pinned entries, and the entry
  looked at last if that is unpinned and was in use. So it returns false although the charge fits exactly
  if that one entry makes the difference (`ClockEviction.ClockShard.EvictFromCache`,
  `ClockEviction.LastEntryDecides`).
- The universal picker's size-amplification pick never tests the last sorted run. That is sound only
  because a running compaction always covers at least two adjacent runs
  (`UniversalRuns.SizeAmpTakesBusyLastRun` shows what happens otherwise).
- An LRU insert without a handle into a cache that is full of pinned entries reports OK and drops the
  entry (`LRUShard.LRUCacheShard.Insert`, `accepted` is false).

## Conventions

User keys are their ranks under the comparator. Sequence numbers, sizes, charges and file numbers are
unbounded naturals; where the source computes in floating point, the model computes with reals or
exact integers. Reference counts are counts of holders, so that "never below zero" is a theorem.
Random choices, scores, priorities and approximate sizes are parameters. The results about the
iterator assume what its callers establish: a strictly sorted input, ascending snapshots, and a
write-conflict snapshot not before the earliest snapshot.

## Model

| member | source | states |
|---|---|---|
| `CompactionRules.StripeIsLeastLive` | rocksdb-sys/rocksdb/db/compaction_iterator.cc:600-618 | the snapshot stripe of a record is the least live sequence number that sees it: a live reader sees the record iff it is at or above its stripe |
| `CompactionRules.PrevSnapshotIsGreatest` | rocksdb-sys/rocksdb/db/compaction_iterator.cc:600-618 | the previous snapshot lies before the record, every live reader before the record is at or before it, and it is live unless 0 stands for none |
| `ReadPreservation.SharesStripeMeansSameReaders` | rocksdb-sys/rocksdb/db/compaction_iterator.cc:365-375 | the SingleDelete test against the previous snapshot is exact: it holds iff both records are seen by the same readers |
| `ReadPreservation.OutputComesFromInput` | rocksdb-sys/rocksdb/db/compaction_iterator.cc:209-598 | every output record is an input record with its sequence number kept or legally zeroed and its value kept or emptied |
| `ReadPreservation.NothingAfterSettled` | rocksdb-sys/rocksdb/db/compaction_iterator.cc:460-505 | once a key with nothing below it is settled in the earliest stripe, no further record of the key is output |
| `ReadPreservation.AbsentAfterPair` | rocksdb-sys/rocksdb/db/compaction_iterator.cc:386-409 | after a SingleDelete/Put pair was dropped, the key reads as absent at every live sequence number that saw the SingleDelete, also over the deeper levels |
| `ReadPreservation.SingleDeleteReadsAbsent` | rocksdb-sys/rocksdb/db/compaction_iterator.cc:318-459 | a SingleDelete that a live reader sees makes the key absent, whether the pair is dropped, emitted with an emptied value, or the lone SingleDelete dropped |
| `ReadPreservation.ReadsPreservedFrom` | rocksdb-sys/rocksdb/db/compaction_iterator.cc:209-598 | from any input position and reachable iterator state, the remaining output answers each live read like the remaining input, over any deeper levels |
| `ReadPreservation.ReadsPreserved` | rocksdb-sys/rocksdb/db/compaction_iterator.cc:209-616 | main theorem: for every sorted input, snapshot list and content of newer runs and deeper levels, every read at every live snapshot or the tip is the same after the compaction; Put/Delete keys, and SingleDelete keys whose history alternates |
| `SnapshotZero.LoneRecordIsLost` | rocksdb-sys/rocksdb/db/compaction_iterator.cc:460-472 | with a snapshot at 0, a lone Put or Delete at sequence number 0 vanishes from the output |
| `SnapshotZero.PreservedExactly` | rocksdb-sys/rocksdb/db/compaction_iterator.cc:209-616 | where SingleDelete is used as documented, all live reads over all admissible deeper levels are preserved if and only if no record is lost at snapshot 0 |
| `SnapshotZero.LostReadExample` | rocksdb-sys/rocksdb/db/compaction_iterator.cc:460-472 | a compaction of one ingested record whose value a snapshot at 0 can no longer read |
| `SnapshotZero.PairIsLost` | rocksdb-sys/rocksdb/db/compaction_iterator.cc:370-423 | a Put at 0 under a SingleDelete that shares its stripe by the test against 0 is dropped or emptied in every run |
| `SnapshotZero.PairLosesValue` | rocksdb-sys/rocksdb/db/compaction_iterator.cc:370-423 | so a non-empty value that a snapshot at 0 could read under a SingleDelete is no longer read there |
| `SnapshotZero.PairShows` | rocksdb-sys/rocksdb/db/compaction_iterator.cc:370-423 | and for a key whose history alternates, the record under the SingleDelete is such a Put, so some live read is not preserved |
| `OutputShape.ZeroedIsPut` | rocksdb-sys/rocksdb/db/compaction_iterator.cc:586-596 | the assertion of PrepareOutput: a sequence number is zeroed only on a Put, never while a SingleDelete waits for its Put |
| `OutputShape.TombstonesKeepSeqno` | rocksdb-sys/rocksdb/db/compaction_iterator.cc:574-598 | every Delete or SingleDelete in the output is an input record with its own sequence number |
| `OutputShape.CompactIsSorted` | rocksdb-sys/rocksdb/db/compaction_iterator.cc:209-598 | the output is strictly sorted by internal key, so nothing of a key follows a zeroed record; no tombstone is zeroed |
| `OutputShape.NewestStep` | rocksdb-sys/rocksdb/db/compaction_iterator.cc:328-505 | the newest record of a key above the write-conflict snapshot is handed out iff it does not start two SingleDeletes in one stripe |
| `OutputShape.NewestWriteKept` | rocksdb-sys/rocksdb/db/compaction_iterator.cc:328-505 | the output has a record with exactly the newest sequence number of a key above the write-conflict snapshot iff the key does not start with two SingleDeletes in one stripe |
| `OutputShape.SplitAtKey` | rocksdb-sys/rocksdb/db/compaction_job.cc:805-850 | the output up to a user-key boundary depends only on the records before it, and leaves the iterator as at a new key |
| `DeeperLevels.PtrsServeLaterKeys` | rocksdb-sys/rocksdb/db/compaction.cc:275-305 | cursors left by a query are right for every key that is not smaller |
| `DeeperLevels.SearchLevel` | rocksdb-sys/rocksdb/db/compaction.cc:286-301 | advances the cursor of a level past exactly files that end before the key, and answers whether any file of the level covers the key |
| `DeeperLevels.KeyNotExistsBeyondOutputLevel` | rocksdb-sys/rocksdb/db/compaction.cc:275-305 | the cursor-based query gives the answer of a full scan of all deeper files, and leaves cursors fit for every later key |
| `DeeperLevels.CompactionAgreesWithDeeperLevels` | rocksdb-sys/rocksdb/db/version_set.cc:2553-2582 | a key the compaction takes for absent (bottommost, or not covered) has no record in any older level-0 file or deeper level |
| `DeeperLevels.CompactionPreservesReads` | rocksdb-sys/rocksdb/db/compaction.cc:86-106 | reads are preserved over actual files: bottommost decided by RangeMightExistAfterSortedRun, absence by the cursor query |
| `CompactionIteration.CompactionIterator.constructor` | rocksdb-sys/rocksdb/db/compaction_iterator.cc:32-85 | an iterator at the start position of a sorted input, with cursors that serve every key and nothing accounted for |
| `CompactionIteration.CompactionIterator.FindEarliestVisibleSnapshot` | rocksdb-sys/rocksdb/db/compaction_iterator.cc:600-618 | the sequential search finds the stripe and the previous snapshot |
| `CompactionIteration.CompactionIterator.ProcessSingleDelete` | rocksdb-sys/rocksdb/db/compaction_iterator.cc:318-459 | the SingleDelete branch changes the iterator as the record rule says, pairs, lone ones and skipped ones included, and counts what it drops |
| `CompactionIteration.CompactionIterator.ExamineRecord` | rocksdb-sys/rocksdb/db/compaction_iterator.cc:213-572 | one turn of the loop does what the record rules say to fields, position and counters |
| `CompactionIteration.CompactionIterator.NextFromInput` | rocksdb-sys/rocksdb/db/compaction_iterator.cc:209-572 | the search stops at the next record the rules emit, and nothing else is passed over |
| `CompactionIteration.CompactionIterator.PrepareOutput` | rocksdb-sys/rocksdb/db/compaction_iterator.cc:574-598 | the current record after zeroing, if every reader sees it and the level is the bottommost |
| `CompactionIteration.CompactionIterator.SeekToFirst` | rocksdb-sys/rocksdb/db/compaction_iterator.cc:101-104 | what remains to be handed out is the whole output of the rules from the start position; records passed over are counted as dropped |
| `CompactionIteration.CompactionIterator.Next` | rocksdb-sys/rocksdb/db/compaction_iterator.cc:106-149 | what remains loses exactly its first record; records passed over are counted as dropped |
| `SubcompactionBoundaries.SortedUnique` | rocksdb-sys/rocksdb/db/compaction_job.cc:494-506 | candidate boundaries sorted strictly, with the same elements |
| `SubcompactionBoundaries.GenSubcompactionBoundaries` | rocksdb-sys/rocksdb/db/compaction_job.cc:449-564 | boundaries are strictly increasing candidates strictly inside the range, fewer than allowed; sizes are those of the pieces and sum to the total; each piece but the last ends with the range that brings it to the mean, and there are as many cuts as that and the plan allow |
| `Subcompactions.ProcessKeyValueCompaction` | rocksdb-sys/rocksdb/db/compaction_job.cc:805-850 | the key loop writes what the rules output in the range; over the whole input, records written plus records dropped are the records read |
| `Subcompactions.CutAtBoundary` | rocksdb-sys/rocksdb/db/compaction_job.cc:805-850 | a run splits at any boundary into what the first subcompaction writes and a run from the boundary |
| `UnnotedOutput.NotedDiffers` | rocksdb-sys/rocksdb/db/compaction_iterator.cc:386-423 | two runs that differ in whether the current key was noted as output write the same, or the one without the note writes exactly two records more: iff the key meets a kept SingleDelete pair before it is output again |
| `UnnotedOutput.UnnotedDiffers` | rocksdb-sys/rocksdb/db/compaction_iterator.cc:101-112 | two runs from one position, of which one handed out a record before, write the same or differ by exactly two records, decided by what the input holds after the first record output |
| `Subcompactions.SplitEqualsWhole` | rocksdb-sys/rocksdb/db/compaction_job.cc:401-434 | the subcompactions of any increasing boundaries write one whole run and two records more for every boundary that loses track, so they write the same iff none does |
| `Subcompactions.NeverLosesTrack` | rocksdb-sys/rocksdb/db/compaction_job.cc:401-434 | no boundary loses track if no SingleDelete written after the write-conflict snapshot shares its readers with a version below it, in particular without SingleDelete |
| `Subcompactions.SplitWithSingleDeleteDiffers` | rocksdb-sys/rocksdb/db/compaction_job.cc:822-824 | a valid compaction whose split keeps a pair that one run drops |
| `Subcompactions.SplitPreservesReads` | rocksdb-sys/rocksdb/db/compaction_job.cc:401-434 | with or without SingleDelete, the subcompactions together preserve every live read |
| `Subcompactions.RunSubcompactions` | rocksdb-sys/rocksdb/db/compaction_job.cc:401-434 | choosing boundaries and running all ranges writes the split output, which is that of one run iff no boundary loses track |
| `SuperVersionSafety.AfterMove` | rocksdb-sys/rocksdb/db/column_family.cc:1027-1088 | when references change hands between slots, readers and the installer, every count stays the number of holders and the clean-up bookkeeping stays exact |
| `SuperVersionSafety.AfterDrop` | rocksdb-sys/rocksdb/db/column_family.cc:352-358 | whoever drops a reference becomes the one cleaner iff it was the last |
| `SuperVersionRuns.StepKeepsInv` | rocksdb-sys/rocksdb/db/column_family.cc:1013-1150 | every atomic step of readers, users and installer keeps: count = number of holders, one cleaner per unreachable SuperVersion, slots cache only what readers take as current |
| `SuperVersionRuns.RunKeepsInv` | rocksdb-sys/rocksdb/db/column_family.cc:1013-1150 | the invariant holds in every state of every interleaving |
| `SuperVersionRuns.HeldIsAlive` | rocksdb-sys/rocksdb/db/column_family.cc:359-371 | in every reachable state, a SuperVersion somebody holds has a positive count, is not cleaned up, and nobody is about to clean it up |
| `SuperVersionRuns.UnrefNeverUnderflows` | rocksdb-sys/rocksdb/db/column_family.cc:352-358 | in no run does an Unref find a count of zero or a cleaned-up SuperVersion |
| `SuperVersionRuns.CleansOnlyUnreachable` | rocksdb-sys/rocksdb/db/column_family.cc:359-371 | Cleanup runs only on SuperVersions without references that were not cleaned up before |
| `SuperVersionRuns.UncheckedUnrefIsNeverLast` | rocksdb-sys/rocksdb/db/column_family.cc:1134-1150 | scraping, and giving back in GetReferencedSuperVersion, never drop a last reference, as the code assumes without looking |
| `SuperVersionRuns.SlotAssertions` | rocksdb-sys/rocksdb/db/column_family.cc:1027-1088 | a swap never takes the in-use mark out, and a failed compare-and-swap finds the obsolete mark |
| `SuperVersionRuns.CachedIsCurrent` | rocksdb-sys/rocksdb/db/column_family.cc:1096-1150 | slots cache only the current SuperVersion; during scraping possibly the replaced one, in slots still to be scraped |
| `SuperVersionRuns.CleanedAtMostOnce` | rocksdb-sys/rocksdb/db/column_family.cc:359-371 | no SuperVersion is cleaned up twice in a run |
| `SuperVersionRuns.QuiescentKeepsOnlyCurrent` | rocksdb-sys/rocksdb/db/column_family.cc:1013-1150 | no leak: when all calls returned and all references are back, exactly the current SuperVersion is not cleaned up |
| `SuperVersionRuns.ReaderGetsPublished` | rocksdb-sys/rocksdb/db/column_family.cc:1013-1070 | every SuperVersion a reader gets was current at some moment of its own call |
| `SuperVersionRuns.ReaderWaitsOnlyForMutex` | rocksdb-sys/rocksdb/db/column_family.cc:1027-1088 | the next step of a reader in a call is enabled, or it waits for the DB mutex that somebody else holds |
| `SuperVersionRuns.NeverStuck` | rocksdb-sys/rocksdb/db/column_family.cc:1013-1150 | while anything begun is unfinished, some step that continues it can be taken |
| `ClockRuns.StepKeepsInv` | rocksdb-sys/rocksdb/cache/clock_cache.cc:404-676 | every step of Lookup, Insert, Erase, EraseUnRefEntries, SetCapacity and Release keeps the invariant on counts, table, recycling, occupancies and usage |
| `ClockRuns.RunKeepsInv` | rocksdb-sys/rocksdb/cache/clock_cache.cc:404-676 | the invariant holds in every state of every interleaving |
| `ClockRuns.HandleKeepsEntry` | rocksdb-sys/rocksdb/cache/clock_cache.cc:611-645 | in every reachable state, a handle in a caller's hands refers to the occupancy, key and value it was given for, referenced and not passed to the deleter |
| `ClockRuns.HandleIsStable` | rocksdb-sys/rocksdb/cache/clock_cache.cc:541-676 | from the call that returned a handle up to its Release, its slot keeps the entry, whatever is evicted, erased or inserted meanwhile |
| `ClockRuns.LookupReturnsKey` | rocksdb-sys/rocksdb/cache/clock_cache.cc:611-634 | for a whole Lookup, from its table query to the Release of its handle: the slot holds the key asked for and the value some Insert of the run put in with it, although the slot may be reused in between |
| `ClockRuns.RecycledExactlyOnce` | rocksdb-sys/rocksdb/cache/clock_cache.cc:404-426 | in every reachable state, each occupancy so far was passed to its deleter iff it lost its slot, and at most once |
| `ClockRuns.FreedWasInserted` | rocksdb-sys/rocksdb/cache/clock_cache.cc:404-426 | what a deleter gets is the key and value that some Insert of the run put in, under the same occupancy |
| `ClockRuns.QuietSlotIsCachedOrFree` | rocksdb-sys/rocksdb/cache/clock_cache.cc:404-426 | without calls and handles, a slot is free or in cache, in the table under its key, unreferenced |
| `ClockRuns.UsageIsExact` | rocksdb-sys/rocksdb/cache/clock_cache.cc:404-416 | in every reachable state in which the mutex is free, usage_ is the sum of the charges of all slots in use |
| `ClockRuns.RecyclesOnlyDead` | rocksdb-sys/rocksdb/cache/clock_cache.cc:404-416 | the assertions of RecycleHandle: no in-cache bit, no references, not recycled already |
| `ClockRuns.UnrefNeverUnderflows` | rocksdb-sys/rocksdb/cache/clock_cache.cc:448-468 | Unref finds a positive count |
| `ClockRuns.EvictedIsInTable` | rocksdb-sys/rocksdb/cache/clock_cache.cc:485-498 | the assertion of TryEvict: the table still maps the evicted slot's key to it |
| `ClockRuns.SectionContinues` | rocksdb-sys/rocksdb/cache/clock_cache.cc:485-676 | a section under the mutex always has an enabled next step |
| `ClockRuns.CallContinues` | rocksdb-sys/rocksdb/cache/clock_cache.cc:428-468 | a call outside the mutex waits for nothing but the mutex to recycle a slot |
| `ClockEviction.VisitOne` | rocksdb-sys/rocksdb/cache/clock_cache.cc:500-524 | one look of the hand: which slot it is, what it becomes and what it gives back |
| `ClockEviction.TwoTurnsEvict` | rocksdb-sys/rocksdb/cache/clock_cache.cc:485-498 | two looks leave no entry unpinned in cache, and touch only the usage bit of the others |
| `ClockEviction.SecondChance` | rocksdb-sys/rocksdb/cache/clock_cache.cc:485-498 | an entry used since the last look is evicted only after every unused unreferenced one is gone |
| `ClockEviction.ClockShard.TryEvict` | rocksdb-sys/rocksdb/cache/clock_cache.cc:485-498 | evicts the slot iff in cache, unreferenced and unused; otherwise takes its usage bit; table, recycle list and usage follow |
| `ClockEviction.UsageAfter` | rocksdb-sys/rocksdb/cache/clock_cache.cc:500-524 | the usage after any number of looks is at least, and at the last comparison exactly, the charge left of the slots before; after two turns the pinned charge |
| `ClockEviction.LastEntryDecides` | rocksdb-sys/rocksdb/cache/clock_cache.cc:506-523 | the charge left at the last comparison is the pinned charge, and that of the slot looked at last if unpinned and in use |
| `ClockEviction.ClockShard.EvictFromCache` | rocksdb-sys/rocksdb/cache/clock_cache.cc:500-524 | succeeds iff the charge fits beside what is left at the last comparison, in terms of the slots before the call; when it returns false although the charge fits; each slot looked at no more than twice, in order from head_, no longer than needed |
| `ClockEviction.FalseThoughItFits` | rocksdb-sys/rocksdb/cache/clock_cache.cc:506-523 | a shard on which it returns false although the charge fits |
| `LRUHandleTables.LRUHandleTable.constructor` | rocksdb-sys/rocksdb/cache/lru_cache.cc:25-27 | an empty map |
| `LRUHandleTables.LRUHandleTable.FindPointer` | rocksdb-sys/rocksdb/cache/lru_cache.cc:68-74 | the position of the entry with this key and hash in the bucket of the hash, or the end of the chain iff the map does not have it |
| `LRUHandleTables.LRUHandleTable.Lookup` | rocksdb-sys/rocksdb/cache/lru_cache.cc:38-40 | what the map has for the key and hash |
| `LRUHandleTables.LRUHandleTable.Insert` | rocksdb-sys/rocksdb/cache/lru_cache.cc:42-56 | the map with the entry put in, and the entry replaced; elems_ <= length_, a power of two, is kept |
| `LRUHandleTables.LRUHandleTable.Remove` | rocksdb-sys/rocksdb/cache/lru_cache.cc:58-66 | the map without the key, and the entry removed |
| `LRUHandleTables.LRUHandleTable.Resize` | rocksdb-sys/rocksdb/cache/lru_cache.cc:76-100 | the same map in a power-of-two number of buckets that is at least 1.5 times and less than 3 times the entries (or 16) |
| `LRULists.RemoveKeepsPools` | rocksdb-sys/rocksdb/cache/lru_cache.cc:177-191 | taking any entry off the list keeps lru_low_pri_ at the end of the low pool and the high-pool usage exact |
| `LRULists.OverflowKeepsPools` | rocksdb-sys/rocksdb/cache/lru_cache.cc:218-226 | moving the boundary by one entry keeps the pools exact |
| `LRUEntries.TakeKeeps` | rocksdb-sys/rocksdb/cache/lru_cache.cc:279-300 | a handle more, a reference more, and usage, table and memory stay exact |
| `LRUEntries.GiveBackKeeps` | rocksdb-sys/rocksdb/cache/lru_cache.cc:309-320 | a handle given back was counted; the entry dies iff it was the last reference |
| `LRUEntries.DetachKeeps` | rocksdb-sys/rocksdb/cache/lru_cache.cc:228-241 | the table lets go of an entry: its reference and, if it was the last, its charge go |
| `LRUEntries.FreeKeeps` | rocksdb-sys/rocksdb/cache/lru_cache.h:105-111 | what is freed has no references, is not in cache, nobody has a handle, and it was not freed before |
| `LRUShard.LRUCacheShard.constructor` | rocksdb-sys/rocksdb/cache/lru_cache.cc:102-110 | an empty shard that satisfies the invariant |
| `LRUShard.LRUCacheShard.LRU_Remove` | rocksdb-sys/rocksdb/cache/lru_cache.cc:177-191 | exactly the entry leaves the list; usage counters and pool boundary follow |
| `LRUShard.LRUCacheShard.MaintainPoolSize` | rocksdb-sys/rocksdb/cache/lru_cache.cc:218-226 | the high pool fits its capacity; only pool marks change, and only from high to low |
| `LRUShard.LRUCacheShard.LRU_Insert` | rocksdb-sys/rocksdb/cache/lru_cache.cc:193-216 | the entry goes to the end of the high pool, which is then within its capacity, or to the end of the low pool |
| `LRUShard.LRUCacheShard.EvictFromLRU` | rocksdb-sys/rocksdb/cache/lru_cache.cc:228-241 | the oldest entries go until the charge fits or none is left, and not one more; pinned usage is unchanged |
| `LRUShard.LRUCacheShard.Lookup` | rocksdb-sys/rocksdb/cache/lru_cache.cc:279-290 | a handle to what the table has; the entry leaves the list; refs = in-table + handles is kept |
| `LRUShard.LRUCacheShard.Ref` | rocksdb-sys/rocksdb/cache/lru_cache.cc:292-300 | one handle more for a caller that has one |
| `LRUShard.LRUCacheShard.Release` | rocksdb-sys/rocksdb/cache/lru_cache.cc:309-345 | the handle is gone; the entry is freed iff it was the last reference, or only the table's remains and the cache is over capacity or the caller forces it; the table changes only then |
| `LRUShard.LRUCacheShard.Erase` | rocksdb-sys/rocksdb/cache/lru_cache.cc:425-448 | the key leaves the table; its entry is freed iff nobody has a handle |
| `LRUShard.LRUCacheShard.EraseUnRefEntries` | rocksdb-sys/rocksdb/cache/lru_cache.cc:122-143 | exactly the entries on the list are freed, in order, and leave the table |
| `LRUShard.LRUCacheShard.SetCapacity` | rocksdb-sys/rocksdb/cache/lru_cache.cc:259-272 | what does not fit any more is evicted, oldest first and no more than that, and freed once |
| `LRUShard.LRUCacheShard.SetHighPriorityPoolRatio` | rocksdb-sys/rocksdb/cache/lru_cache.cc:302-307 | the high pool fits its new capacity, contents unchanged |
| `LRUShard.LRUCacheShard.GetPinnedUsage` | rocksdb-sys/rocksdb/cache/lru_cache.cc:455-459 | usage minus list usage, which is never negative |
| `LRUShard.LRUCacheShard.Insert` | rocksdb-sys/rocksdb/cache/lru_cache.cc:347-423 | accepted iff the charge fits beside pinned entries, or a handle is wanted and the limit is not strict; what is evicted, displaced, dropped and freed, in order; all other keys keep their entries; under the strict limit usage stays within capacity |
| `LRURuns.Perform` | rocksdb-sys/rocksdb/cache/lru_cache.cc:259-448 | every operation keeps the shard's invariant, the contents behind every address, all handles but the one released, and usage within capacity under the strict limit |
| `LRURuns.RunOperations` | rocksdb-sys/rocksdb/cache/lru_cache.cc:228-423 | for every sequence of operations: with the strict limit always on and the capacity never lowered, usage never exceeds the capacity; a handle keeps its key and value until it is released; the invariant holds throughout |
| `LRUShard.ThreeStates` | rocksdb-sys/rocksdb/cache/lru_cache.h:27-46 | every entry is in exactly one state: on the list iff in the table without handles, or held by callers, in the table or not; never freed while there |
| `LRUShard.ListWithinTotal` | rocksdb-sys/rocksdb/cache/lru_cache.cc:455-459 | the list's charge is part of usage: the assertion of GetPinnedUsage |
| `UniversalPicker.SeriesAreFree` | rocksdb-sys/rocksdb/db/compaction_picker_universal.cc:451-517 | a candidate series consists of adjacent runs none of which is being compacted |
| `UniversalPicker.GrowSeries` | rocksdb-sys/rocksdb/db/compaction_picker_universal.cc:472-517 | the inner loop finds the width the size rules allow |
| `UniversalPicker.PickCompactionToReduceSortedRuns` | rocksdb-sys/rocksdb/db/compaction_picker_universal.cc:425-619 | the first series that is wide enough, and the level just above the next older run |
| `UniversalPicker.AmpStartIsUnique` | rocksdb-sys/rocksdb/db/compaction_picker_universal.cc:640-681 | the runs the size-amplification pick looks at are determined: all from the first that is not being compacted |
| `UniversalPicker.PickCompactionToReduceSizeAmp` | rocksdb-sys/rocksdb/db/compaction_picker_universal.cc:627-755 | all runs from the first free one, iff none of them but perhaps the last is being compacted and they are too large against the last |
| `UniversalPicker.PickCompaction` | rocksdb-sys/rocksdb/db/compaction_picker_universal.cc:251-385 | size amplification first, then size ratio, then the number of runs |
| `UniversalRuns.LastIsNotAlone` | rocksdb-sys/rocksdb/db/compaction_picker_universal.cc:667-681 | if the last run is being compacted, so is the one before |
| `UniversalRuns.PickIsFree` | rocksdb-sys/rocksdb/db/compaction_picker_universal.cc:251-385 | whatever is picked is at least two adjacent runs none of which is being compacted, although the last is never tested |
| `UniversalRuns.StepKeepsInv` | rocksdb-sys/rocksdb/db/compaction_picker_universal.cc:425-755 | flush, pick, completion and failure keep: runs listed newest to oldest, one per level below 0, every running compaction on at least two adjacent runs, output levels that fit between |
| `UniversalRuns.RunKeepsInv` | rocksdb-sys/rocksdb/db/compaction_picker_universal.cc:425-755 | the invariant in every state of every run |
| `UniversalRuns.NeverSharesRun` | rocksdb-sys/rocksdb/db/compaction_picker_universal.cc:425-755 | in every run, no compaction starts on a run that is an input of another |
| `UniversalRuns.OutputTakesPlaceOfInputs` | rocksdb-sys/rocksdb/db/compaction_picker_universal.cc:566-574 | on completion the output stands in the list where its inputs stood, so the order newest to oldest stays |
| `UniversalRuns.SizeAmpTakesBusyLastRun` | rocksdb-sys/rocksdb/db/compaction_picker_universal.cc:667-681 | were the last run alone being compacted, the pick would take it again |
| `LevelFiles.SelectIsExact` | rocksdb-sys/rocksdb/db/version_set.cc:2126-2241 | the files between the two bounds of the search are exactly those that meet the range |
| `LevelFiles.CleanCutIsClosed` | rocksdb-sys/rocksdb/db/compaction_picker.cc:202-240 | a selection is a clean cut iff the overlap query for its own range returns it |
| `LevelInputs.GetRange` | rocksdb-sys/rocksdb/db/compaction_picker.cc:127-154 | the smallest and largest user key of the selection, by scan in level 0 and from the ends below |
| `LevelInputs.OverlappingInLevel0` | rocksdb-sys/rocksdb/db/version_set.cc:2024-2085 | the files that meet the smallest range around the query that no meeting file reaches out of |
| `LevelInputs.ExpandInputsToCleanCut` | rocksdb-sys/rocksdb/db/compaction_picker.cc:202-240 | the smallest clean cut around the selection; fails iff that takes in a file being compacted |
| `LevelInputs.GetCleanInputsWithinInterval` | rocksdb-sys/rocksdb/db/version_set.cc:2087-2310 | the widest clean cut within the range: every other lies in it |
| `LevelInputs.TakeOutputFiles` | rocksdb-sys/rocksdb/db/compaction_picker.cc:408-420 | the smallest clean cut around the output-level files that meet the range; fails iff every clean cut around them has a file being compacted |
| `LevelInputs.TakenIsClosed` | rocksdb-sys/rocksdb/db/compaction_picker.cc:383-490 | with the output-level files taken, every file there that meets the range of all inputs is an input |
| `LevelInputs.TakesTheSame` | rocksdb-sys/rocksdb/db/compaction_picker.cc:447-464 | a wider range that takes as many output-level files takes the same ones, which is what the size comparison relies on |
| `LevelInputs.ClosedForFewer` | rocksdb-sys/rocksdb/db/compaction_picker.cc:465-475 | the inputs stay closed if the start level gives other files within the range |
| `LevelInputs.SetupOtherInputs` | rocksdb-sys/rocksdb/db/compaction_picker.cc:383-490 | succeeds iff a free clean cut exists in the output level, which it takes; the start level gives all meeting files expanded to a clean cut if they are more, free, small enough and take the same output files, else the widest clean cut within the range if it is, else what was chosen; every output-level file that meets the inputs is one |
| `LevelInputs.FindIntraL0Compaction` | rocksdb-sys/rocksdb/db/compaction_picker.cc:40-71 | the longest span of newest files whose cost per file does not rise, free but perhaps for the first; refused iff it is too short or too costly |
| `RunningCompactions.Level0IsFree` | rocksdb-sys/rocksdb/db/compaction_picker.cc:1395-1407 | if no compaction out of level 0 runs, no level-0 file is being compacted: the one test is enough |
| `RunningCompactions.RegisterKeeps` | rocksdb-sys/rocksdb/db/compaction_picker.cc:925-937 | registering a sound pick keeps all running compactions apart and the marks exact |
| `RunningCompactions.FinishedIsSorted` | rocksdb-sys/rocksdb/db/compaction.cc:308-316 | outputs fit where the inputs were taken out: levels below 0 stay sorted |
| `RunningCompactions.FinishKeeps` | rocksdb-sys/rocksdb/db/compaction_picker.cc:939-948 | completing a compaction keeps the levels sorted and every other compaction sound |
| `LevelPicker.LevelCompactionPicker.RangeOverlapWithCompaction` | rocksdb-sys/rocksdb/db/compaction_picker.cc:242-256 | whether some running compaction writes to the level within the range |
| `LevelPicker.LevelCompactionPicker.Register` | rocksdb-sys/rocksdb/db/compaction_picker.cc:925-937 | a sound compaction joins the running ones; its files were free and are now marked; the invariant stays |
| `LevelPicker.LevelCompactionPicker.PickFileToCompact` | rocksdb-sys/rocksdb/db/compaction_picker.cc:1395-1467 | the first file by priority whose clean cut and output range no running compaction stands in the way of; none iff there is none, and with nothing running every file will do |
| `LevelPicker.LevelCompactionPicker.PickIntraL0Compaction` | rocksdb-sys/rocksdb/db/compaction_picker.cc:1469-1483 | the span of newest level-0 files, iff there is one long and cheap enough |
| `LevelPicker.LevelCompactionPicker.SetupOtherL0FilesIfNeeded` | rocksdb-sys/rocksdb/db/compaction_picker.cc:1221-1247 | for level 0, all files that meet the smallest closed range around the choice; fails only if a compaction is running |
| `LevelPicker.LevelCompactionPicker.FinishPick` | rocksdb-sys/rocksdb/db/compaction_picker.cc:1249-1313 | a registered compaction of exactly the files SetupOtherInputs makes of the selection, apart from all others; none only if a compaction is running |
| `LevelPicker.LevelCompactionPicker.PickByScore` | rocksdb-sys/rocksdb/db/compaction_picker.cc:1132-1184 | the highest-scored level that gives a compaction, with the rule that the base level waits for a held-up level 0 |
| `LevelPicker.LevelCompactionPicker.PickFilesMarkedForCompaction` | rocksdb-sys/rocksdb/db/compaction_picker.cc:1052-1094 | the random marked file if it can start, else the first that can; none iff none can |
| `LevelPicker.LevelCompactionPicker.PickFirstMarked` | rocksdb-sys/rocksdb/db/compaction_picker.cc:1096-1130 | the first of the bottommost or expired files that can start; none iff none can |
| `LevelPicker.LevelCompactionPicker.SetupInitialFiles` | rocksdb-sys/rocksdb/db/compaction_picker.cc:1132-1220 | scores, then marked, then bottommost, then expired files, each only if the ones before give nothing |
| `LevelPicker.LevelCompactionPicker.PickCompaction` | rocksdb-sys/rocksdb/db/compaction_picker.cc:1286-1313 | registers the compaction the priorities call for; no file is shared with a running one and no user key in the same output level below 0; none only if nothing can start or a compaction is running, so an idle picker with a due level always picks |
| `LevelPicker.LevelCompactionPicker.CompactRange` | rocksdb-sys/rocksdb/db/compaction_picker.cc:506-699 | nothing iff no file meets the range; a conflict only with a running compaction; otherwise the compaction of exactly the meeting level-0 files with their closure, or the first files that fit the limit expanded to a clean cut, and what SetupOtherInputs makes of them |
| `LevelPicker.RangeIsTaken` | rocksdb-sys/rocksdb/db/compaction_picker.cc:582-650 | no file that meets the range and fits is left out |
| `LevelPicker.LevelCompactionPicker.Finish` | rocksdb-sys/rocksdb/db/compaction.cc:308-316 | the inputs give way to the outputs; sorted levels and apartness of the rest are kept |
| `LevelPicker.LevelCompactionPicker.Release` | rocksdb-sys/rocksdb/db/compaction_picker.cc:120-125 | a failed compaction's files are free again; the rest is kept |
| `LevelPicker.LevelCompactionPicker.Flush` | rocksdb-sys/rocksdb/db/compaction_picker.cc:925-948 | a new newest level-0 file disturbs no running compaction |
| `SanitizeInputs.OverlapTestIsExact` | rocksdb-sys/rocksdb/db/compaction_picker.cc:705-726 | the four-way key-range test is overlap |
| `SanitizeInputs.ClosedForEachFile` | rocksdb-sys/rocksdb/db/compaction_picker.cc:729-857 | closed means: every file in the same level (below 0) or deeper, up to the output level, that meets an included file is included |
| `SanitizeInputs.CompleteLevel` | rocksdb-sys/rocksdb/db/compaction_picker.cc:775-797 | the files a level gives are in every closed set with the files asked for |
| `SanitizeInputs.ProcessLevel` | rocksdb-sys/rocksdb/db/compaction_picker.cc:775-854 | after a level the set is closed up to it, forced, and idle; or every closed set has a busy file |
| `SanitizeInputs.SanitizeCompactionInputFilesForAllLevels` | rocksdb-sys/rocksdb/db/compaction_picker.cc:729-857 | OK: the smallest closed set with the files asked for, none of it being compacted; error: every closed set with these files has one that is |
| `PurgeSafety.DoomedStays` | rocksdb-sys/rocksdb/db/db_impl.h:805-822 | a file out of all versions and jobs whose number is taken stays so in every step |
| `PurgeSafety.MinPendingIsLeast` | rocksdb-sys/rocksdb/db/db_impl.cc:2078-2092 | no output of a running job is below the first element of pending_outputs_ |
| `PurgeSafety.FindAimsAtDoomed` | rocksdb-sys/rocksdb/db/db_impl_files.cc:40-149 | what FindObsoleteFiles leaves for deletion can never come into use again |
| `PurgeSafety.DeletesOnlyDoomed` | rocksdb-sys/rocksdb/db/db_impl_files.cc:291-459 | PurgeObsoleteFiles and the background purge delete only such files |
| `PurgeSafety.StepKeepsInv` | rocksdb-sys/rocksdb/db/db_impl_files.cc:40-149 | every step of jobs, versions, scans and purges keeps the invariant |
| `PurgeSafety.RunKeepsInv` | rocksdb-sys/rocksdb/db/db_impl_files.cc:291-459 | the invariant in every state of every interleaving |
| `PurgeSafety.NeverDeletesFileInUse` | rocksdb-sys/rocksdb/db/db_impl_files.cc:291-446 | in every run, no purge, however old its snapshot, deletes a file of a live version or an output of a running job |
| `PurgeSafety.FilesInUseExist` | rocksdb-sys/rocksdb/db/db_impl.h:805-822 | in every state the files of live versions and those running jobs have written exist |
| `PurgeOnce.ScanAimsAt` | rocksdb-sys/rocksdb/db/db_impl_files.cc:134-144 | a scan aims at a file that already has an owner iff a background purge has it in hand, the purge that queued it ended, and no pending output protects it |
| `PurgeOnce.StepKeepsOnce` | rocksdb-sys/rocksdb/db/db_impl_files.cc:84-149 | a step keeps one owner per installed file if and only if it is not a full scan that takes up a file a background purge has in hand |
| `PurgeOnce.DeletedAtMostOnce` | rocksdb-sys/rocksdb/db/db_impl_files.cc:134-144 | in every run without such a scan, a file that was part of a version is deleted at most once, and only if it exists |
| `PurgeLeaks.StepKeepsNoLeak` | rocksdb-sys/rocksdb/db/version_set.cc:347-369 | every step, scans at any time included, keeps: an installed file on disk is in a version or has somebody who will delete it |
| `PurgeLeaks.NeverLeaked` | rocksdb-sys/rocksdb/db/version_set.cc:347-369 | in every run, a file that was part of a version and exists in none is in obsolete_files_ or somebody will delete it |
| `PurgeGap.QueueDrains` | rocksdb-sys/rocksdb/db/db_impl.cc:871-890 | from any state, background purges can delete whatever is in purge_queue_ |
| `PurgeGap.TakenUpIsDeletedTwice` | rocksdb-sys/rocksdb/db/db_impl.cc:871-890 | after any run without such a scan, a full scan that takes up a file in hand can always be followed by steps that delete the file twice |
| `PurgeGap.ScanInGapDeletesTwice` | rocksdb-sys/rocksdb/db/db_impl.cc:871-890 | a run from an opened database in which a file is deleted twice |

## Left out

- Merge records, range tombstones, SnapshotChecker, compaction filters, corrupt keys and shutdown in the compaction iterator.
- `ShouldStopBefore` and the cutting of output files, statistics, compression dictionaries, file I/O.
- std::sort and std::unique in the choice of boundaries are modelled by their result.
- SuperVersions: thread exit, column family destruction and the contents of a SuperVersion; memory orders weaker than sequential consistency.
- CLOCK cache: `pinned_usage_` and `Release` with force_erase, which read a slot after giving the reference up; the internals of the concurrent hash map.
- `LRUShard` works on the map that `LRUHandleTables` refines, and on the list as a sequence of addresses: the prev and next pointers are not modelled. The bound on the high pool is stated after an insert of a high-priority entry and after a change of the ratio, as SetCapacity does not restore it.
- Integer widths: size_t, uint64_t and the uint32_t table length do not overflow here.
- The sharding wrappers of the caches, ApplyToAllCacheEntries, printing and statistics.
- Universal picker: manual and trivial-move compactions, ingest-behind, path and compression choices, IsInputFilesNonOverlapping.
- Level picker: how scores, priorities and marked files are computed, and NextCompactionIndex; compaction of all levels at once, compaction_end, external file ingestion, grandparents.
- The hint index of GetOverlappingInputs, and its binary search, which is modelled by the two bounds it finds.
- The FIFO picker, CompactFiles beyond the completion of its inputs.
- Obsolete log, manifest, options and temporary files, disable_delete_obsolete_files_, and files of failed jobs that were never part of a version: those are never in use, but may be deleted twice.
- The Rust bindings, the C interface, build and benchmark files.
