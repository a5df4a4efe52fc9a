# A Dafny model of the storage engine, allocator and query path

The repository is a small SQL server.  It stores tables in a vendored LevelDB,
allocates with PostgreSQL's AllocSet, and runs queries through its own checker,
plan builder and executors.  This project models those parts and proves what they
promise.

`dafny verify dfyconfig.toml` checks everything.

## How it is organised

**One database.**  A database is a set of versioned entries (user key, sequence
number, put or delete, value), and a read is "the newest entry of the key at or
below the snapshot" (`mvcc.dfy`).  Everything in the engine is measured against
that one definition.

- `keys.dfy`, `levels.dfy`, `version.dfy`: user keys as ranks, sorted files and
  levels, and the layered lookup.
- `inputs.dfy`, `compaction.dfy`, `install.dfy`, `boundary.dfy`: choosing compaction
  inputs, the compaction loop with its drop rules, installing the outputs, and
  what happens when inputs are not closed on user keys.
- `lsm.dfy`: the engine as a state machine with readers in flight; `snapshots.dfy`:
  the linked list of snapshots; `groupcommit.dfy`: the writer queue.
- `replay.dfy`, `recovery.dfy`: log replay, and a state machine of process, disk,
  manifest and crashes.
- `dbiter.dfy`, `merger.dfy`, `twolevel.dfy`: the three iterators, each a cursor
  over a sorted sequence; `scan.dfy`: the user's cursor on the merging iterator on
  the memtables and tables of a reader; `skiplist.dfy`: one writer's stores
  interleaved with readers' loads.

**Formats.**  `coding.dfy`, `log.dfy`, `logprefix.dfy`, `batch.dfy`: each writer with
the reader that undoes it.  `edits.dfy`, `manifest.dfy`, `manifestrun.dfy`,
`manifestbytes.dfy`: version edits, the builder, runs of the version set, and the
manifest file read back from any cut.  `comparators.dfy`, `dbformat.dfy`, `block.dfy`,
`blockiter.dfy`, `bloom.dfy`, `filterblock.dfy`, `tablefile.dfy`, `table.dfy`,
`tableget.dfy`: a table file from the first key added to the lookup in its bytes.

**Cache, allocator, queries.**  `handletable.dfy` and `lru.dfy`; `arena.dfy`,
`arenasteps.dfy` and `aset.dfy`; `execs.dfy` (the executors), `query.dfy` (check and
plan), `querymeaning.dfy` (what a FROM clause means and what is served of it),
`queryanswer.dfy` (when the two agree) and `queryrun.dfy` (whole queries).
`sequences.dfy` holds what the first two share.

Code that updates objects is a class here with the same fields; loops are loops.
Lists that the source links through pointers are sequences, except the snapshot
ring, which keeps its pointers.  Protocols with several threads are state machines
over their atomic steps, and their theorems are about every state of every run.

## What is assumed

- The engine's runs (`Lsm`, `Recovery`) take compactions whose inputs are closed on
  user keys.  At level 0 that is proved of the selection.  Elsewhere the selection
  code does not guarantee it: `Boundary.UnclosedCompactionLosesWrite` and
  `Boundary.UnclosedNextLevelRevivesKey` are two failing inputs, and
  `Boundary.CompactionKeepsReadIff` the exact condition for any inputs.
- Flush and compaction are separate steps; a crash is a process crash, so bytes
  handed to the file system survive; there are no I/O errors; `reuse_logs` is false.
- Sequence numbers stay below 2^56 - 1, batches below 2^32 operations, keys and values
  below 4 GB.  Blocks of 4 GB and more are written but not said to be readable.
- Memory access in the skip list is sequentially consistent.
- The checksum and the hash are arbitrary functions passed in; so are the size
  estimates that decide when a block or a table is full, memory usage and what malloc
  answers.
- A query has one FROM element, left-deep joins, distinct labels and distinct base
  tables; conditions contain no NOT and no arithmetic.

Some code does not always do what it is for, and the model follows the code.  A
nested-loop join over an empty left input evaluates its condition on a row without
left tuples, which yields stray rows or dereferences a null pointer
(`Executors.JoinIsProduct` and `QueryAnswers.QueryIff` say exactly when a query is
answered).  The bounds check of block entries adds two 32-bit lengths in 32 bits
(`Blocks.RoomIff`, `Blocks.WrappedSumAccepted`).  The version builder differs from
applying edits one at a time when numbers come back (`Manifest.BuilderIffClean`); the
engine's file-number counter prevents that (`ManifestRun.SuppliedIsFresh`).

Where code and comments disagree the code is followed: `VersionEdit::Clear` leaves
compaction pointers in place, so `Edits.EditRoundTrip` holds exactly for objects
without them.

## Model

| member | source | states |
|---|---|---|
| `Keys.RankOrder` | src/storage/leveldb/util/comparator.cc:25-27 | comparing byte strings is comparing their ranks, and only equal strings share a rank, so reals stand for user keys everywhere else |
| `Mvcc.ReadLayers` | src/storage/leveldb/db/db_impl.cc:1109-1154 | reading a union whose first part is newer is reading the first part and, only when it is silent, the second |
| `Mvcc.ReadIgnoresLater` | src/storage/leveldb/db/db_impl.cc:1114-1119 | entries above the snapshot do not change what it reads |
| `Levels.SeekIsRead` | src/storage/leveldb/db/memtable.cc:108-140 | seeking a sorted run to (key, snapshot) and comparing the user key there is the read of that run: newest version at or below the snapshot, or none |
| `VersionGet.FindFile` | src/storage/leveldb/db/version_set.cc:86-105 | the first file whose largest key is not before the key: everything earlier ends before it, nothing from there on does |
| `VersionGet.FileGet` | src/storage/leveldb/db/version_set.cc:268-281 | one table answers with its newest version at or below the snapshot, or has no such version |
| `VersionGet.FilesLevelZero` | src/storage/leveldb/db/version_set.cc:351-373 | the list of level-0 files covering the key, newest first, speaks for the whole level |
| `VersionGet.SortedLevelLeads` | src/storage/leveldb/db/version_set.cc:373-390 | at a sorted level the one file found by binary search speaks for the level, even when versions of one key are split over two files |
| `VersionGet.SearchTables` | src/storage/leveldb/db/version_set.cc:392-427 | the first hit going down one level is the newest version of the whole layout, and no hit means the level is silent |
| `VersionGet.Get` | src/storage/leveldb/db/version_set.cc:332-429 | Version::Get returns exactly the newest version at or below the snapshot over all seven levels |
| `Lsm.Get` | src/storage/leveldb/db/db_impl.cc:1109-1154 | memtable, then immutable memtable, then version: together the read of everything stored |
| `Lsm.MemGet` | src/storage/leveldb/db/memtable.cc:108-140 | a memtable lookup is the read of its entries at the snapshot |
| `Lsm.NextKeepsInv` | src/storage/leveldb/db/db_impl.cc:534-565 | insert, memtable switch, flush, compaction, trivial move, snapshot and reader steps all keep the view and reader invariant |
| `Lsm.RunInv` | src/storage/leveldb/db/db_impl.cc:686-769 | the invariant holds in every state of every run |
| `Lsm.ReadsSeeTheirSnapshot` | src/storage/leveldb/db/db_impl.cc:1109-1154 | in every run, at every moment, every read in flight answers every key with the newest entry ever written at or below its snapshot, whatever was flushed or compacted meanwhile |
| `Lsm.SnapshotSafety` | src/storage/leveldb/db/db_impl.cc:900-904 | no live snapshot and no possible new read lies below the smallest snapshot of a running or installed compaction, and each reads the full history |
| `Install.FlushKeepsLayout` | src/storage/leveldb/db/db_impl.cc:488-532 | adding a flushed table at a level nothing down to it overlaps keeps the layout invariant |
| `Install.LevelZeroClosed` | src/storage/leveldb/db/version_set.cc:1329-1338 | level-0 inputs as selected leave no file behind that shares a user key with one taken |
| `Install.InstallDisjoint` | src/storage/leveldb/db/db_impl.cc:866-885 | with the outputs in place of any selectable inputs, closed or not, every level above 0 stays disjoint |
| `Install.InstallKeepsLayout` | src/storage/leveldb/db/db_impl.cc:866-885 | with the outputs in place of the inputs, levels stay sorted, disjoint and in age order, the first inputs being closed on user keys |
| `Install.CompactionKeepsReads` | src/storage/leveldb/db/db_impl.cc:887-1046 | for inputs closed on user keys no read at or above the smallest snapshot changes its answer, whatever newer data the memtables hold; Boundary.CompactionKeepsReadIff says what happens without closure |
| `Boundary.LayeredReadIsRead` | src/storage/leveldb/db/version_set.cc:332-429 | under the layout invariant searching level by level and stopping at the first hit is the read of all entries |
| `Boundary.CompactionKeepsReadIff` | src/storage/leveldb/db/version_set.cc:1345-1411 | after any selectable compaction, closed on user keys or not, and for every key and every snapshot from the smallest on: the answer is the one before if and only if the version seen before stays covered: if it was taken from the upper level, what is left there of the key answers the same or is silent; if it is a marker dropped from the next level, what is left there of the key answers nothing |
| `Boundary.ClosedStaysCovered` | src/storage/leveldb/db/version_set.cc:1345-1411 | inputs closed on user keys at both levels meet that condition for every version |
| `Boundary.UnclosedCompactionLosesWrite` | src/storage/leveldb/db/version_set.cc:1345-1411 | a concrete layout and selection where a version split over two files makes the reader lose the newer value |
| `Boundary.UnclosedNextLevelRevivesKey` | src/storage/leveldb/db/version_set.cc:1345-1411 | a layout and a selection, closed at the upper level, where a deletion marker is dropped and an older value in a next-level file that was not selected comes back |
| `Boundary.HidingExists` | src/storage/leveldb/db/version_set.cc:1345-1411 | such a layout, with four entries in three files |
| `Boundary.WorkIsSound` | src/storage/leveldb/db/db_impl.cc:887-1046 | what the compaction loop delivers over picked inputs closed on user keys is accepted by the layout and unnoticed by every reader |
| `Compactions.DropKeepsReads` | src/storage/leveldb/db/db_impl.cc:939-972 | dropping hidden versions and obsolete markers preserves every read at or above the smallest snapshot |
| `Compactions.PreviousDecides` | src/storage/leveldb/db/db_impl.cc:945-957 | in the sorted merge the entry just before tells whether a newer version at or below the smallest snapshot exists: the loop variable last_sequence_for_key is enough |
| `Compactions.Compaction.constructor` | src/storage/leveldb/db/version_set.cc:1448-1458 | cursors of all levels start at the first file |
| `Compactions.Compaction.IsBaseLevelForKey` | src/storage/leveldb/db/version_set.cc:1484-1503 | asked for non-decreasing keys, the moving cursors answer as a scan of every deeper level would, both ways |
| `Compactions.Compaction.ShouldStopBefore` | src/storage/leveldb/db/version_set.cc:1505-1526 | exactly the grandparents ending before the key are passed, their bytes counted once a key has been seen, and the answer is yes exactly beyond ten file sizes, resetting the count |
| `Compactions.CutIsSortedLevel` | src/storage/leveldb/db/db_impl.cc:983-1004 | cutting a sorted run into files anywhere gives a sorted level |
| `Compactions.DoCompactionWork` | src/storage/leveldb/db/db_impl.cc:887-1046 | the outputs, end to end, are exactly the input entries no rule drops, in order, in a sorted level of consecutively numbered files; each file passes at most ten file sizes of grandparents and reaches the size limit at its last entry at the earliest; and a file ends only because it is full or because more than that had been passed |
| `Compactions.CutsStop` | src/storage/leveldb/db/db_impl.cc:929-936 | a stop closes the open file, which then ended for that reason |
| `Compactions.CutsEmit` | src/storage/leveldb/db/db_impl.cc:983-1004 | adding an entry where no stop was called for keeps the open file within both limits, and a full file is closed |
| `Compactions.OutputsAreSurvivors` | src/storage/leveldb/db/db_impl.cc:939-972 | as a set the outputs are the entries that are neither hidden below the smallest snapshot nor obsolete markers |
| `Inputs.SomeFileOverlapsRange` | src/storage/leveldb/db/version_set.cc:121-156 | true if and only if some file overlaps the range, by scan at level 0 and by binary search elsewhere |
| `Inputs.GetOverlappingInputs` | src/storage/leveldb/db/version_set.cc:531-572 | terminates despite restarts and returns exactly the files of the least closed range that includes the request |
| `Inputs.PickLevelForMemTableOutput` | src/storage/leveldb/db/version_set.cc:502-528 | the level is the deepest reachable: every step down was allowed by overlap and grandparent bytes, and the next one is not |
| `Inputs.GetRange` | src/storage/leveldb/db/version_set.cc:1224-1244 | smallest and largest are ends of some file and bound all of them |
| `Inputs.RangeIsHull` | src/storage/leveldb/db/version_set.cc:1224-1244 | overlapping the range of a list is meeting its hull |
| `Inputs.SetupOtherInputs` | src/storage/leveldb/db/version_set.cc:1345-1411 | the inputs are those given, or the larger set their combined range draws in, exactly when that set is larger, costs less than 25 file sizes together with the next-level files, and draws in no more of the next level; either way they satisfy the selection rules |
| `Inputs.OneAnswer` | src/storage/leveldb/db/version_set.cc:531-572 | an overlap query for the range of a list has one answer |
| `Inputs.PickCompaction` | src/storage/leveldb/db/version_set.cc:1291-1343 | the first file past the compaction pointer, wrapping around, or the file with too many seeks, is among inputs that satisfy the selection rules |
| `Inputs.CompactRange` | src/storage/leveldb/db/version_set.cc:1413-1446 | nothing is returned if and only if nothing overlaps; at level 0 every overlapping file is taken, above it the shortest front of the overlapping files that reaches one file size, or all of them |
| `Snapshots.SnapshotList.constructor` | src/storage/leveldb/db/snapshot.h:33-36 | an empty ring |
| `Snapshots.SnapshotList.Oldest` | src/storage/leveldb/db/snapshot.h:39-39 | the oldest is below all others |
| `Snapshots.SnapshotList.New` | src/storage/leveldb/db/snapshot.h:42-51 | splices the new snapshot in as the newest, leaving the rest of the ring as it was |
| `Snapshots.SnapshotList.Delete` | src/storage/leveldb/db/snapshot.h:53-58 | unlinks exactly one snapshot; the others keep their order |
| `Snapshots.SnapshotList.SmallestSnapshot` | src/storage/leveldb/db/db_impl.cc:900-904 | the oldest live snapshot, or the last sequence when there is none; nothing live is below it |
| `GroupCommit.GroupedSync` | src/storage/leveldb/db/db_impl.cc:1288-1293 | a sync write never rides on a non-sync leader |
| `GroupCommit.BuildBatchGroup` | src/storage/leveldb/db/db_impl.cc:1269-1314 | the group is the longest prefix of the queue that neither the sync rule nor the size limit stops, concatenated in order; a null batch adds nothing and stops nothing |
| `GroupCommit.NextInv` | src/storage/leveldb/db/db_impl.cc:1194-1265 | every arrival, leader, log, insert and finish step keeps the queue, log, memtable and counter invariant |
| `GroupCommit.RunInv` | src/storage/leveldb/db/db_impl.cc:1194-1265 | the invariant holds throughout every run |
| `GroupCommit.OneLeader` | src/storage/leveldb/db/db_impl.cc:1202-1207 | at most one writer logs or inserts at a time |
| `GroupCommit.VisibleIsReturned` | src/storage/leveldb/db/db_impl.cc:1209-1246 | what is visible at the last sequence is exactly the batches of the returned writers, in arrival order, numbered consecutively |
| `GroupCommit.BatchAtomic` | src/storage/leveldb/db/db_impl.cc:1215-1246 | a reader at the last sequence sees each batch wholly or not at all |
| `GroupCommit.LoggedOnceAndSynced` | src/storage/leveldb/db/db_impl.cc:1224-1238 | a returned writer's batch is in exactly one log record, at its own sequence numbers, synced if it asked for it |
| `GroupCommit.GroupMeetsLead` | src/storage/leveldb/db/db_impl.cc:1269-1314 | the group the code builds is one the leading step allows |
| `Replay.InsertGroup` | src/storage/leveldb/db/write_batch.cc:128-134 | a record's entries all go into the sorted memtable and nothing else changes |
| `Replay.WriteTable` | src/storage/leveldb/db/db_impl.cc:488-532 | a replayed memtable becomes one more table holding exactly its entries under the next file number, or none when empty, the number being spent |
| `Replay.RecoverLogFile` | src/storage/leveldb/db/db_impl.cc:365-486 | the tables written hold exactly the log's entries, each newer than the ones before, and the largest sequence is the maximum seen |
| `Replay.RecoverLogs` | src/storage/leveldb/db/db_impl.cc:342-361 | over all logs in order: every logged entry is in exactly the tables written, whose numbers rise |
| `Replay.ReplayKeepsLayout` | src/storage/leveldb/db/db_impl.cc:274-363 | adding the replayed tables to level 0 keeps the layout invariant |
| `Recovery.NextInv` | src/storage/leveldb/db/db_impl.cc:218-272 | writes, switches, flushes, compactions, manifest commits, file deletions, crashes and recoveries all keep the disk and process invariant |
| `Recovery.RunInv` | src/storage/leveldb/db/db_impl.cc:274-363 | the invariant holds in every state of every run, over any number of crashes |
| `Recovery.RecoveredVersion` | src/storage/leveldb/db/db_impl.cc:274-363 | the recovered version is in order and holds exactly what was on disk |
| `Recovery.CrashLosesNothing` | src/storage/leveldb/db/db_impl.cc:274-363 | crash at any moment of any run: no named table is missing, the restored sequence covers every logged group, and reads equal the logged history, with the group in flight whole or absent |
| `Recovery.RecoverReads` | src/storage/leveldb/db/db_impl.cc:1490-1532 | a recovered database reads every key as the logged history does |
| `Recovery.PinnedTablesPresent` | src/storage/leveldb/db/db_impl.cc:218-272 | no table that the current version or one still pinned by some reader names is ever deleted, however many readers share a version |
| `Recovery.ReplayMeetsRecover` | src/storage/leveldb/db/db_impl.cc:342-361 | what the replay loops compute is what the recovery step asks for |
| `DbIterator.DBIter.constructor` | src/storage/leveldb/db/db_iter.cc:51-61 | a cursor on a merging iterator, consistent and not positioned |
| `DbIterator.DBIter.FindNextUserEntry` | src/storage/leveldb/db/db_iter.cc:173-203 | lands on the least key above the bound that a read at the snapshot finds, or ends |
| `DbIterator.DBIter.FindPrevUserEntry` | src/storage/leveldb/db/db_iter.cc:232-272 | lands on the greatest key below the bound that a read at the snapshot finds, with its value, or ends |
| `DbIterator.DBIter.Next` | src/storage/leveldb/db/db_iter.cc:146-171 | the least key above the current one that a read at the snapshot finds, across a change of direction of both iterators |
| `DbIterator.DBIter.Prev` | src/storage/leveldb/db/db_iter.cc:205-230 | the greatest live key below the current one, across a change of direction |
| `DbIterator.DBIter.Seek` | src/storage/leveldb/db/db_iter.cc:274-286 | the least live key at or above the target |
| `DbIterator.DBIter.SeekToFirst` | src/storage/leveldb/db/db_iter.cc:288-297 | the least live key |
| `DbIterator.DBIter.SeekToLast` | src/storage/leveldb/db/db_iter.cc:299-304 | the greatest live key |
| `DbIterator.DBIter.Value` | src/storage/leveldb/db/db_iter.cc:70-73 | the value shown is what a read of the key shown finds at the snapshot |
| `DbIterator.DBIter.TakeBack` | src/storage/leveldb/db/db_iter.cc:236-259 | one step of the backward scan: the saved key and value are right for everything from the position on |
| `DbIterator.DBIter.Forth` | src/storage/leveldb/table/merger.cc:59-83 | a step of the merging iterator is one position in the merge |
| `DbIterator.FirstIsVisible` | src/storage/leveldb/db/db_iter.cc:173-203 | the first entry of a key at or below the snapshot in the sorted merge is the newest one: what a read finds |
| `DbIterator.CursorMoves` | src/storage/leveldb/db/db_iter.cc:146-230 | so any mix of moves is a cursor over the sorted list of the keys a read finds: next and previous are its neighbours |
| `DbIterator.CursorEnds` | src/storage/leveldb/db/db_iter.cc:288-304 | and the ends are its ends |
| `DbIterator.CursorSeek` | src/storage/leveldb/db/db_iter.cc:274-286 | and seeking lands where the target belongs |
| `Scans.MergeExists` | src/storage/leveldb/db/db_impl.cc:1067-1096 | runs without a key in common have a sorted merge |
| `Scans.AddIterators` | src/storage/leveldb/db/version_set.cc:234-251 | one run per level-0 table and one per sorted level above: together exactly the version's entries, no key twice |
| `Scans.LevelRunOk` | src/storage/leveldb/db/version_set.cc:158-231 | the tables of a sorted level end to end are one sorted run with exactly the level's entries |
| `Scans.NewInternalIterator` | src/storage/leveldb/db/db_impl.cc:1067-1096 | memtables and tables of a view under one merging iterator, whose merge holds exactly the view's entries |
| `Scans.NewIterator` | src/storage/leveldb/db/db_impl.cc:1156-1167 | a cursor over the reads of the view at the snapshot |
| `Scans.ScanForward` | src/storage/leveldb/db/db_iter.cc:146-203 | scanning to the end lists exactly the keys a read at the snapshot finds, in order, each with the value it finds |
| `Scans.ScanSeesSnapshot` | src/storage/leveldb/db/db_impl.cc:1156-1167 | in every run, at every moment, scanning what a reader has pinned lists exactly the keys and values of the whole history at its snapshot |
| `Merger.MergingIterator.constructor` | src/storage/leveldb/table/merger.cc:16-25 | children unpositioned, iterator consistent |
| `Merger.MergingIterator.FindSmallest` | src/storage/leveldb/table/merger.cc:155-168 | of children standing at the bound the least current entry is the least of all above the bound |
| `Merger.MergingIterator.FindLargest` | src/storage/leveldb/table/merger.cc:170-182 | symmetrically the greatest below the bound |
| `Merger.MergingIterator.SeekToFirst` | src/storage/leveldb/table/merger.cc:35-41 | the least entry of all children |
| `Merger.MergingIterator.SeekToLast` | src/storage/leveldb/table/merger.cc:43-49 | the greatest entry of all children |
| `Merger.MergingIterator.Seek` | src/storage/leveldb/table/merger.cc:51-57 | the least entry at or above the target |
| `Merger.MergingIterator.Next` | src/storage/leveldb/table/merger.cc:59-83 | the least entry beyond the current key, after a direction switch too |
| `Merger.MergingIterator.Prev` | src/storage/leveldb/table/merger.cc:85-112 | the greatest entry before the current key, after a direction switch too |
| `Merger.MergingIterator.TurnForward` | src/storage/leveldb/table/merger.cc:67-79 | repositions every other child just after the key |
| `Merger.MergingIterator.TurnBackward` | src/storage/leveldb/table/merger.cc:93-108 | repositions every other child just before the key |
| `Merger.CursorMoves` | src/storage/leveldb/table/merger.cc:59-112 | so the iterator is one cursor over the sorted merge: moves go to neighbours |
| `Merger.CursorEnds` | src/storage/leveldb/table/merger.cc:35-49 | ends are the merge's ends |
| `Merger.CursorSeek` | src/storage/leveldb/table/merger.cc:51-57 | seeking is seeking in the merge |
| `TwoLevel.TwoLevelIterator.constructor` | src/storage/leveldb/table/two_level_iterator.cc:76-86 | no data iterator yet, consistent |
| `TwoLevel.TwoLevelIterator.InitDataBlock` | src/storage/leveldb/table/two_level_iterator.cc:156-170 | opens the block the index entry names unless it is already open |
| `TwoLevel.TwoLevelIterator.SkipEmptyDataBlocksForward` | src/storage/leveldb/table/two_level_iterator.cc:125-136 | ends at the next flat position, skipping blocks with nothing left |
| `TwoLevel.TwoLevelIterator.SkipEmptyDataBlocksBackward` | src/storage/leveldb/table/two_level_iterator.cc:138-149 | ends at the previous flat position |
| `TwoLevel.TwoLevelIterator.Seek` | src/storage/leveldb/table/two_level_iterator.cc:91-96 | the lower bound of the target in the concatenation of all blocks |
| `TwoLevel.TwoLevelIterator.SeekToFirst` | src/storage/leveldb/table/two_level_iterator.cc:98-103 | the first entry of the concatenation, empty blocks or not |
| `TwoLevel.TwoLevelIterator.SeekToLast` | src/storage/leveldb/table/two_level_iterator.cc:105-110 | the last entry of the concatenation |
| `TwoLevel.TwoLevelIterator.Next` | src/storage/leveldb/table/two_level_iterator.cc:112-116 | one flat position further |
| `TwoLevel.TwoLevelIterator.Prev` | src/storage/leveldb/table/two_level_iterator.cc:118-122 | one flat position back |
| `TwoLevel.TwoLevelIterator.ItemIsFlat` | src/storage/leveldb/table/two_level_iterator.cc:37-44 | what is shown is the entry at the flat position |
| `TwoLevel.SeekFindsLowerBound` | src/storage/leveldb/table/two_level_iterator.cc:91-96 | seeking the index and then the block is the lower bound of the flat run |
| `TwoLevel.FlatSorted` | src/storage/leveldb/table/two_level_iterator.cc:112-122 | the concatenation is sorted |
| `TwoLevel.SortedLevelIndex` | src/storage/leveldb/db/version_set.cc:158-231 | the files of a sorted level with their largest keys form such an index |
| `Coding.FixedRoundTrip` | src/storage/leveldb/util/coding.cc:9-33 | decoding a fixed-width number gives it back |
| `Coding.FromFixedRoundTrip` | src/storage/leveldb/util/coding.h:58-83 | and encoding what was decoded gives the bytes back |
| `Coding.VarintRoundTrip` | src/storage/leveldb/util/coding.cc:112-129 | a varint reads back, leaving what follows untouched |
| `Coding.Varint32RoundTrip` | src/storage/leveldb/util/coding.cc:131-141 | for every 32-bit value |
| `Coding.Varint64RoundTrip` | src/storage/leveldb/util/coding.cc:143-158 | for every 64-bit value |
| `Coding.GetVarint32` | src/storage/leveldb/util/coding.cc:112-141 | any bytes: success consumes something and yields a 32-bit value |
| `Coding.EncodeVarint64` | src/storage/leveldb/util/coding.cc:81-90 | the encoding loop produces the base-128 digits |
| `Coding.PrefixedRoundTrip` | src/storage/leveldb/util/coding.cc:182-192 | a length-prefixed slice reads back, leaving what follows untouched |
| `Log.Writer.constructor` | src/storage/leveldb/db/log_writer.cc:22-26 | an empty file at block offset 0 |
| `Log.Writer.Resume` | src/storage/leveldb/db/log_writer.cc:28-31 | a writer on an existing file starts at its length modulo the block size |
| `Log.Writer.EmitPhysicalRecord` | src/storage/leveldb/db/log_writer.cc:84-109 | appends checksum, length, type and payload and moves the block offset by as much |
| `Log.Writer.SwitchBlock` | src/storage/leveldb/db/log_writer.cc:46-56 | pads a trailer too short for a header with zeros |
| `Log.Writer.AddRecord` | src/storage/leveldb/db/log_writer.cc:36-82 | the file is the old one with the record fragmented behind it, depending on the old file only through its length |
| `Log.BoundaryOffset` | src/storage/leveldb/db/log_writer.cc:28-31 | a resumed writer at a block boundary continues as the original would |
| `Log.Reader.constructor` | src/storage/leveldb/db/log_reader.cc:18-34 | a reader at the start of the file |
| `Log.Reader.ReadPhysicalRecord` | src/storage/leveldb/db/log_reader.cc:199-281 | refills, skips trailers, checks length and checksum, and reports as the specification of one physical read says |
| `Log.Reader.ReadRecord` | src/storage/leveldb/db/log_reader.cc:60-182 | assembles fragments as the specification of one logical read says, on any bytes, type bytes 5 and 6 being the reader's own end-of-file and bad-record codes |
| `LogPrefix.ReadsBack` | src/storage/leveldb/db/log_reader.cc:60-182 | reading at the place a record was written returns it, or the end if the file was cut inside it, with nothing reported |
| `LogPrefix.CrashPrefix` | src/storage/leveldb/db/log_reader.cc:60-281 | cut the log at any byte: reading returns exactly the records that end before the cut, in order, and reports no corruption |
| `LogPrefix.RoundTrip` | src/storage/leveldb/db/log_writer.cc:36-82 | uncut, every record comes back |
| `Edits.FieldRoundTrip` | src/storage/leveldb/db/version_edit.cc:109-210 | every kind of field decodes to itself, leaving what follows |
| `Edits.FieldsRoundTrip` | src/storage/leveldb/db/version_edit.cc:109-210 | decoding a list of fields applies them in order |
| `Edits.SetFields` | src/storage/leveldb/db/version_edit.cc:41-86 | the fields of an edit applied to a cleared object give the edit back behind the pointers it had |
| `Edits.EncodeTo` | src/storage/leveldb/db/version_edit.cc:41-86 | produces the fields of the edit in the code's order |
| `Edits.DecodeFrom` | src/storage/leveldb/db/version_edit.cc:109-210 | on any bytes the loop decodes field by field onto the cleared object |
| `Edits.EditRoundTrip` | src/storage/leveldb/db/version_edit.cc:26-39 | decoding inverts encoding, exactly when the object decoded into holds no compaction pointers, which Clear does not clear |
| `Manifest.Insert` | src/storage/leveldb/db/version_set.cc:606-618 | inserting into the ordered set of added files keeps the order, and a file gets in exactly when no equivalent one is there |
| `Manifest.Builder.constructor` | src/storage/leveldb/db/version_set.cc:632-641 | a builder over a base version with nothing applied |
| `Manifest.Builder.Apply` | src/storage/leveldb/db/version_set.cc:665-708 | pointers, deletions and additions of one edit, level by level, an addition being lost exactly when an equivalent file is in the set |
| `Manifest.Builder.SaveTo` | src/storage/leveldb/db/version_set.cc:711-757 | each level is the ordered merge of surviving base files and added files |
| `Manifest.MaybeAddFile` | src/storage/leveldb/db/version_set.cc:759-772 | adds the file unless its number was deleted, keeping the order |
| `Manifest.SaveLevel` | src/storage/leveldb/db/version_set.cc:714-739 | merging two ordered lists gives the ordered list of what is not deleted |
| `Manifest.OneListing` | src/storage/leveldb/db/version_set.cc:606-618 | an ordered listing of a set of files is the only one |
| `Manifest.BuilderIffClean` | src/storage/leveldb/db/version_set.cc:665-757 | for any base and any edits, level by level: one builder gives what applying the edits one at a time gives if and only if no file is revived (it was there or was the first of its likes to be added, its number was deleted after its last entry, and another file brought the number back and left it) and none is shut out (it was not there, was added and not deleted since, but another file with its number and smallest key was added first); both are said of the edits alone |
| `Manifest.KeptIffLeads` | src/storage/leveldb/db/version_set.cc:606-618 | the builder's set holds exactly the files that were the first of their likes to be added |
| `Manifest.BuilderIsFold` | src/storage/leveldb/db/version_set.cc:665-757 | in particular when no number enters a level twice |
| `Manifest.ReentryDiffers` | src/storage/leveldb/db/version_set.cc:665-757 | a file revived: a concrete edit |
| `Manifest.ShutOutDiffers` | src/storage/leveldb/db/version_set.cc:665-757 | a file shut out: two concrete edits |
| `Manifest.SavedIffClean` | src/storage/leveldb/db/version_set.cc:711-757 | what SaveTo lists as a level is the folded edits if and only if no file is revived and none is shut out |
| `Manifest.SavedRebuilds` | src/storage/leveldb/db/version_set.cc:711-757 | for all levels at once, and in strict order when no number enters a level twice |
| `Manifest.ApplyToCurrent` | src/storage/leveldb/db/version_set.cc:820-846 | the version part of LogAndApply: each level right if and only if clean |
| `Manifest.Recover` | src/storage/leveldb/db/version_set.cc:905-1025 | fails exactly on a comparator mismatch or a missing counter; otherwise restores the latest counters and the pointers, and each level is the folded edits if and only if it is clean |
| `ManifestRun.WriteSnapshot` | src/storage/leveldb/db/version_set.cc:1102-1130 | one edit holding exactly the current version and pointers |
| `ManifestRun.SnapshotStands` | src/storage/leveldb/db/version_set.cc:1102-1130 | replaying a snapshot alone gives back the version it was taken of |
| `ManifestRun.AppendRecord` | src/storage/leveldb/db/version_set.cc:820-903 | a manifest that stands for a version, with one more edit, stands for the next version |
| `ManifestRun.PointersTwice` | src/storage/leveldb/db/version_set.cc:665-672 | applying the same pointer updates twice is applying them once |
| `ManifestRun.SuppliedIsFresh` | src/storage/leveldb/db/db_impl.cc:717-732 | tables written under a number just handed out, or moved one level down, are new to their level |
| `ManifestRun.PlacedNext` | src/storage/leveldb/db/version_set.h:190-191 | such an edit leaves every number on one level, for one file, and handed out before |
| `ManifestRun.SuppliedEnters` | src/storage/leveldb/db/version_set.cc:820-846 | so one builder over the current version is as good as the edit |
| `ManifestRun.LogEdit` | src/storage/leveldb/db/version_set.cc:820-903 | what LogAndApply computes, its writes succeeding, is a step of the run |
| `ManifestRun.RunInv` | src/storage/leveldb/db/version_set.cc:820-903 | in every run the manifest stands for the current version, every file number being on one level at most; that no number enters a level twice follows from the file-number counter and the one-level moves |
| `ManifestRun.Reopen` | src/storage/leveldb/db/version_set.cc:905-1025 | after any run, recovery rebuilds the current version file for file and in order, its pointers and log numbers, and the next run can start from there |
| `ManifestBytes.ReadManifest` | src/storage/leveldb/db/version_set.cc:941-982 | reading and decoding the file: the decoded edits, or an error exactly when a record does not decode or the log reports corruption |
| `ManifestBytes.RecordDecodes` | src/storage/leveldb/db/version_edit.cc:41-210 | a stored edit decodes to itself |
| `ManifestBytes.PrefixState` | src/storage/leveldb/db/version_set.cc:820-903 | every front of a run's manifest from its first logged edit on is the whole manifest of an earlier state |
| `ManifestBytes.ReopenFile` | src/storage/leveldb/db/version_set.cc:905-1025 | cut the manifest file of any run at any byte: recovery is refused exactly when the first edit is not whole, and otherwise gives back, file for file, the version of the state whose manifest is the whole records; uncut, the current version |
| `Comparators.LessAt` | src/storage/leveldb/util/comparator.cc:25-27 | the first differing byte decides the order |
| `Comparators.FindShortestSeparator` | src/storage/leveldb/util/comparator.cc:29-51 | the start itself or a string no longer, strictly between start and limit, shortened exactly when the first differing bytes leave room |
| `Comparators.FindShortSuccessor` | src/storage/leveldb/util/comparator.cc:53-65 | a string no longer and greater, unchanged exactly for all-0xff keys |
| `Comparators.RankedOrder` | src/storage/leveldb/db/dbformat.cc:50-66 | byte internal keys and ranked internal keys are ordered alike |
| `Comparators.FindShortestInternalSeparator` | src/storage/leveldb/db/dbformat.cc:68-85 | changed exactly when the user key gets physically shorter, and then lies strictly between with the greatest sequence number |
| `Comparators.FindShortInternalSuccessor` | src/storage/leveldb/db/dbformat.cc:87-99 | changed exactly when some byte before the last is not 0xff |
| `Comparators.SeparatorBetween` | src/storage/leveldb/db/dbformat.cc:68-85 | for start < limit the separator lies in [start, limit) |
| `Bloom.BloomFilterPolicy.constructor` | src/storage/leveldb/util/bloom.cc:23-29 | between 1 and 30 probes |
| `Bloom.OrKeeps` | src/storage/leveldb/util/bloom.cc:55-60 | setting a bit clears none |
| `Bloom.BloomFilterPolicy.CreateFilter` | src/storage/leveldb/util/bloom.cc:35-61 | appends a filter that matches every one of the keys: no false negatives |
| `Bloom.BloomFilterPolicy.KeyMayMatch` | src/storage/leveldb/util/bloom.cc:63-87 | probes exactly the positions the filter's own probe count says; short and foreign filters as specified |
| `FilterBlocks.FilterBlockBuilder.constructor` | src/storage/leveldb/table/filter_block.cc:18-20 | holds no keys |
| `FilterBlocks.FilterBlockBuilder.StartBlock` | src/storage/leveldb/table/filter_block.cc:22-28 | generates filters up to the block's offset and moves no key to another filter |
| `FilterBlocks.FilterBlockBuilder.AddKey` | src/storage/leveldb/table/filter_block.cc:30-34 | adds the key to the filter being built and to no other |
| `FilterBlocks.FilterBlockBuilder.Finish` | src/storage/leveldb/table/filter_block.cc:36-50 | the finished bytes: filters, offset array, its start and the base |
| `FilterBlocks.FilterBlockBuilder.GenerateFilter` | src/storage/leveldb/table/filter_block.cc:52-76 | one more filter matching all pending keys; the others untouched |
| `FilterBlocks.OpenContents` | src/storage/leveldb/table/filter_block.cc:78-93 | opening finished bytes finds the array and its length |
| `FilterBlocks.WordAt` | src/storage/leveldb/table/filter_block.cc:95-109 | word i of the array is offset i, and the word after the last is where the last filter ends |
| `FilterBlocks.ReaderAsksFilter` | src/storage/leveldb/table/filter_block.cc:95-109 | for every block offset the reader asks exactly the filter the builder wrote for it |
| `Tables.TableBuilder.constructor` | src/storage/leveldb/table/table_builder.cc:63-68 | an empty file and no items |
| `Tables.TableBuilder.Add` | src/storage/leveldb/table/table_builder.cc:92-121 | one more item at the end; a pending index entry gets a separator first; the key goes into the filter of its block |
| `Tables.TableBuilder.AddIndexEntry` | src/storage/leveldb/table/table_builder.cc:100-107 | the separator of the finished block lies at or after its last key and before the new key |
| `Tables.TableBuilder.WriteBlock` | src/storage/leveldb/table/table_builder.cc:139-193 | the block's bytes and trailer go out at the current offset, to which the handle points; a block below 4 GB reads back as its items |
| `Tables.TableBuilder.Flush` | src/storage/leveldb/table/table_builder.cc:123-137 | keeps the items and leaves the data block empty |
| `Tables.TableBuilder.Finish` | src/storage/leveldb/table/table_builder.cc:199-254 | the table holds exactly the items added, every separator splits the blocks, the filter block matches every key of every block, and the file's footer leads to index, metaindex and filter |
| `Tables.WriteTail` | src/storage/leveldb/table/table_builder.cc:205-253 | filter block, metaindex, index and footer, each found again from the footer |
| `TableFiles.BuildBlock` | src/storage/leveldb/table/block_builder.cc:63-107 | a block built from a list of pairs packs exactly them |
| `TableFiles.SeekBlock` | src/storage/leveldb/table/block.cc:165-203 | opening such a block and seeking gives the first pair not below the target, or none |
| `TableFiles.StoredReads` | src/storage/leveldb/table/format.cc:65-142 | a block written with its trailer is read back, checksum verified or not |
| `TableFiles.HandleRoundTrip` | src/storage/leveldb/table/format.cc:15-30 | a block handle reads back, leaving what follows |
| `TableFiles.FooterRoundTrip` | src/storage/leveldb/table/format.cc:32-63 | the footer of a file gives back both handles |
| `DbFormat.KeyRoundTrip` | src/storage/leveldb/db/dbformat.h:176-186 | an encoded internal key decodes to itself |
| `DbFormat.EncodedOrder` | src/storage/leveldb/db/dbformat.cc:50-66 | comparing encoded keys is comparing internal keys |
| `TableGet.Open` | src/storage/leveldb/table/table.cc:38-128 | a file that is not a table is refused; a finished one opens to its index and its filter |
| `TableGet.OpenedServes` | src/storage/leveldb/table/table.cc:38-128 | a finished file with blocks below 4 GB, opened, serves lookups |
| `Tables.AllMatch` | src/storage/leveldb/table/filter_block.cc:52-76 | a finished filter block matches the keys held for an offset |
| `TableGet.InternalGet` | src/storage/leveldb/table/table.cc:226-255 | on the bytes of an opened table: index block, filter and data block, each sought by its iterator, together find the first item at or after the key with its user key, or there is none |
| `TableGet.NotPresent` | src/storage/leveldb/table/table.cc:226-255 | if the block led to has nothing, no block has |
| `TableGet.LeastFound` | src/storage/leveldb/table/table.cc:226-255 | what the block led to shows first is first of all |
| `TableGet.GetIsFileGet` | src/storage/leveldb/table/table.cc:226-255 | the point lookup is the seek in the flat run that the engine's reads are built on |
| `TableGet.TableIterates` | src/storage/leveldb/table/table.cc:220-224 | a finished table is an index in the two-level iterator's sense |
| `Blocks.FastPath` | src/storage/leveldb/table/block.cc:53-74 | three one-byte lengths decoded the short way are the varints decoded the long way |
| `Blocks.DecodeEntry` | src/storage/leveldb/table/block.cc:53-74 | any bytes: both lengths of an accepted head are 32-bit numbers |
| `Blocks.RoomIff` | src/storage/leveldb/table/block.cc:53-74 | below 4 GB an accepted head leaves room for its key and value if and only if the two lengths add up to less than 2^32 |
| `Blocks.WrappedSumAccepted` | src/storage/leveldb/table/block.cc:53-74 | seven bytes whose lengths add up to 2^32 are accepted with no room at all |
| `Blocks.EntryRoundTrip` | src/storage/leveldb/table/block_builder.cc:73-107 | an entry decodes to its lengths and text, whatever follows below 4 GB |
| `Blocks.LaidAppend` | src/storage/leveldb/table/block_builder.cc:73-107 | appending an entry that shares a prefix with the last key keeps the block laid out |
| `Blocks.BlockBuilder.constructor` | src/storage/leveldb/table/block_builder.cc:39-46 | an empty block with one restart point |
| `Blocks.BlockBuilder.Shared` | src/storage/leveldb/table/block_builder.cc:79-85 | the longest common prefix with the last key |
| `Blocks.BlockBuilder.Add` | src/storage/leveldb/table/block_builder.cc:73-107 | one more pair; a restart point with a full key exactly every interval, and between them every entry leaves out the longest common prefix |
| `Blocks.BlockBuilder.Finish` | src/storage/leveldb/table/block_builder.cc:63-71 | entries, restart array, count |
| `BlockIterators.FinishedOpens` | src/storage/leveldb/table/block.cc:23-38 | what the builder finished opens to a block that reads as exactly the pairs added |
| `BlockIterators.Iter.constructor` | src/storage/leveldb/table/block.cc:115-126 | not positioned |
| `BlockIterators.Iter.SeekToRestartPoint` | src/storage/leveldb/table/block.cc:104-112 | ready to parse the entry of that restart point |
| `BlockIterators.Iter.ParseNextKey` | src/storage/leveldb/table/block.cc:226-253 | on a well-formed block the next pair, key rebuilt from the shared prefix; on any bytes the step stays in the block unless the head wraps, and exactly then it strays |
| `BlockIterators.RoomUnlessWraps` | src/storage/leveldb/table/block.cc:53-74 | a head in a block lies in it if and only if its lengths do not wrap |
| `BlockIterators.Iter.Next` | src/storage/leveldb/table/block.cc:139-142 | the next pair |
| `BlockIterators.Iter.Prev` | src/storage/leveldb/table/block.cc:144-163 | the pair before, found by rescanning from a restart point |
| `BlockIterators.Iter.FindRestart` | src/storage/leveldb/table/block.cc:165-191 | the binary search ends at a restart point whose key is below the target, or the first |
| `BlockIterators.Iter.Scan` | src/storage/leveldb/table/block.cc:193-203 | linear search from there to the first key not below the target |
| `BlockIterators.Iter.Seek` | src/storage/leveldb/table/block.cc:165-203 | the lower bound of the target among all pairs |
| `BlockIterators.Iter.SeekToFirst` | src/storage/leveldb/table/block.cc:205-208 | the first pair |
| `BlockIterators.Iter.SeekToLast` | src/storage/leveldb/table/block.cc:210-215 | the last pair |
| `BlockIterators.Iter.CorruptionError` | src/storage/leveldb/table/block.cc:218-224 | marks the iterator invalid and corrupt |
| `Batches.WriteBatch.constructor` | src/storage/leveldb/db/write_batch.cc:37-40 | no operations, sequence 0 |
| `Batches.WriteBatch.SetSequence` | src/storage/leveldb/db/write_batch.cc:90-96 | reads back |
| `Batches.WriteBatch.Add` | src/storage/leveldb/db/write_batch.cc:98-109 | one more operation, counted |
| `Batches.WriteBatch.Append` | src/storage/leveldb/db/write_batch.cc:141-145 | the other batch's operations behind this one's, counts added, header kept |
| `Batches.WriteBatch.Iterate` | src/storage/leveldb/db/write_batch.cc:42-80 | hands out exactly the operations put in, in order |
| `Batches.IterateRecords` | src/storage/leveldb/db/write_batch.cc:42-80 | on any bytes: the operations before the first malformed one, and the status |
| `Batches.OpRoundTrip` | src/storage/leveldb/db/write_batch.cc:98-109 | one operation decodes to itself, leaving what follows |
| `Batches.OpsRoundTrip` | src/storage/leveldb/db/write_batch.cc:42-80 | a list of operations decodes to itself |
| `Batches.RecordsAppend` | src/storage/leveldb/db/write_batch.cc:141-145 | joining records is joining operations |
| `Batches.IterateContents` | src/storage/leveldb/db/write_batch.cc:42-80 | a representation shorter than its header is refused, any other is iterated from its records and count |
| `Batches.ContentsRoundTrip` | src/storage/leveldb/db/write_batch.cc:136-139 | the bytes of a batch give back its sequence number and its operations |
| `Batches.InsertInto` | src/storage/leveldb/db/write_batch.cc:111-134 | entries get consecutive sequence numbers from the batch's own |
| `SkipLists.FindGreaterOrEqual` | src/storage/leveldb/db/skiplist.h:261-281 | the least key not below the target, and at every level the last node before it |
| `SkipLists.Insert` | src/storage/leveldb/db/skiplist.h:336-370 | the key is added to the levels up to its height, each a sorted list and a sublist of the one below |
| `SkipLists.OwnNextInvisible` | src/storage/leveldb/db/skiplist.h:364-369 | storing the new node's own pointer changes nothing a reader can reach |
| `SkipLists.PublishChain` | src/storage/leveldb/db/skiplist.h:364-369 | the publishing store keeps the level a sorted list and adds exactly the key |
| `SkipLists.NextInv` | src/storage/leveldb/db/skiplist.h:336-370 | every store of the writer and load of a reader keeps the invariant |
| `SkipLists.RunInv` | src/storage/leveldb/db/skiplist.h:336-370 | it holds in every interleaving |
| `SkipLists.LevelsStaySorted` | src/storage/leveldb/db/skiplist.h:336-370 | at every moment every level is a sorted sublist of the one below |
| `SkipLists.SearchIsLinearizable` | src/storage/leveldb/db/skiplist.h:255-322 | whatever stores fell between a reader's loads, its answer is right for the bottom level at its final load |
| `SkipLists.KeysStay` | src/storage/leveldb/db/skiplist.h:336-370 | a published key never disappears |
| `SkipLists.SearchMeetsInsert` | src/storage/leveldb/db/skiplist.h:336-345 | what the search hands to Insert is what its first step asks for |
| `HandleTables.HandleTable.constructor` | src/storage/leveldb/util/cache.cc:73-73 | an empty map in four buckets |
| `HandleTables.HandleTable.FindPointer` | src/storage/leveldb/util/cache.cc:116-123 | the place in the right chain where the key is, or the chain's end exactly when the key is absent |
| `HandleTables.HandleTable.Lookup` | src/storage/leveldb/util/cache.cc:76-78 | the map's answer |
| `HandleTables.HandleTable.Insert` | src/storage/leveldb/util/cache.cc:80-94 | the map updated, and the entry replaced |
| `HandleTables.HandleTable.Remove` | src/storage/leveldb/util/cache.cc:96-104 | the map without the key, and the entry removed |
| `HandleTables.HandleTable.Resize` | src/storage/leveldb/util/cache.cc:125-149 | the least power of two, from four on, that is not below the number of entries, and the same map |
| `LruCache.LRUCache.constructor` | src/storage/leveldb/util/cache.cc:200-207 | an empty shard |
| `LruCache.LRUCache.Ref` | src/storage/leveldb/util/cache.cc:221-227 | one more reference; the first moves the entry from the LRU to the in-use list |
| `LruCache.LRUCache.Unref` | src/storage/leveldb/util/cache.cc:229-240 | one reference less; the last client's moves the entry to the newest end of the LRU list |
| `LruCache.LRUCache.Delete` | src/storage/leveldb/util/cache.cc:229-236 | the last reference calls the deleter, once |
| `LruCache.WithoutList` | src/storage/leveldb/util/cache.cc:242-245 | removing from a list removes exactly that entry |
| `LruCache.AppendList` | src/storage/leveldb/util/cache.cc:247-253 | appending adds exactly that entry |
| `LruCache.LRUCache.Lookup` | src/storage/leveldb/util/cache.cc:255-262 | the table's answer with a reference taken |
| `LruCache.LRUCache.Release` | src/storage/leveldb/util/cache.cc:264-267 | a client's reference returned |
| `LruCache.LRUCache.Insert` | src/storage/leveldb/util/cache.cc:269-303 | the key maps to the new entry; an old one leaves list and charge, and is deleted unless a client holds it; then the oldest unheld entries are evicted, in order, until the charge fits or none is left, and none when it fits |
| `LruCache.LRUCache.EnterUncached` | src/storage/leveldb/util/cache.cc:285-291 | with capacity 0 only the caller has the entry |
| `LruCache.LRUCache.Evict` | src/storage/leveldb/util/cache.cc:293-300 | evicts oldest first, nothing when the charge fits, and never an entry a client holds |
| `LruCache.LRUCache.FinishErase` | src/storage/leveldb/util/cache.cc:307-316 | the cache's reference goes: charge subtracted, deleter called exactly if nobody holds the entry |
| `LruCache.LRUCache.Erase` | src/storage/leveldb/util/cache.cc:318-321 | the key leaves the table, list and charge, its entry deleted unless a client holds it; nothing changes for an absent key |
| `LruCache.LRUCache.Prune` | src/storage/leveldb/util/cache.cc:323-333 | every unheld entry goes, oldest first |
| `Arenas.FreeIndexLeast` | src/postgres/aset.c:317-346 | the table lookup gives the smallest size class that holds the request |
| `Arenas.FreeIndexOfClass` | src/postgres/aset.c:317-346 | a class size belongs to its own list |
| `Arenas.ChunksApart` | src/postgres/aset.c:1314-1397 | any two chunks of a set, headers included, occupy disjoint bytes |
| `ArenaSteps.LiveApart` | src/postgres/aset.c:672-935 | so two chunks in use never share a byte |
| `ArenaSteps.LiveNotFree` | src/postgres/aset.c:942-1008 | a chunk in use is on no free list and is counted once |
| `ArenaSteps.Conservation` | src/postgres/aset.c:1252-1300 | total space is block headers plus chunks in use plus free chunks plus uncut space |
| `ArenaSteps.CutKeeps` | src/postgres/aset.c:907-935 | a chunk cut from the active block, whoever gets it, keeps blocks tiled and every chunk owned once |
| `ArenaSteps.PopKeeps` | src/postgres/aset.c:741-773 | taking the head of a free list keeps the set sound, and that chunk was not in use |
| `ArenaSteps.PushKeeps` | src/postgres/aset.c:991-1007 | putting a chunk on the list of its class keeps the set sound |
| `ArenaSteps.BigKeeps` | src/postgres/aset.c:687-739 | a dedicated block keeps the set sound |
| `ArenaSteps.RemoveBigKeeps` | src/postgres/aset.c:959-990 | returning a dedicated block removes exactly its chunk |
| `ArenaSteps.LargeIsAlone` | src/postgres/aset.c:961-980 | a chunk beyond the limit is alone in the block that starts just before it |
| `AllocSets.AllocSet.constructor` | src/postgres/aset.c:475-535 | a well-formed set whose chunk limit is the largest class that fits four times into a block of full size, with the first block as keeper if one is asked for |
| `AllocSets.SetChunkLimit` | src/postgres/aset.c:499-502 | halving ends at the largest class that fits four times |
| `AllocSets.AllocSet.Carve` | src/postgres/aset.c:785-839 | the rest of the used-up block becomes free chunks of strictly falling classes, so at most ten, and less than a smallest chunk remains |
| `AllocSets.AllocSet.CarveClass` | src/postgres/aset.c:805-819 | the class taken is the largest that fits |
| `AllocSets.AllocSet.NewBlock` | src/postgres/aset.c:844-905 | a new active block with room for the chunk, doubling and halving sizes; refused only when malloc refuses |
| `AllocSets.AllocSet.AllocBig` | src/postgres/aset.c:687-739 | a block of its own, aligned, placed right below the active one, which stays active |
| `AllocSets.AllocSet.AllocSmall` | src/postgres/aset.c:741-935 | the first chunk of the free list of the least class that holds the request, if there is one; else cut from the active or a new block |
| `AllocSets.AllocSet.Alloc` | src/postgres/aset.c:672-935 | a chunk at least as large as asked, not in use before; all others keep place, size and bytes; null only when malloc refuses |
| `AllocSets.AllocSet.FindBlock` | src/postgres/aset.c:965-977 | the walk finds the block of a large chunk |
| `AllocSets.AllocSet.Free` | src/postgres/aset.c:942-1008 | exactly that chunk is no longer in use |
| `AllocSets.AllocSet.Realloc` | src/postgres/aset.c:1023-1210 | a chunk large enough holding the old bytes; no other chunk in use is touched; after a null the chunks in use, their sizes and their bytes are as before |
| `AllocSets.BigMoves` | src/postgres/aset.c:1088-1164 | moving a dedicated block carries its bytes and hits no other chunk |
| `AllocSets.SmallMoves` | src/postgres/aset.c:1165-1209 | allocate, copy, free does the same for small chunks |
| `AllocSets.AllocSet.Reset` | src/postgres/aset.c:571-622 | every block but the keeper is given back once; the keeper is empty, no chunk is in use |
| `AllocSets.AllocSet.Stats` | src/postgres/aset.c:1252-1300 | blocks, free chunks and total as counted; total minus free is block headers plus chunks in use |
| `Executors.SeqScan.GetNext` | src/executor/seq_scan.cpp:25-38 | sets its own slot from the next tuple, or ends |
| `Executors.Exec.Scan` | src/realizer/query_realizer.cpp:523-551 | a scan yields its table's tuples |
| `Executors.Exec.Join` | src/executor/nested_loop_join.cpp:5-15 | a join does what its loop does: one turn per left row, one on the unset row if the left ends without any, each right tuple put to the predicate until it faults |
| `Executors.Exec.Open` | src/executor/nested_loop_join.cpp:33-50 | stands before the first row, or has met the fault of the left input |
| `Executors.Exec.GetNext` | src/executor/nested_loop_join.cpp:52-86 | hands out the rows one by one in order, and then the end for good, or the fault |
| `Executors.Exec.JoinNext` | src/executor/nested_loop_join.cpp:52-86 | the loop finds the next row that passes, or there is none, or evaluation faults |
| `Executors.JoinIsProduct` | src/executor/nested_loop_join.cpp:33-86 | a join runs without a fault and is the filtered product if and only if the condition settles on every pair and, when the left is empty, settles to false for every right tuple on the unset row |
| `Executors.Select.GetNext` | src/executor/select.cpp:21-33 | the next row that passes, the end when no more does, or the fault |
| `Executors.Select.Drain` | src/realizer/query_realizer.cpp:770-802 | run to the end: exactly the rows that pass, in order, up to the first fault |
| `Executors.RunPlan` | src/realizer/query_realizer.cpp:770-802 | without a selection: the rows of the plan, up to its fault |
| `Queries.QueryRealizer.CheckTableFactor` | src/realizer/query_realizer.cpp:87-122 | tables are numbered left to right and every ON is resolved among the tables so far, with an error exactly when a name is wrong |
| `Queries.QueryRealizer.CheckExpression` | src/realizer/query_realizer.cpp:124-210 | every column becomes the slot of its table's number and its attribute, with an error exactly when it does not resolve |
| `Queries.QueryRealizer.CheckColumn` | src/realizer/query_realizer.cpp:126-183 | the error is the one resolution gives |
| `Queries.FindOwner` | src/realizer/query_realizer.cpp:147-165 | counts the tables that have the column |
| `Queries.QueryRealizer.BuildJoin` | src/realizer/query_realizer.cpp:324-363 | scans are numbered in build order, which is the check's numbering |
| `Queries.BuildsIffTyped` | src/realizer/query_realizer.cpp:429-522 | a checked condition compiles, without tripping an assertion, if and only if it is well typed |
| `Queries.PredicateMeans` | src/executor/logic_expr.cpp:17-27 | the compiled condition says of a row what the expression says of its tables, with and and or stopping early, xor not, and a fault where a tuple is missing |
| `QueryMeaning.PlanMeans` | src/realizer/query_realizer.cpp:324-363 | for every left-deep FROM clause, empty inputs or not, the plan's rows stand for what the executors serve of it, fault for fault |
| `QueryAnswers.ServesIffSound` | src/executor/nested_loop_join.cpp:33-86 | what is served is the meaning of the clause if and only if nothing faults on its left, no pair put to its ON faults and, where its left means no row, no turn taken anyway passes |
| `QueryAnswers.ServesLoose` | src/executor/nested_loop_join.cpp:33-86 | a clause faults if and only if some ON does not settle, and otherwise serves its loose combinations, those that satisfy every ON when a left side without any counts as one of no tuples |
| `QueryAnswers.ServesIff` | src/executor/nested_loop_join.cpp:33-86 | what is served is the meaning of the clause, without a fault, if and only if every ON settles and, when the clause means no row, it has no loose combination: a matter of tables and conditions alone |
| `QueryAnswers.ClearIff` | src/executor/nested_loop_join.cpp:33-86 | a clause and every left side in it are served exactly and without a fault if and only if at every join, from the innermost out, no pair faults or, beside an empty left, every right tuple settles to false |
| `QueryAnswers.SoundStep` | src/executor/nested_loop_join.cpp:33-86 | soundness, join by join |
| `QueryAnswers.WrongOnlyWhenEmpty` | src/executor/nested_loop_join.cpp:33-86 | what is served without a fault differs from the meaning only under a join whose left side is empty |
| `QueryAnswers.QueryIffSound` | src/realizer/query_realizer.cpp:51-802 | the same with a WHERE, in terms of what the FROM clause serves |
| `QueryAnswers.QueryIff` | src/realizer/query_realizer.cpp:51-802 | a query is answered, without a fault, if and only if every ON settles, the WHERE settles on every loose combination and, when the FROM clause means no row, rejects them all |
| `QueryAnswers.ClearQuery` | src/realizer/query_realizer.cpp:51-802 | over a clear FROM clause a query is answered if and only if its WHERE settles on every row of the clause |
| `QueryRuns.BuildableIffTyped` | src/realizer/query_realizer.cpp:324-363 | a checked FROM clause builds, without tripping an assertion, if and only if its conditions are well typed |
| `QueryRuns.Check` | src/realizer/query_realizer.cpp:51-75 | succeeds if and only if all names resolve |
| `QueryRuns.Build` | src/realizer/query_realizer.cpp:263-281 | succeeds, without tripping an assertion, if and only if all conditions are well typed |
| `QueryRuns.Execute` | src/realizer/query_realizer.cpp:770-802 | the rows of the plan that pass the selection, if there is one, up to the first fault |
| `QueryRuns.RunQuery` | src/realizer/query_realizer.cpp:51-802 | a query is refused if and only if a name is wrong, and stops at an assertion if and only if, all names being right, a type is; otherwise its rows are the answer, without a fault, if and only if it is answerable, which is a matter of tables and conditions; over a clear FROM clause, if and only if the WHERE settles |
| `QueryRuns.AnswersIffSound` | src/realizer/query_realizer.cpp:51-802 | rows stand for one list of environments only, so being the answer is being answerable |
| `QueryRuns.FilledIsClear` | src/executor/nested_loop_join.cpp:33-86 | full tuples and rows on the left of every join suffice for a well-typed FROM clause to be clear |
| `QueryRuns.EmptyLeftStrayRow` | src/executor/nested_loop_join.cpp:33-86 | an empty left table and a condition on the right alone: a row comes back that no pair of tuples made |
| `QueryRuns.EmptyLeftFaults` | src/executor/slot_reference.cpp:13-19 | an empty left table and a condition on both sides: evaluation dereferences the missing tuple |

## Left out

- Sockets, sessions, wire messages, SQL lexing and parsing: plumbing or generated code.
- POSIX environment, mutexes and condition variables: steps are atomic instead.
- Snappy compression, the block cache in front of table reads, and I/O error paths of tables and logs.
- Seek sampling and compaction scores: heuristics that do not affect answers; the level to compact is an argument.
- CRC-32C and the hash functions: arbitrary functions here.
- The log reader's initial offset and resynchronisation: only reading from the start is modelled.
- Machine crashes that lose unsynced bytes, `reuse_logs`, and a flush inside a running compaction.
- Sharding of the cache over 16 shards, and `NewId`.
- mcxt.c and the Valgrind and memory-checking branches of the allocator.
- Chunk and block headers as bytes of memory: they are fields, so only copies change memory.
- Project, INSERT, UPDATE, COPY, catalog packing, and the sort, hash and merge-join stubs.
- Two scans of one relation in a query, which share an iterator, and bushy joins, whose row copy overwrites the other side's slots.
- Install.InstallKeepsLayout: says nothing about age order for inputs not closed on user keys; `Boundary.CompactionKeepsReadIff` gives the exact effect on reads instead.
- Install.CompactionKeepsReads: needs inputs closed on user keys; the exact condition without that is `Boundary.CompactionKeepsReadIff`.
- Boundary.WorkIsSound: likewise.
- Tables.TableBuilder.WriteBlock: the entries of a block go into the block builder when the block is written, not one by one; blocks are never compressed.
- AllocSets.AllocSet.constructor: starts from a context that has been created; in aset.c:453-473 the emptied error branches nest the creation under three failed checks, so valid parameters skip it.
- Queries.QueryRealizer.CheckTableFactor: references with one label twice are not modelled; the check then keeps the first and the plan numbers both.
- QueryRuns.Check: likewise.
- QueryRuns.Build: bushy joins are not modelled; an ill-typed condition gives no plan here where the source trips an assertion (query_realizer.cpp:443), and what the source does with assertions compiled out is not modelled.
- Queries.BuildsIffTyped: likewise, not compiling stands for the failed assertion.
- QueryRuns.BuildableIffTyped: likewise.
- QueryRuns.RunQuery: likewise, such a query is `Stopped`.
- QueryMeaning.PlanMeans: bushy joins are not modelled.
- Bloom.BloomFilterPolicy.CreateFilter: does not bound false positives.
