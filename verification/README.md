# A model of the LevelDB engine with range filters

This project models the storage engine of the repository (the sources under `project/`) and proves that
it behaves like a plain versioned map from user keys to lists of (sequence, value or deletion).

The engine is a memtable, an immutable memtable and seven levels of table files that a background thread
keeps rearranging. Five parts are modelled.

- **The state machine.** `lsm.dfy` has one step for what happens between two points where another thread can
  take the mutex, and the invariant; `lsm_writes.dfy`, `lsm_flushes.dfy`, `lsm_compactions.dfy` and
  `lsm_restarts.dfy` prove that each step keeps it, and `lsm_runs.dfy` what follows for whole runs; `lsm_logs.dfy`
  and `lsm_losses.dfy` say what the logs hold, and what is left when they lose some of it.
  `drop_rule.dfy` and `level_updates.dfy` say why a step keeps reads and order.
- **The database.** `db.dfy` is the class behind the state machine. Its methods run the algorithms of
  `mem_table.dfy`, `file_search.dfy`, `read_path.dfy`, `compaction_inputs.dfy`, `compaction.dfy`,
  `input_iterator.dfy`, `compaction_work.dfy`, `output_files.dfy`, `builder.dfy`, `installs.dfy` and
  `recovery.dfy`, opening a database after a crash included, and each of them is proved to be a step, the flush in the middle of
  a manual compaction on one condition.
- **The protocols around it**, with all interleavings: `write_queue.dfy` is the queue of writers,
  `write_path.dfy` joins it with the state machine and with crashes at any point, `write_crashes.dfy` says what
  survives them, `obsolete_files.dfy` deletes files, and `manual_gap.dfy` is the one case in which
  the levels get out of order.
- **The MANIFEST.** `builder.dfy`, `version_set.dfy`, `placements.dfy` and `manifest.dfy`: batches of edits,
  recovery, and replay over whole runs.
- **The iterators and the filter block.** `two_level_iterator.dfy`, `tables.dfy`, `pruning.dfy`, `scans.dfy`, and
  `outside_bounds.dfy` for what a bounded scan shows outside its bounds; `filter_block.dfy`, byte by byte.

`keys.dfy` and `table_files.dfy` hold the data types and the meaning of a read (`Yields`, `SpecGet`).
`dafny verify dfyconfig.toml` checks everything.

## Specified, not modelled

`dbformat`, `VersionEdit`, the memtable's skiplist, the merging iterator, the table builder, the log format
and the block format are not part of the repository. Each has a short specification: internal keys are ordered
by user key and then newest first; a user key is a real number, because only the order of user keys matters and
any countable total order embeds in the reals; a memtable is a sorted list; the merging iterator yields the
ordered merge of its children; a built table is sorted blocks under an index, below 4 GB, with one filter over
its user keys; a log file reads as a list of batches, some of which may not parse, and reported damage. Filter
policies are any that meet the contract of `project/filter_policy.h`. File sizes, memory use, the environment's
answers, the two level-0 write limits and what each turn of MakeRoomForWrite sees are parameters.

## What the proofs found

- **A flush into the gap of a manual compaction breaks a level.** The inputs of a manual compaction may leave
  gaps between keys. DoCompactionWork flushes the immutable memtable inside its loop, and the flush may be placed
  at the output level in such a gap; an output that spans the gap then overlaps it, and the binary search misses
  the flushed keys (`ManualGap.FlushIntoGap`). The levels can get out of order exactly if the entries that the
  compaction keeps lie on both sides of the flushed table (`ManualGap.FlushIsSafeIffOneSide`), and they never do
  for automatic compactions, whose inputs are gapless (`Compactions.PickCompaction`,
  `ManualGap.GaplessIsOneSide`). The flush step of the state machine is therefore guarded, for manual compactions
  and their output level only, by `Lsm.KeepsClear`, which is that condition (`ManualGap.GuardIsExact`); it can be
  evaluated before the flush.
- **SuRF never prunes.** The repository's `README.md` says that a table is skipped when the filter has no key
  in the range. The reader counts two entries in a finished block, the second of them empty, and SuRFPolicy lets
  an empty filter match; RangeMayMatch then says yes to every range (`FilterBlocks.RangeAnswerExact`). The
  theorems here follow the code: they show that pruning is never wrong, not that it happens.
- **Outside its bounds a scan may show deleted data**, once a policy prunes. A table may be pruned although it holds the deletion of a
  key outside the bounds, while a table with the key's old value is read (`OutsideBounds.OldValueComesBack`).
  Bounded and unbounded scans need agree only on the keys between the bounds, and on those they do
  (`OutsideBounds.BoundsOfKeysAreExact`); callers must cut to the bounds themselves.
- **Range answers need a nonempty filter.** On a block without filter KeyMayMatch says yes and RangeMayMatch
  says no. Range soundness is stated for policies whose filter for some keys has some bytes
  (`Tables.SoundForRanges`).
- **Offsets of 2^32 and more** select other entries than the filter; `FilterBlocks.AddedKeyMatches` says for
  every offset when an added key still matches.
- **A null batch** swept into another writer's group is acknowledged without a memtable switch
  (`WriteQueues.SweptNullBatch`); it has forced one exactly if its writer led the group.
- **Re-adding a file** to a level it was deleted from, in one batch, lists it twice
  (`Builders.ReaddedIsListedTwice`). No step of the engine ever does so (`Placements.StepPlaced`).
- **A failed sync** leaves a record in the log that was never acknowledged. Nothing is written after it
  (`WriteQueues.NothingAfterSyncError`), and after a crash it is in the history, whole, or not
  (`WritePaths.CrashShows`, `WriteCrashes.GroupsAreAtomic`).
- **A failed log append** still uses up the group's sequence numbers, and a crash may give them out again
  (`LsmRestarts.RecoveredSequence`). No read can tell.
- **The flushed table** is unprotected between leaving `pending_outputs_` and its installation; having a single
  background worker is what makes this safe (`ObsoleteFiles.FlushWindow`).

## Model

| member | source | states |
|---|---|---|
| LsmRuns.RunRefinesVersionedMap | project/db_impl.cc:708-787 | over every run of write groups, failed groups, memtable switches, flushes, snapshots, compactions, trivial moves, log removals, crashes and recoveries: the levels are ordered, and a read of memtables and files at any live snapshot, and at the present, has exactly one answer, that of the plain versioned map |
| LsmRuns.StepInv | project/db_impl.cc:708-787 | every step keeps the whole invariant: ordered levels, newer data shallower, history, snapshots, running compaction, logs |
| LsmWrites.WriteInv | project/db_impl.cc:1210-1273 | a write group keeps the invariant |
| LsmWrites.SkipInv | project/db_impl.cc:1238-1262 | a group whose log append failed only uses up its sequence numbers, and the invariant stays |
| LsmWrites.StoredReads | project/db_impl.cc:1125-1170 | from the horizon on, what memtables and files hold reads as the versioned map says, and only so |
| LsmWrites.SwitchInv | project/db_impl.cc:1375-1405 | a memtable switch keeps the invariant |
| LsmFlushes.FlushInv | project/db_impl.cc:549-580 | installing a flushed memtable keeps the invariant, also in the middle of a compaction, as long as what a manual compaction keeps is not on both sides of a table at its output level |
| LsmFlushes.FlushOutside | project/db_impl.cc:929-936 | a table that the level picker may place at the output level of a running automatic compaction lies on one side of all its inputs, with no further condition |
| LsmCompactions.BeginInv | project/db_impl.cc:898-922 | choosing closed inputs and the smallest snapshot keeps the invariant |
| LsmCompactions.PendingOlderIsBelow | project/db_impl.cc:966-974 | while a compaction runs, an older entry for a key of its inputs can only be two or more levels below |
| LsmCompactions.FinishInv | project/db_impl.cc:880-896 | replacing the inputs by the outputs keeps the invariant and every read at or above the smallest snapshot |
| LsmCompactions.MoveInv | project/db_impl.cc:741-757 | a trivial move keeps the invariant |
| LsmRestarts.RemoveLogsInv | project/db_impl.cc:246-249 | removing logs older than the log number keeps the invariant |
| LsmRestarts.ReopenInv | project/db_impl.cc:292-383 | recovery from whole logs loses nothing: the recovered state stores the same entries, satisfies the whole invariant for the unchanged history, and its last sequence is not before any written entry, for every last sequence that the replayed batches may account for |
| LsmRestarts.RecoveredSequence | project/db_impl.cc:378-380 | the maximum of the MANIFEST's last sequence and all replayed entries lies between the last written number and the last sequence at the crash: it can fall back only over numbers that failed writes had used up |
| LsmRestarts.RecoveredReads | project/db_impl.cc:1507-1547 | reading the recovered database at its own last sequence gives, for every key, what the database at the crash gave at its last sequence |
| LsmRestarts.ReplayedIsLost | project/db_impl.cc:333-352 | the logs that the MANIFEST still names hold exactly what was in the two memtables |
| LsmLosses.RunFlushed | project/db_impl.cc:549-580 | in every run what the live logs hold is an end of the history, and the files alone read, from the horizon on, like the history before it: no read needs a memtable to make up for what a compaction dropped |
| LsmLosses.DamagedInv | project/db_impl.cc:385-503 | whatever part of their entries the live logs lose: what is left is a state with the whole invariant, whose history is what the logs did not hold any more and what they still hold, in order |
| LsmLogs.RunLogs | project/db_impl.cc:333-352 | in every run the logs to replay hold their entries in commit order |
| Databases.Database.Get | project/db_impl.cc:1125-1170 | Get at a live snapshot, or at the present, returns the lookup in the plain versioned map |
| Databases.Database.NewInternalIterator | project/db_impl.cc:1083-1112 | a scan gets the last sequence and one iterator for the memtable, one for a waiting one, and those of the version, all showing the state at that moment |
| Databases.Database.Write | project/db_impl.cc:1224-1263 | log, sorted memtable and last sequence change as in a write step, or, if the log could not be written, as in a skip step |
| Databases.Database.SwitchMemTable | project/db_impl.cc:1375-1405 | the new log and memtable are a switch step |
| Databases.Database.CompactMemTable | project/db_impl.cc:549-580 | level choice, table and version edit together are a flush step of the state machine, logged in the MANIFEST; during a manual compaction it is one of the state without that compaction, and one of the whole state if what the compaction keeps is on one side of a memtable that nothing keeps from the output level |
| Installs.WriteLevel0Table | project/db_impl.cc:505-547 | the table holds the memtable under the next number, at level 0 or at a level down to which nothing overlaps it; the state machine allows it there, during a manual compaction if the kept entries are on one side; an empty memtable leaves none |
| Databases.Database.Begin | project/db_impl.cc:909-913 | the chosen inputs with the oldest live snapshot are a legal start of a compaction |
| Databases.Database.AutomaticCompaction | project/db_impl.cc:730-757 | size and seeks choose the file; a single small input without files below moves as a move step, logged; anything else is a legal start of a compaction; nothing happens exactly if nothing was chosen |
| Databases.Database.BackgroundCompaction | project/db_impl.cc:708-787 | a waiting memtable is flushed, as a flush step, and nothing else is done; otherwise a manual compaction begins, none exactly if nothing is in its range, and reports the range left; otherwise the picked file moves, or its compaction begins, as that step of the state machine; if nothing is chosen nothing changes |
| Databases.Database.BackgroundCall | project/db_impl.cc:689-787 | a whole turn, from the choice to the installed outputs, keeps the whole invariant and the history, whichever branch it takes |
| Databases.Database.ManualCompaction | project/db_impl.cc:717-728 | it ends exactly if no file of the level is in the range; otherwise it is a legal start of a compaction that skips no file of the range before the key where the next turn begins |
| Databases.Database.MoveFile | project/db_impl.cc:741-757 | the edit of a trivial move is a move step |
| Databases.Database.FinishCompaction | project/db_impl.cc:898-1057 | the merged inputs go through the drop loop, are cut into files under new numbers and installed through the builder: a legal end of the compaction, logged, also with memtables flushed in between |
| Databases.ReadInputs | project/version_set.cc:1237-1273 | the input iterator, read to its end, gives exactly the entries of the inputs, sorted and none twice |
| Databases.Database.GetSnapshot | project/db_impl.cc:1191-1194 | the new snapshot is the last sequence, and the list stays ordered |
| Databases.Database.ReleaseSnapshot | project/db_impl.cc:1196-1199 | one occurrence of the snapshot goes, and the list stays ordered |
| Databases.Database.RemoveObsoleteLogs | project/db_impl.cc:247-250 | a log-removal step by the keep test per log: nothing that recovery would replay is lost, and exactly the logs from the log number on stay |
| OutputFiles.OutputsAreApart | project/db_impl.cc:989-1013 | cutting a sorted run of entries gives well-formed, pairwise disjoint files that hold exactly those entries |
| Databases.Restore | project/db_impl.cc:292-383 | MANIFEST recovery, the directory scan and log replay, with whatever damage and empty or torn batches the logs have, give the recovery step of the state machine for the state that the logs still show; they fail exactly if a live table has no file or, with paranoid checks, a live log has a fault |
| Databases.Open | project/db_impl.cc:1507-1547 | from the MANIFEST records, the directory and what is left of the logs of any state of a run: a database that is the recovery step of that state without the entries the logs lost, of the state itself if they lost none; none exactly if a live number has no file or, with paranoid checks, a live log has a fault; its first MANIFEST is a snapshot and one edit |
| MemTables.InsertInto | project/db_impl.cc:1249-1249 | a batch goes into the sorted list: it stays sorted and holds the batch besides what it held |
| MemTables.MemTableGetYields | project/db_impl.cc:1145-1152 | a hit in the memtable is its newest visible entry, and a miss means that it has none |
| InputIterators.MakeInputIterator | project/version_set.cc:1237-1273 | level 0 inputs one by one, deeper inputs as one concatenation each |
| InputIterators.InputIsSorted | project/version_set.cc:1237-1273 | the merge of those lists is strictly sorted and holds exactly the entries of the inputs |
| InternalKeys.YieldsLayered | project/db_impl.cc:1145-1152 | a read may stop at a layer that shows something if that layer is newer |
| FileSearch.FindFile | project/version_set.cc:87-105 | binary search finds the first file whose largest key is not before the key; on files in no order it still ends at some point where that changes |
| FileSearch.SomeFileOverlapsRange | project/version_set.cc:121-156 | the answer is that of a scan of all files, for unbounded ends too and by binary search on disjoint files |
| FileSearch.GetOverlappingInputs | project/version_set.cc:516-556 | at level 0 the result is what overlaps the least range around [begin, end] that no overlapping file sticks out of; the restart loop terminates because each restart moves an end to a file end |
| FileSearch.PickLevelForMemTableOutput | project/version_set.cc:488-514 | a level above 0 is picked only if nothing overlaps from level 0 down to it, and it is the first level past which the file may not be pushed |
| ReadPath.SeekFindsNewest | project/version_set.cc:280-293 | the first entry at or after the lookup key is the newest visible one of the file, or the file shows nothing |
| ReadPath.SearchLevel0 | project/version_set.cc:299-322 | level 0 newest file first: the first hit is newer than anything visible in the other files |
| ReadPath.OneFilePerLevel | project/version_set.cc:324-340 | in a sorted level one file decides, also when a user key straddles two files |
| ReadPath.HitIsNewest | project/version_set.cc:299-340 | a hit answers for the whole version if the levels above showed nothing |
| ReadPath.Version.Get | project/version_set.cc:342-418 | on ordered levels the early-stopping search returns what the newest visible entry over all files says; on any levels it finds nothing if wherever the level searches end there is nothing |
| CompactionInputs.GetRange | project/version_set.cc:1205-1223 | the result is the least range covering all files |
| CompactionInputs.FindSmallestBoundaryFile | project/version_set.cc:1351-1370 | the result is the first file that continues the user key of the given key |
| CompactionInputs.AddBoundaryInputs | project/version_set.cc:1383-1406 | the added files form a chain of boundary files up to one without successor, each beyond all before it: the loop ends and nothing is added twice |
| CompactionInputs.BoundaryChainIsRun | project/version_set.cc:1383-1406 | in a sorted level the chain is the run of right neighbours that share the user key, and all of them |
| CompactionInputs.SelectIsRun | project/version_set.cc:516-556 | in a sorted level the overlapping files are neighbours |
| CompactionInputs.CloseChoice | project/version_set.cc:1412-1412 | after AddBoundaryInputs no file left behind continues the last user key, and no gap opens |
| CompactionInputs.ChosenInputsClosed | project/version_set.cc:1408-1421 | files left in either level hold only newer entries for the inputs' user keys, and the files left in level + 1 do not lie between the inputs |
| CompactionInputs.GrowthIsConservative | project/version_set.cc:1438-1446 | a wider range picks a superset of the level + 1 files, and one of the same number only if it is the same |
| CompactionInputs.ExpansionKeepsInputs | project/version_set.cc:1428-1432 | the expanded inputs contain the original ones and are closed again |
| CompactionInputs.GaplessLevelInputs | project/version_set.cc:1415-1418 | picking for the hull of gapless inputs leaves the union gapless |
| Compactions.CompleteInputs | project/version_set.cc:1408-1455 | the level + 1 inputs are those of the original choice although the level inputs may grow |
| Compactions.GrowInputs | project/version_set.cc:1423-1454 | growing keeps the level + 1 inputs, closure and gaplessness, and stays below the byte limit |
| Compactions.Compaction.SetupOtherInputs | project/version_set.cc:1408-1469 | the final inputs are closed, contain the given ones, have no new gap, and come with the grandparents they overlap |
| Compactions.PickCompaction | project/version_set.cc:1275-1329 | size before seeks, then the file after the compact pointer; the inputs contain that file, are closed and gapless, and the pointer moves to their largest key |
| Compactions.Finalize | project/version_set.cc:1049-1085 | the result is the first level, of those with a next one, with the largest score |
| Compactions.ChooseFile | project/version_set.cc:1279-1310 | at a score of 1 the file after the pointer of the best level, else the file seeks point at, else none |
| Compactions.PickFile | project/version_set.cc:1290-1301 | the first file that ends after the pointer, or the first of all |
| Compactions.NextFileIsBeyond | project/version_set.cc:1290-1301 | unless it wraps around, the next pick is none of the files compacted the last time |
| Compactions.CompactRange | project/version_set.cc:1471-1502 | none exactly if no file overlaps the range; else the inputs are closed, start from all of the range at level 0 and from the files that reach the size limit below, and leave out no file of the range that ends before they do |
| Compactions.NothingSkipped | project/version_set.cc:1483-1494 | the files that the range gives are all of the range up to the last of them |
| Compactions.PrefixReaching | project/version_set.cc:1483-1494 | the shortest prefix that reaches the byte limit |
| Compactions.Compaction.IsBaseLevelForKey | project/version_set.cc:1540-1559 | asked about nondecreasing keys, the cursors answer as a fresh search of all deeper levels does |
| Compactions.Compaction.ShouldStopBefore | project/version_set.cc:1561-1583 | the cursor ends at the number of grandparents before the key, and the budget is what was passed since the last stop |
| CompactionWork.ShouldDrop | project/db_impl.cc:945-977 | an entry is dropped exactly if an earlier entry of its key is visible to every snapshot or it is a deletion at its base level |
| CompactionWork.ShadowedByPrevious | project/db_impl.cc:956-960 | the last sequence seen for the key decides rule (A) for all earlier entries |
| CompactionWork.DoCompactionWork | project/db_impl.cc:927-1020 | the outputs concatenate to exactly the kept entries; none is empty, none but its last entry passes the file size, inside none more than the budget of grandparent bytes is passed, and each but the last was closed for one of these two reasons |
| CompactionWork.BuildingIsGood | project/db_impl.cc:941-1013 | the bytes charged bound the grandparent bytes passed inside one output |
| DropRule.KeptIsKeptSet | project/db_impl.cc:945-977 | the stateful drop loop keeps the set that the order-free rule keeps |
| DropRule.DroppingIsInvisible | project/db_impl.cc:961-974 | dropping changes no read at or above the smallest snapshot, deletions at the base level included |
| DropRule.BaseLevelIsNotBelow | project/version_set.cc:1540-1559 | the cursor answer is the rule's condition on the files below |
| LevelUpdates.AddNewest | project/version_set.cc:488-514 | newest data may be placed at level 0 or at a level down to which nothing overlaps |
| LevelUpdates.ClosedIsSurrounded | project/version_set.cc:1408-1421 | closed inputs are surrounded by newer data only |
| LevelUpdates.ReplaceKeepsOrder | project/db_impl.cc:880-896 | replacing surrounded inputs by disjoint outputs made of their entries keeps the levels ordered |
| ManualGap.FlushIsSafeIffOneSide | project/db_impl.cc:929-936 | with a table flushed to the output level of a compaction, the levels stay ordered whatever outputs the loop may write, if and only if the entries it keeps lie on one side of the table |
| ManualGap.GuardIsExact | project/db_impl.cc:929-936 | the condition that the state machine puts on flushes during a manual compaction is exactly the one under which no output can break the order |
| ManualGap.GaplessIsOneSide | project/version_set.cc:1275-1329 | gapless inputs, as of every automatic compaction, lie on one side of every table that does not meet them |
| ManualGap.FlushIntoGap | project/db_impl.cc:929-936 | through CompactRange, the level picker, the drop loop, the builder and the level search: a manual compaction of keys 1 and 9 with key 5 flushed meanwhile puts level 2 out of order, and Get misses the stored key 5 |
| Builders.BatchingExact | project/version_set.cc:647-688 | applying one more edit to the batch is applying it to the version if and only if it gives no deleted number to another file |
| Builders.BatchEqualsStepwise | project/version_set.cc:647-748 | a batch of edits leads to the version that building one version per edit leads to |
| Builders.Builder.Apply | project/version_set.cc:647-688 | one edit into the builder is one edit into the batch, for every edit that adds no two files with the same number and smallest key at one level; of such files one stays |
| Builders.MergeLevel | project/version_set.cc:698-732 | the merge lists every live base and added file, as often as the two lists do, in order if no live number is on both sides |
| Builders.Builder.SaveTo | project/version_set.cc:690-733 | the saved levels hold exactly base plus added minus deleted |
| Builders.OrderedListUnique | project/version_set.cc:590-606 | the order by smallest key and number determines a level's list |
| Builders.ReaddedIsListedTwice | project/version_set.cc:684-685 | a live file is listed twice exactly if it was in the base and is added again |
| VersionSets.VersionSet.LogAndApply | project/version_set.cc:795-877 | on success the new version is the old one after the edit, and the MANIFEST ends with the completed edit and replays to it; on failure nothing is installed, and an open MANIFEST replays to the version before the edit or to the one after it |
| VersionSets.SnapshotReplays | project/version_set.cc:1087-1115 | replaying a snapshot record gives the version it was taken from |
| VersionSets.WholeReplays | project/version_set.cc:1087-1115 | any record that lists a version whole replays to that version |
| VersionSets.Recover | project/version_set.cc:905-1000 | one builder over all records gives the replayed levels and the last counters; a missing counter is corruption |
| VersionSets.VersionSet.RecoverFromManifest | project/version_set.cc:879-1010 | recovery gives back the installed file lists, log number and counters |
| VersionSets.ReplayStep | project/version_set.cc:917-950 | one more fresh record takes the replayed version to its successor |
| VersionSets.BuildNext | project/version_set.cc:812-818 | one edit through the builder gives ordered lists of the version after the edit |
| Placements.StepPlaced | project/version_set.cc:684-685 | no step lists a file at a level where the MANIFEST already listed its number |
| Placements.StepIsEdit | project/db_impl.cc:880-896 | the levels after each step are the levels before it after the step's edit |
| Manifests.RunManifest | project/version_set.cc:795-877 | after every step of every run, recoveries included, replaying the MANIFEST gives the installed levels, its last counters are the log number, next file and last sequence that recovery will use, and all records are fresh |
| Recovery.RecoverLogFile | project/db_impl.cc:385-503 | the tables hold exactly the entries of the batches, of one that does not parse those before the fault, in order, under increasing numbers; the last sequence is the largest that a batch accounts for; a fault ends the recovery exactly under paranoid checks |
| Recovery.Recover | project/db_impl.cc:337-380 | fails exactly if an expected number has no file or, with paranoid checks, a live log has a fault; else the logs from the log number on become level-0 tables with newer data under higher numbers, the last sequence lies between the last replayed entry and the one at the crash, and the new log's number is above every number seen |
| Recovery.FindLogs | project/db_impl.cc:337-364 | none exactly if an expected number has no file of any type; else the live log numbers, sorted, each once |
| ObsoleteFiles.NeverDeletesNeeded | project/db_impl.cc:225-290 | from any recovered version and leftovers, over every interleaving of recovery, readers, flushes, compactions, failing MANIFEST writes and deletions: all needed tables are on disk and no deletion is of a needed or pending one |
| ObsoleteFiles.StepInv | project/db_impl.cc:225-290 | every step keeps reference counts, numbers, worker state and safety |
| ObsoleteFiles.FlushWindow | project/db_impl.cc:505-527 | between leaving pending_outputs_ and being installed a flushed table would be picked; only the single worker prevents it |
| ObsoleteFiles.CollectsGarbage | project/db_impl.cc:235-289 | when the deletions of one call are done, whatever other threads did meanwhile, the tables on disk are exactly those of before that were pending or live when it decided |
| ObsoleteFiles.WhileDeleting | project/db_impl.cc:282-289 | while deletions are outstanding no table appears and only those decided on go |
| ObsoleteFiles.EndInstallInv | project/version_set.cc:778-793 | AppendVersion keeps the counts and what is needed |
| ObsoleteFiles.AddLiveFiles | project/version_set.cc:1167-1177 | the result is every number listed by any version on the list |
| ObsoleteFiles.FileKeeper.FilesToDelete | project/db_impl.cc:225-280 | exactly the children that the rules per file type do not keep, and none after a background error |
| ObsoleteFiles.FileKeeper.DeleteFiles | project/db_impl.cc:282-289 | exactly the chosen files disappear |
| ObsoleteFiles.ChoiceIsObsolete | project/db_impl.cc:258-266 | on tables the loop chooses the obsolete set of the protocol |
| WriteQueues.BuildBatchGroup | project/db_impl.cc:1285-1331 | the group is the prefix of writers that may join one after the other, and the result is their batches in order |
| WriteQueues.GroupIsLongest | project/db_impl.cc:1285-1331 | that prefix is the longest one with no sync write under a leader that does not sync and within the byte limit, and conversely |
| WriteQueues.MakeRoomForWrite | project/db_impl.cc:1335-1409 | the call ends at the first turn that neither delays, waits nor switches, and goes on waiting exactly if there is none; a memtable is switched only when none waits to be flushed and level 0 is below the stop limit; one delay at most and none if forced; a forced call succeeds only by switching; an old log that does not close stops all writing |
| WriteQueues.RunInv | project/db_impl.cc:1210-1281 | over every run: writers leave first in, first out, each once; numbers are contiguous in that order; an acknowledged batch is in the memtable and in one log record under its numbers, a synced one if it asked for it; a null batch has switched the memtable exactly if it led |
| WriteQueues.StepInv | project/db_impl.cc:1210-1281 | joining, leading, appending and finishing each keep all of that |
| WriteQueues.NumbersInOrder | project/db_impl.cc:1230-1232 | the sequence range of a writer ends where that of the next begins |
| WriteQueues.NothingAfterSyncError | project/db_impl.cc:1252-1257 | after a failed sync no writer succeeds and nothing more is logged |
| WriteQueues.SweptNullBatch | project/db_impl.cc:1312-1328 | a null batch swept into another writer's group succeeds without a memtable switch |
| WriteQueues.WriteQueue.BeginWrite | project/db_impl.cc:1210-1230 | MakeRoomForWrite and then BuildBatchGroup are the lead step; success means that some turn saw room in the memtable |
| WriteQueues.WriteQueue.EndWrite | project/db_impl.cc:1250-1281 | the last sequence moves on, and exactly the group leaves |
| WritePaths.StepShows | project/db_impl.cc:1224-1263 | each step of queue and database together is a step of the state machine or none: the last step of a logged group is its write, of a failed group its skip, and what other threads do while the log is written is their own step |
| WritePaths.CrashShows | project/db_impl.cc:292-383 | a crash at any point of a write, in which the logs lose any of their entries: recovery gives a database in order for a new queue, whose history is what the logs did not hold any more and what they still hold |
| WritePaths.RunShows | project/db_impl.cc:1210-1281 | after every joint step of Write with the other threads and with such crashes, what the queue has finished is a state of the machine with the queue's writes as its history, and the log holds them in order |
| WritePaths.ReadsDuringWrites | project/db_impl.cc:1125-1170 | a read while a group is in log and memtable but not finished sees exactly the finished writes |
| WritePaths.AcknowledgedIsWritten | project/db_impl.cc:1250-1281 | every acknowledged batch is in the history, under the numbers set aside for its writer |
| WritePaths.NullBatchSwitches | project/db_impl.cc:1226-1281 | when a null batch that led is acknowledged, the memtable has been switched and holds nothing that was written before |
| WriteCrashes.WholeHistory | project/db_impl.cc:1232-1257 | after a crash at any point, if the logs lose nothing, the history is what readers saw, followed by nothing, by the whole logged group that was under way, or by the whole record whose sync had failed; and the database is as newly opened |
| WriteCrashes.WholeRunRefines | project/db_impl.cc:1210-1281 | if no crash costs the logs anything and none follows a failed sync, every joint run is a run of the state machine in which each logged group is one write, also one that a crash overtook between its log record and its acknowledgement |
| WriteCrashes.AcknowledgedSurvives | project/db_impl.cc:1250-1281 | every acknowledged batch stays in the history through all later writes and crashes, as long as the logs lose nothing |
| WriteCrashes.SyncedSurvives | project/db_impl.cc:1242-1262 | every acknowledged batch of a sync write stays in the history through all later crashes that spare what was synced |
| WriteCrashes.GroupsAreAtomic | project/db_impl.cc:1232-1241 | a crash, whenever it comes, leaves each group in the history whole or not at all, as long as a log keeps or loses each record whole |
| WriteCrashes.RecoveryIsCrash | project/db_impl.cc:292-383 | every recovery step from what the logs still show is such a crash |
| TwoLevelIterators.TwoLevelIterator.Seek | project/two_level_iterator.cc:82-87 | Seek lands on the lower bound in the concatenation of the blocks |
| TwoLevelIterators.TwoLevelIterator.SeekToFirst | project/two_level_iterator.cc:89-94 | SeekToFirst lands on the first entry of the concatenation, or nowhere if there is none |
| TwoLevelIterators.TwoLevelIterator.SeekToLast | project/two_level_iterator.cc:96-101 | SeekToLast lands on the last entry of the concatenation |
| TwoLevelIterators.TwoLevelIterator.Next | project/two_level_iterator.cc:103-107 | Next moves one entry forward in the concatenation, or off its end |
| TwoLevelIterators.TwoLevelIterator.Prev | project/two_level_iterator.cc:109-113 | Prev moves one entry back in the concatenation, or off its front |
| TwoLevelIterators.TwoLevelIterator.SkipEmptyDataBlocksForward | project/two_level_iterator.cc:115-126 | the loop ends, at the first entry of a later nonempty block or exhausted |
| TwoLevelIterators.TwoLevelIterator.SkipEmptyDataBlocksBackward | project/two_level_iterator.cc:128-139 | the loop ends, at the last entry of an earlier nonempty block or exhausted |
| TwoLevelIterators.TwoLevelIterator.InitDataBlock | project/two_level_iterator.cc:146-163 | the open block is the one of the index position, also when the handle is unchanged and the block is reused |
| TwoLevelIterators.SeekLandsOnLowerBound | project/two_level_iterator.cc:82-87 | block from the index and position in the block together are the flat lower bound |
| FilterBlocks.Fixed32RoundTrip | project/filter_block.cc:38-60 | decoding four bytes gives back the number below 2^32 that was encoded in them |
| FilterBlocks.FilterBlockBuilder.GenerateFilter | project/filter_block.cc:62-86 | one filter of exactly the added keys, rebuilt from the flat buffer, is appended and its offset recorded; without keys only the offset |
| FilterBlocks.FilterBlockBuilder.Finish | project/filter_block.cc:38-60 | the bytes of the block are filter, offset table and base |
| FilterBlocks.FinishedEntries | project/filter_block.cc:88-99 | the reader sees two entries in a finished block: the filter bytes and an empty one |
| FilterBlocks.FilterBlockReader.KeyMayMatch | project/filter_block.cc:101-116 | the shifted offset selects the entry; anything malformed matches |
| FilterBlocks.FilterBlockReader.RangeMayMatch | project/filter_block.cc:118-130 | some well-formed entry admits the range; anything malformed does not |
| FilterBlocks.KeyAnswerExact | project/filter_block.cc:101-116 | for every offset, which of filter, empty filter and plain true the answer for a finished block is |
| FilterBlocks.AddedKeyMatches | project/filter_block.cc:101-116 | an added key matches at every block offset below 2^32, up to 2^33 exactly if the empty filter matches it, and at every offset beyond |
| FilterBlocks.RangeAnswerExact | project/filter_block.cc:118-130 | a finished block admits a range exactly if it has a filter and that, or the empty one, admits it |
| Tables.InternalGet | project/table.cc:219-255 | looking into one block, or into none if the filter says no, leaves the saver as a seek over all entries would |
| Tables.FilteredOutIsAbsent | project/table.cc:226-236 | if the filter says no, no entry has the key |
| Tables.OneBlockDecides | project/table.cc:221-249 | the one block looked into holds the first entry at or after the lookup key, or the table has none for the user key |
| Tables.TableRangeMayMatch | project/table.cc:284-290 | without filter true, otherwise the exact verdict of the filter on the range |
| Tables.NewIterator | project/table_cache.cc:79-120 | all of the table, or nothing exactly if both bounds are nonempty and the filter does not admit the range |
| Tables.PrunedHasNothing | project/table_cache.cc:95-112 | between the bounds a pruned table has nothing |
| Pruning.AddIterators | project/version_set.cc:247-263 | the iterators yield level 0 file by file and each deeper level with files as one concatenation |
| Pruning.LevelIsSorted | project/version_set.cc:163-245 | a sorted level read through any pruning is a sorted two-level table, so Seek on it is exact |
| Pruning.InBoundsMerge | project/db_impl.cc:1094-1108 | cutting to the bounds and merging commute |
| Pruning.PruningIsInvisible | project/version_set.cc:247-263 | the merged entries between the bounds are the same with and without bounds, deletions included, for every sound policy |
| Pruning.UnboundedIsEverything | project/version_set.cc:247-263 | without bounds the merge holds everything the files hold |
| Pruning.BoundedReads | project/version_set.cc:247-263 | a read of a key between the bounds at any snapshot has the same answer through pruned iterators |
| Scans.NewInternalIterator | project/db_impl.cc:1083-1112 | one iterator for the memtable, one for the immutable one if there is one, and those of the version with bounds |
| Scans.ScanIgnoresPruning | project/db_impl.cc:1090-1103 | with the memtables merged in, a scan with bounds and one without meet the same between the bounds |
| Scans.ScanReads | project/db_impl.cc:1083-1112 | in every reachable state, for every key between the bounds and every snapshot that may be read, a bounded scan shows what the versioned map says, and nothing else |
| Scans.ScanSeek | project/db_impl.cc:1083-1112 | one Seek in the bounded merge lands on the entry that the versioned map reads, or on none if it reads none |
| OutsideBounds.OldValueComesBack | project/table_cache.cc:95-112 | a key that the bytes of the bounds tell from all keys between them: there is a sound policy and two tables, newer data above, such that the key reads as deleted without bounds and has its old value again with them |
| OutsideBounds.BoundsAreExact | project/db_impl.cc:1083-1112 | a bounded and an unbounded scan agree on a key, whatever is stored and whatever the policy, if and only if a bound is empty or the key looks, by its bytes, like one between keys that look like the bounds |
| OutsideBounds.BoundsOfKeysAreExact | project/db_impl.cc:1083-1112 | where bytes identify the two bounds and the key, they agree on it if and only if it lies between the bounds |

## Left out

- Databases.Database.CompactMemTable: during a manual compaction it is a step of the whole state only if what the compaction keeps is on one side of a memtable that nothing keeps from the output level; the code does not check this, and `ManualGap` shows that it is exactly what order needs.
- Installs.WriteLevel0Table: the same condition decides whether the state machine allows the table at the picked level.
- Databases.Database.BackgroundCompaction: the end of a compaction is a call of its own, because the mutex is released in between; a background error stops further steps.
- WriteQueues.MakeRoomForWrite: whether another turn comes for a writer that is still waiting depends on the background thread; that one does is not proved. The two level-0 limits are parameters.
- Recovery.RecoverLogFile: `reuse_logs`, which is off by default, is not modelled.
- Databases.Open: creating a new database, the lock file and `ReuseManifest` are not modelled.
- WriteCrashes.GroupsAreAtomic: that the log reader returns a record whole or not at all is its hypothesis; the log format is not part of the repository.
- Pruning.AddIterators: the block function is a pure function of the file number; cache handles and their release are not modelled.
- ObsoleteFiles.AddLiveFiles: the linked list of versions is a sequence, and in the protocol a map with counts.
- Compactions.ChooseFile: which file seeks point at is a parameter; UpdateStats and RecordReadSample are not modelled, nor are the compact pointers that edits carry to the MANIFEST.
- Sequence numbers are assumed not to reach 2^56 - 1; the first-occurrence test of the drop loop relies on it too.
- Filters and tables are assumed to stay below 4 GB; shifts by 64 or more are not reachable from the bases the builder writes.
- I/O errors other than those of the write queue, the MANIFEST write and a failing compaction: background errors only stop further steps.
- Shutdown, keys that do not parse, `PrevLogNumber` other than 0 and `ReuseFileNumber`.
- The current memtable and version that a reader keeps after releasing the mutex are values and cannot change; the reference counts that keep their files alive are in `obsolete_files.dfy`.
- The user-level iterator over a scan (`db_iter.cc` is not part of the repository); what its seeks find is `Scans.ScanSeek`.
- The thread-local trie cache of `project/surf_filter.cc` and the SuRF library, which is not part of the repository.
- Files, checksums, compression, encodings of blocks, footers and edits, the block cache, counters, logging, properties, the benchmark and the dashboards.
