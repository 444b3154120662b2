# A model of LevelDB

LevelDB is the storage engine vendored under `ios/Pods/leveldb-library`. It keeps a history of puts and deletes, each with a
sequence number; a read at a snapshot is to return the newest write of its key that is not newer than the snapshot. Everything
else in the engine is there to make this fast and to survive crashes. The project models the engine's main paths and proves
that they agree with that history.

| module | what it models |
|---|---|
| InternalKeys, Memtables, Versions | entries, sorted runs, levels of files, and how they are searched |
| InputSelection, CompactionInputs | which files a compaction takes |
| DropRules, OutputCuts, OutputLimits, Compactions, Dumps | which entries it drops, where its outputs end, and how its results and memtable dumps are installed |
| CompactionHazards | exactly when a compaction changes what is read or breaks a level |
| VersionEdits, Manifests, VersionEditCodec, CutEdits, VersionLists | edits, their replay by one builder, their bytes, whole and cut, and the reference-counted list of versions |
| Store, StoreInvariant, StoreWrites, StoreBackground, Recovery | the store as a state machine with crashes, and what each action keeps |
| StoreRuns, StoreReads, StoreSnapshots, StoreUpdates, StoreInstalls, StoreCrashes, StoreFiles, PlainRuns | theorems about whole runs |
| TakenSteps, FailingRuns | conditions under which the code takes a step, and two runs of such steps that go wrong |
| Comparators, Blocks, Filters, Tables | byte order, prefix-compressed blocks, Bloom filters and filter blocks, table lookup |
| Coding, RecordLog, RecordReader, LogRoundTrip, RecordDamage, WriteBatches | bytes: varints, the record log, undamaged, cut and damaged, write batches |
| GroupCommit, LogRecovery, LogDamage, StoreLogs | the writer queue, and recovery from the bytes of a log |
| Cursors, DbIterator, MergingIterator, StoreScans | iterators, and scans of a whole store |
| SkipLists, HandleTables, LruCaches | the skip list under concurrent readers, the block cache |

Objects whose methods change them are classes with contracts over an abstract value. What several threads do is a state
machine whose actions are the stretches between releases of the mutex, or single memory operations in the skip list; a run is
a sequence of states and actions from a new store.

## Findings

Two things the engine is meant to guarantee are false of this code. Both are proved with a run from a new store, and with the
exact condition. The actions of the store machine allow more than the code does: any level a dump may go to, any inputs the
theorems put up with. That only makes the theorems about all runs stronger, but a run that goes wrong has to be one of this
code. So every step of the two runs also meets `TakenSteps.Taken`, conditions under which the code takes it with default
options: a dump goes to the one level the picker answers, an automatic compaction has the inputs that a file charged with reads
settles and is no trivial move, a manual one takes a whole level, an output ends when it is full or nothing is left, and
reopening hands out the next numbers.

1. **A deleted key can come back.** `SetupOtherInputs` adds boundary files only at the compaction's own level
   (`ios/Pods/leveldb-library/db/version_set.cc:1407` and `:1422`), not at the next one. A deletion marker that ends a
   next-level input may be dropped while the older value that starts the file behind it is left out. `FailingRuns.IsolationFails`
   is the run: key 5 is written and the store reopened, which puts it into a level-0 file. With a snapshot held, key 1 is written
   and key 5 deleted; the dump stays at level 0. Both files are compacted, and an output ends between the marker and the value.
   The snapshot is released, key 1 written and dumped again, and compacted with the first of the two files only.
   `CompactionHazards.ResurrectsIffUncovers` is the exact condition, a check on the chosen files;
   `StoreReads.FinishUnobservableIff` states it for every state of every run. Runs that leave no boundary file out
   (`NothingLeftOut`) keep snapshot isolation and durability, and `PlainRuns.PlainRunIsCareful` shows that runs without
   snapshots are such runs.
2. **A manual compaction can leave overlapping files.** Its inputs may have gaps, and `CompactMemTable`, called in the middle
   of `DoCompactionWork` (`ios/Pods/leveldb-library/db/db_impl.cc:904-918`), may put a file into a gap of the output level.
   `FailingRuns.LevelsOverlap` is the run: keys 1 and 9 are each written and dumped twice, to level 2 and then to level 1; level 1
   is compacted by hand, and meanwhile key 5 is written and dumped to level 2. `StoreBackground.FinishKeepsLevelsIff` is the exact
   condition, that no output surrounds the file. `PlainRuns.AutomaticRunKeepsLevels` shows that automatic compactions always
   meet it.

A third is harmless today: `VersionEdit::Clear` keeps compaction pointers, so an edit that is reused reads back with those of
both (`VersionEditCodec.RoundTripIff`). Every caller reads into a new edit.

The invariant of the store is split accordingly. `Inv` is kept by every run whose compactions keep their level disjoint
(`KeepsLevels`); `Reads`, the agreement of reads with the history, by every run that in addition leaves no boundary file out
(`KeepsReads`). Both guards look only at the files of the compaction about to be installed.

## Model

| member | source | states |
|---|---|---|
| InternalKeys.NewerByTag | ios/Pods/leveldb-library/db/dbformat.cc:51-67 | Comparing packed tags in decreasing order is comparing sequence numbers, then kinds; a user key and a tag determine the internal key. |
| InternalKeys.Lookup | ios/Pods/leveldb-library/db/memtable.cc:100-136 | Seeking a sorted run and checking the user key finds exactly the newest visible entry of the key, or that there is none. |
| InternalKeys.NewestLayered | ios/Pods/leveldb-library/db/db_impl.cc:1100-1145 | Reading layers from newest to oldest and stopping at the first hit reads their union. |
| Memtables.InsertBatchSorted | ios/Pods/leveldb-library/db/write_batch.cc:121-137 | Inserting a group with rising, newer sequence numbers keeps the memtable sorted. |
| Memtables.InsertBatchElems | ios/Pods/leveldb-library/db/write_batch.cc:121-137 | A memtable holds exactly what it held plus the group. |
| Versions.FindFile | ios/Pods/leveldb-library/db/version_set.cc:88-106 | Binary search finds the first file whose largest key is not before the key. |
| Versions.SearchSortedLevel | ios/Pods/leveldb-library/db/version_set.cc:366-382 | At a sorted level the one file found by binary search answers as all files of the level together. |
| Versions.SearchLevel0 | ios/Pods/leveldb-library/db/version_set.cc:350-365 | At level 0 searching the files whose range holds the key, highest number first, answers as all of them together. |
| Versions.Get | ios/Pods/leveldb-library/db/version_set.cc:326-421 | A read of a valid version finds the newest visible entry among all entries of all its files. |
| VersionEdits.InsertSortedDisjoint | ios/Pods/leveldb-library/db/version_set.cc:695-738 | A file apart from all others of a level keeps it sorted and disjoint. |
| VersionEdits.KeySortedUnique | ios/Pods/leveldb-library/db/version_set.cc:695-738 | There is one way to order a set of files by smallest key and number. |
| Manifests.Builder.Apply | ios/Pods/leveldb-library/db/version_set.cc:650-692 | The builder's state after one more edit: deletions first, then additions, which take their numbers off the deleted ones. |
| Manifests.Builder.SaveTo | ios/Pods/leveldb-library/db/version_set.cc:695-738 | Levels to which no number was added twice come out as one edit at a time would have left them. |
| Manifests.MergeLevel | ios/Pods/leveldb-library/db/version_set.cc:701-722 | Merging base and added files keeps exactly those not deleted, in order. |
| Manifests.BuildVersion | ios/Pods/leveldb-library/db/version_set.cc:924-995 | Recovery applies all edits to one builder and saves once; what comes out is described without the builder. |
| Manifests.BuiltIsReplayed | ios/Pods/leveldb-library/db/version_set.cc:924-995 | Where no number is added to a level twice, one pass over all edits finds the version that one edit at a time leads to, and no other. |
| Manifests.SnapshotReplays | ios/Pods/leveldb-library/db/version_set.cc:1088-1116 | Reading back the snapshot of a version gives that version. |
| Manifests.FreshKeepsEdits | ios/Pods/leveldb-library/db/version_set.cc:650-754 | An edit that adds files under unused numbers keeps the history free of repeated additions. |
| Manifests.MoveKeepsEdits | ios/Pods/leveldb-library/db/db_impl.cc:718-728 | So does a trivial move, because files only move down. |
| VersionEditCodec.GetVarint64 | ios/Pods/leveldb-library/util/coding.cc:142-169 | The 64-bit varint loop, with its shifts and dropped bits, computes the value of the bytes. |
| VersionEditCodec.Varint64Parses | ios/Pods/leveldb-library/util/coding.cc:81-90 | A 64-bit number reads back, whatever follows it. |
| VersionEditCodec.VersionEdit.EncodeTo | ios/Pods/leveldb-library/db/version_edit.cc:41-85 | The bytes of all fields in their order. |
| VersionEditCodec.VersionEdit.DecodeFrom | ios/Pods/leveldb-library/db/version_edit.cc:107-205 | The tag loop leaves the fields read so far in the edit and says what it could not read. |
| VersionEditCodec.DecodeEncoded | ios/Pods/leveldb-library/db/version_edit.cc:41-205 | Decoding undoes encoding, but adds the compaction pointers to those the edit has already. |
| VersionEditCodec.RoundTripIff | ios/Pods/leveldb-library/db/version_edit.cc:26-39 | Because Clear keeps compaction pointers, an edit reads back as it was exactly if it is read into one without any. |
| VersionEditCodec.EncodeInjective | ios/Pods/leveldb-library/db/version_edit.cc:41-85 | Different edits have different bytes. |
| VersionEditCodec.PointerBytes | ios/Pods/leveldb-library/db/version_edit.cc:61-66 | The bytes of a compaction pointer: its tag, level and key. |
| VersionEditCodec.DeletedBytes | ios/Pods/leveldb-library/db/version_edit.cc:68-72 | Of a deleted file: tag, level, number. |
| VersionEditCodec.AddedBytes | ios/Pods/leveldb-library/db/version_edit.cc:74-84 | Of a new file: tag, level, number, size, smallest and largest key. |
| VersionEditCodec.LevelRefused | ios/Pods/leveldb-library/db/version_edit.cc:97-105 | Levels are 0 to 6; any other is refused. |
| VersionEditCodec.TagRefused | ios/Pods/leveldb-library/db/version_edit.cc:118-197 | Tags are 1 to 7 and 9; any other is unknown. |
| CutEdits.CutField | ios/Pods/leveldb-library/db/version_edit.cc:107-205 | No field can be read from only some of its bytes. |
| CutEdits.CutEdit | ios/Pods/leveldb-library/db/version_edit.cc:107-205 | The first bytes of an edit give its first fields, and no error if and only if they end with a field. |
| CutEdits.UnreadableRest | ios/Pods/leveldb-library/db/version_edit.cc:107-205 | What cannot be read behind an edit is reported, and the edit is read. |
| CutEdits.NoSuchLevel | ios/Pods/leveldb-library/db/version_edit.cc:161-190 | A level above 6 is an error in each field that has one. |
| VersionLists.AcquireKeeps | ios/Pods/leveldb-library/db/version_set.cc:474-483 | Taking a reference keeps every version's count equal to the number of its holders, and changes no version. |
| VersionLists.ReleaseKeeps | ios/Pods/leveldb-library/db/version_set.cc:476-483 | So does dropping one; the last one takes the version off the list. |
| VersionLists.AppendKeeps | ios/Pods/leveldb-library/db/version_set.cc:784-799 | So does installing a new current version. |
| VersionLists.ListedIffHeld | ios/Pods/leveldb-library/db/version_set.cc:68-86 | A version is on the list if and only if somebody holds it. |
| InputSelection.SomeFileOverlapsRange | ios/Pods/leveldb-library/db/version_set.cc:122-153 | True exactly if a file meets the user-key range, at level 0 and at sorted levels. |
| InputSelection.PickLevelForMemTableOutput | ios/Pods/leveldb-library/db/version_set.cc:491-516 | The one level the loop stops at: 0 or free of overlap together with all levels above it, with no more below it than the grandparent limit, and no level further down would do. |
| InputSelection.GetOverlappingInputs | ios/Pods/leveldb-library/db/version_set.cc:519-559 | Terminates despite its restarts and returns, in order, the least set of files closed under overlap that meets the range. |
| CompactionInputs.AddBoundaryInputs | ios/Pods/leveldb-library/db/version_set.cc:1378-1401 | Terminates, adds no file twice, leaves no boundary file of the level out, and adds no more than that: the result is the least such set. |
| CompactionInputs.SetupOtherInputs | ios/Pods/leveldb-library/db/version_set.cc:1403-1462 | The inputs are closed as the level requires, and the next level's files are exactly those that meet their range, also after expansion; expansion takes place exactly if it adds files, stays below the byte limit and takes no more files of the next level. |
| CompactionInputs.PickCompaction | ios/Pods/leveldb-library/db/version_set.cc:1270-1324 | Automatic inputs are well chosen and form one run of keys without gaps; at level 0, where the picked file settles them, they are exactly the settled ones; they grow exactly where growing is worth it. |
| CompactionInputs.CompactRange | ios/Pods/leveldb-library/db/version_set.cc:1464-1495 | Manual inputs are well chosen; they may have gaps. Without a range they are the whole level if its sizes stay below the limit. |
| DropRules.LevelPointers.IsBaseLevelForKey | ios/Pods/leveldb-library/db/version_set.cc:1533-1552 | On rising keys the pointers that only move forward answer as the test on all deeper files. |
| DropRules.DropDecision.Drop | ios/Pods/leveldb-library/db/db_impl.cc:930-963 | The decision from the last key and sequence number is the one from the whole input. |
| DropRules.DoCompactionWork | ios/Pods/leveldb-library/db/db_impl.cc:878-1048 | All outputs together are the entries that are not dropped, in order; two kept neighbours are in one output if and only if the output was not full with the first and at no entry from there to the second the grandparent limit was passed. |
| OutputLimits.Grandparents.ShouldStopBefore | ios/Pods/leveldb-library/db/version_set.cc:1554-1577 | The pointer that only moves forward answers by the bytes of all grandparent files passed since the output started, the first key aside. |
| OutputLimits.StopsAt | ios/Pods/leveldb-library/db/version_set.cc:1554-1577 | Over a whole compaction an output ends before an entry if and only if otherwise it would overlap more than the limit, counted from the last such end. |
| DropRules.KeptSurvive | ios/Pods/leveldb-library/db/db_impl.cc:930-963 | An entry is kept if and only if no newer entry of its key is at or below the oldest snapshot and it is no obsolete marker. |
| DropRules.DropsAreUnobservableIff | ios/Pods/leveldb-library/db/db_impl.cc:930-963 | Dropping changes no read at a live snapshot if and only if no marker uncovers an older value left outside. |
| Compactions.WellChosenInstallable | ios/Pods/leveldb-library/db/version_set.cc:1403-1462 | What the picker guarantees suffices to install the results in the version they were picked from. |
| Compactions.SortedLevelsAfterIff | ios/Pods/leveldb-library/db/db_impl.cc:860-876 | The levels stay sorted and disjoint if and only if every output precedes or follows every file that stays at the output level. |
| Compactions.CompactionKeepsValid | ios/Pods/leveldb-library/db/db_impl.cc:860-876 | Then the whole version invariant is kept: order, ages across levels, age by number at level 0, one file per number. |
| Compactions.ResurrectionNeedsBoundary | ios/Pods/leveldb-library/db/version_set.cc:1403-1462 | A deleted key can only reappear out of a boundary file left out of the next level. |
| Dumps.DumpKeepsValid | ios/Pods/leveldb-library/db/db_impl.cc:491-533 | A dump at the picked level keeps the version invariant. |
| Dumps.DumpKeepsInstallable | ios/Pods/leveldb-library/db/db_impl.cc:904-918 | A dump in the middle of a compaction leaves its inputs installable. |
| Dumps.ConnectedOutputsApart | ios/Pods/leveldb-library/db/version_set.cc:1270-1324 | If the inputs form one run of keys, no output can surround what was dumped meanwhile. |
| CompactionHazards.ResurrectsIffUncovers | ios/Pods/leveldb-library/db/version_set.cc:1407-1462 | A key comes back if and only if it passes a check on the chosen files: a droppable marker among the inputs and, right behind the last input, a left-out file that starts with a value of the key. |
| CompactionHazards.CompactionUnobservableIff | ios/Pods/leveldb-library/db/db_impl.cc:878-1048 | Reads of a key at all live snapshots are unchanged by a compaction if and only if the key does not pass that check; the version may have changed since the files were picked. |
| CompactionHazards.DeletedKeyComesBack | ios/Pods/leveldb-library/db/version_set.cc:1403-1462 | A version on which every well-chosen compaction of level 1 brings a deleted key back. |
| CompactionHazards.InstallAfterDumpIff | ios/Pods/leveldb-library/db/db_impl.cc:904-918 | After a dump onto the output level the levels stay disjoint if and only if every output precedes or follows the dump. |
| CompactionHazards.OverlapAfterDump | ios/Pods/leveldb-library/db/db_impl.cc:904-918 | A version, a manual compaction, a dump and an output that leave two overlapping files. |
| Store.Get | ios/Pods/leveldb-library/db/db_impl.cc:1100-1145 | Memtable, then immutable memtable, then version: the newest visible entry of all three. |
| StoreWrites.LogGroupKeeps | ios/Pods/leveldb-library/db/db_impl.cc:1204-1215 | Logging a group keeps the invariant: live logs hold exactly what is in memory and what is in flight. |
| StoreWrites.PublishKeeps | ios/Pods/leveldb-library/db/db_impl.cc:1223-1237 | Publishing a group keeps it: ages, unique sequence numbers, the last one recoverable. |
| StoreWrites.PublishReads | ios/Pods/leveldb-library/db/db_impl.cc:1223-1237 | After publishing, reads agree with the longer history. |
| StoreWrites.SwitchKeeps | ios/Pods/leveldb-library/db/db_impl.cc:1310-1370 | Switching memtables and logs keeps the invariant. |
| StoreBackground.CommitDumpKeeps | ios/Pods/leveldb-library/db/db_impl.cc:535-566 | Installing a dump, also during a compaction and at any allowed level, keeps the invariant with no condition. |
| StoreBackground.FinishOutputKeeps | ios/Pods/leveldb-library/db/db_impl.cc:786-858 | Writing an output in two steps, with file deletion possible in between, keeps the invariant. |
| StoreBackground.FinishKeeps | ios/Pods/leveldb-library/db/db_impl.cc:860-876 | Installing a compaction keeps the invariant if its level stays disjoint. |
| StoreBackground.FinishKeepsLevelsIff | ios/Pods/leveldb-library/db/db_impl.cc:860-876 | In any state of any run: the levels stay sorted and disjoint if and only if no output surrounds a file that stays. |
| StoreBackground.FinishReads | ios/Pods/leveldb-library/db/db_impl.cc:860-876 | Installing it keeps reads in agreement with the history if no boundary file was left out. |
| StoreBackground.TrivialMoveKeeps | ios/Pods/leveldb-library/db/db_impl.cc:718-728 | A trivial move keeps both. |
| StoreBackground.DeleteObsoleteKeeps | ios/Pods/leveldb-library/db/db_impl.cc:223-278 | Deleting obsolete files keeps the invariant: tables of all listed versions and pending outputs stay. |
| Recovery.TablesInstalled | ios/Pods/leveldb-library/db/db_impl.cc:411-489 | Replayed groups, cut into tables anywhere, become level-0 files that complete the version to all logged entries. |
| Recovery.RecoveredInv | ios/Pods/leveldb-library/db/db_impl.cc:1474-1515 | A store opened on a recoverable disk satisfies the invariant. |
| Recovery.CrashRecoverable | ios/Pods/leveldb-library/db/db_impl.cc:280-369 | What a crash leaves behind in any state is recoverable, up to at least the last acknowledged sequence number. |
| Recovery.AttemptsKeep | ios/Pods/leveldb-library/db/db_impl.cc:1474-1515 | Openings cut short before CURRENT is switched leave a disk from which the same is recovered. |
| Recovery.CrashKeeps | ios/Pods/leveldb-library/db/db_impl.cc:280-369 | A crash and a recovery, after any number of interrupted ones, keep the invariant and the agreement of reads. |
| StoreRuns.StepKeeps | ios/Pods/leveldb-library/db/db_impl.cc:688-767 | Every action keeps the invariant, compactions if their level stays disjoint. |
| StoreRuns.StepReads | ios/Pods/leveldb-library/db/db_impl.cc:688-767 | Every action keeps reads in agreement with the acknowledged writes, compactions if no boundary file was left out. |
| StoreRuns.RunKeeps | ios/Pods/leveldb-library/db/db_impl.cc:688-767 | Every state of every such run satisfies the invariant. |
| StoreRuns.RunReads | ios/Pods/leveldb-library/db/db_impl.cc:1100-1145 | In every state of every run that leaves no boundary file out, reads agree with the acknowledged writes. |
| StoreRuns.HistoryGrows | ios/Pods/leveldb-library/db/db_impl.cc:1185-1258 | Along a run acknowledged writes stay, and new ones have higher sequence numbers. |
| StoreReads.Read | ios/Pods/leveldb-library/db/db_impl.cc:1100-1145 | Get at a live snapshot returns the newest acknowledged write not newer than the snapshot. |
| StoreReads.FinishUnobservableIff | ios/Pods/leveldb-library/db/db_impl.cc:878-1048 | In any state of any run: installing the compaction changes no read of a key at a live snapshot if and only if the key passes no check of its files. |
| StoreReads.SnapshotIsolation | ios/Pods/leveldb-library/db/db_impl.cc:1100-1175 | A snapshot taken at one point of a run and neither released nor lost in a crash before another is still on the list there, and reads the same as when it was taken. |
| StoreReads.HeldReadsSame | ios/Pods/leveldb-library/db/db_impl.cc:1100-1175 | A snapshot that is live at two points of such a run reads the same at both. |
| StoreSnapshots.SnapshotStays | ios/Pods/leveldb-library/db/snapshot.h:57-86 | Releasing a snapshot takes that one off the list: those before it stay where they are, those behind move up by one; no other action but a crash moves or removes any. |
| StoreSnapshots.NoOtherSnapshots | ios/Pods/leveldb-library/db/snapshot.h:57-86 | Whatever is on the list after a step was there before, or it is the last sequence number just taken, at the end. |
| StoreSnapshots.HeldSnapshotStays | ios/Pods/leveldb-library/db/db_impl.cc:1165-1175 | Over a run a snapshot that is not released keeps its number; its place is counted through the releases in between. |
| StoreUpdates.WriteIsRead | ios/Pods/leveldb-library/db/db_impl.cc:1177-1258 | Once a write is published a read finds, for each of its keys, the value last put for it, or nothing if that was deleted last. |
| StoreUpdates.OthersReadAsBefore | ios/Pods/leveldb-library/db/db_impl.cc:1177-1258 | Other keys read as they did before the write. |
| StoreUpdates.LastUpdateIsNewest | ios/Pods/leveldb-library/db/write_batch.cc:42-80 | Of several updates of a key in one group the last one is the newest entry. |
| StoreInstalls.SwitchHandsOver | ios/Pods/leveldb-library/db/db_impl.cc:1335-1367 | The memtable goes on whole as the immutable one, and new groups go to a new, empty log. |
| StoreInstalls.DumpBecomesFile | ios/Pods/leveldb-library/db/db_impl.cc:491-566 | The immutable memtable becomes one file at the level picked and the tree changes nowhere else; once obsolete files are deleted only the current log is left. |
| StoreInstalls.DroppedIff | ios/Pods/leveldb-library/db/db_impl.cc:888-963 | A compaction drops an entry of its inputs if and only if every live snapshot and the latest reader sees a newer input entry of the key, or a marker that all of them see has no deeper file around its key. |
| StoreInstalls.OutputsReplaceInputs | ios/Pods/leveldb-library/db/db_impl.cc:860-876 | The outputs, which together are what the compaction keeps, take the place of its inputs and the tree changes nowhere else. |
| StoreInstalls.MoveGoesDown | ios/Pods/leveldb-library/db/db_impl.cc:718-728 | A trivial move takes its file one level down; no table is written, no other file moves. |
| StoreInstalls.NoOtherInstalls | ios/Pods/leveldb-library/db/version_set.cc:784-799 | No other action but a recovery changes the current version. |
| StoreReads.LateReader | ios/Pods/leveldb-library/db/db_impl.cc:1112-1135 | A reader that took its references in one state and looks in a later one, while writes, switches, dumps and compactions go on, finds what was acknowledged when it started. |
| StoreReads.ReadLate | ios/Pods/leveldb-library/db/db_impl.cc:1112-1135 | The lookups of such a reader return the newest write acknowledged when it started. |
| StoreCrashes.Durability | ios/Pods/leveldb-library/db/db_impl.cc:280-369 | After a crash the latest reads are those of all acknowledged writes and of the group in flight exactly if its record was logged; the sequence number found is the last one before the crash, or that of the last entry of this group. |
| StoreCrashes.LoggedBeforeVisible | ios/Pods/leveldb-library/db/db_impl.cc:1209-1237 | Every entry a reader can find in memory is in a live log. |
| StoreCrashes.CanRecover | ios/Pods/leveldb-library/db/db_impl.cc:280-369 | From every state, after any interrupted openings, an opening is possible. |
| StoreFiles.NoLiveFileDeleted | ios/Pods/leveldb-library/db/db_impl.cc:223-278 | Every table of every version anybody holds is on disk with its contents. |
| StoreFiles.NoOutputDeleted | ios/Pods/leveldb-library/db/db_impl.cc:786-858 | So is every finished output of a running compaction, and the one being written has not been deleted. |
| StoreFiles.ListedWhileHeld | ios/Pods/leveldb-library/db/version_set.cc:1167-1177 | In every state of a run a version is listed exactly while somebody holds it, with the count of its holders. |
| StoreFiles.OnlyUsedFilesRemain | ios/Pods/leveldb-library/db/db_impl.cc:223-278 | After deletion every remaining table belongs to a version somebody holds or is being written. |
| StoreFiles.OnlyLiveLogsRemain | ios/Pods/leveldb-library/db/db_impl.cc:223-278 | After deletion the logs are the current one and, if there is an immutable memtable, its own, both unchanged. |
| StoreFiles.PendingIsRunning | ios/Pods/leveldb-library/db/db_impl.cc:786-876 | At every point of a run the pending files are those of the running compaction, none if it ended or was given up. |
| StoreFiles.NoFileLeaks | ios/Pods/leveldb-library/db/db_impl.cc:223-278 | So after deletion every table belongs to a held version or to the compaction that is running. |
| StoreFiles.ReaderUndisturbed | ios/Pods/leveldb-library/db/db_impl.cc:1112-1140 | A reader's version is unchanged and complete on disk until the reader lets go. |
| PlainRuns.AutomaticRunKeepsLevels | ios/Pods/leveldb-library/db/version_set.cc:1270-1324 | Runs whose compactions are picked automatically always keep the levels disjoint, with no condition. |
| PlainRuns.PlainRunIsCareful | ios/Pods/leveldb-library/db/db_impl.cc:878-1048 | If no snapshots are taken either, no boundary file is ever left out: isolation and durability need no condition. |
| FailingRuns.IsolationFails | ios/Pods/leveldb-library/db/version_set.cc:1403-1462 | For all values written: a run from a new store, automatic compactions only, at whose end a deleted key is read again; every step meets the conditions under which the code takes it. |
| FailingRuns.LevelsOverlap | ios/Pods/leveldb-library/db/db_impl.cc:904-918 | For all values written: a run of such steps with a manual compaction that leaves two overlapping files at one level. |
| RecordLog.UnmaskMask | ios/Pods/leveldb-library/util/crc32c.h:26-38 | Unmasking undoes masking of every 32-bit checksum. |
| RecordLog.MaskedHalves | ios/Pods/leveldb-library/util/crc32c.h:26-32 | Less the constant, a masked checksum has the upper 17 bits below and the lower 15 above. |
| RecordLog.PieceFillsBlock | ios/Pods/leveldb-library/db/log_writer.cc:34-80 | A fragment that is not the last of its record fills its block to the end. |
| RecordLog.Writer.AddRecord | ios/Pods/leveldb-library/db/log_writer.cc:34-80 | The writer appends exactly the fragments of the record to the file, from any block offset. |
| RecordReader.Reader.ReadRecord | ios/Pods/leveldb-library/db/log_reader.cc:56-174 | The reader's loop returns the next logical record of any file, or its end, with what it reports on the way; a stored type 5 or 6 counts as the end of the file or a bad record. |
| RecordReader.Reader.ReadPhysicalRecord | ios/Pods/leveldb-library/db/log_reader.cc:189-271 | The buffered reader finds the physical record at its position, and takes the type bytes 5 and 6 for its own codes as the source does. |
| RecordDamage.PhysicalCases | ios/Pods/leveldb-library/db/log_reader.cc:207-257 | On the bytes alone: what becomes of a complete header, with length, type and checksum spelled out; where the checksum fails, the rest of the block is skipped and exactly the bytes skipped are reported. |
| RecordDamage.FragmentIsGenuine | ios/Pods/leveldb-library/db/log_reader.cc:189-271 | A fragment is delivered only from a place where the stored checksum, unmasked, is that of its type and payload, and where length and type are those stored. |
| RecordDamage.RecordIsGenuine | ios/Pods/leveldb-library/db/log_reader.cc:56-174 | Every record returned is the concatenation of the payloads of adjacent such fragments, one FULL, or FIRST, MIDDLEs and LAST. |
| RecordDamage.AllAreGenuine | ios/Pods/leveldb-library/db/log_reader.cc:56-174 | So are all records read from a file. |
| RecordDamage.AllAccountedFor | ios/Pods/leveldb-library/db/log_reader.cc:56-187 | Over any file: the bytes that its fragments hold are delivered or reported, but for a record left unfinished at the end. |
| LogRoundTrip.RoundTrip | ios/Pods/leveldb-library/db/log_reader.cc:56-174 | A log reads back as exactly the records written, nothing reported. |
| LogRoundTrip.TruncatedLog | ios/Pods/leveldb-library/db/log_reader.cc:189-271 | Any byte prefix of a log reads as exactly the records complete in it, nothing reported. |
| LogRoundTrip.WriteSessions | ios/Pods/leveldb-library/db/log_writer.cc:23-80 | Writers that reopen the file at its length continue the same log. |
| LogRecovery.RecoverLogFile | ios/Pods/leveldb-library/db/db_impl.cc:418-453 | The recovery loop, paranoid or not, on any bytes, equals the function on which the theorems below are stated. |
| LogRecovery.RecoversWhatIsRead | ios/Pods/leveldb-library/db/db_impl.cc:418-453 | On any file recovery replays exactly the records a reader gets, unless it is paranoid and something is reported. |
| LogDamage.RecoveryIs | ios/Pods/leveldb-library/db/db_impl.cc:411-453 | Recovery fails exactly if it is paranoid and the reader reports something or a record is no whole batch; otherwise it replays what is whole in the records read. |
| LogDamage.ParanoidLosesNothing | ios/Pods/leveldb-library/db/db_impl.cc:400-453 | A paranoid recovery that succeeds has replayed every byte that was held in the file, but for a record unfinished at its end; each record is a whole batch with checksums that hold. |
| LogDamage.LastIsLargest | ios/Pods/leveldb-library/db/db_impl.cc:440-453 | The sequence number found is the largest of the last numbers of the batches. |
| LogRecovery.RecoversCompleteGroups | ios/Pods/leveldb-library/db/db_impl.cc:418-453 | From any byte prefix of a log of batches recovery replays every complete group, as a whole and in order, and nothing else. |
| LogRecovery.AcknowledgedIsRecovered | ios/Pods/leveldb-library/db/db_impl.cc:1185-1258 | A writer told of success has all its updates recovered, under their numbers, side by side, if the record that holds them is complete in the file. |
| LogRecovery.TornTail | ios/Pods/leveldb-library/db/log_reader.cc:189-271 | A file cut inside a record loses that record alone. |
| StoreLogs.TornLogReplays | ios/Pods/leveldb-library/db/db_impl.cc:371-453 | A log file cut anywhere inside a group replays to what the store machine replays from the groups before it. |
| Coding.GetVarint32 | ios/Pods/leveldb-library/util/coding.cc:112-140 | Fast path and loop compute the value of the bytes, with the bits beyond 32 dropped. |
| Coding.EncodeVarint32 | ios/Pods/leveldb-library/util/coding.cc:47-73 | The five cases write the same bytes as seven bits at a time. |
| Coding.VarintParses | ios/Pods/leveldb-library/util/coding.cc:47-140 | A 32-bit number reads back, whatever follows it. |
| Coding.VarintBytes | ios/Pods/leveldb-library/util/coding.cc:47-73 | The bytes of a varint: seven bits each, least significant first, marked but for the last. |
| Coding.Fixed32Bytes | ios/Pods/leveldb-library/util/coding.h:60-74 | Four bytes, least significant first, and no other word has them. |
| Coding.PrefixedRoundTrip | ios/Pods/leveldb-library/util/coding.cc:98-192 | So does a length-prefixed string. |
| Coding.ParseAllEncoded | ios/Pods/leveldb-library/db/write_batch.cc:42-80 | Records that read back one by one read back as a whole when written one behind the other. |
| Coding.ParseAllThenRest | ios/Pods/leveldb-library/db/write_batch.cc:42-80 | And up to whatever cannot be read behind them. |
| WriteBatches.OpsParse | ios/Pods/leveldb-library/db/write_batch.cc:42-80 | The updates of a batch read back from its bytes. |
| WriteBatches.OpBytes | ios/Pods/leveldb-library/db/write_batch.cc:98-109 | The bytes of an update: tag 1 with key and value, or tag 0 with the key. |
| WriteBatches.OpRefused | ios/Pods/leveldb-library/db/write_batch.cc:42-80 | Every other tag is refused. |
| WriteBatches.WriteBatch.Append | ios/Pods/leveldb-library/db/write_batch.cc:144-148 | An appended batch adds its updates behind the others and keeps the sequence number. |
| WriteBatches.WriteBatch.Iterate | ios/Pods/leveldb-library/db/write_batch.cc:42-80 | Iterating a batch tells exactly its updates, in order, and succeeds. |
| WriteBatches.IterateBytes | ios/Pods/leveldb-library/db/write_batch.cc:42-80 | On any bytes: what is handled before the first error, and which error: too short, unreadable, or not as many updates as the four count bytes say. |
| Comparators.Total | ios/Pods/leveldb-library/util/comparator.cc:25-27 | Byte strings are totally ordered, with a prefix before the longer string. |
| Comparators.FindShortestSeparator | ios/Pods/leveldb-library/util/comparator.cc:29-50 | It shortens exactly where the first differing byte allows it, to the common prefix and that byte plus one, and otherwise changes nothing; what it finds is no longer, not before the first string, and before the second if the first is. |
| Comparators.FindShortSuccessor | ios/Pods/leveldb-library/util/comparator.cc:52-64 | The bytes up to the first that is not 0xff, that one plus one; a run of 0xff bytes is left alone. It is no longer and not before. |
| Blocks.HeadDecodes | ios/Pods/leveldb-library/table/block.cc:54-74 | The fast path and the varints decode to the lengths that were written. |
| Blocks.BlockBuilder.Add | ios/Pods/leveldb-library/table/block_builder.cc:72-106 | The block lays out one more pair. It shares with the key before all of what both have in common, or nothing at a restart point, and restart points fall exactly every `interval` pairs. |
| Blocks.BlockBuilder.Finish | ios/Pods/leveldb-library/table/block_builder.cc:62-70 | Entries, restart points, and their number. |
| Blocks.EntryDecodes | ios/Pods/leveldb-library/table/block.cc:54-74 | Each entry of a block decodes to its own lengths, key bytes and value, and ends where the next begins. |
| Blocks.EntryBytes | ios/Pods/leveldb-library/table/block_builder.cc:87-101 | The bytes of an entry: three lengths, the rest of the key, the value. |
| Blocks.BlockIter.Next | ios/Pods/leveldb-library/table/block.cc:137-140 | Next moves to the next pair of the plain list, or off its end. |
| Blocks.BlockIter.Prev | ios/Pods/leveldb-library/table/block.cc:142-161 | Prev goes back to a restart point and forward again to the immediate predecessor, or off the list. |
| Blocks.BlockIter.Seek | ios/Pods/leveldb-library/table/block.cc:163-201 | Binary search over restart points and a scan land on the first key not before the target. |
| Blocks.BlockIter.SeekToLast | ios/Pods/leveldb-library/table/block.cc:208-213 | The last pair. |
| Blocks.BuildAndIterate | ios/Pods/leveldb-library/table/block.cc:224-251 | Whatever the restart interval, iterating a finished block gives the pairs it was built from. |
| Filters.BloomNoFalseNegatives | ios/Pods/leveldb-library/util/bloom.cc:28-80 | A Bloom filter never denies one of its keys. |
| Filters.MarkedAllBits | ios/Pods/leveldb-library/util/bloom.cc:43-53 | A bit is set if and only if some key probes it. |
| Filters.CreateBloomFilter | ios/Pods/leveldb-library/util/bloom.cc:28-54 | The loops append exactly that filter. |
| Filters.FilterBytes | ios/Pods/leveldb-library/util/bloom.cc:28-41 | A filter has the configured bits per key, at least 64, in whole bytes, and the number of probes behind them. |
| Filters.ProbeIs | ios/Pods/leveldb-library/util/bloom.cc:43-53 | Each probe is the hash plus a multiple of the hash rotated right by 17 bits, modulo the number of bits. |
| Filters.KeyMayMatchBloom | ios/Pods/leveldb-library/util/bloom.cc:56-80 | The probing loop answers whether all probes hit. |
| Filters.KeyMayMatchIs | ios/Pods/leveldb-library/table/filter_block.cc:77-104 | Reading the bytes of a filter block asks the one filter made of the keys of the block's two kilobytes; beyond the last filter everything may match. |
| Filters.BloomIsLawful | ios/Pods/leveldb-library/util/bloom.cc:15-80 | Bloom filters are a policy without false negatives, whatever the hash and the bits per key. |
| Filters.NoFalseNegatives | ios/Pods/leveldb-library/table/filter_block.cc:90-104 | A filter block never denies a key added for the two kilobytes an offset lies in. |
| Filters.FilterBlockBuilder.StartBlock | ios/Pods/leveldb-library/table/filter_block.cc:21-27 | Filters are closed up to the block's offset: the first takes the pending keys, the others are empty. |
| Filters.FilterBlockBuilder.Finish | ios/Pods/leveldb-library/table/filter_block.cc:35-49 | The bytes of all filters, their offsets, and the trailer. |
| Tables.SeparatorCloses | ios/Pods/leveldb-library/db/dbformat.cc:69-86 | An index key is not before its block's last key, before the next block's first key, and shares its user key with no entry behind; it is shortened exactly where the comparator finds a shorter user key behind. |
| Tables.TableBuilder.Add | ios/Pods/leveldb-library/table/table_builder.cc:94-139 | Adding an entry keeps blocks, index keys and filters in step; the open block grows by it, and is closed at once exactly if it is full. |
| Tables.TableBuilder.Finish | ios/Pods/leveldb-library/table/table_builder.cc:198-256 | The finished table holds exactly the entries added, in the blocks as they were cut, under separators that are as short as the comparator makes them, and filters that fit. |
| Tables.Build | ios/Pods/leveldb-library/table/table_builder.cc:94-256 | Two neighbours are in one block if and only if the block was not full with the first. |
| Tables.OnUserKeysLawful | ios/Pods/leveldb-library/db/dbformat.cc:105-119 | A filter policy without false negatives has none on the user keys of internal keys either. |
| Tables.Get | ios/Pods/leveldb-library/table/table.cc:216-244 | Index seek, filter check and block seek find the newest visible entry of the whole table, or that there is none; the one block that is read is the first not before the key, and none is read where the filter denies the key. |
| Tables.BuildAndGet | ios/Pods/leveldb-library/table/table_builder.cc:94-256 | Wherever blocks end and however index keys are shortened, a built table answers lookups as its entries do. |
| GroupCommit.BuildBatchGroup | ios/Pods/leveldb-library/db/db_impl.cc:1260-1306 | The group is a prefix of the queue, cut at the first writer that does not fit, and its updates are theirs in order. |
| GroupCommit.SyncNotCovered | ios/Pods/leveldb-library/db/db_impl.cc:1282-1285 | A sync writer is never in the group of a leader that does not sync. |
| GroupCommit.TakesWhatFits | ios/Pods/leveldb-library/db/db_impl.cc:1267-1300 | Behind a leader of at most 131072 bytes whatever fits into 131072 more joins the group; behind a larger one the whole may take 1048576. |
| GroupCommit.TakesNoMore | ios/Pods/leveldb-library/db/db_impl.cc:1267-1300 | And a group of several whose last member has a payload takes no more than that. |
| GroupCommit.RunKeeps | ios/Pods/leveldb-library/db/db_impl.cc:1185-1258 | At every step, with the mutex released while logging: one leader at most, nobody lost, numbers without gap or overlap, memory equal to the successful writes in order. |
| GroupCommit.NeverTwoLeaders | ios/Pods/leveldb-library/db/db_impl.cc:1191-1204 | Two writers never log at the same time. |
| GroupCommit.AppliedOnce | ios/Pods/leveldb-library/db/db_impl.cc:1223-1237 | Sequence numbers rise strictly through the memtable: nothing is applied twice. |
| GroupCommit.AcknowledgedIsApplied | ios/Pods/leveldb-library/db/db_impl.cc:1185-1258 | A write that succeeded is in the memtable as a whole and in a log record, synced if it asked for that. |
| GroupCommit.NothingAfterFailedSync | ios/Pods/leveldb-library/db/db_impl.cc:1216-1318 | Once a sync has failed no further write succeeds. |
| DbIterator.DbIter.Next | ios/Pods/leveldb-library/db/db_iter.cc:141-166 | Next moves to the first visible key behind the current one, after a change of direction too. |
| DbIterator.DbIter.Prev | ios/Pods/leveldb-library/db/db_iter.cc:200-225 | Prev moves to the last visible key before the current one. |
| DbIterator.DbIter.Seek | ios/Pods/leveldb-library/db/db_iter.cc:269-281 | Seek finds the first visible key at or after the target, skipping deleted, overwritten and too new entries. |
| DbIterator.NextInListing | ios/Pods/leveldb-library/db/db_iter.cc:141-166 | In the list of all visible keys, Next is the next index. |
| DbIterator.PrevInListing | ios/Pods/leveldb-library/db/db_iter.cc:200-225 | And Prev the previous one. |
| DbIterator.ListedIffFound | ios/Pods/leveldb-library/db/db_iter.cc:168-198 | A key and value are listed if and only if a point read at the sequence number finds them. |
| MergingIterator.MergingIter.Next | ios/Pods/leveldb-library/table/merger.cc:55-79 | Next is the next index of the merged sequence of all children, also after going backwards. |
| MergingIterator.MergingIter.Prev | ios/Pods/leveldb-library/table/merger.cc:81-108 | And Prev the previous one, also after going forwards. |
| MergingIterator.NextInMerged | ios/Pods/leveldb-library/table/merger.cc:55-79 | Standing on the nearest key above the old one over all children is standing on the next index of the merged sequence. |
| MergingIterator.PrevInMerged | ios/Pods/leveldb-library/table/merger.cc:81-108 | And on the nearest below it, on the previous index. |
| MergingIterator.SeekInMerged | ios/Pods/leveldb-library/table/merger.cc:47-53 | And on the first at or above a target, on its lower bound. |
| StoreScans.RunsOfStore | ios/Pods/leveldb-library/db/db_impl.cc:1062-1087 | The sorted runs of a store share no key, and hold exactly what its reads can come across. |
| StoreScans.NewInternalIterator | ios/Pods/leveldb-library/db/db_impl.cc:1062-1087 | A merging iterator over one cursor per run iterates the union of the runs. |
| StoreScans.NewIterator | ios/Pods/leveldb-library/db/db_impl.cc:1147-1157 | The iterator of a store in any state of a run works on exactly what can be read there, at the given snapshot. |
| StoreScans.ListedIffNewest | ios/Pods/leveldb-library/db/db_iter.cc:168-198 | A key and value are listed if and only if the newest visible entry of the key holds the value. |
| StoreScans.ScanForward | ios/Pods/leveldb-library/db/db_iter.cc:141-198 | Next from the first key to the end gives the list of all visible keys. |
| StoreScans.ScanBackward | ios/Pods/leveldb-library/db/db_iter.cc:200-267 | Prev from the last key gives the same list. |
| StoreScans.ScanBothWays | ios/Pods/leveldb-library/db/db_impl.cc:1062-1157 | Scanning a store at a snapshot, over the merged memtables, level-0 files and levels, lists rising keys, each with the value Get finds, none missing, forwards and backwards alike. |
| StoreScans.ScanListsHistory | ios/Pods/leveldb-library/db/db_impl.cc:1062-1157 | In a careful run, at a live snapshot, that is the list of the acknowledged writes. |
| SkipLists.StepKeeps | ios/Pods/leveldb-library/db/skiplist.h:337-368 | After each single link store, and while readers search, every level is a sorted sublist of the one below. |
| SkipLists.SearchFindsFirst | ios/Pods/leveldb-library/db/skiplist.h:262-281 | A search interleaved with insert steps returns the first node at or after the key as of its last read. |
| SkipLists.SearchSeesEarlierInserts | ios/Pods/leveldb-library/db/skiplist.h:262-281 | A key that was in the list before the search began is found, whatever is inserted meanwhile. |
| SkipLists.SkipList.FindGreaterOrEqual | ios/Pods/leveldb-library/db/skiplist.h:262-281 | The first node at or after the key, and on every level the last before it. |
| SkipLists.SkipList.FindLessThan | ios/Pods/leveldb-library/db/skiplist.h:285-302 | The last node before the key. |
| SkipLists.SkipList.FindLast | ios/Pods/leveldb-library/db/skiplist.h:305-322 | The last node. |
| SkipLists.SkipList.Insert | ios/Pods/leveldb-library/db/skiplist.h:337-368 | The key is added to the chosen levels and to no other; every turn of the loop leaves a valid list. |
| HandleTables.HandleTable.Insert | ios/Pods/leveldb-library/util/cache.cc:78-92 | The table is the map with this entry, and the replaced one is returned, also when it resizes. |
| HandleTables.HandleTable.Remove | ios/Pods/leveldb-library/util/cache.cc:94-103 | The table is the map without this entry. |
| HandleTables.HandleTable.Resize | ios/Pods/leveldb-library/util/cache.cc:122-147 | Rehashing keeps the map and ends with at most one entry per bucket on average. |
| LruCaches.LruCache.Lookup | ios/Pods/leveldb-library/util/cache.cc:252-259 | A hit takes a reference and takes the entry off the evictable ones; a miss changes nothing. |
| LruCaches.LruCache.Release | ios/Pods/leveldb-library/util/cache.cc:261-264 | The last reference runs the deleter once; the last outside reference makes the entry the most recently used of the evictable ones, which keep their order. |
| LruCaches.LruCache.Insert | ios/Pods/leveldb-library/util/cache.cc:266-303 | Afterwards usage is within capacity or nothing is evictable; the key's old entry is gone; whatever was evicted was last used before all that stays. |
| LruCaches.LruCache.Erase | ios/Pods/leveldb-library/util/cache.cc:318-321 | The entry of the key leaves the table; it lives on while somebody holds it. |
| LruCaches.LruCache.Prune | ios/Pods/leveldb-library/util/cache.cc:323-332 | Takes out the entries nobody holds, oldest first, until none is left. |
| LruCaches.EvictsOldest | ios/Pods/leveldb-library/util/cache.cc:293-300 | Eviction takes the least recently used entries, and no more than needed. |
| LruCaches.ReleasedByLastUse | ios/Pods/leveldb-library/util/cache.cc:225-250 | The evictable entries are always in the order of their last release. |
| LruCaches.EvictsLeastRecentlyUsed | ios/Pods/leveldb-library/util/cache.cc:293-300 | Every entry evicted was last released before every evictable entry that stays. |

## Left out

- User keys and values: keys are integers, standing for any total order; Comparators proves that the default byte order is one.
- Versions.Get: a file is the sorted run of its entries with its key range, and searching it is a lower bound. That a table built from a run answers as the run does is what Tables.BuildAndGet states.
- Tables.Get: a block is the sorted run of its entries; that seeking in the bytes of a block lands on the first entry at or after a key is what Blocks.BlockIter.Seek states. Compression, the footer and the meta index are not modelled, nor is the two-level iterator.
- Tables.TableBuilder.Finish: the filter block is assumed to be shorter than the 32 bits of its offsets; the code does not check.
- Blocks.BlockIter.Seek: blocks as the builder makes them; what the cursor does with corrupted ones is not modelled.
- Filters.BloomNoFalseNegatives: the hash is any function, and the number of probes is a parameter, where the code rounds 0.69 times the bits per key.
- nanopb: not modelled.
- Store.Enabled: compactions are picked nondeterministically among all inputs the picker may choose, so scores, seek counts and compaction pointers are not modelled; where an output ends is a parameter, so size limits are not either. TakenSteps.Taken narrows this for the two failing runs.
- FailingRuns.IsolationFails: the bytes that files and memtables take are not computed from their entries; file sizes are parameters of the steps that write them, and a memtable that is switched is taken to be full. In the code the first output ends behind the marker if the value of key 1 comes close to two megabytes in the table and the user key that 5 stands for is long enough to fill a data block; the memtable is full if both together take four megabytes, which a long key or a compressible value does. Counts of reads are not modelled either, only that the file to compact is the first of several that reads of one key look into.
- FailingRuns.LevelsOverlap: likewise; each memtable holds one large value, or is written out by the CompactRange that is called.
- LogAndApply: one action, though the mutex is released while the manifest is written; nothing else changes versions meanwhile, since there is one background thread.
- Store.Enabled: writes stop where the 56-bit sequence number would overflow; the code has no such check.
- DropRules.DoCompactionWork: the answers of the size test are a parameter, since sizes are not computed from entries.
- Tables.Build: which blocks are full is a parameter; the sizes of blocks are not computed from their entries.
- I/O errors, paranoid checks outside log recovery, and `reuse_logs`: not modelled; a failing compaction is the action Abandon.
- PrevLogNumber and the repairer: logs of the oldest format are not modelled.
- RecordReader: the initial offset is 0, so resynchronising is not modelled.
- RecordLog: CRC32C is a function whose value over a concatenation is that of extending; its tables are not modelled.
- Recovery: file numbers of recovered tables and of the new log are any rising numbers above those in use, where the code hands out the next ones.
- StoreReads.SnapshotIsolation: stated for runs that leave no boundary file out, because it is false otherwise (Findings).
- StoreCrashes.Durability: likewise; which entries survive a crash, but not what is read, is stated without that condition by Recovery.CrashRecoverable.
- StoreRuns.RunKeeps: stated for runs that keep levels disjoint, because the invariant fails otherwise (Findings).
- SkipLists: atomic loads and stores in program order; weaker memory orders are not modelled, nor is the choice of the random height.
- GroupCommit: fairness and timing of condition variables, and the slowdown of writers, are not modelled.
- LruCaches: one shard; which shard a hash belongs to is not modelled.
- StoreScans.NewIterator: the iterator sees the memtable as of its creation, where the code's also passes over entries that are added later and are too new for it; a level below 0 is one sorted run, so the two-level iterator over its files is not modelled.
- DbIterator: read sampling that triggers compactions is not modelled.
