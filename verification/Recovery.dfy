/** Crashes: whatever the store was doing, opening it again answers as the acknowledged writes do. */
module Recovery {
  import opened Values
  import opened InternalKeys
  import opened Memtables
  import opened Versions
  import opened VersionEdits
  import opened OutputCuts
  import opened Compactions
  import opened Dumps
  import opened Manifests
  import opened VersionLists
  import opened CompactionInputs
  import opened Store
  import opened StoreInvariant
  import opened StoreWrites

  // ---------------------------------------------------------------------------------------------
  // Replaying logs into level-0 tables
  // ---------------------------------------------------------------------------------------------

  /** The version after one dump to level 0 per table. */
  function WithTables(v: Version, tables: seq<File>): Version {
    if tables == [] then v
    else ApplyEdit(WithTables(v, tables[..|tables| - 1]), DumpChanges(0, tables[|tables| - 1]))
  }

  lemma AddedLevel(v: Version, tables: seq<File>, l: nat)
    requires l < |v|
    ensures ApplyLevel(v[l], FileChanges({}, AddAt(0, tables)), l) == if l == 0 then InsertAll(v[0], tables) else v[l]
  {
    var e := FileChanges({}, AddAt(0, tables));
    AddedAt(0, tables, l);
    RemoveNothing(v[l]);
    var added := if l == 0 then tables else [];
    ApplyLevelIs(v[l], e, l, {}, added);
    assert {} - Numbers(added) == {};
  }

  lemma {:induction false} WithTablesLevel(v: Version, tables: seq<File>, l: nat)
    requires l < |v|
    ensures |WithTables(v, tables)| == |v|
    ensures WithTables(v, tables)[l] == if l == 0 then InsertAll(v[0], tables) else v[l]
    decreases |tables|
  {
    if tables != [] {
      var init, t := tables[..|tables| - 1], tables[|tables| - 1];
      WithTablesLevel(v, init, l);
      DumpLevel(WithTables(v, init), 0, t, l);
    }
  }

  lemma {:induction false} WithTablesLength(v: Version, tables: seq<File>)
    ensures |WithTables(v, tables)| == |v|
    decreases |tables|
  {
    if tables != [] {
      WithTablesLength(v, tables[..|tables| - 1]);
    }
  }

  /** The one edit that recovery logs does the same. */
  lemma OneEditForAll(v: Version, tables: seq<File>)
    ensures ApplyEdit(v, FileChanges({}, AddAt(0, tables))) == WithTables(v, tables)
  {
    WithTablesLength(v, tables);
    forall l | 0 <= l < |v| ensures ApplyEdit(v, FileChanges({}, AddAt(0, tables)))[l] == WithTables(v, tables)[l] {
      AddedLevel(v, tables, l);
      WithTablesLevel(v, tables, l);
    }
  }

  /** Where the files of the recovered version come from. */
  ghost predicate OldOrNew(v: Version, w: Version, tables: seq<File>) {
    |w| == |v| && forall l, f :: 0 <= l < |w| && f in w[l] ==> f in v[l] || f in tables
  }

  lemma NextTableMayDump(v: Version, w: Version, tables: seq<File>, t: File, older: seq<Entry>, group: seq<Entry>, firstNumber: nat)
    requires |v| == |w| == NUM_LEVELS && OldOrNew(v, w, tables)
    requires AllContents(w) == AllContents(v) + Elems(older)
    requires Older(AllContents(v) + Elems(older), Elems(group))
    requires t.entries == InsertBatch([], group) && t.number >= firstNumber
    requires forall u :: u in tables ==> u.number < t.number
    requires forall l, f :: 0 <= l < |v| && f in v[l] ==> f.number < firstNumber
    ensures MayDump(w, 0, t) && Elems(t.entries) == Elems(group)
  {
    InsertBatchElems([], group);
    assert Elems([]) == {};
  }

  lemma TableInstalled(v: Version, w: Version, older: seq<Entry>, group: seq<Entry>, init: seq<File>, t: File, all: seq<File>,
                       firstNumber: nat)
    requires Older(AllContents(v) + Elems(older), Elems(group))
    requires t.entries == InsertBatch([], group) && t.number >= firstNumber
    requires forall u :: u in init ==> u.number < t.number
    requires forall l, f :: 0 <= l < |v| && f in v[l] ==> f.number < firstNumber
    requires Installed(v, w, older, init) && t in all && forall u :: u in init ==> u in all
    ensures Installed(v, ApplyEdit(w, DumpChanges(0, t)), older + group, all)
  {
    TableFits(v, w, init, t, older, group, firstNumber);
    TableAdded(v, w, ApplyEdit(w, DumpChanges(0, t)), older, group, init, t, all);
  }

  lemma TableAdded(v: Version, w: Version, w': Version, older: seq<Entry>, group: seq<Entry>, init: seq<File>, t: File, all: seq<File>)
    requires |w| == NUM_LEVELS && VersionOk(w') && FilesAfterDump(w, w', 0, t) && Elems(t.entries) == Elems(group)
    requires OldOrNew(v, w, init) && AllContents(w) == AllContents(v) + Elems(older)
    requires t in all && forall u :: u in init ==> u in all
    ensures Installed(v, w', older + group, all)
  {
    InstalledFiles(v, w, w', init, t, all);
    InstalledContents(v, w, w', older, group, t);
  }

  lemma TableFits(v: Version, w: Version, init: seq<File>, t: File, older: seq<Entry>, group: seq<Entry>, firstNumber: nat)
    requires |v| == NUM_LEVELS && VersionOk(w) && OldOrNew(v, w, init) && AllContents(w) == AllContents(v) + Elems(older)
    requires Older(AllContents(v) + Elems(older), Elems(group))
    requires t.entries == InsertBatch([], group) && t.number >= firstNumber
    requires forall u :: u in init ==> u.number < t.number
    requires forall l, f :: 0 <= l < |v| && f in v[l] ==> f.number < firstNumber
    ensures VersionOk(ApplyEdit(w, DumpChanges(0, t))) && FilesAfterDump(w, ApplyEdit(w, DumpChanges(0, t)), 0, t)
    ensures Elems(t.entries) == Elems(group)
  {
    NextTableMayDump(v, w, init, t, older, group, firstNumber);
    DumpKeepsOk(w, t);
  }

  lemma DumpKeepsOk(w: Version, t: File)
    requires VersionOk(w) && MayDump(w, 0, t)
    ensures VersionOk(ApplyEdit(w, DumpChanges(0, t))) && FilesAfterDump(w, ApplyEdit(w, DumpChanges(0, t)), 0, t)
  {
    DumpKeepsValid(w, 0, t);
  }

  lemma InstalledContents(v: Version, w: Version, w': Version, older: seq<Entry>, group: seq<Entry>, t: File)
    requires |w| == NUM_LEVELS && FilesAfterDump(w, w', 0, t) && Elems(t.entries) == Elems(group)
    requires AllContents(w) == AllContents(v) + Elems(older)
    ensures AllContents(w') == AllContents(v) + Elems(older + group)
  {
    DumpContents(w, w', 0, t);
    ElemsConcat(older, group);
    UnionAssociative(AllContents(v), Elems(older), Elems(group));
  }

  lemma UnionAssociative(A: set<Entry>, B: set<Entry>, C: set<Entry>)
    ensures A + B + C == A + (B + C)
  {
  }

  lemma UnionNothing(A: set<Entry>)
    ensures A + Elems([]) == A
  {
  }

  lemma GroupsInOrder(v: Version, older: seq<Entry>, group: seq<Entry>)
    requires Ascending(older + group) && Older(AllContents(v), Elems(older + group))
    ensures Ascending(older) && Older(AllContents(v), Elems(older))
    ensures Older(AllContents(v) + Elems(older), Elems(group))
  {
    var es := older + group;
    ElemsConcat(older, group);
    assert forall i :: 0 <= i < |older| ==> es[i] == older[i];
    forall a, b | a in Elems(older) && b in Elems(group) ensures a.seqno < b.seqno {
      var i :| 0 <= i < |older| && older[i] == a;
      var j :| 0 <= j < |group| && group[j] == b;
      assert es[i] == a && es[|older| + j] == b;
    }
  }

  lemma EarlierTables(groups: seq<seq<Entry>>, tables: seq<File>, firstNumber: nat)
    requires TablesOf(groups, tables, firstNumber) && tables != []
    ensures TablesOf(groups[..|groups| - 1], tables[..|tables| - 1], firstNumber)
    ensures forall u :: u in tables[..|tables| - 1] ==> u.number < tables[|tables| - 1].number
  {
  }

  /** `w` is a valid version that holds the files of `v`, the new tables, and every replayed entry. */
  ghost predicate Installed(v: Version, w: Version, es: seq<Entry>, tables: seq<File>) {
    VersionOk(w) && OldOrNew(v, w, tables) && AllContents(w) == AllContents(v) + Elems(es)
  }

  lemma NothingInstalled(v: Version)
    requires VersionOk(v)
    ensures Installed(v, v, [], [])
  {
    UnionNothing(AllContents(v));
  }

  lemma {:induction false} TablesInstalled(v: Version, groups: seq<seq<Entry>>, tables: seq<File>, firstNumber: nat)
    requires VersionOk(v) && TablesOf(groups, tables, firstNumber)
    requires Ascending(Concat(groups)) && Older(AllContents(v), Elems(Concat(groups)))
    requires forall l, f :: 0 <= l < |v| && f in v[l] ==> f.number < firstNumber
    ensures Installed(v, WithTables(v, tables), Concat(groups), tables)
    decreases |tables|
  {
    if tables == [] {
      NothingInstalled(v);
    } else {
      var n := |tables| - 1;
      GroupsInOrder(v, Concat(groups[..n]), groups[n]);
      EarlierTables(groups, tables, firstNumber);
      TablesInstalled(v, groups[..n], tables[..n], firstNumber);
      LastInstalled(v, WithTables(v, tables[..n]), Concat(groups[..n]), groups, tables, firstNumber);
    }
  }

  lemma LastInstalled(v: Version, w: Version, older: seq<Entry>, groups: seq<seq<Entry>>, tables: seq<File>, firstNumber: nat)
    requires TablesOf(groups, tables, firstNumber) && tables != []
    requires Older(AllContents(v) + Elems(older), Elems(groups[|groups| - 1]))
    requires forall l, f :: 0 <= l < |v| && f in v[l] ==> f.number < firstNumber
    requires Installed(v, w, older, tables[..|tables| - 1])
    ensures Installed(v, ApplyEdit(w, DumpChanges(0, tables[|tables| - 1])), older + groups[|groups| - 1], tables)
  {
    var n := |tables| - 1;
    EarlierTables(groups, tables, firstNumber);
    TableInstalled(v, w, older, groups[n], tables[..n], tables[n], tables, firstNumber);
  }

  lemma InstalledFiles(v: Version, w: Version, w': Version, init: seq<File>, t: File, all: seq<File>)
    requires OldOrNew(v, w, init) && FilesAfterDump(w, w', 0, t) && t in all && forall u :: u in init ==> u in all
    ensures OldOrNew(v, w', all)
  {
    forall l, f: File | 0 <= l < |w'| && f in w'[l] ensures f in v[l] || f in all {
      assert f in w[l] || f == t;
    }
  }

  // ---------------------------------------------------------------------------------------------
  // The recovered store
  // ---------------------------------------------------------------------------------------------

  /** What a disk must be like for `es`, the contents of its live logs, to complete its tables to a part of `hist`. */
  ghost predicate Recoverable(disk: Disk, es: seq<Entry>, hist: set<Entry>) {
    && ReplayMeta(disk.manifest).Meta?
    && ReplayMeta(disk.manifest).logNumber < ReplayMeta(disk.manifest).nextFile
    && Ascending(es) && AddedOnce(Changes(disk.manifest))
    && RecoverableVersion(ReplayVersion(disk.manifest), disk.tables, ReplayMeta(disk.manifest).nextFile, es)
    && HistoryOk(AllContents(ReplayVersion(disk.manifest)) + Elems(es), hist, RecoveredLast(disk, es))
    && RecoveredLast(disk, es) < MAX_SEQUENCE
  }

  /** For every read of the latest state nothing of `hist` is missing. */
  ghost predicate RecoverableReads(disk: Disk, es: seq<Entry>, hist: set<Entry>)
    requires ReplayMeta(disk.manifest).Meta?
  {
    Agrees(AllContents(ReplayVersion(disk.manifest)) + Elems(es), hist, RecoveredLast(disk, es))
  }

  ghost predicate RecoverableVersion(v: Version, tables: map<nat, seq<Entry>>, nextFile: nat, es: seq<Entry>) {
    VersionOk(v) && Backed(v, tables, nextFile) && Older(AllContents(v), Elems(es))
  }

  lemma {:induction false} TableMapHolds(groups: seq<seq<Entry>>, files: seq<File>, firstNumber: nat)
    requires TablesOf(groups, files, firstNumber)
    ensures forall n :: n in TableMap(files) ==> n >= firstNumber
    ensures forall t :: t in files ==> t.number in TableMap(files) && TableMap(files)[t.number] == t.entries
    decreases |files|
  {
    if files != [] {
      var init, t := files[..|files| - 1], files[|files| - 1];
      assert files == init + [t];
      EarlierTables(groups, files, firstNumber);
      TableMapHolds(groups[..|groups| - 1], init, firstNumber);
    }
  }

  lemma RecoveredBacked(v: Version, w: Version, tables: map<nat, seq<Entry>>, groups: seq<seq<Entry>>, files: seq<File>,
                        nextFile: nat, newLog: nat)
    requires Backed(v, tables, nextFile) && OldOrNew(v, w, files) && TablesOf(groups, files, nextFile + 1)
    requires nextFile < newLog && forall t :: t in files ==> t.number < newLog
    ensures Backed(w, AddTables(tables, files), newLog + 1)
    ensures forall l, f :: 0 <= l < |w| && f in w[l] ==> f.number < newLog + 1
  {
    TableMapHolds(groups, files, nextFile + 1);
    BackedGrows(v, tables, nextFile, AddTables(tables, files), newLog + 1);
    forall l, f | 0 <= l < |w| && f in w[l] ensures BackedFile(f, AddTables(tables, files), newLog + 1) {
      assert f in v[l] || f in files;
    }
    forall l, f | 0 <= l < |w| && f in w[l] ensures f.number < newLog + 1 {
      assert BackedFile(f, AddTables(tables, files), newLog + 1);
    }
  }

  lemma FreshManifest(v: Version, changes: FileChanges, newLog: nat, last: Seqno)
    requires VersionOk(v)
    requires forall l, f :: 0 <= l < |v| && f in ApplyEdit(v, changes)[l] ==> f.number < newLog + 1
    ensures var manifest := [Record(SnapshotChanges(v), NoMeta), Record(changes, Meta(newLog, newLog + 1, last))];
            && ManifestOk(manifest, ApplyEdit(v, changes), newLog, newLog + 1, last)
            && LastOk(manifest, [], [], last)
  {
    var first, second := Record(SnapshotChanges(v), NoMeta), Record(changes, Meta(newLog, newLog + 1, last));
    SortedVersionIsKeySorted(v);
    SnapshotReplays(v);
    ReplayAppend([], first);
    assert [] + [first] == [first];
    assert ReplayVersion([]) == EMPTY_VERSION;
    ReplayAppend([first], second);
    assert [first] + [second] == [first, second];
  }

  lemma SortedVersionIsKeySorted(v: Version)
    requires VersionOk(v)
    ensures KeySortedLevels(v)
  {
    forall l | 0 <= l < |v| ensures KeySorted(v[l]) {
      if l > 0 {
        assert SortedDisjoint(v[l]);
        SortedDisjointKeySorted(v[l]);
      }
    }
  }

  lemma FreshLog(logs: map<nat, seq<Group>>, minLog: nat, order: seq<nat>, newLog: nat)
    requires LiveLogs(logs, minLog, order) && minLog <= newLog && forall n :: n in order ==> n < newLog
    ensures LogsOk(logs[newLog := []], [], [], false, NoWrite, newLog, newLog, newLog + 1)
  {
    assert forall n :: n in logs ==> n < newLog || n in order;
    assert FlatRecords([]) == [];
    assert Elems([]) == {};
  }

  lemma RecoveredVersion(v: Version, nextFile: nat, diskTables: map<nat, seq<Entry>>, groups: seq<seq<Entry>>, tables: seq<File>, newLog: nat)
    requires RecoverableVersion(v, diskTables, nextFile, Concat(groups)) && Ascending(Concat(groups))
    requires TablesOf(groups, tables, nextFile + 1) && newLog > nextFile
    requires forall t :: t in tables ==> t.number < newLog
    ensures var v' := ApplyEdit(v, FileChanges({}, AddAt(0, tables)));
            && VersionOk(v') && AllContents(v') == AllContents(v) + Elems(Concat(groups))
            && Backed(v', AddTables(diskTables, tables), newLog + 1)
            && forall l, f :: 0 <= l < |v'| && f in v'[l] ==> f.number < newLog + 1
  {
    OneEditForAll(v, tables);
    TablesAboveVersion(v, diskTables, nextFile);
    TablesInstalled(v, groups, tables, nextFile + 1);
    RecoveredBacked(v, WithTables(v, tables), diskTables, groups, tables, nextFile, newLog);
  }

  lemma VersionDistinct(v: Version, l: nat)
    requires VersionOk(v) && l < |v|
    ensures DistinctNumbers(v[l])
  {
    if l > 0 {
      var files := v[l];
      assert SortedDisjoint(files);
      forall i, j | 0 <= i < j < |files| ensures files[i].number != files[j].number {
        assert Precedes(files[i], files[j]);
        KeysOrdered(files[i]);
        assert files[i] in v[l] && files[j] in v[l];
      }
    }
  }

  lemma RisingDistinct(groups: seq<seq<Entry>>, tables: seq<File>, firstNumber: nat)
    requires TablesOf(groups, tables, firstNumber)
    ensures DistinctNumbers(tables) && forall t :: t in tables ==> t.number >= firstNumber
  {
  }

  lemma SnapshotEditsOk(v: Version, nextFile: nat)
    requires VersionOk(v) && forall l, f :: 0 <= l < |v| && f in v[l] ==> f.number < nextFile
    ensures EditsOk([SnapshotChanges(v)], v, nextFile)
  {
    forall l | 0 <= l < NUM_LEVELS ensures DistinctNumbers(v[l]) {
      VersionDistinct(v, l);
    }
    SnapshotEdits(v, nextFile);
  }

  lemma TablesAdded(tables: seq<File>)
    ensures AddsOnlyAt(FileChanges({}, AddAt(0, tables)), 0, tables)
  {
    forall l: nat | l < NUM_LEVELS ensures AddedFiles(AddAt(0, tables), l) == if l == 0 then tables else [] {
      AddedAt(0, tables, l);
    }
  }

  /** The edits of the fresh manifest: a snapshot of the version found, then the replayed tables. */
  lemma FreshEdits(v: Version, w: Version, groups: seq<seq<Entry>>, tables: seq<File>, nextFile: nat, newLog: nat)
    requires VersionOk(v) && w == ApplyEdit(v, FileChanges({}, AddAt(0, tables)))
    requires TablesOf(groups, tables, nextFile + 1) && nextFile < newLog && forall t :: t in tables ==> t.number < newLog
    requires forall l, f :: 0 <= l < |v| && f in v[l] ==> f.number < nextFile
    ensures EditsOk([SnapshotChanges(v), FileChanges({}, AddAt(0, tables))], w, newLog + 1)
  {
    var e, first := FileChanges({}, AddAt(0, tables)), [SnapshotChanges(v)];
    SnapshotEditsOk(v, nextFile);
    RisingDistinct(groups, tables, nextFile + 1);
    TablesAdded(tables);
    TablesFrom(v, w, tables);
    FilesAreUnseen(first, v, tables, nextFile);
    FreshKeepsEdits(first, e, v, w, 0, tables, nextFile, newLog + 1);
    assert first + [e] == [SnapshotChanges(v), e];
  }

  lemma FilesAreUnseen(edits: seq<FileChanges>, v: Version, tables: seq<File>, nextFile: nat)
    requires EditsOk(edits, v, nextFile) && forall t :: t in tables ==> t.number > nextFile
    ensures forall t :: t in tables ==> !Seen(edits, t.number)
  {
  }

  lemma TablesFrom(v: Version, w: Version, tables: seq<File>)
    requires |v| == NUM_LEVELS && w == ApplyEdit(v, FileChanges({}, AddAt(0, tables)))
    ensures FilesFrom(v, w, 0, tables)
  {
    forall l | 0 <= l < NUM_LEVELS ensures w[l] == if l == 0 then InsertAll(v[0], tables) else v[l] {
      AddedLevel(v, tables, l);
    }
    forall g: File | g in w[0] ensures g in v[0] || g in tables {
      InsertAllMembers(v[0], tables);
    }
    forall l: nat, g: File | l < NUM_LEVELS && g in w[l] ensures g in v[l] || (l == 0 && g in tables) {
      if l != 0 {
        assert w[l] == v[l];
      }
    }
  }

  /** The builder finds the version the manifest describes. */
  lemma FoundIsReplayed(disk: Disk, found: Version)
    requires AddedOnce(Changes(disk.manifest)) && Built(Changes(disk.manifest), found)
    ensures found == ReplayVersion(disk.manifest)
  {
    BuiltIsReplayed(Changes(disk.manifest), found);
  }

  lemma TwoChanges(first: Record, second: Record)
    ensures Changes([first, second]) == [first.changes, second.changes]
  {
    ReplayAppend([], first);
    ReplayAppend([first], second);
    assert [] + [first] == [first] && [first] + [second] == [first, second];
  }

  /** A store opened on a recoverable disk satisfies the invariant, with the whole history in it. */
  lemma RecoveredInv(disk: Disk, found: Version, order: seq<nat>, groups: seq<seq<Entry>>, tables: seq<File>, newLog: nat, hist: set<Entry>)
    requires Recoverable(disk, Concat(groups), hist) && MayRecover(disk, found, order, groups, tables, newLog)
    ensures Inv(Recovered(disk, found, Concat(groups), tables, newLog, hist))
    ensures RecoverableReads(disk, Concat(groups), hist) ==> Reads(Recovered(disk, found, Concat(groups), tables, newLog, hist))
  {
    FoundIsReplayed(disk, found);
    var meta, es := ReplayMeta(disk.manifest), Concat(groups);
    var changes, last := FileChanges({}, AddAt(0, tables)), RecoveredLast(disk, es);
    var manifest := [Record(SnapshotChanges(found), NoMeta), Record(changes, Meta(newLog, newLog + 1, last))];
    RecoveredVersion(found, meta.nextFile, disk.tables, groups, tables, newLog);
    RecoveredEdits(found, meta.nextFile, disk.tables, groups, tables, newLog, es);
    FreshManifest(found, changes, newLog, last);
    TwoChanges(manifest[0], manifest[1]);
    FreshLog(disk.logs, meta.logNumber, order, newLog);
    FreshStore(ApplyEdit(found, changes), last, newLog, disk.logs[newLog := []], manifest,
               AddTables(disk.tables, tables), hist, AllContents(found) + Elems(es));
  }

  lemma RecoveredEdits(v: Version, nextFile: nat, diskTables: map<nat, seq<Entry>>, groups: seq<seq<Entry>>, tables: seq<File>,
                       newLog: nat, es: seq<Entry>)
    requires RecoverableVersion(v, diskTables, nextFile, es) && es == Concat(groups) && Ascending(es)
    requires TablesOf(groups, tables, nextFile + 1) && newLog > nextFile && forall t :: t in tables ==> t.number < newLog
    ensures EditsOk([SnapshotChanges(v), FileChanges({}, AddAt(0, tables))], ApplyEdit(v, FileChanges({}, AddAt(0, tables))), newLog + 1)
  {
    OneEditForAll(v, tables);
    TablesAboveVersion(v, diskTables, nextFile);
    TablesInstalled(v, groups, tables, nextFile + 1);
    forall l, f | 0 <= l < |v| && f in v[l] ensures f.number < nextFile {
      assert BackedFile(f, diskTables, nextFile);
    }
    FreshEdits(v, ApplyEdit(v, FileChanges({}, AddAt(0, tables))), groups, tables, nextFile, newLog);
  }

  lemma TablesAboveVersion(v: Version, tables: map<nat, seq<Entry>>, nextFile: nat)
    requires Backed(v, tables, nextFile)
    ensures forall l, f :: 0 <= l < |v| && f in v[l] ==> f.number < nextFile + 1
  {
    forall l, f | 0 <= l < |v| && f in v[l] ensures f.number < nextFile + 1 {
      assert BackedFile(f, tables, nextFile);
    }
  }

  /** A store with empty memtables, no snapshots and an idle background thread. */
  lemma FreshStore(version: Version, last: Seqno, newLog: nat, logs: map<nat, seq<Group>>, manifest: seq<Record>,
                   tables: map<nat, seq<Entry>>, hist: set<Entry>, contents: set<Entry>)
    requires VersionOk(version) && AllContents(version) == contents && last < MAX_SEQUENCE
    requires HistoryOk(contents, hist, last)
    requires Backed(version, tables, newLog + 1)
    requires ManifestOk(manifest, version, newLog, newLog + 1, last) && LastOk(manifest, [], [], last)
    requires EditsOk(Changes(manifest), version, newLog + 1)
    requires LogsOk(logs, [], [], false, NoWrite, newLog, newLog, newLog + 1)
    ensures var s := Db([], NoWrite, [], false, version, OneVersion(version), Idle, NoDump, {}, [], last, newLog + 1, newLog, newLog,
                        Disk(logs, manifest, tables), hist);
            Inv(s) && (Agrees(contents, hist, last) ==> Reads(s))
  {
    NothingElse(AllContents(version));
    NoMemtables(version);
    OneVersionCounted(version);
  }

  lemma NothingElse(A: set<Entry>)
    ensures Elems([]) + (Elems([]) + A) == A
  {
  }

  lemma NoMemtables(version: Version)
    ensures MemoryOk([], [], false) && AgesOk([], [], version) && SnapshotsOk([], 0)
  {
  }

  // ---------------------------------------------------------------------------------------------
  // Every reachable disk is recoverable
  // ---------------------------------------------------------------------------------------------

  lemma {:induction false} MaxSeqnoBounds(es: seq<Entry>)
    ensures forall e :: e in es ==> e.seqno <= MaxSeqno(es)
    ensures MaxSeqno(es) == 0 || exists e :: e in es && e.seqno == MaxSeqno(es)
    decreases |es|
  {
    if es != [] {
      MaxSeqnoBounds(es[..|es| - 1]);
      assert es == es[..|es| - 1] + [es[|es| - 1]];
    }
  }

  /** The live logs replay to the immutable memtable, the memtable and the group in flight. */
  lemma ReplayedEntries(logs: map<nat, seq<Group>>, mem: seq<Entry>, imm: seq<Entry>, hasImm: bool, inflight: Inflight,
                        minLog: nat, logNumber: nat, nextFile: nat, last: Seqno)
    requires LogsOk(logs, mem, imm, hasImm, inflight, minLog, logNumber, nextFile)
    requires InflightOk(inflight, last) && Older(Elems(imm), Elems(mem)) && UpTo(Elems(imm), last)
    ensures var order := if hasImm then [minLog, logNumber] else [logNumber];
            && (forall n :: n in order ==> n in logs)
            && LiveLogs(logs, minLog, order)
            && Ascending(FlatLogs(logs, order))
            && Elems(FlatLogs(logs, order)) ==
               (if hasImm then Elems(imm) else {}) + (Elems(mem) + Elems(InflightEntries(inflight)))
  {
    if hasImm {
      TwoLogs(logs, minLog, logNumber);
      ImmThenMem(logs, mem, imm, inflight, minLog, logNumber, nextFile, last);
    } else {
      OneLog(logs, logNumber);
      NoImm(Elems(mem) + Elems(InflightEntries(inflight)));
    }
  }

  lemma OneLog(logs: map<nat, seq<Group>>, n: nat)
    requires n in logs
    ensures Same(FlatLogs(logs, [n]), FlatRecords(logs[n]))
  {
    assert [n][..0] == [];
    assert [] + FlatRecords(logs[n]) == FlatRecords(logs[n]);
  }

  lemma TwoLogs(logs: map<nat, seq<Group>>, m: nat, n: nat)
    requires m in logs && n in logs
    ensures Same(FlatLogs(logs, [m, n]), FlatRecords(logs[m]) + FlatRecords(logs[n]))
  {
    assert [m, n][..1] == [m];
    OneLog(logs, m);
  }

  lemma NoImm(A: set<Entry>)
    ensures {} + A == A
  {
  }

  lemma ImmThenMem(logs: map<nat, seq<Group>>, mem: seq<Entry>, imm: seq<Entry>, inflight: Inflight,
                   minLog: nat, logNumber: nat, nextFile: nat, last: Seqno)
    requires LogsOk(logs, mem, imm, true, inflight, minLog, logNumber, nextFile)
    requires InflightOk(inflight, last) && Older(Elems(imm), Elems(mem)) && UpTo(Elems(imm), last)
    ensures var earlier, current := FlatRecords(logs[minLog]), FlatRecords(logs[logNumber]);
            Ascending(earlier + current) && Elems(earlier + current) == Elems(imm) + (Elems(mem) + Elems(InflightEntries(inflight)))
  {
    var earlier, current := FlatRecords(logs[minLog]), FlatRecords(logs[logNumber]);
    ElemsConcat(earlier, current);
    if inflight.Writing? {
      BatchIsNewer(inflight, last, Elems(imm));
    }
    assert Older(Elems(imm), Elems(InflightEntries(inflight)));
    AscendingConcat(earlier, current);
  }

  /** Replay finds the last sequence number that was used, or that of the last entry of a group already in the log. */
  lemma ReplayedLast(disk: Disk, es: seq<Entry>, mem: seq<Entry>, imm: seq<Entry>, inflight: Inflight, last: Seqno)
    requires LastOk(disk.manifest, mem, imm, last) && InflightOk(inflight, last)
    requires ReplayMeta(disk.manifest).last <= last && UpTo(Elems(mem) + Elems(imm), last)
    requires Elems(es) == Elems(imm) + (Elems(mem) + Elems(InflightEntries(inflight)))
    ensures RecoveredLast(disk, es) == last + |InflightEntries(inflight)|
    ensures UpTo(Elems(es), RecoveredLast(disk, es))
  {
    var batch := InflightEntries(inflight);
    if batch != [] {
      assert batch[|batch| - 1] in Elems(batch) && batch[|batch| - 1].seqno == last + |batch|;
    }
    MaxSeqnoBounds(es);
    forall e | e in Elems(es) ensures e.seqno <= last + |InflightEntries(inflight)| {
      if e in Elems(InflightEntries(inflight)) {
        var i :| 0 <= i < |InflightEntries(inflight)| && InflightEntries(inflight)[i] == e;
      }
    }
    if ReplayMeta(disk.manifest).last != last {
      var e :| (e in mem || e in imm) && e.seqno == last;
      assert e in Elems(es);
    }
  }

  /** What `hist` gains from the group in flight, if its record is in the log. */
  lemma SurvivorsHistory(stored: set<Entry>, hist: set<Entry>, inflight: Inflight, last: Seqno, last': Seqno)
    requires HistoryOk(stored, hist, last) && last <= last'
    requires InflightOk(inflight, last) && UpTo(Elems(InflightEntries(inflight)), last')
    ensures var B := Elems(InflightEntries(inflight));
            HistoryOk(stored + B, hist + B, last') && Older(stored, B) && Older(hist, B) && UniqueSeqnos(B)
  {
    if inflight.Writing? {
      BatchIsNewer(inflight, last, hist);
      AscendingUnique(inflight.batch);
    }
  }

  function LogOrder(s: Db): seq<nat> {
    if s.hasImm then [s.minLog, s.logNumber] else [s.logNumber]
  }

  /** `order` lists the live logs of the disk, and they replay to `es`. */
  ghost predicate Replays(disk: Disk, order: seq<nat>, es: seq<Entry>) {
    && ReplayMeta(disk.manifest).Meta?
    && (forall n :: n in order ==> n in disk.logs)
    && LiveLogs(disk.logs, ReplayMeta(disk.manifest).logNumber, order)
    && FlatLogs(disk.logs, order) == es
  }

  lemma CrashReplays(s: Db) returns (es: seq<Entry>)
    requires MemoryInv(s) && TablesInv(s)
    ensures Replays(s.disk, LogOrder(s), es) && Ascending(es)
    ensures Elems(es) == Elems(s.imm) + (Elems(s.mem) + Elems(InflightEntries(s.inflight)))
    ensures s.last + |InflightEntries(s.inflight)| == RecoveredLast(s.disk, es) < MAX_SEQUENCE && UpTo(Elems(es), RecoveredLast(s.disk, es))
  {
    var stored := Stored(s.mem, s.imm, s.version);
    assert UpTo(stored, s.last);
    ReplayedEntries(s.disk.logs, s.mem, s.imm, s.hasImm, s.inflight, s.minLog, s.logNumber, s.nextFile, s.last);
    es := FlatLogs(s.disk.logs, LogOrder(s));
    assert !s.hasImm ==> Elems(s.imm) == {};
    ReplayedLast(s.disk, es, s.mem, s.imm, s.inflight, s.last);
  }

  lemma CrashHistory(s: Db, es: seq<Entry>)
    requires HistoryOk(Stored(s.mem, s.imm, s.version), s.hist, s.last) && SnapshotsOk(s.snapshots, s.last)
    requires InflightOk(s.inflight, s.last) && ReplayMeta(s.disk.manifest).Meta?
    requires Elems(es) == Elems(s.imm) + (Elems(s.mem) + Elems(InflightEntries(s.inflight)))
    requires s.last <= RecoveredLast(s.disk, es) && UpTo(Elems(es), RecoveredLast(s.disk, es))
    ensures HistoryOk(AllContents(s.version) + Elems(es), Survivors(s), RecoveredLast(s.disk, es))
    ensures Reads(s) ==> Agrees(AllContents(s.version) + Elems(es), Survivors(s), RecoveredLast(s.disk, es))
  {
    var B, stored := Elems(InflightEntries(s.inflight)), Stored(s.mem, s.imm, s.version);
    SurvivorsHistory(stored, s.hist, s.inflight, s.last, RecoveredLast(s.disk, es));
    assert AllContents(s.version) + Elems(es) == stored + B;
    assert Survivors(s) == s.hist + B;
    if Reads(s) {
      NewerKeepsAgreement(stored, s.hist, B, SmallestSnapshot(s), RecoveredLast(s.disk, es));
    }
  }

  lemma CrashVersion(s: Db, es: seq<Entry>)
    requires VersionOk(s.version) && Backed(s.version, s.disk.tables, s.nextFile) && AgesOk(s.mem, s.imm, s.version)
    requires ManifestOk(s.disk.manifest, s.version, s.minLog, s.nextFile, s.last)
    requires InflightOk(s.inflight, s.last) && HistoryOk(Stored(s.mem, s.imm, s.version), s.hist, s.last)
    requires Elems(es) == Elems(s.imm) + (Elems(s.mem) + Elems(InflightEntries(s.inflight)))
    ensures RecoverableVersion(s.version, s.disk.tables, ReplayMeta(s.disk.manifest).nextFile, es)
  {
    var n := ReplayMeta(s.disk.manifest).nextFile;
    forall l, f | 0 <= l < |s.version| && f in s.version[l] ensures BackedFile(f, s.disk.tables, n) {
      assert BackedFile(f, s.disk.tables, s.nextFile);
    }
    assert UpTo(AllContents(s.version), s.last);
    if s.inflight.Writing? {
      BatchIsNewer(s.inflight, s.last, AllContents(s.version));
    }
  }

  /** What a crash leaves behind can be opened, whatever the store was doing. */
  lemma CrashRecoverable(s: Db) returns (es: seq<Entry>)
    requires Inv(s)
    ensures Replays(s.disk, LogOrder(s), es) && Recoverable(s.disk, es, Survivors(s))
    ensures RecoveredLast(s.disk, es) == s.last + |InflightEntries(s.inflight)|
    ensures Reads(s) ==> RecoverableReads(s.disk, es, Survivors(s))
  {
    es := CrashReplays(s);
    ListedBacked(s.versions, s.version, s.running, s.dumping, s.disk.tables, s.nextFile);
    CrashHistory(s, es);
    CrashVersion(s, es);
  }

  // ---------------------------------------------------------------------------------------------
  // Openings that are themselves cut short
  // ---------------------------------------------------------------------------------------------

  lemma {:induction false} TableMapNumbers(files: seq<File>)
    ensures forall n :: n in TableMap(files) ==> exists t :: t in files && t.number == n
    decreases |files|
  {
    if files != [] {
      var init, last := files[..|files| - 1], files[|files| - 1];
      assert files == init + [last];
      TableMapNumbers(init);
      forall n | n in TableMap(files) ensures exists t :: t in files && t.number == n {
        if n in TableMap(init) {
          var t :| t in init && t.number == n;
          assert t in files;
        } else {
          assert last in files;
        }
      }
    }
  }

  lemma AttemptTables(tables: map<nat, seq<Entry>>, files: seq<File>, v: Version, nextFile: nat)
    requires Backed(v, tables, nextFile) && forall t :: t in files ==> t.number > nextFile
    ensures Backed(v, AddTables(tables, files), nextFile)
  {
    TableMapNumbers(files);
    BackedGrows(v, tables, nextFile, AddTables(tables, files), nextFile);
  }

  lemma {:induction false} FlatLogsSame(logs: map<nat, seq<Group>>, logs': map<nat, seq<Group>>, order: seq<nat>)
    requires forall n :: n in order ==> n in logs && n in logs' && logs'[n] == logs[n]
    ensures FlatLogs(logs', order) == FlatLogs(logs, order)
    decreases |order|
  {
    if order != [] {
      assert order[|order| - 1] in order;
      FlatLogsSame(logs, logs', order[..|order| - 1]);
    }
  }

  /** The empty log such an opening may leave comes last and adds nothing. */
  lemma EmptyLogLast(logs: map<nat, seq<Group>>, minLog: nat, order: seq<nat>, n: nat)
    requires (forall k :: k in order ==> k in logs) && LiveLogs(logs, minLog, order)
    requires (forall k :: k in logs ==> k < n) && minLog <= n
    ensures var all, logs' := order + [n], logs[n := []];
            && (forall k :: k in all ==> k in logs') && LiveLogs(logs', minLog, all)
            && FlatLogs(logs', all) == FlatLogs(logs, order)
  {
    var all, logs' := order + [n], logs[n := []];
    assert all[..|order|] == order;
    assert FlatRecords([]) == [];
    forall k | k in order ensures k in logs' && logs'[k] == logs[k] {
      assert k < n;
    }
    FlatLogsSame(logs, logs', order);
    assert FlatLogs(logs, order) + [] == FlatLogs(logs, order);
  }

  lemma AttemptKeeps(disk: Disk, a: Attempt, order: seq<nat>, es: seq<Entry>, hist: set<Entry>) returns (order': seq<nat>)
    requires MayAttempt(disk, a) && Replays(disk, order, es) && Recoverable(disk, es, hist)
    ensures Replays(AfterAttempt(disk, a), order', es) && Recoverable(AfterAttempt(disk, a), es, hist)
    ensures AfterAttempt(disk, a).manifest == disk.manifest
  {
    var meta := ReplayMeta(disk.manifest);
    AttemptTables(disk.tables, a.tables, ReplayVersion(disk.manifest), meta.nextFile);
    if a.log.Just? {
      EmptyLogLast(disk.logs, meta.logNumber, order, a.log.value);
      order' := order + [a.log.value];
    } else {
      order' := order;
    }
  }

  /** However often opening fails before CURRENT is switched, the next one finds the same. */
  lemma {:induction false} AttemptsKeep(disk: Disk, attempts: seq<Attempt>, order: seq<nat>, es: seq<Entry>, hist: set<Entry>)
    returns (order': seq<nat>)
    requires MayAttempts(disk, attempts) && Replays(disk, order, es) && Recoverable(disk, es, hist)
    ensures Replays(AfterAttempts(disk, attempts), order', es) && Recoverable(AfterAttempts(disk, attempts), es, hist)
    ensures AfterAttempts(disk, attempts).manifest == disk.manifest
    decreases |attempts|
  {
    order' := order;
    if attempts != [] {
      order' := AttemptsKeep(disk, attempts[..|attempts| - 1], order, es, hist);
      order' := AttemptKeeps(AfterAttempts(disk, attempts[..|attempts| - 1]), attempts[|attempts| - 1], order', es, hist);
    }
  }

  /** There is only one way to list the live logs. */
  lemma {:induction false} OrderUnique(logs: map<nat, seq<Group>>, minLog: nat, a: seq<nat>, b: seq<nat>)
    requires LiveLogs(logs, minLog, a) && LiveLogs(logs, minLog, b)
    ensures a == b
  {
    SameAscending(a, b);
  }

  lemma HasElement(s: seq<nat>)
    ensures s != [] <==> exists n :: n in s
  {
    if s != [] {
      assert s[0] in s;
    }
  }

  lemma {:induction false} SameAscending(a: seq<nat>, b: seq<nat>)
    requires forall i, j :: 0 <= i < j < |a| ==> a[i] < a[j]
    requires forall i, j :: 0 <= i < j < |b| ==> b[i] < b[j]
    requires forall n :: n in a <==> n in b
    ensures a == b
    decreases |a|
  {
    if a == [] || b == [] {
      HasElement(a);
      HasElement(b);
    } else {
      var m, n := |a| - 1, |b| - 1;
      assert a[m] in b && b[n] in a;
      assert a[m] == b[n];
      forall k ensures k in a[..m] <==> k in b[..n] {
        assert k in a[..m] <==> k in a && k != a[m];
        assert k in b[..n] <==> k in b && k != b[n];
      }
      SameAscending(a[..m], b[..n]);
      assert a == a[..m] + [a[m]] && b == b[..n] + [b[n]];
    }
  }

  /** What every opening after a crash finds: the same entries, whichever attempts came before. */
  lemma CrashFinds(s: Db, a: Action) returns (es: seq<Entry>)
    requires Inv(s) && a.Crash? && Enabled(s, a)
    ensures es == Concat(a.groups) && RecoveredLast(s.disk, es) == s.last + |InflightEntries(s.inflight)|
    ensures AfterAttempts(s.disk, a.attempts).manifest == s.disk.manifest
    ensures Recoverable(AfterAttempts(s.disk, a.attempts), es, Survivors(s))
    ensures Reads(s) ==> RecoverableReads(AfterAttempts(s.disk, a.attempts), es, Survivors(s))
  {
    es := CrashRecoverable(s);
    var order := AttemptsKeep(s.disk, a.attempts, LogOrder(s), es, Survivors(s));
    OrderUnique(AfterAttempts(s.disk, a.attempts).logs, ReplayMeta(s.disk.manifest).logNumber, order, a.order);
  }

  /** Recovery keeps the invariant at every point of every run. */
  lemma CrashKeeps(s: Db, a: Action)
    requires Inv(s) && a.Crash? && Enabled(s, a)
    ensures Inv(Next(s, a)) && (Reads(s) ==> Reads(Next(s, a)))
  {
    var es := CrashFinds(s, a);
    RecoveredInv(AfterAttempts(s.disk, a.attempts), a.found, a.order, a.groups, a.tables, a.newLog, Survivors(s));
  }
}
