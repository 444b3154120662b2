/** The background thread keeps the invariant: dumps, compactions, trivial moves and file deletion. */
module StoreBackground {
  import opened InternalKeys
  import opened Memtables
  import opened Versions
  import opened VersionEdits
  import opened CompactionInputs
  import opened DropRules
  import opened Compactions
  import opened Dumps
  import opened Manifests
  import opened VersionLists
  import opened Values
  import opened Store
  import opened StoreInvariant
  import opened StoreWrites

  // ---------------------------------------------------------------------------------------------
  // Logging an edit
  // ---------------------------------------------------------------------------------------------

  lemma ManifestGrows(manifest: seq<Record>, version: Version, changes: FileChanges, minLog: nat, nextFile: nat, last: Seqno)
    requires ReplayVersion(manifest) == version && minLog < nextFile
    requires forall l, f :: 0 <= l < |version| && f in ApplyEdit(version, changes)[l] ==> f.number < nextFile
    ensures ManifestOk(manifest + [Record(changes, Meta(minLog, nextFile, last))], ApplyEdit(version, changes), minLog, nextFile, last)
    ensures forall mem, imm :: LastOk(manifest + [Record(changes, Meta(minLog, nextFile, last))], mem, imm, last)
  {
    ReplayAppend(manifest, Record(changes, Meta(minLog, nextFile, last)));
  }

  lemma NoChangesReplay(v: Version)
    ensures ApplyEdit(v, NO_CHANGES) == v
  {
    forall l | 0 <= l < |v| ensures ApplyLevel(v[l], NO_CHANGES, l) == v[l] {
      RemoveNothing(v[l]);
      assert DeletedAt(NO_CHANGES, l) - Numbers([]) == {};
    }
  }

  /** One more edit; `level` and `files` say what it adds. */
  lemma EditsAppend(manifest: seq<Record>, changes: FileChanges, meta: Meta)
    ensures Changes(manifest + [Record(changes, meta)]) == Changes(manifest) + [changes]
  {
    ReplayAppend(manifest, Record(changes, meta));
  }

  lemma DumpAdds(level: nat, f: File)
    ensures AddsOnlyAt(DumpChanges(level, f), level, [f])
  {
    assert DumpChanges(level, f).added == AddAt(level, [f]);
    forall l: nat | l < NUM_LEVELS ensures AddedFiles(DumpChanges(level, f).added, l) == if l == level then [f] else [] {
      AddedAt(level, [f], l);
    }
  }

  lemma CompactionAdds(c: Inputs, outputs: seq<File>)
    ensures AddsOnlyAt(CompactionChanges(c, outputs), c.level + 1, outputs)
  {
    forall l: nat | l < NUM_LEVELS
      ensures AddedFiles(CompactionChanges(c, outputs).added, l) == if l == c.level + 1 then outputs else []
    {
      AddedAt(c.level + 1, outputs, l);
    }
  }

  // ---------------------------------------------------------------------------------------------
  // The list of versions
  // ---------------------------------------------------------------------------------------------

  /** The list after `files` became the current version. */
  ghost predicate OneListed(l: VersionList, l': VersionList, files: Version) {
    forall id :: id in l'.nodes ==> l'.nodes[id].files == files || (id in l.nodes && l'.nodes[id].files == l.nodes[id].files)
  }

  lemma OneListedBacked(l: VersionList, l': VersionList, files: Version, tables: map<nat, seq<Entry>>, nextFile: nat)
    requires FilesOk(l, tables, nextFile) && OneListed(l, l', files) && Backed(files, tables, nextFile)
    ensures FilesOk(l', tables, nextFile)
  {
  }

  lemma OneListedUnused(l: VersionList, l': VersionList, files: Version, running: Running)
    requires OpenUnused(l, running) && OneListed(l, l', files)
    requires running.Compacting? && running.open.Just? ==> UnusedIn(files, running.open.value)
    ensures OpenUnused(l', running)
  {
  }

  lemma ListAppends(l: VersionList, files: Version, version: Version, running: Running, dumping: Dumping)
    requires ListOk(l, version, running, dumping)
    ensures OneListed(l, AppendVersion(l, files), files) && ListOk(AppendVersion(l, files), files, running, dumping)
  {
    AppendKeeps(l, files);
  }

  lemma DumpAcquires(l: VersionList, version: Version, running: Running, dumping: Dumping)
    requires ListOk(l, version, running, NoDump) && dumping.Dumping?
    ensures NoneListed(l, Acquire(l, DumpBase)) && ListOk(Acquire(l, DumpBase), version, running, dumping)
  {
    AcquireKeeps(l, DumpBase);
  }

  lemma DumpReleases(l: VersionList, version: Version, running: Running, dumping: Dumping)
    requires ListOk(l, version, running, dumping) && dumping.Dumping?
    ensures NoneListed(l, Release(l, DumpBase)) && ListOk(Release(l, DumpBase), version, running, NoDump)
  {
    ReleaseKeeps(l, DumpBase);
  }

  lemma PickAcquires(l: VersionList, version: Version, running: Running, dumping: Dumping)
    requires ListOk(l, version, Idle, dumping) && running.Compacting? && running.base == version
    ensures NoneListed(l, Acquire(l, CompactionInput)) && ListOk(Acquire(l, CompactionInput), version, running, dumping)
  {
    AcquireKeeps(l, CompactionInput);
  }

  lemma CompactionReleases(l: VersionList, version: Version, running: Running, dumping: Dumping)
    requires ListOk(l, version, running, dumping) && running.Compacting?
    ensures NoneListed(l, Release(l, CompactionInput)) && ListOk(Release(l, CompactionInput), version, Idle, dumping)
  {
    ReleaseKeeps(l, CompactionInput);
  }

  lemma SameWork(l: VersionList, version: Version, running: Running, running': Running, dumping: Dumping)
    requires ListOk(l, version, running, dumping) && running.Compacting? && running'.Compacting? && running'.base == running.base
    ensures ListOk(l, version, running', dumping)
  {
  }

  // ---------------------------------------------------------------------------------------------
  // Dumping the immutable memtable
  // ---------------------------------------------------------------------------------------------

  lemma BuildDumpKeeps(s: Db, size: nat)
    requires Inv(s) && Enabled(s, BuildDump(size))
    ensures Inv(Next(s, BuildDump(size)))
  {
    var t := Next(s, BuildDump(size));
    MemoryStays(s, t);
    BuildDumpTables(s, t);
  }

  lemma BuildDumpTables(s: Db, t: Db)
    requires TablesInv(s) && s.hasImm && s.dumping.NoDump?
    requires t == s.(dumping := t.dumping, nextFile := s.nextFile + 1, versions := Acquire(s.versions, DumpBase), disk := t.disk)
    requires t.dumping.Dumping? && t.dumping.number == s.nextFile
    requires t.disk == if s.imm == [] then s.disk else s.disk.(tables := s.disk.tables[s.nextFile := s.imm])
    ensures TablesInv(t)
  {
    assert SmallestSnapshot(t) == SmallestSnapshot(s);
    DumpAcquires(s.versions, s.version, s.running, t.dumping);
    FewerListed(s.versions, t.versions, s.running, s.disk.tables, s.nextFile);
    FilesGrow(t.versions, s.disk.tables, s.nextFile, t.disk.tables, t.nextFile);
    OutputsGrow(s.running, s.pending, s.disk.tables, s.nextFile, t.disk.tables, t.nextFile);
    ListedBacked(s.versions, s.version, s.running, s.dumping, s.disk.tables, s.nextFile);
    NewNumber(s.version, s.running, s.pending, s.disk.tables, s.nextFile);
    NewIsUnseen(Changes(s.disk.manifest), s.version, s.nextFile);
    EditsGrow(Changes(s.disk.manifest), s.version, s.nextFile, t.nextFile);
  }

  lemma NewIsUnseen(edits: seq<FileChanges>, version: Version, nextFile: nat)
    requires EditsOk(edits, version, nextFile)
    ensures !Seen(edits, nextFile)
  {
  }

  lemma NewNumber(version: Version, running: Running, pending: set<nat>, tables: map<nat, seq<Entry>>, nextFile: nat)
    requires Backed(version, tables, nextFile) && OutputsOk(running, pending, tables, nextFile)
    ensures forall l, f :: 0 <= l < |version| && f in version[l] ==> f.number < nextFile
    ensures running.Compacting? ==> Unlike(running, nextFile)
  {
    forall l, f | 0 <= l < |version| && f in version[l] ensures f.number < nextFile {
      assert BackedFile(f, tables, nextFile);
    }
    if running.Compacting? {
      forall f | f in running.outputs ensures f.number != nextFile {
        assert BackedFile(f, tables, nextFile);
      }
    }
  }

  lemma DumpedMayDump(version: Version, imm: Run, dumping: Dumping, level: nat, running: Running, hasImm: bool,
                      tables: map<nat, seq<Entry>>, nextFile: nat)
    requires SortedLevels(version) && Older(AllContents(version), Elems(imm)) && level < |version|
    requires dumping.Dumping? && DumpingOk(dumping, imm, hasImm, version, running, tables, nextFile)
    requires DumpAllowed(version, level, File(dumping.number, dumping.size, imm))
    ensures MayDump(version, level, File(dumping.number, dumping.size, imm))
  {
    PickedLevelIsFree(version, level, File(dumping.number, dumping.size, imm));
  }

  /** A running compaction after a dump: its inputs can still be installed, its output numbers are still free. */
  lemma RunningAfterDump(running: Running, version: Version, version': Version, smallest: Seqno, level: nat, f: File)
    requires RunningOk(running, version, smallest) && MayDump(version, level, f) && FilesAfterDump(version, version', level, f)
    requires running.Compacting? ==> Unlike(running, f.number)
    ensures RunningOk(running, version', smallest)
  {
    if running.Compacting? {
      DumpKeepsInstallable(running.base, version, version', running.c, level, f);
      FreshAfterDump(running, version, version', level, f);
      if running.open.Just? {
        UnusedAfterDump(version, version', running.outputs, level, f, running.open.value);
      }
    }
  }

  lemma FreshAfterDump(running: Running, version: Version, version': Version, level: nat, f: File)
    requires running.Compacting? && FreshOutputs(version, running.c, running.outputs) && FilesAfterDump(version, version', level, f)
    requires forall g :: g in running.outputs ==> g.number != f.number
    ensures FreshOutputs(version', running.c, running.outputs)
  {
    forall o, l, g: File | o in running.outputs && 0 <= l < |version'| && g in version'[l] && g.number == o.number
      ensures l == running.c.level && g in running.c.from
    {
      assert g in version[l] || g == f;
    }
  }

  lemma UnusedAfterDump(version: Version, version': Version, outputs: seq<File>, level: nat, f: File, n: nat)
    requires UnusedNumber(version, outputs, n) && FilesAfterDump(version, version', level, f) && n != f.number
    ensures UnusedNumber(version', outputs, n)
  {
    forall l, g: File | 0 <= l < |version'| && g in version'[l] ensures g.number != n {
      assert g in version[l] || g == f;
    }
  }

  lemma BackedAfterDump(version: Version, version': Version, level: nat, f: File, tables: map<nat, seq<Entry>>, nextFile: nat)
    requires Backed(version, tables, nextFile) && FilesAfterDump(version, version', level, f) && BackedFile(f, tables, nextFile)
    ensures Backed(version', tables, nextFile)
    ensures forall l, g :: 0 <= l < |version'| && g in version'[l] ==> g.number < nextFile
  {
    forall l, g: File | 0 <= l < |version'| && g in version'[l] ensures BackedFile(g, tables, nextFile) {
      assert g in version[l] || g == f;
    }
    forall l, g: File | 0 <= l < |version'| && g in version'[l] ensures g.number < nextFile {
      assert BackedFile(g, tables, nextFile);
    }
  }

  lemma AgesAfterDump(mem: seq<Entry>, imm: seq<Entry>, version: Version, version': Version)
    requires AgesOk(mem, imm, version) && AllContents(version') == AllContents(version) + Elems(imm)
    ensures AgesOk(mem, [], version')
    ensures Stored(mem, [], version') == Stored(mem, imm, version)
  {
  }

  lemma LogsAfterDump(logs: map<nat, seq<Group>>, mem: seq<Entry>, imm: seq<Entry>, inflight: Inflight,
                      minLog: nat, logNumber: nat, nextFile: nat)
    requires LogsOk(logs, mem, imm, true, inflight, minLog, logNumber, nextFile)
    ensures LogsOk(logs, mem, [], false, inflight, logNumber, logNumber, nextFile)
  {
  }

  lemma UnseenAfterDump(edits: seq<FileChanges>, e: FileChanges, level: nat, files: seq<File>, running: Running, dumping: Dumping)
    requires UnseenOk(edits, running, dumping) && AddsOnlyAt(e, level, files) && level < NUM_LEVELS
    requires running.Compacting? ==> forall f :: f in files ==> Unlike(running, f.number)
    ensures UnseenOk(edits + [e], running, NoDump)
  {
    if running.Compacting? {
      forall o | o in running.outputs ensures !Seen(edits + [e], o.number) {
        SeenStep(edits, e, level, files, o.number);
      }
      if running.open.Just? {
        SeenStep(edits, e, level, files, running.open.value);
      }
    }
  }

  lemma DumpedFilesFrom(w: Version, w': Version, level: nat, f: File)
    requires |w| == NUM_LEVELS && FilesAfterDump(w, w', level, f)
    ensures FilesFrom(w, w', level, [f])
  {
  }

  /** The manifest and the edits in it after a dump. */
  lemma EditsAfterDump(edits: seq<FileChanges>, w: Version, w': Version, level: nat, f: File, running: Running, dumping: Dumping, nextFile: nat)
    requires EditsOk(edits, w, nextFile) && UnseenOk(edits, running, dumping) && FilesAfterDump(w, w', level, f)
    requires dumping.Dumping? && f.number == dumping.number < nextFile && level < NUM_LEVELS
    requires running.Compacting? ==> Unlike(running, f.number)
    ensures EditsOk(edits + [DumpChanges(level, f)], w', nextFile)
    ensures UnseenOk(edits + [DumpChanges(level, f)], running, NoDump)
  {
    DumpAdds(level, f);
    DumpedFilesFrom(w, w', level, f);
    FreshKeepsEdits(edits, DumpChanges(level, f), w, w', level, [f], nextFile, nextFile);
    UnseenAfterDump(edits, DumpChanges(level, f), level, [f], running, dumping);
  }

  lemma ListAfterDump(l: VersionList, version: Version, version': Version, running: Running, dumping: Dumping,
                      tables: map<nat, seq<Entry>>, nextFile: nat)
    requires ListOk(l, version, running, dumping) && dumping.Dumping?
    requires FilesOk(l, tables, nextFile) && Backed(version', tables, nextFile) && OpenUnused(l, running)
    requires running.Compacting? && running.open.Just? ==> UnusedIn(version', running.open.value)
    ensures var l' := AppendVersion(Release(l, DumpBase), version');
            ListOk(l', version', running, NoDump) && FilesOk(l', tables, nextFile) && OpenUnused(l', running)
  {
    DumpReleases(l, version, running, dumping);
    var r := Release(l, DumpBase);
    FewerListed(l, r, running, tables, nextFile);
    ListAppends(r, version', version, running, NoDump);
    OneListedBacked(r, AppendVersion(r, version'), version', tables, nextFile);
    OneListedUnused(r, AppendVersion(r, version'), version', running);
  }

  /** What a dump of entries does to the version and to a running compaction. */
  lemma DumpVersion(s: Db, level: nat, f: File)
    requires Inv(s) && Enabled(s, CommitDump(level)) && s.imm != [] && f == File(s.dumping.number, s.dumping.size, s.imm)
    ensures var v' := ApplyEdit(s.version, DumpChanges(level, f));
            && VersionOk(v') && FilesAfterDump(s.version, v', level, f) && MayDump(s.version, level, f)
            && RunningOk(s.running, v', SmallestSnapshot(s))
            && Backed(v', s.disk.tables, s.nextFile)
            && forall l, g :: 0 <= l < |v'| && g in v'[l] ==> g.number < s.nextFile
  {
    var v' := ApplyEdit(s.version, DumpChanges(level, f));
    DumpedMayDump(s.version, s.imm, s.dumping, level, s.running, s.hasImm, s.disk.tables, s.nextFile);
    DumpKeepsValid(s.version, level, f);
    RunningAfterDump(s.running, s.version, v', SmallestSnapshot(s), level, f);
    ListedBacked(s.versions, s.version, s.running, s.dumping, s.disk.tables, s.nextFile);
    BackedAfterDump(s.version, v', level, f, s.disk.tables, s.nextFile);
  }

  lemma CommitDumpTables(s: Db, level: nat)
    requires Inv(s) && Enabled(s, CommitDump(level)) && s.imm != []
    ensures TablesInv(Next(s, CommitDump(level)))
  {
    var t := Next(s, CommitDump(level));
    assert SmallestSnapshot(t) == SmallestSnapshot(s);
    var f := File(s.dumping.number, s.dumping.size, s.imm);
    DumpVersion(s, level, f);
    ListAfterDump(s.versions, s.version, t.version, s.running, s.dumping, s.disk.tables, s.nextFile);
    EditsAfterDump(Changes(s.disk.manifest), s.version, t.version, level, f, s.running, s.dumping, s.nextFile);
    EditsAppend(s.disk.manifest, DumpChanges(level, f), Meta(s.logNumber, s.nextFile, s.last));
    ManifestGrows(s.disk.manifest, s.version, DumpChanges(level, f), s.logNumber, s.nextFile, s.last);
  }

  lemma CommitDumpMemory(s: Db, level: nat)
    requires Inv(s) && Enabled(s, CommitDump(level)) && s.imm != []
    ensures MemoryInv(Next(s, CommitDump(level)))
    ensures Same(Stored(s.mem, s.imm, s.version), Stored(s.mem, [], Next(s, CommitDump(level)).version))
  {
    var t := Next(s, CommitDump(level));
    var f := File(s.dumping.number, s.dumping.size, s.imm);
    LogsAfterDump(s.disk.logs, s.mem, s.imm, s.inflight, s.minLog, s.logNumber, s.nextFile);
    DumpFiles(s.version, level, f);
    DumpContents(s.version, t.version, level, f);
    AgesAfterDump(s.mem, s.imm, s.version, t.version);
    ReplayAppend(s.disk.manifest, Record(DumpChanges(level, f), Meta(s.logNumber, s.nextFile, s.last)));
  }

  /** An empty memtable leaves no table behind, and the version as it is. */
  lemma EmptyDumpKeeps(s: Db, level: nat)
    requires Inv(s) && Enabled(s, CommitDump(level)) && s.imm == []
    ensures Inv(Next(s, CommitDump(level))) && Same(Next(s, CommitDump(level)).version, s.version)
  {
    var t := Next(s, CommitDump(level));
    NoChangesReplay(s.version);
    LogsAfterDump(s.disk.logs, s.mem, s.imm, s.inflight, s.minLog, s.logNumber, s.nextFile);
    ReplayAppend(s.disk.manifest, Record(NO_CHANGES, Meta(s.logNumber, s.nextFile, s.last)));
    EmptyDumpTables(s, t);
  }

  lemma EmptyDumpTables(s: Db, t: Db)
    requires TablesInv(s) && s.dumping.Dumping? && s.imm == [] && s.logNumber < s.nextFile
    requires ApplyEdit(s.version, NO_CHANGES) == s.version
    requires t == LogAndApply(s.(versions := Release(s.versions, DumpBase)), NO_CHANGES, s.logNumber)
                    .(imm := [], hasImm := false, dumping := NoDump)
    ensures TablesInv(t)
  {
    assert SmallestSnapshot(t) == SmallestSnapshot(s);
    ListedBacked(s.versions, s.version, s.running, s.dumping, s.disk.tables, s.nextFile);
    NewNumber(s.version, s.running, s.pending, s.disk.tables, s.nextFile);
    ManifestGrows(s.disk.manifest, s.version, NO_CHANGES, s.logNumber, s.nextFile, s.last);
    ListAfterDump(s.versions, s.version, s.version, s.running, s.dumping, s.disk.tables, s.nextFile);
    NoEdits(Changes(s.disk.manifest), s.version, s.running, s.dumping, s.nextFile);
    EditsAppend(s.disk.manifest, NO_CHANGES, Meta(s.logNumber, s.nextFile, s.last));
  }

  lemma NoEdits(edits: seq<FileChanges>, version: Version, running: Running, dumping: Dumping, nextFile: nat)
    requires EditsOk(edits, version, nextFile) && UnseenOk(edits, running, dumping)
    ensures EditsOk(edits + [NO_CHANGES], version, nextFile) && UnseenOk(edits + [NO_CHANGES], running, NoDump)
  {
    NothingKeepsEdits(edits, NO_CHANGES, version, nextFile, nextFile);
    UnseenAfterDump(edits, NO_CHANGES, 0, [], running, dumping);
  }

  lemma CommitDumpKeeps(s: Db, level: nat)
    requires Inv(s) && Enabled(s, CommitDump(level))
    ensures Inv(Next(s, CommitDump(level)))
  {
    if s.imm == [] {
      EmptyDumpKeeps(s, level);
    } else {
      CommitDumpTables(s, level);
      CommitDumpMemory(s, level);
    }
  }

  lemma CommitDumpReads(s: Db, level: nat)
    requires Inv(s) && Reads(s) && Enabled(s, CommitDump(level))
    ensures Reads(Next(s, CommitDump(level)))
  {
    assert SmallestSnapshot(Next(s, CommitDump(level))) == SmallestSnapshot(s);
    if s.imm == [] {
      EmptyDumpKeeps(s, level);
    } else {
      CommitDumpMemory(s, level);
    }
  }

  // ---------------------------------------------------------------------------------------------
  // Picking the inputs of a compaction and writing its outputs
  // ---------------------------------------------------------------------------------------------

  lemma RunningAtFirst(version: Version, c: Inputs, snap: Seqno, input: seq<Entry>, hist: set<Entry>)
    requires SortedLevels(version) && WellChosen(version, c) && Sorted(input) && Elems(input) == InputEntries(c)
    requires AllContents(version) <= hist && UniqueSeqnos(hist) && snap < MAX_SEQUENCE
    ensures RunningOk(Compacting(c, version, snap, input, Kept(version, c.level, input, snap), 0, [], Nothing), version, snap)
  {
    WellChosenInstallable(version, c);
    BaseHoldsAtFirst(version, c);
  }

  lemma PickKeeps(s: Db, c: Inputs, input: seq<Entry>)
    requires Inv(s) && Enabled(s, Pick(c, input))
    ensures Inv(Next(s, Pick(c, input)))
  {
    var t := Next(s, Pick(c, input));
    RunningAtFirst(s.version, c, SmallestSnapshot(s), input, s.hist);
    MemoryStays(s, t);
    PickTables(s, t);
  }

  lemma PickTables(s: Db, t: Db)
    requires TablesInv(s) && s.running.Idle? && s.dumping.NoDump?
    requires t == s.(running := t.running, versions := Acquire(s.versions, CompactionInput))
    requires t.running.Compacting? && t.running.base == s.version && t.running.outputs == [] && t.running.open.Nothing?
    requires RunningOk(t.running, s.version, SmallestSnapshot(s))
    ensures TablesInv(t)
  {
    assert SmallestSnapshot(t) == SmallestSnapshot(s);
    PickAcquires(s.versions, s.version, t.running, s.dumping);
    FewerListed(s.versions, t.versions, s.running, s.disk.tables, s.nextFile);
  }

  /** Nothing but the outputs of the running compaction and the tables on disk changes. */
  lemma OnlyOutputsChange(s: Db, t: Db)
    requires Inv(s) && s.dumping.NoDump? && s.running.Compacting? && s.nextFile <= t.nextFile
    requires t == s.(running := t.running, nextFile := t.nextFile, pending := t.pending, disk := s.disk.(tables := t.disk.tables))
    requires t.running.Compacting? && t.running.base == s.running.base
    requires RunningOk(t.running, s.version, SmallestSnapshot(s))
    requires FilesOk(s.versions, t.disk.tables, t.nextFile) && OutputsOk(t.running, t.pending, t.disk.tables, t.nextFile)
    requires UnseenOk(Changes(s.disk.manifest), t.running, NoDump) && OpenUnused(s.versions, t.running)
    ensures Inv(t)
  {
    assert SmallestSnapshot(t) == SmallestSnapshot(s);
    MemoryStays(s, t);
    SameWork(s.versions, s.version, s.running, t.running, s.dumping);
    EditsGrow(Changes(s.disk.manifest), s.version, s.nextFile, t.nextFile);
  }

  lemma OpenOutputKeeps(s: Db)
    requires Inv(s) && Enabled(s, OpenOutput)
    ensures Inv(Next(s, OpenOutput))
  {
    var t := Next(s, OpenOutput);
    FilesGrow(s.versions, s.disk.tables, s.nextFile, t.disk.tables, t.nextFile);
    OpenedOutputs(s.running, s.pending, s.disk.tables, s.nextFile);
    ListedBacked(s.versions, s.version, s.running, s.dumping, s.disk.tables, s.nextFile);
    NewNumber(s.version, s.running, s.pending, s.disk.tables, s.nextFile);
    RunningWithOpen(s.running, s.version, SmallestSnapshot(s), s.nextFile);
    NewIsUnseen(Changes(s.disk.manifest), s.version, s.nextFile);
    NewIsUnused(s.versions, s.disk.tables, s.nextFile);
    OnlyOutputsChange(s, t);
  }

  lemma OpenedOutputs(r: Running, pending: set<nat>, tables: map<nat, seq<Entry>>, n: nat)
    requires r.Compacting? && OutputsOk(r, pending, tables, n)
    ensures OutputsOk(r.(open := Just(n)), pending + {n}, tables[n := []], n + 1)
  {
    forall f | f in r.outputs ensures BackedFile(f, tables[n := []], n + 1) && f.number in pending + {n} {
      assert BackedFile(f, tables, n);
    }
  }

  lemma RunningWithOpen(r: Running, version: Version, smallest: Seqno, n: nat)
    requires r.Compacting? && RunningOk(r, version, smallest) && Unlike(r, n)
    requires forall l, f :: 0 <= l < |version| && f in version[l] ==> f.number < n
    ensures RunningOk(r.(open := Just(n)), version, smallest)
  {
  }

  lemma ConcatAppend(files: seq<File>, f: File)
    ensures ConcatFiles(files + [f]) == ConcatFiles(files) + f.entries
  {
    assert (files + [f])[..|files|] == files;
  }

  lemma RunningAfterOutput(r: Running, r': Running, version: Version, smallest: Seqno, count: nat, size: nat)
    requires r.Compacting? && r.open.Just? && RunningOk(r, version, smallest)
    requires 0 < count && r.pos + count <= |r.kept| && Sorted(r.kept)
    requires r' == Emitted(r, count, size)
    ensures RunningOk(r', version, smallest)
  {
    var f := r'.outputs[|r.outputs|];
    ConcatAppend(r.outputs, f);
    assert r'.kept[..r'.pos] == r.kept[..r.pos] + f.entries;
    FreshAppend(version, r.c, r.outputs, f);
  }

  lemma FreshAppend(version: Version, c: Inputs, outputs: seq<File>, f: File)
    requires FreshOutputs(version, c, outputs) && UnusedNumber(version, outputs, f.number)
    ensures FreshOutputs(version, c, outputs + [f])
  {
    var all := outputs + [f];
    forall i, j | 0 <= i < j < |all| ensures all[i].number != all[j].number {
      assert j == |outputs| ==> all[i] in outputs;
    }
  }

  lemma FinishOutputKeeps(s: Db, count: nat, size: nat)
    requires Inv(s) && Enabled(s, FinishOutput(count, size))
    ensures Inv(Next(s, FinishOutput(count, size)))
  {
    var f := FinishedOutput(s, count, size);
    OutputFinished(s, Next(s, FinishOutput(count, size)), count, size, f);
  }

  lemma FinishedOutput(s: Db, count: nat, size: nat) returns (f: File)
    requires Enabled(s, FinishOutput(count, size))
    ensures var t := Next(s, FinishOutput(count, size));
            && s.running.open == Just(f.number)
            && t.running == Emitted(s.running, count, size) && t.running.outputs == s.running.outputs + [f]
            && t.disk.tables == Overwrite(s.disk.tables, f.number, f.entries)
            && t == s.(running := t.running, disk := s.disk.(tables := t.disk.tables))
  {
    f := Next(s, FinishOutput(count, size)).running.outputs[|s.running.outputs|];
  }

  lemma OutputFinished(s: Db, t: Db, count: nat, size: nat, f: File)
    requires Inv(s) && s.dumping.NoDump? && s.running.Compacting? && s.running.open == Just(f.number)
    requires 0 < count && s.running.pos + count <= |s.running.kept| && Sorted(s.running.kept)
    requires t.running == Emitted(s.running, count, size) && t.running.outputs == s.running.outputs + [f]
    requires t.disk.tables == Overwrite(s.disk.tables, f.number, f.entries)
    requires t == s.(running := t.running, disk := s.disk.(tables := t.disk.tables))
    ensures Inv(t)
  {
    RunningAfterOutput(s.running, t.running, s.version, SmallestSnapshot(s), count, size);
    FinishedOutputs(s, t.running, f, t.disk.tables);
    OnlyOutputsChange(s, t);
  }

  lemma NewIsUnused(l: VersionList, tables: map<nat, seq<Entry>>, nextFile: nat)
    requires FilesOk(l, tables, nextFile)
    ensures forall id :: id in l.nodes ==> UnusedIn(l.nodes[id].files, nextFile)
  {
    forall id | id in l.nodes ensures UnusedIn(l.nodes[id].files, nextFile) {
      var v := l.nodes[id].files;
      forall m, f: File | 0 <= m < |v| && f in v[m] ensures f.number != nextFile {
        assert BackedFile(f, tables, nextFile);
      }
    }
  }

  /** The file being written belongs to no version and is none of the finished outputs. */
  lemma FinishedOutputs(s: Db, r: Running, f: File, tables: map<nat, seq<Entry>>)
    requires TablesInv(s) && s.dumping.NoDump? && s.running.Compacting? && s.running.open == Just(f.number)
    requires r.Compacting? && r.outputs == s.running.outputs + [f] && r.open == Nothing
    requires tables == Overwrite(s.disk.tables, f.number, f.entries)
    ensures FilesOk(s.versions, tables, s.nextFile) && OutputsOk(r, s.pending, tables, s.nextFile)
    ensures UnseenOk(Changes(s.disk.manifest), r, NoDump)
  {
    FilesAfterWrite(s.versions, s.disk.tables, s.nextFile, f.number, f.entries);
    OutputsAfterWrite(s.running, r, s.pending, s.disk.tables, s.nextFile, f);
    UnseenAfterWrite(Changes(s.disk.manifest), s.running, r, f);
  }

  lemma FilesAfterWrite(l: VersionList, tables: map<nat, seq<Entry>>, nextFile: nat, n: nat, entries: seq<Entry>)
    requires FilesOk(l, tables, nextFile) && forall id :: id in l.nodes ==> UnusedIn(l.nodes[id].files, n)
    ensures FilesOk(l, tables[n := entries], nextFile)
  {
    forall id | id in l.nodes ensures Backed(l.nodes[id].files, tables[n := entries], nextFile) {
      var v := l.nodes[id].files;
      assert UnusedIn(v, n) && Backed(v, tables, nextFile);
      forall m, f: File | 0 <= m < |v| && f in v[m] ensures BackedFile(f, tables[n := entries], nextFile) {
        assert BackedFile(f, tables, nextFile);
      }
    }
  }

  lemma OutputsAfterWrite(r: Running, r': Running, pending: set<nat>, tables: map<nat, seq<Entry>>, nextFile: nat, f: File)
    requires r.Compacting? && r.open == Just(f.number) && OutputsOk(r, pending, tables, nextFile)
    requires forall g :: g in r.outputs ==> g.number != f.number
    requires r'.Compacting? && r'.outputs == r.outputs + [f] && r'.open == Nothing
    ensures OutputsOk(r', pending, tables[f.number := f.entries], nextFile)
  {
    forall g | g in r'.outputs ensures BackedFile(g, tables[f.number := f.entries], nextFile) && g.number in pending {
      assert g in r.outputs ==> BackedFile(g, tables, nextFile);
    }
  }

  lemma UnseenAfterWrite(edits: seq<FileChanges>, r: Running, r': Running, f: File)
    requires UnseenOk(edits, r, NoDump) && r.Compacting? && r.open.Just? && f.number == r.open.value
    requires r'.Compacting? && r'.outputs == r.outputs + [f] && r'.open == Nothing
    ensures UnseenOk(edits, r', NoDump)
  {
  }

  // ---------------------------------------------------------------------------------------------
  // Installing a compaction
  // ---------------------------------------------------------------------------------------------

  lemma {:induction false} ConcatMembers(files: seq<File>)
    ensures Contents(files) == Elems(ConcatFiles(files))
    decreases |files|
  {
    if files != [] {
      var init, last := files[..|files| - 1], files[|files| - 1];
      assert files == init + [last];
      ConcatMembers(init);
      forall e ensures e in Contents(files) <==> e in Contents(init) || e in last.entries {
      }
    }
  }

  lemma {:induction false} ConcatSortedDisjoint(files: seq<File>)
    requires Sorted(ConcatFiles(files))
    ensures SortedDisjoint(files)
    decreases |files|
  {
    if files != [] {
      var init, last := files[..|files| - 1], files[|files| - 1];
      var es := ConcatFiles(init);
      assert ConcatFiles(files)[..|es|] == es;
      assert forall i, j :: 0 <= i < j < |es| ==> Less(ConcatFiles(files)[i].Key(), ConcatFiles(files)[j].Key());
      ConcatSortedDisjoint(init);
      forall i | 0 <= i < |init| ensures Precedes(init[i], last) {
        LastBeforeRest(init, last, i);
      }
    }
  }

  lemma LastBeforeRest(init: seq<File>, last: File, i: nat)
    requires i < |init| && Sorted(ConcatFiles(init) + last.entries)
    ensures Precedes(init[i], last)
  {
    var es := ConcatFiles(init);
    var e := init[i].entries[|init[i].entries| - 1];
    InContents(init, init[i], e);
    ConcatMembers(init);
    var k :| 0 <= k < |es| && es[k] == e;
    assert (es + last.entries)[k] == e && (es + last.entries)[|es|] == last.entries[0];
  }

  lemma InputDistinct(input: seq<Entry>, hist: set<Entry>)
    requires Sorted(input) && Elems(input) <= hist && UniqueSeqnos(hist)
    ensures DistinctSeqnos(input)
  {
    forall i, j | 0 <= i < j < |input| && input[i].user == input[j].user ensures input[i].seqno != input[j].seqno {
      assert input[i] in Elems(input) && input[j] in Elems(input);
      assert Less(input[i].Key(), input[j].Key());
    }
  }

  /** The outputs of a finished compaction hold exactly the survivors of its inputs. */
  lemma OutputsOfCompaction(r: Running, version: Version, smallest: Seqno, hist: set<Entry>)
    requires r.Compacting? && RunningOk(r, version, smallest) && r.pos == |r.kept|
    requires AllContents(version) <= hist && UniqueSeqnos(hist)
    ensures SortedDisjoint(r.outputs) && Contents(r.outputs) <= InputEntries(r.c)
    ensures KeepsSurvivors(r.base, r.c.level, InputEntries(r.c), Contents(r.outputs), r.snap)
  {
    assert r.kept[..r.pos] == r.kept;
    KeptSorted(r.base, r.c.level, r.input, r.snap);
    ConcatSortedDisjoint(r.outputs);
    ConcatMembers(r.outputs);
    ContentsBefore(version, r.c);
    InputDistinct(r.input, hist);
    forall e ensures e in Contents(r.outputs) <==> Survives(r.base, r.c.level, InputEntries(r.c), e, r.snap) {
      KeptSurvive(r.base, r.c.level, r.input, r.snap, e);
    }
  }

  lemma BackedAfterCompaction(w: Version, w': Version, c: Inputs, outputs: seq<File>, tables: map<nat, seq<Entry>>, nextFile: nat)
    requires FilesAfter(w, w', c, outputs) && Backed(w, tables, nextFile)
    requires forall f :: f in outputs ==> BackedFile(f, tables, nextFile)
    ensures Backed(w', tables, nextFile)
    ensures forall l, g :: 0 <= l < |w'| && g in w'[l] ==> g.number < nextFile
  {
    forall l, g: File | 0 <= l < |w'| && g in w'[l] ensures BackedFile(g, tables, nextFile) {
      assert Stays(w, c, l, g) || g in outputs;
    }
    forall l, g: File | 0 <= l < |w'| && g in w'[l] ensures g.number < nextFile {
      assert BackedFile(g, tables, nextFile);
    }
  }

  lemma FewerContents(mem: seq<Entry>, imm: seq<Entry>, version: Version, version': Version, hist: set<Entry>, last: Seqno)
    requires AgesOk(mem, imm, version) && HistoryOk(Stored(mem, imm, version), hist, last)
    requires AllContents(version') <= AllContents(version)
    ensures AgesOk(mem, imm, version') && HistoryOk(Stored(mem, imm, version'), hist, last)
  {
  }

  /** Where no deleted value comes back, the history is still what is read. */
  lemma AgreesAfterDrops(v: Version, level: nat, R: set<Entry>, I: set<Entry>, K: set<Entry>, hist: set<Entry>, snap: Seqno, lo: Seqno)
    requires Agrees(R + I, hist, lo) && snap <= lo
    requires UniqueSeqnos(R + I) && KeepsSurvivors(v, level, I, K, snap)
    requires forall u :: !Resurrects(v, level, R, I, snap, u)
    ensures Agrees(R + K, hist, lo)
  {
    forall u: UserKey, s: Seqno | lo <= s ensures SameAnswer(R + K, hist, u, s) {
      KeepsAnswer(v, level, R, I, K, snap, u, s);
      SameAnswerThrough(R + I, R + K, hist, u, s);
    }
  }

  lemma SameAnswerThrough(A: set<Entry>, B: set<Entry>, C: set<Entry>, u: UserKey, s: Seqno)
    requires SameAnswer(A, B, u, s) && SameAnswer(A, C, u, s)
    ensures SameAnswer(B, C, u, s)
  {
    var h := NewestExists(A, u, s);
  }

  lemma StoredSplit(mem: seq<Entry>, imm: seq<Entry>, w: Version, w': Version, c: Inputs, outputs: seq<File>)
    requires InputsPresent(w, c) && FilesAfter(w, w', c, outputs)
    ensures Stored(mem, imm, w) == Elems(mem) + Elems(imm) + Rest(w, c) + InputEntries(c)
    ensures Stored(mem, imm, w') == Elems(mem) + Elems(imm) + Rest(w, c) + Contents(outputs)
  {
    ContentsBefore(w, c);
    ContentsAfter(w, w', c, outputs);
  }

  lemma CompactedFilesFrom(w: Version, w': Version, c: Inputs, outputs: seq<File>)
    requires |w| == NUM_LEVELS && FilesAfter(w, w', c, outputs)
    ensures FilesFrom(w, w', c.level + 1, outputs)
  {
    forall l: nat, g: File | l < NUM_LEVELS && g in w'[l] ensures g in w[l] || (l == c.level + 1 && g in outputs) {
      assert Stays(w, c, l, g) || (l == c.level + 1 && g in outputs);
    }
  }

  lemma EditsAfterCompaction(edits: seq<FileChanges>, w: Version, w': Version, r: Running, tables: map<nat, seq<Entry>>,
                             pending: set<nat>, nextFile: nat)
    requires EditsOk(edits, w, nextFile) && r.Compacting? && UnseenOk(edits, r, NoDump) && OutputsOk(r, pending, tables, nextFile)
    requires r.c.level + 1 < NUM_LEVELS && FreshOutputs(w, r.c, r.outputs) && FilesAfter(w, w', r.c, r.outputs)
    ensures EditsOk(edits + [CompactionChanges(r.c, r.outputs)], w', nextFile)
  {
    CompactionAdds(r.c, r.outputs);
    CompactedFilesFrom(w, w', r.c, r.outputs);
    forall f | f in r.outputs ensures f.number < nextFile {
      assert BackedFile(f, tables, nextFile);
    }
    FreshKeepsEdits(edits, CompactionChanges(r.c, r.outputs), w, w', r.c.level + 1, r.outputs, nextFile, nextFile);
  }

  lemma ListAfterCompaction(l: VersionList, version: Version, version': Version, running: Running, tables: map<nat, seq<Entry>>, nextFile: nat)
    requires ListOk(l, version, running, NoDump) && running.Compacting? && FilesOk(l, tables, nextFile)
    requires Backed(version', tables, nextFile)
    ensures var l' := Release(AppendVersion(l, version'), CompactionInput);
            ListOk(l', version', Idle, NoDump) && FilesOk(l', tables, nextFile)
  {
    ListAppends(l, version', version, running, NoDump);
    var r := AppendVersion(l, version');
    OneListedBacked(l, r, version', tables, nextFile);
    CompactionReleases(r, version', running, NoDump);
    FewerListed(r, Release(r, CompactionInput), Idle, tables, nextFile);
  }

  /** What a finished compaction does to the version. */
  lemma FinishVersion(s: Db)
    requires Inv(s) && Enabled(s, Finish) && KeepsLevels(s, Finish)
    ensures var v' := ApplyEdit(s.version, CompactionChanges(s.running.c, s.running.outputs));
            && VersionOk(v') && Backed(v', s.disk.tables, s.nextFile)
            && FilesAfter(s.version, v', s.running.c, s.running.outputs)
            && forall l, g :: 0 <= l < |v'| && g in v'[l] ==> g.number < s.nextFile
  {
    var r := s.running;
    assert AllContents(s.version) <= s.hist;
    OutputsOfCompaction(r, s.version, SmallestSnapshot(s), s.hist);
    CompactionKeepsValid(s.version, r.c, r.outputs);
    ListedBacked(s.versions, s.version, s.running, s.dumping, s.disk.tables, s.nextFile);
    BackedAfterCompaction(s.version, ApplyEdit(s.version, CompactionChanges(r.c, r.outputs)), r.c, r.outputs, s.disk.tables, s.nextFile);
  }

  lemma FinishTables(s: Db)
    requires Inv(s) && Enabled(s, Finish) && KeepsLevels(s, Finish)
    ensures TablesInv(Next(s, Finish))
    ensures LastOk(Next(s, Finish).disk.manifest, s.mem, s.imm, s.last)
  {
    var t, r := Next(s, Finish), s.running;
    var changes := CompactionChanges(r.c, r.outputs);
    assert SmallestSnapshot(t) == SmallestSnapshot(s);
    FinishVersion(s);
    ListAfterCompaction(s.versions, s.version, t.version, r, s.disk.tables, s.nextFile);
    EditsAfterCompaction(Changes(s.disk.manifest), s.version, t.version, r, s.disk.tables, s.pending, s.nextFile);
    EditsAppend(s.disk.manifest, changes, Meta(s.minLog, s.nextFile, s.last));
    ManifestGrows(s.disk.manifest, s.version, changes, s.minLog, s.nextFile, s.last);
  }

  lemma FinishContents(s: Db)
    requires Inv(s) && Enabled(s, Finish) && KeepsLevels(s, Finish)
    ensures var t := Next(s, Finish);
            && AllContents(t.version) <= AllContents(s.version)
            && FilesAfter(s.version, t.version, s.running.c, s.running.outputs)
            && KeepsSurvivors(s.running.base, s.running.c.level, InputEntries(s.running.c), Contents(s.running.outputs), s.running.snap)
  {
    var t, r := Next(s, Finish), s.running;
    FinishVersion(s);
    assert AllContents(s.version) <= s.hist;
    OutputsOfCompaction(r, s.version, SmallestSnapshot(s), s.hist);
    ContentsBefore(s.version, r.c);
    ContentsAfter(s.version, t.version, r.c, r.outputs);
  }

  lemma FinishKeeps(s: Db)
    requires Inv(s) && Enabled(s, Finish) && KeepsLevels(s, Finish)
    ensures Inv(Next(s, Finish))
  {
    var t := Next(s, Finish);
    FinishTables(s);
    FinishContents(s);
    FewerContents(s.mem, s.imm, s.version, t.version, s.hist, s.last);
  }

  /** Finishing keeps the levels sorted and disjoint exactly when no output surrounds a file that stays. */
  lemma FinishKeepsLevelsIff(s: Db)
    requires Inv(s) && Enabled(s, Finish)
    ensures SortedLevels(Next(s, Finish).version) <==> KeepsLevels(s, Finish)
  {
    assert AllContents(s.version) <= s.hist;
    OutputsOfCompaction(s.running, s.version, SmallestSnapshot(s), s.hist);
    SortedLevelsAfterIff(s.version, s.running.c, s.running.outputs);
  }

  lemma AboveIsNewer(mem: seq<Entry>, imm: seq<Entry>, version: Version, hist: set<Entry>, last: Seqno)
    requires AgesOk(mem, imm, version) && HistoryOk(Stored(mem, imm, version), hist, last)
    ensures var above := Elems(mem) + Elems(imm);
            Layered(above, AllContents(version)) && UniqueSeqnos(above + AllContents(version))
  {
    assert Elems(mem) + Elems(imm) + AllContents(version) <= hist;
  }

  /** Everything that is read outside the running compaction. */
  ghost function Outside(s: Db): set<Entry>
    requires s.running.Compacting?
  {
    Elems(s.mem) + Elems(s.imm) + Rest(s.version, s.running.c)
  }

  /** Where no boundary file was left out, no deleted value comes back. */
  lemma NothingResurrects(s: Db, u: UserKey)
    requires Inv(s) && s.running.Compacting? && NothingLeftOut(s.version, s.running.c)
    ensures !Resurrects(s.running.base, s.running.c.level, Outside(s), InputEntries(s.running.c), s.running.snap, u)
  {
    var r, above := s.running, Elems(s.mem) + Elems(s.imm);
    if Resurrects(r.base, r.c.level, Outside(s), InputEntries(r.c), r.snap, u) {
      AboveIsNewer(s.mem, s.imm, s.version, s.hist, s.last);
      var f, g := ResurrectionNeedsBoundary(r.base, s.version, r.c, above, r.snap, u);
    }
  }

  lemma FinishReads(s: Db)
    requires Inv(s) && Reads(s) && Enabled(s, Finish) && KeepsLevels(s, Finish) && KeepsReads(s, Finish)
    ensures Reads(Next(s, Finish))
  {
    var t, r := Next(s, Finish), s.running;
    FinishContents(s);
    StoredSplit(s.mem, s.imm, s.version, t.version, r.c, r.outputs);
    forall u ensures !Resurrects(r.base, r.c.level, Outside(s), InputEntries(r.c), r.snap, u) {
      NothingResurrects(s, u);
    }
    AgreesAfterDrops(r.base, r.c.level, Outside(s), InputEntries(r.c), Contents(r.outputs), s.hist, r.snap, SmallestSnapshot(s));
  }

  lemma AbandonKeeps(s: Db)
    requires Inv(s) && Enabled(s, Abandon)
    ensures Inv(Next(s, Abandon))
  {
    var t := Next(s, Abandon);
    MemoryStays(s, t);
    AbandonTables(s, t);
  }

  lemma AbandonTables(s: Db, t: Db)
    requires TablesInv(s) && s.running.Compacting? && s.dumping.NoDump?
    requires t == s.(running := Idle, pending := t.pending, versions := Release(s.versions, CompactionInput))
    ensures TablesInv(t)
  {
    assert SmallestSnapshot(t) == SmallestSnapshot(s);
    CompactionReleases(s.versions, s.version, s.running, s.dumping);
    FewerListed(s.versions, t.versions, Idle, s.disk.tables, s.nextFile);
  }

  // ---------------------------------------------------------------------------------------------
  // Trivial move
  // ---------------------------------------------------------------------------------------------

  lemma MovedOutputs(w: Version, c: Inputs)
    requires NumbersIdentify(w) && WellChosen(w, c) && |c.from| == 1 && c.into == []
    ensures FreshOutputs(w, c, c.from) && SortedDisjoint(c.from) && Contents(c.from) == InputEntries(c)
  {
    forall f, l, g | f in c.from && 0 <= l < |w| && g in w[l] && g.number == f.number ensures l == c.level && g in c.from {
      assert f in w[c.level];
    }
  }

  /** A file that overlaps no file of the next level is apart from all of them. */
  lemma MovedApart(w: Version, c: Inputs)
    requires SortedLevels(w) && UniqueSeqnos(AllContents(w)) && WellChosen(w, c) && Contents(c.from) == InputEntries(c)
    ensures Installable(w, c) && OutputsApart(w, c, c.from)
  {
    WellChosenInstallable(w, c);
    ClearOutputsApart(w, c, c.from);
  }

  lemma MovedBacked(w: Version, c: Inputs, tables: map<nat, seq<Entry>>, nextFile: nat)
    requires Backed(w, tables, nextFile) && c.level < |w| && Subset(c.from, w[c.level])
    ensures forall f :: f in c.from ==> BackedFile(f, tables, nextFile)
  {
  }

  lemma TrivialMoveVersion(s: Db, c: Inputs)
    requires Inv(s) && Enabled(s, TrivialMove(c))
    ensures var v' := ApplyEdit(s.version, CompactionChanges(c, c.from));
            && VersionOk(v') && Backed(v', s.disk.tables, s.nextFile)
            && FilesAfter(s.version, v', c, c.from) && AllContents(v') == AllContents(s.version)
            && forall l, g :: 0 <= l < |v'| && g in v'[l] ==> g.number < s.nextFile
  {
    var v' := ApplyEdit(s.version, CompactionChanges(c, c.from));
    assert AllContents(s.version) <= s.hist;
    MovedOutputs(s.version, c);
    MovedApart(s.version, c);
    CompactionKeepsValid(s.version, c, c.from);
    ContentsBefore(s.version, c);
    ContentsAfter(s.version, v', c, c.from);
    ListedBacked(s.versions, s.version, s.running, s.dumping, s.disk.tables, s.nextFile);
    MovedBacked(s.version, c, s.disk.tables, s.nextFile);
    BackedAfterCompaction(s.version, v', c, c.from, s.disk.tables, s.nextFile);
  }

  lemma EditsAfterMove(edits: seq<FileChanges>, w: Version, w': Version, c: Inputs, moved: File, nextFile: nat)
    requires EditsOk(edits, w, nextFile) && c.from == [moved] && c.into == [] && c.level + 1 < NUM_LEVELS && moved in w[c.level]
    requires FilesAfter(w, w', c, c.from) && NumbersIdentify(w')
    ensures EditsOk(edits + [CompactionChanges(c, c.from)], w', nextFile)
  {
    var level := c.level + 1;
    CompactionAdds(c, c.from);
    CompactedFilesFrom(w, w', c, c.from);
    assert moved in w'[level] by {
      assert moved in c.from && (moved in w'[level] <==> Stays(w, c, level, moved) || moved in c.from);
    }
    MoveKeepsEdits(edits, CompactionChanges(c, c.from), w, w', level, moved, nextFile, nextFile);
  }

  lemma MovedFile(w: Version, c: Inputs)
    requires WellChosen(w, c) && |c.from| == 1
    ensures c.from == [c.from[0]] && c.from[0] in w[c.level]
  {
    assert c.from[0] in c.from;
  }

  lemma ListAfterMove(l: VersionList, version: Version, version': Version, tables: map<nat, seq<Entry>>, nextFile: nat)
    requires ListOk(l, version, Idle, NoDump) && FilesOk(l, tables, nextFile) && Backed(version', tables, nextFile)
    ensures ListOk(AppendVersion(l, version'), version', Idle, NoDump) && FilesOk(AppendVersion(l, version'), tables, nextFile)
  {
    ListAppends(l, version', version, Idle, NoDump);
    OneListedBacked(l, AppendVersion(l, version'), version', tables, nextFile);
  }

  lemma TrivialMoveTables(s: Db, c: Inputs)
    requires Inv(s) && Enabled(s, TrivialMove(c))
    ensures TablesInv(Next(s, TrivialMove(c)))
    ensures LastOk(Next(s, TrivialMove(c)).disk.manifest, s.mem, s.imm, s.last)
  {
    var t, changes := Next(s, TrivialMove(c)), CompactionChanges(c, c.from);
    assert SmallestSnapshot(t) == SmallestSnapshot(s);
    TrivialMoveVersion(s, c);
    MovedFile(s.version, c);
    ListAfterMove(s.versions, s.version, t.version, s.disk.tables, s.nextFile);
    EditsAfterMove(Changes(s.disk.manifest), s.version, t.version, c, c.from[0], s.nextFile);
    EditsAppend(s.disk.manifest, changes, Meta(s.minLog, s.nextFile, s.last));
    ManifestGrows(s.disk.manifest, s.version, changes, s.minLog, s.nextFile, s.last);
  }

  lemma TrivialMoveKeeps(s: Db, c: Inputs)
    requires Inv(s) && Enabled(s, TrivialMove(c))
    ensures Inv(Next(s, TrivialMove(c)))
    ensures Reads(s) ==> Reads(Next(s, TrivialMove(c)))
  {
    var t := Next(s, TrivialMove(c));
    TrivialMoveTables(s, c);
    TrivialMoveVersion(s, c);
    FewerContents(s.mem, s.imm, s.version, t.version, s.hist, s.last);
    assert Stored(t.mem, t.imm, t.version) == Stored(s.mem, s.imm, s.version);
    assert SmallestSnapshot(t) == SmallestSnapshot(s);
  }

  // ---------------------------------------------------------------------------------------------
  // Deleting obsolete files
  // ---------------------------------------------------------------------------------------------

  lemma KeptBacked(v: Version, tables: map<nat, seq<Entry>>, nextFile: nat, keep: set<nat>)
    requires Backed(v, tables, nextFile) && VersionNumbers(v) <= keep
    ensures Backed(v, KeepTables(tables, keep), nextFile)
  {
    forall l, f | 0 <= l < |v| && f in v[l] ensures BackedFile(f, KeepTables(tables, keep), nextFile) {
      var i :| 0 <= i < |v[l]| && v[l][i] == f;
      assert f.number in VersionNumbers(v);
      assert BackedFile(f, tables, nextFile);
    }
  }

  lemma ListedKept(s: Db, keep: set<nat>)
    requires FilesOk(s.versions, s.disk.tables, s.nextFile) && LiveNumbers(s) <= keep
    ensures FilesOk(s.versions, KeepTables(s.disk.tables, keep), s.nextFile)
  {
    forall id | id in s.versions.nodes ensures Backed(s.versions.nodes[id].files, KeepTables(s.disk.tables, keep), s.nextFile) {
      forall n | n in VersionNumbers(s.versions.nodes[id].files) ensures n in keep {
        assert n in LiveNumbers(s);
      }
      KeptBacked(s.versions.nodes[id].files, s.disk.tables, s.nextFile, keep);
    }
  }

  lemma OutputsKept(running: Running, pending: set<nat>, tables: map<nat, seq<Entry>>, nextFile: nat, keep: set<nat>)
    requires OutputsOk(running, pending, tables, nextFile) && pending <= keep
    ensures OutputsOk(running, pending, KeepTables(tables, keep), nextFile)
  {
    if running.Compacting? {
      forall f | f in running.outputs ensures BackedFile(f, KeepTables(tables, keep), nextFile) {
        assert BackedFile(f, tables, nextFile);
      }
    }
  }

  lemma LogsAfterDeletion(logs: map<nat, seq<Group>>, mem: seq<Entry>, imm: seq<Entry>, hasImm: bool, inflight: Inflight,
                          minLog: nat, logNumber: nat, nextFile: nat)
    requires LogsOk(logs, mem, imm, hasImm, inflight, minLog, logNumber, nextFile)
    ensures LogsOk(KeepLogs(logs, minLog), mem, imm, hasImm, inflight, minLog, logNumber, nextFile)
  {
  }

  lemma DeleteObsoleteKeeps(s: Db)
    requires Inv(s) && Enabled(s, DeleteObsolete)
    ensures Inv(Next(s, DeleteObsolete))
  {
    LogsAfterDeletion(s.disk.logs, s.mem, s.imm, s.hasImm, s.inflight, s.minLog, s.logNumber, s.nextFile);
    DeletionTables(s, Next(s, DeleteObsolete));
  }

  lemma DeletionTables(s: Db, t: Db)
    requires TablesInv(s) && s.dumping.NoDump?
    requires t == s.(disk := s.disk.(tables := KeepTables(s.disk.tables, LiveNumbers(s) + s.pending), logs := t.disk.logs))
    ensures TablesInv(t)
  {
    assert SmallestSnapshot(t) == SmallestSnapshot(s);
    ListedKept(s, LiveNumbers(s) + s.pending);
    OutputsKept(s.running, s.pending, s.disk.tables, s.nextFile, LiveNumbers(s) + s.pending);
  }
}
