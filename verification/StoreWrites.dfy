/** Writing keeps the invariant: assigning sequence numbers to a group, logging it, inserting it, publishing it, and switching
    memtables. So do snapshots and the references of readers. */
module StoreWrites {
  import opened Values
  import opened InternalKeys
  import opened Memtables
  import opened Versions
  import opened VersionEdits
  import opened Store
  import opened StoreInvariant
  import opened DropRules
  import opened Manifests
  import opened VersionLists

  lemma AssignedSeqnos(ops: seq<Update>, last: Seqno)
    requires last + |ops| < MAX_SEQUENCE
    ensures |Assign(ops, last + 1)| == |ops|
    ensures InflightOk(Writing(Assign(ops, last + 1), false, 0), last)
    ensures Ascending(Assign(ops, last + 1))
  {
  }

  lemma ElemsConcat(a: seq<Entry>, b: seq<Entry>)
    ensures Elems(a + b) == Elems(a) + Elems(b)
  {
  }

  lemma AscendingConcat(a: seq<Entry>, b: seq<Entry>)
    requires Ascending(a) && Ascending(b) && Older(Elems(a), Elems(b))
    ensures Ascending(a + b)
  {
    forall i, j | 0 <= i < j < |a + b| ensures (a + b)[i].seqno < (a + b)[j].seqno {
      if i < |a| <= j {
        assert a[i] in Elems(a) && b[j - |a|] in Elems(b);
      }
    }
  }

  lemma FlatAppend(records: seq<Group>, batch: Group)
    ensures FlatRecords(records + [batch]) == FlatRecords(records) + batch
  {
    assert (records + [batch])[..|records|] == records;
  }

  /** The entries of a group are newer than everything published. */
  lemma BatchIsNewer(inflight: Inflight, last: Seqno, S: set<Entry>)
    requires InflightOk(inflight, last) && inflight.Writing? && UpTo(S, last)
    ensures Older(S, Elems(inflight.batch)) && Ascending(inflight.batch)
  {
    forall a, b | a in S && b in Elems(inflight.batch) ensures a.seqno < b.seqno {
      var i :| 0 <= i < |inflight.batch| && inflight.batch[i] == b;
    }
  }

  // ---------------------------------------------------------------------------------------------
  // Logging
  // ---------------------------------------------------------------------------------------------

  /** One more record at the end of the current log. */
  lemma LogGrows(records: seq<Group>, mem: seq<Entry>, batch: Group)
    requires Ascending(FlatRecords(records)) && Elems(FlatRecords(records)) == Elems(mem)
    requires Ascending(batch) && Older(Elems(mem), Elems(batch))
    ensures Ascending(FlatRecords(records + [batch]))
    ensures Elems(FlatRecords(records + [batch])) == Elems(mem) + Elems(batch)
  {
    FlatAppend(records, batch);
    ElemsConcat(FlatRecords(records), batch);
    AscendingConcat(FlatRecords(records), batch);
  }

  lemma NewBatch(mem: seq<Entry>, imm: seq<Entry>, version: Version, hist: set<Entry>, last: Seqno, inflight: Inflight)
    requires HistoryOk(Stored(mem, imm, version), hist, last) && InflightOk(inflight, last) && inflight.Writing?
    ensures Ascending(inflight.batch) && Older(Elems(mem), Elems(inflight.batch))
  {
    assert Elems(mem) <= hist;
    BatchIsNewer(inflight, last, Elems(mem));
  }

  lemma LogsAfterLogging(logs: map<nat, seq<Group>>, mem: seq<Entry>, imm: seq<Entry>, hasImm: bool, inflight: Inflight,
                         minLog: nat, logNumber: nat, nextFile: nat)
    requires LogsOk(logs, mem, imm, hasImm, inflight, minLog, logNumber, nextFile) && inflight.Writing? && !inflight.logged
    requires Ascending(inflight.batch) && Older(Elems(mem), Elems(inflight.batch))
    ensures LogsOk(logs[logNumber := logs[logNumber] + [inflight.batch]], mem, imm, hasImm, inflight.(logged := true), minLog, logNumber, nextFile)
  {
    UnionWithNone(Elems(mem));
    LogGrows(logs[logNumber], mem, inflight.batch);
  }

  lemma BeginWriteKeeps(s: Db, ops: seq<Update>)
    requires Inv(s) && Enabled(s, BeginWrite(ops))
    ensures Inv(Next(s, BeginWrite(ops)))
  {
    var t := Next(s, BeginWrite(ops));
    AssignedSeqnos(ops, s.last);
    SameParts(s, t);
  }

  lemma LogGroupKeeps(s: Db)
    requires Inv(s) && Enabled(s, LogGroup)
    ensures Inv(Next(s, LogGroup))
  {
    var t := Next(s, LogGroup);
    NewBatch(s.mem, s.imm, s.version, s.hist, s.last, s.inflight);
    LogsAfterLogging(s.disk.logs, s.mem, s.imm, s.hasImm, s.inflight, s.minLog, s.logNumber, s.nextFile);
    SameParts(s, t);
  }

  /** Nothing but the group in flight and the current log changes. */
  lemma SameParts(s: Db, t: Db)
    requires Inv(s)
    requires t == s.(inflight := t.inflight, disk := s.disk.(logs := t.disk.logs))
    requires InflightOk(t.inflight, t.last)
    requires LogsOk(t.disk.logs, t.mem, t.imm, t.hasImm, t.inflight, t.minLog, t.logNumber, t.nextFile)
    ensures Inv(t)
  {
    assert SmallestSnapshot(t) == SmallestSnapshot(s);
    TablesStay(s, t);
  }

  lemma InsertNextKeeps(s: Db)
    requires Inv(s) && Enabled(s, InsertNext)
    ensures Inv(Next(s, InsertNext))
  {
    assert InflightEntries(Next(s, InsertNext).inflight) == InflightEntries(s.inflight);
    SameParts(s, Next(s, InsertNext));
  }

  // ---------------------------------------------------------------------------------------------
  // Publishing
  // ---------------------------------------------------------------------------------------------

  lemma NewestIsNewer(A: set<Entry>, H: set<Entry>, B: set<Entry>, u: UserKey, s: Seqno, h: Hit, g: Hit)
    requires Older(A, B) && Older(H, B) && UniqueSeqnos(B)
    requires Newest(A + B, u, s, h) && Newest(H + B, u, s, g) && h.Hit? && h.entry in B
    ensures g == h
  {
    assert h.entry in H + B;
  }

  /** Adding the same newer entries to two sets that agree leaves them in agreement. */
  lemma NewerKeepsAnswer(A: set<Entry>, H: set<Entry>, B: set<Entry>, u: UserKey, s: Seqno)
    requires SameAnswer(A, H, u, s) && Older(A, B) && Older(H, B) && UniqueSeqnos(B)
    ensures SameAnswer(A + B, H + B, u, s)
  {
    forall h, g | Newest(A + B, u, s, h) && Newest(H + B, u, s, g) ensures AnswerOf(h) == AnswerOf(g) {
      if h.Hit? && h.entry in B {
        NewestIsNewer(A, H, B, u, s, h, g);
      } else if g.Hit? && g.entry in B {
        NewestIsNewer(H, A, B, u, s, g, h);
      } else {
        assert Newest(A, u, s, h) && Newest(H, u, s, g);
      }
    }
  }

  lemma NewerKeepsAgreement(A: set<Entry>, H: set<Entry>, B: set<Entry>, lo: Seqno, lo': Seqno)
    requires Agrees(A, H, lo) && lo <= lo' && Older(A, B) && Older(H, B) && UniqueSeqnos(B)
    ensures Agrees(A + B, H + B, lo')
  {
    forall u: UserKey, s: Seqno | lo' <= s ensures SameAnswer(A + B, H + B, u, s) {
      NewerKeepsAnswer(A, H, B, u, s);
    }
  }

  lemma AscendingUnique(es: seq<Entry>)
    requires Ascending(es)
    ensures UniqueSeqnos(Elems(es))
  {
    forall a, b | a in Elems(es) && b in Elems(es) && a.seqno == b.seqno ensures a == b {
      var i :| 0 <= i < |es| && es[i] == a;
      var j :| 0 <= j < |es| && es[j] == b;
      assert !(i < j) && !(j < i);
    }
  }

  lemma MemoryAfterPublish(s: Db)
    requires MemoryInv(s) && Enabled(s, Publish)
    ensures var t := Next(s, Publish);
            && MemoryOk(t.mem, t.imm, t.hasImm) && AgesOk(t.mem, t.imm, t.version)
            && Stored(t.mem, t.imm, t.version) == Stored(s.mem, s.imm, s.version) + Elems(s.inflight.batch)
  {
    MemoryPublished(s.mem, s.imm, s.hasImm, s.version, s.last, s.inflight);
  }

  lemma MemoryPublished(mem: seq<Entry>, imm: seq<Entry>, hasImm: bool, version: Version, last: Seqno, inflight: Inflight)
    requires MemoryOk(mem, imm, hasImm) && AgesOk(mem, imm, version) && InflightOk(inflight, last) && inflight.Writing?
    requires UpTo(Stored(mem, imm, version), last)
    ensures var mem' := InsertBatch(mem, inflight.batch);
            && MemoryOk(mem', imm, hasImm) && AgesOk(mem', imm, version)
            && Stored(mem', imm, version) == Stored(mem, imm, version) + Elems(inflight.batch)
  {
    BatchIsNewer(inflight, last, Stored(mem, imm, version));
    InsertBatchSorted(mem, inflight.batch);
    InsertBatchElems(mem, inflight.batch);
  }

  lemma HistoryAfterPublish(s: Db)
    requires MemoryInv(s) && Enabled(s, Publish)
    ensures var t := Next(s, Publish);
            var B := Elems(s.inflight.batch);
            HistoryOk(Stored(s.mem, s.imm, s.version) + B, t.hist, t.last)
    ensures var B := Elems(s.inflight.batch);
            Older(s.hist, B) && Older(Stored(s.mem, s.imm, s.version), B) && UniqueSeqnos(B)
  {
    BatchIsNewer(s.inflight, s.last, s.hist);
    AscendingUnique(s.inflight.batch);
    HistoryPublished(Stored(s.mem, s.imm, s.version), s.hist, s.last, s.inflight);
  }

  lemma HistoryPublished(stored: set<Entry>, hist: set<Entry>, last: Seqno, inflight: Inflight)
    requires HistoryOk(stored, hist, last) && InflightOk(inflight, last) && inflight.Writing?
    requires Older(hist, Elems(inflight.batch)) && UniqueSeqnos(Elems(inflight.batch))
    ensures HistoryOk(stored + Elems(inflight.batch), hist + Elems(inflight.batch), last + |inflight.batch|)
  {
  }

  lemma LastAfterPublish(s: Db)
    requires MemoryInv(s) && Enabled(s, Publish)
    ensures var t := Next(s, Publish); LastOk(t.disk.manifest, t.mem, t.imm, t.last)
  {
    LastPublished(s.disk.manifest, s.mem, s.imm, s.last, s.inflight);
  }

  lemma LastPublished(manifest: seq<Record>, mem: seq<Entry>, imm: seq<Entry>, last: Seqno, inflight: Inflight)
    requires LastOk(manifest, mem, imm, last) && InflightOk(inflight, last) && inflight.Writing?
    ensures LastOk(manifest, InsertBatch(mem, inflight.batch), imm, last + |inflight.batch|)
  {
    InsertBatchMembers(mem, inflight.batch);
    var n := |inflight.batch|;
    if n > 0 {
      assert inflight.batch[n - 1] in inflight.batch;
    } else {
      assert InsertBatch(mem, inflight.batch) == mem;
    }
  }

  lemma SmallestRises(s: Db, last: Seqno)
    requires s.last <= last
    ensures SmallestSnapshot(s) <= SmallestSnapshot(s.(last := last))
  {
  }

  lemma LogsAfterPublish(s: Db)
    requires MemoryInv(s) && Enabled(s, Publish)
    ensures var t := Next(s, Publish);
            LogsOk(t.disk.logs, t.mem, t.imm, t.hasImm, t.inflight, t.minLog, t.logNumber, t.nextFile)
  {
    LogsPublished(s.disk.logs, s.mem, s.imm, s.hasImm, s.inflight, s.minLog, s.logNumber, s.nextFile);
  }

  lemma LogsPublished(logs: map<nat, seq<Group>>, mem: seq<Entry>, imm: seq<Entry>, hasImm: bool, inflight: Inflight,
                      minLog: nat, logNumber: nat, nextFile: nat)
    requires inflight.Writing? && inflight.logged && LogsOk(logs, mem, imm, hasImm, inflight, minLog, logNumber, nextFile)
    ensures LogsOk(logs, InsertBatch(mem, inflight.batch), imm, hasImm, NoWrite, minLog, logNumber, nextFile)
  {
    InsertBatchElems(mem, inflight.batch);
    UnionWithNone(Elems(mem) + Elems(inflight.batch));
  }

  lemma UnionWithNone(A: set<Entry>)
    ensures A + Elems([]) == A
  {
  }

  lemma PublishKeeps(s: Db)
    requires Inv(s) && Enabled(s, Publish)
    ensures Inv(Next(s, Publish))
  {
    PublishMemory(s);
    SmallestRises(s, Next(s, Publish).last);
    TablesStay(s, Next(s, Publish));
  }

  lemma PublishMemory(s: Db)
    requires MemoryInv(s) && Enabled(s, Publish)
    ensures MemoryInv(Next(s, Publish))
  {
    MemoryAfterPublish(s);
    HistoryAfterPublish(s);
    LastAfterPublish(s);
    LogsAfterPublish(s);
  }

  lemma PublishReads(s: Db)
    requires Inv(s) && Reads(s) && Enabled(s, Publish)
    ensures Reads(Next(s, Publish))
  {
    var t := Next(s, Publish);
    MemoryAfterPublish(s);
    HistoryAfterPublish(s);
    SmallestRises(s, t.last);
    NewerKeepsAgreement(Stored(s.mem, s.imm, s.version), s.hist, Elems(s.inflight.batch), SmallestSnapshot(s), SmallestSnapshot(t));
  }

  // ---------------------------------------------------------------------------------------------
  // Switching memtables
  // ---------------------------------------------------------------------------------------------

  lemma LogsAfterSwitch(s: Db)
    requires Inv(s) && Enabled(s, Switch)
    ensures var t := Next(s, Switch);
            LogsOk(t.disk.logs, t.mem, t.imm, t.hasImm, t.inflight, t.minLog, t.logNumber, t.nextFile)
  {
    assert FlatRecords([]) == [];
    assert Elems([]) == {};
  }

  lemma SwitchStores(mem: seq<Entry>, rest: set<Entry>)
    ensures Elems([]) == {} && Elems([]) + (Elems(mem) + rest) == Elems(mem) + (Elems([]) + rest)
  {
  }

  lemma SwitchedMemory(mem: seq<Entry>, imm: seq<Entry>, hasImm: bool, version: Version)
    requires MemoryOk(mem, imm, hasImm) && AgesOk(mem, imm, version) && !hasImm
    ensures MemoryOk([], mem, true) && AgesOk([], mem, version)
    ensures Same(Stored(mem, imm, version), Stored([], mem, version))
  {
    SwitchStores(mem, AllContents(version));
  }

  lemma SwitchKeeps(s: Db)
    requires Inv(s) && Enabled(s, Switch)
    ensures Inv(Next(s, Switch))
  {
    LogsAfterSwitch(s);
    var t := Next(s, Switch);
    SwitchStores(s.mem, AllContents(s.version));
    SwitchedMemory(s.mem, s.imm, s.hasImm, s.version);
    FilesGrow(s.versions, s.disk.tables, s.nextFile, s.disk.tables, t.nextFile);
    OutputsGrow(s.running, s.pending, s.disk.tables, s.nextFile, s.disk.tables, t.nextFile);
    EditsGrow(Changes(s.disk.manifest), s.version, s.nextFile, t.nextFile);
  }

  lemma EditsGrow(edits: seq<FileChanges>, version: Version, n: nat, n': nat)
    requires EditsOk(edits, version, n) && n <= n'
    ensures EditsOk(edits, version, n')
  {
  }

  lemma SwitchReads(s: Db)
    requires Inv(s) && Reads(s) && Enabled(s, Switch)
    ensures Reads(Next(s, Switch))
  {
    SwitchedMemory(s.mem, s.imm, s.hasImm, s.version);
  }

  // ---------------------------------------------------------------------------------------------
  // Snapshots and references
  // ---------------------------------------------------------------------------------------------

  lemma AgreesLater(A: set<Entry>, H: set<Entry>, lo: Seqno, lo': Seqno)
    requires Agrees(A, H, lo) && lo <= lo'
    ensures Agrees(A, H, lo')
  {
  }

  lemma TakeSnapshotKeeps(s: Db)
    requires Inv(s) && Enabled(s, TakeSnapshot)
    ensures Inv(Next(s, TakeSnapshot))
  {
    assert SmallestSnapshot(Next(s, TakeSnapshot)) == SmallestSnapshot(s);
    TablesStay(s, Next(s, TakeSnapshot));
  }

  lemma ReleaseSnapshotKeeps(s: Db, i: nat)
    requires Inv(s) && Enabled(s, ReleaseSnapshot(i))
    ensures Inv(Next(s, ReleaseSnapshot(i)))
  {
    var t := Next(s, ReleaseSnapshot(i));
    assert SmallestSnapshot(s) <= SmallestSnapshot(t);
    TablesStay(s, t);
  }

  lemma ReleaseSnapshotReads(s: Db, i: nat)
    requires Inv(s) && Reads(s) && Enabled(s, ReleaseSnapshot(i))
    ensures Reads(Next(s, ReleaseSnapshot(i)))
  {
    var t := Next(s, ReleaseSnapshot(i));
    assert SmallestSnapshot(s) <= SmallestSnapshot(t);
    AgreesLater(Stored(s.mem, s.imm, s.version), s.hist, SmallestSnapshot(s), SmallestSnapshot(t));
  }

  lemma AcquireVersionKeeps(s: Db, reader: nat)
    requires Inv(s) && Enabled(s, AcquireVersion(reader))
    ensures Inv(Next(s, AcquireVersion(reader)))
  {
    ReaderAcquires(s.versions, reader, s.version, s.running, s.dumping);
    OnlyReadersChange(s, Next(s, AcquireVersion(reader)));
  }

  lemma ReleaseVersionKeeps(s: Db, reader: nat)
    requires Inv(s) && Enabled(s, ReleaseVersion(reader))
    ensures Inv(Next(s, ReleaseVersion(reader)))
  {
    ReaderReleases(s.versions, reader, s.version, s.running, s.dumping);
    OnlyReadersChange(s, Next(s, ReleaseVersion(reader)));
  }

  /** No version joins the list. */
  ghost predicate NoneListed(l: VersionList, l': VersionList) {
    forall id :: id in l'.nodes ==> id in l.nodes && l'.nodes[id].files == l.nodes[id].files
  }

  lemma OnlyReadersChange(s: Db, t: Db)
    requires Inv(s) && t == s.(versions := t.versions)
    requires NoneListed(s.versions, t.versions) && ListOk(t.versions, s.version, s.running, s.dumping)
    ensures Inv(t)
  {
    MemoryStays(s, t);
    OtherReaders(s, t);
  }

  lemma OtherReaders(s: Db, t: Db)
    requires TablesInv(s) && t == s.(versions := t.versions)
    requires NoneListed(s.versions, t.versions) && ListOk(t.versions, s.version, s.running, s.dumping)
    ensures TablesInv(t)
  {
    assert SmallestSnapshot(t) == SmallestSnapshot(s);
    FewerListed(s.versions, t.versions, s.running, s.disk.tables, s.nextFile);
  }

  lemma FewerListed(l: VersionList, l': VersionList, running: Running, tables: map<nat, seq<Entry>>, nextFile: nat)
    requires FilesOk(l, tables, nextFile) && OpenUnused(l, running) && NoneListed(l, l')
    ensures FilesOk(l', tables, nextFile) && OpenUnused(l', running)
  {
  }

  lemma ReaderAcquires(l: VersionList, reader: nat, version: Version, running: Running, dumping: Dumping)
    requires ListOk(l, version, running, dumping) && Reader(reader) !in l.holders
    ensures NoneListed(l, Acquire(l, Reader(reader))) && ListOk(Acquire(l, Reader(reader)), version, running, dumping)
  {
    AcquireKeeps(l, Reader(reader));
  }

  lemma ReaderReleases(l: VersionList, reader: nat, version: Version, running: Running, dumping: Dumping)
    requires ListOk(l, version, running, dumping) && Reader(reader) in l.holders
    ensures NoneListed(l, Release(l, Reader(reader))) && ListOk(Release(l, Reader(reader)), version, running, dumping)
  {
    ReleaseKeeps(l, Reader(reader));
  }
}
