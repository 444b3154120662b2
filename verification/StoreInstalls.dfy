/** What the tree of files is made of: which action moves which entries where. */
module StoreInstalls {
  import opened InternalKeys
  import opened Versions
  import opened CompactionInputs
  import opened DropRules
  import opened Compactions
  import opened VersionEdits
  import opened Dumps
  import opened Store
  import opened StoreInvariant
  import opened StoreBackground
  import opened StoreFiles

  /** The memtable goes on, whole, as the immutable one; new groups go to a new log, which is empty. */
  lemma SwitchHandsOver(s: Db)
    requires Inv(s) && Enabled(s, Switch)
    ensures var t := Next(s, Switch);
            && t.mem == [] && t.hasImm && t.imm == s.mem && t.version == s.version
            && t.logNumber != s.logNumber && t.logNumber !in s.disk.logs && t.disk.logs == s.disk.logs[t.logNumber := []]
  {
    assert LogsOk(s.disk.logs, s.mem, s.imm, s.hasImm, s.inflight, s.minLog, s.logNumber, s.nextFile);
  }

  /** The immutable memtable becomes one new file at the level picked, unless it is empty; nothing else in the tree changes,
      and once obsolete files are deleted its log is gone. */
  lemma DumpBecomesFile(s: Db, level: nat)
    requires Inv(s) && Enabled(s, CommitDump(level))
    ensures var t := Next(s, CommitDump(level));
            && !t.hasImm && t.imm == [] && t.mem == s.mem
            && (s.imm == [] ==> t.version == s.version)
            && (s.imm != [] ==> forall l, g :: 0 <= l < |s.version| ==>
                  (g in t.version[l] <==> g in s.version[l] || (l == level && g == File(s.dumping.number, s.dumping.size, s.imm))))
            && (s.imm != [] ==> forall l :: 0 <= l < |s.version| ==>
                  Contents(t.version[l]) == Contents(s.version[l]) + (if l == level then Elems(s.imm) else {}))
            && Next(t, DeleteObsolete).disk.logs.Keys == {s.logNumber}
  {
    var t := Next(s, CommitDump(level));
    CommitDumpKeeps(s, level);
    OnlyLiveLogsRemain(t);
    if s.imm == [] {
      NoChangesReplay(s.version);
    } else {
      var f := File(s.dumping.number, s.dumping.size, s.imm);
      DumpFiles(s.version, level, f);
      forall l | 0 <= l < |s.version|
        ensures Contents(t.version[l]) == Contents(s.version[l]) + (if l == level then Elems(s.imm) else {})
      {
        FileAdded(s.version[l], t.version[l], f, l == level);
      }
    }
  }

  lemma FileAdded(files: seq<File>, files': seq<File>, f: File, added: bool)
    requires forall g :: g in files' <==> g in files || (added && g == f)
    ensures Contents(files') == Contents(files) + (if added then Elems(f.entries) else {})
  {
    forall e ensures e in Contents(files') <==> e in Contents(files) || (added && e in f.entries) {
      if added && e in f.entries {
        assert f in files';
      }
    }
  }

  /** What has this number is visible to readers at the latest number and at every live snapshot. */
  ghost predicate SeenByAll(s: Db, n: Seqno) {
    n <= s.last && forall i :: 0 <= i < |s.snapshots| ==> n <= s.snapshots[i]
  }

  lemma SeenByAllIff(s: Db, n: Seqno)
    requires SnapshotsOk(s.snapshots, s.last)
    ensures n <= SmallestSnapshot(s) <==> SeenByAll(s, n)
  {
  }

  /** Every reader finds another entry of the key before `e`. */
  ghost predicate SupersededForAll(s: Db, I: set<Entry>, e: Entry) {
    exists x :: x in I && x.user == e.user && e.seqno < x.seqno && SeenByAll(s, x.seqno)
  }

  /** A compaction drops an entry of its inputs exactly if no reader there is now can come across it: each sees a newer input
      entry of the key, or it is a deletion marker each of them sees and no deeper level has a file around its key. */
  lemma DroppedIff(s: Db, c: Inputs, input: seq<Entry>, e: Entry)
    requires Inv(s) && Enabled(s, Pick(c, input)) && e in InputEntries(c)
    ensures e !in Next(s, Pick(c, input)).running.kept <==>
            || SupersededForAll(s, InputEntries(c), e)
            || (e.kind.Deletion? && SeenByAll(s, e.seqno) && BaseLevel(s.version, c.level, e.user))
  {
    var snap := SmallestSnapshot(s);
    WellChosenInstallable(s.version, c);
    ContentsBefore(s.version, c);
    assert AllContents(s.version) <= s.hist;
    InputDistinct(input, s.hist);
    KeptSurvive(s.version, c.level, input, snap, e);
    SeenByAllIff(s, e.seqno);
    HiddenIff(s, InputEntries(c), e);
  }

  lemma HiddenIff(s: Db, I: set<Entry>, e: Entry)
    requires SnapshotsOk(s.snapshots, s.last)
    ensures Hidden(I, e, SmallestSnapshot(s)) <==> SupersededForAll(s, I, e)
  {
    forall x: Entry ensures x.seqno <= SmallestSnapshot(s) <==> SeenByAll(s, x.seqno) {
      SeenByAllIff(s, x.seqno);
    }
  }

  /** The outputs of a compaction, which hold what it keeps, take the place of its inputs; nothing else in the tree changes. */
  lemma OutputsReplaceInputs(s: Db)
    requires Inv(s) && Enabled(s, Finish)
    ensures var t, r := Next(s, Finish), s.running;
            && FilesAfter(s.version, t.version, r.c, r.outputs) && ConcatFiles(r.outputs) == r.kept
            && t.running.Idle? && t.mem == s.mem && t.imm == s.imm
  {
    WholeOutputs(s.running, s.version, SmallestSnapshot(s));
  }

  lemma WholeOutputs(r: Running, version: Version, smallest: Seqno)
    requires r.Compacting? && RunningOk(r, version, smallest) && r.pos == |r.kept| && NumbersIdentify(version)
    ensures FilesAfter(version, ApplyEdit(version, CompactionChanges(r.c, r.outputs)), r.c, r.outputs)
    ensures ConcatFiles(r.outputs) == r.kept
  {
    assert r.kept[..r.pos] == r.kept;
    FilesAfterChange(version, r.c, r.outputs);
  }

  /** The file leaves its level for the next one. */
  ghost predicate MovedDown(v: Version, v': Version, level: nat, f: File) {
    && level + 1 < |v| == |v'| && f in v[level]
    && forall l, g :: 0 <= l < |v| ==> (g in v'[l] <==> if g == f then l == level + 1 else g in v[l])
  }

  /** A trivial move takes one file one level down; nothing else in the tree changes, and no table is written. */
  lemma MoveGoesDown(s: Db, c: Inputs)
    requires Inv(s) && Enabled(s, TrivialMove(c))
    ensures var t := Next(s, TrivialMove(c));
            && MovedDown(s.version, t.version, c.level, c.from[0])
            && t.mem == s.mem && t.imm == s.imm && t.disk.tables == s.disk.tables
  {
    TrivialMoveVersion(s, c);
    MovedFile(s.version, c);
    OneMoved(s.version, ApplyEdit(s.version, CompactionChanges(c, c.from)), c, c.from[0]);
  }

  lemma OneMoved(v: Version, v': Version, c: Inputs, f: File)
    requires FilesAfter(v, v', c, c.from) && c.from == [f] && c.into == [] && c.level + 1 < |v| && f in v[c.level] && NumbersIdentify(v)
    ensures MovedDown(v, v', c.level, f)
  {
    forall l, g: File | 0 <= l < |v| ensures g in v'[l] <==> if g == f then l == c.level + 1 else g in v[l] {
      assert g in c.from <==> g == f;
      assert g in v'[l] <==> Stays(v, c, l, g) || (l == c.level + 1 && g in c.from);
    }
  }

  /** Nothing but these three, and a recovery, installs a version. */
  lemma NoOtherInstalls(s: Db, a: Action)
    requires Enabled(s, a) && !a.CommitDump? && !a.Finish? && !a.TrivialMove? && !a.Crash?
    ensures Next(s, a).version == s.version
  {
  }
}
