/** Two runs that start with a new store and take only steps the code is sure to be able to take: in one a deleted key is read
    again after an automatic compaction, in the other a manual compaction leaves a level with files that overlap. */
module FailingRuns {
  import opened Values
  import opened InternalKeys
  import opened Memtables
  import opened Versions
  import opened VersionEdits
  import opened InputSelection
  import opened CompactionInputs
  import opened OutputCuts
  import opened DropRules
  import opened Compactions
  import opened Dumps
  import opened Manifests
  import opened Store
  import opened StoreInvariant
  import opened StoreBackground
  import opened StoreRuns
  import opened StoreReads
  import opened TakenSteps
  import CompactionHazards
  import opened Recovery
  import opened PlainRuns

  // ---------------------------------------------------------------------------------------------
  // Runs, one stretch after the other
  // ---------------------------------------------------------------------------------------------

  /** `auto` says that all compactions are picked automatically. */
  datatype Path = Path(auto: bool, states: seq<Db>, actions: seq<Action>)

  /** A step the code takes. */
  ghost predicate Feasible(auto: bool, s: Maybe<Db>, a: Action) {
    match s
    case Nothing => false
    case Just(db) => Taken(auto, db, a) && (auto ==> Automatic(false, a))
  }

  ghost predicate FeasibleAt(p: Path, k: nat) {
    k < |p.actions| && k < |p.states| && Feasible(p.auto, Just(p.states[k]), p.actions[k])
  }

  /** A run that keeps the levels disjoint, up to state `s`. */
  ghost predicate Leads(p: Path, s: Maybe<Db>) {
    match s
    case Nothing => true
    case Just(db) =>
      && IsRun(LevelSteps, p.states, p.actions) && p.states[|p.states| - 1] == db
      && forall k :: 0 <= k < |p.actions| ==> FeasibleAt(p, k)
  }

  lemma OneStep(p: Path, s: Db, a: Action) returns (q: Path)
    requires Leads(p, Just(s)) && Enabled(s, a) && KeepsLevels(s, a) && Feasible(p.auto, Just(s), a)
    ensures Leads(q, Just(Next(s, a))) && q == Path(p.auto, p.states + [Next(s, a)], p.actions + [a])
  {
    var t := Next(s, a);
    q := Path(p.auto, p.states + [t], p.actions + [a]);
    StepsLength(LevelSteps, p.states, p.actions);
    forall i | 0 <= i < |q.actions| ensures LevelStepAt(q.states, q.actions, i) {
      if i < |p.actions| {
        assert LevelStepAt(p.states, p.actions, i);
      }
    }
    forall k | 0 <= k < |q.actions| ensures FeasibleAt(q, k) {
      if k < |p.actions| {
        assert FeasibleAt(p, k);
      }
    }
    assert q.states[0] == p.states[0];
  }

  lemma PathInv(p: Path, s: Db)
    requires Leads(p, Just(s))
    ensures Inv(s)
  {
    StepsLength(LevelSteps, p.states, p.actions);
    RunKeeps(p.states, p.actions, |p.states| - 1);
  }

  /** What the two lemmas at the end say of all steps. */
  lemma PathTaken(p: Path, s: Db)
    requires Leads(p, Just(s))
    ensures forall k :: 0 <= k < |p.actions| ==> TakenAt(p.auto, p.states, p.actions, k)
    ensures p.auto ==> forall k :: 0 <= k < |p.actions| ==> Automatic(false, p.actions[k])
  {
    forall k | 0 <= k < |p.actions| ensures TakenAt(p.auto, p.states, p.actions, k) && (p.auto ==> Automatic(false, p.actions[k])) {
      assert FeasibleAt(p, k);
    }
  }

  /** Nothing is under way. */
  predicate Quiet(s: Db) {
    s.inflight.NoWrite? && s.imm == [] && !s.hasImm && s.dumping.NoDump?
  }

  /** Memory, snapshots and history are as they were. */
  predicate SameMemory(s: Db, t: Db) {
    && t.mem == s.mem && t.inflight == s.inflight && t.imm == s.imm && t.hasImm == s.hasImm && t.dumping == s.dumping
    && t.snapshots == s.snapshots && t.last == s.last && t.hist == s.hist
  }

  lemma {:induction false} InsertRest(p: Path, s: Db) returns (q: Path, t: Db)
    requires Leads(p, Just(s)) && s.inflight.Writing? && s.inflight.logged && s.inflight.inserted <= |s.inflight.batch|
    ensures q.auto == p.auto && Leads(q, Just(t)) && t == s.(inflight := s.inflight.(inserted := |s.inflight.batch|))
    decreases |s.inflight.batch| - s.inflight.inserted
  {
    q, t := p, s;
    if s.inflight.inserted < |s.inflight.batch| {
      q := OneStep(p, s, InsertNext);
      q, t := InsertRest(q, Next(s, InsertNext));
    }
  }

  /** A write from beginning to end. */
  lemma Write(p: Path, s: Db, ops: seq<Update>) returns (q: Path, t: Db)
    requires Leads(p, Just(s)) && Quiet(s) && s.last + |ops| < MAX_SEQUENCE
    ensures q.auto == p.auto && Leads(q, Just(t)) && Quiet(t)
    ensures t.mem == InsertBatch(s.mem, Assign(ops, s.last + 1)) && t.last == s.last + |ops|
    ensures t.version == s.version && t.running == s.running && t.snapshots == s.snapshots && t.nextFile == s.nextFile
    ensures s.logNumber in s.disk.logs && t.logNumber == s.logNumber && t.disk.manifest == s.disk.manifest
    ensures t.disk.logs == s.disk.logs[s.logNumber := s.disk.logs[s.logNumber] + [Assign(ops, s.last + 1)]]
  {
    var s1 := Next(s, BeginWrite(ops));
    q := OneStep(p, s, BeginWrite(ops));
    PathInv(q, s1);
    q := OneStep(q, s1, LogGroup);
    var s2: Db;
    q, s2 := InsertRest(q, Next(s1, LogGroup));
    q := OneStep(q, s2, Publish);
    t := Next(s2, Publish);
  }

  lemma Sweep(p: Path, s: Db) returns (q: Path, t: Db)
    requires Leads(p, Just(s)) && s.dumping.NoDump?
    ensures q.auto == p.auto && Leads(q, Just(t)) && t == s.(disk := t.disk)
  {
    q := OneStep(p, s, DeleteObsolete);
    t := Next(s, DeleteObsolete);
  }

  /** The memtable becomes a file of the level the picker answers. */
  lemma Dump(p: Path, s: Db, level: nat, size: nat) returns (q: Path, t: Db, f: File)
    requires Leads(p, Just(s)) && Quiet(s) && s.mem != [] && |s.version| == NUM_LEVELS && |s.version[0]| < L0_STOP_WRITES_TRIGGER
    requires DumpGoesTo(s.version, s.mem[0].user, s.mem[|s.mem| - 1].user, MAX_FILE_SIZE, level)
    requires s.running.Compacting? ==> s.running.pos < |s.running.kept|
    ensures q.auto == p.auto && Leads(q, Just(t)) && Quiet(t) && t.mem == []
    ensures f.entries == s.mem && f.size == size && f.number >= s.nextFile
    ensures t.version == ApplyEdit(s.version, DumpChanges(level, f))
    ensures t.running == s.running && t.snapshots == s.snapshots && t.last == s.last
  {
    var s2;
    q, s2 := SwitchAndBuild(p, s, size);
    f := File(s2.dumping.number, s2.dumping.size, s2.imm);
    GoesWhereAllowed(s.version, level, f);
    q := OneStep(q, s2, CommitDump(level));
    q, t := Sweep(q, Next(s2, CommitDump(level)));
  }

  lemma SwitchAndBuild(p: Path, s: Db, size: nat) returns (q: Path, t: Db)
    requires Leads(p, Just(s)) && Quiet(s) && s.mem != [] && s.version != [] && |s.version[0]| < L0_STOP_WRITES_TRIGGER
    requires s.running.Compacting? ==> s.running.pos < |s.running.kept|
    ensures q.auto == p.auto && Leads(q, Just(t)) && t.dumping.Dumping? && t.hasImm && Sorted(t.imm)
    ensures t.imm == s.mem && t.mem == [] && t.inflight.NoWrite? && t.version == s.version
    ensures t.dumping.size == size && t.dumping.number >= s.nextFile
    ensures t.running == s.running && t.snapshots == s.snapshots && t.last == s.last
  {
    var s1 := Next(s, Switch);
    q := OneStep(p, s, Switch);
    PathInv(q, s1);
    q := OneStep(q, s1, BuildDump(size));
    t := Next(s1, BuildDump(size));
  }

  lemma GoesWhereAllowed(v: Version, level: nat, f: File)
    requires |v| == NUM_LEVELS && DumpGoesTo(v, f.Smallest().user, f.Largest().user, MAX_FILE_SIZE, level)
    ensures DumpAllowed(v, level, f)
  {
    if level > 0 {
      forall l | 0 <= l <= level ensures !Overlapped(v, l, f.Smallest().user, f.Largest().user) {
        assert l > 0 ==> MaySink(v, l - 1, f.Smallest().user, f.Largest().user, MAX_FILE_SIZE);
      }
    }
  }

  /** The next `count` surviving entries become an output. */
  lemma Output(p: Path, s: Db, count: nat, size: nat) returns (q: Path, t: Db, f: File)
    requires Leads(p, Just(s)) && Quiet(s) && s.running.Compacting? && s.running.open.Nothing?
    requires 0 < count && s.running.pos + count <= |s.running.kept| && Sorted(s.running.kept)
    requires NothingTwoDown(s.running.base, s.running.c.level) && (size >= MAX_FILE_SIZE || s.running.pos + count == |s.running.kept|)
    ensures q.auto == p.auto && Leads(q, Just(t)) && SameMemory(s, t) && t.version == s.version
    ensures f.entries == s.running.kept[s.running.pos..s.running.pos + count] && f.size == size
    ensures t.running == s.running.(pos := s.running.pos + count, outputs := s.running.outputs + [f])
  {
    var s1 := Next(s, OpenOutput);
    q := OneStep(p, s, OpenOutput);
    q := OneStep(q, s1, FinishOutput(count, size));
    t := Next(s1, FinishOutput(count, size));
    f := File(s1.running.open.value, size, s.running.kept[s.running.pos..s.running.pos + count]);
  }

  /** The inputs are chosen and merged. */
  lemma Start(p: Path, s: Db, c: Inputs, input: seq<Entry>) returns (q: Path, t: Db)
    requires Leads(p, Just(s)) && Quiet(s) && s.running.Idle? && WellChosen(s.version, c)
    requires if p.auto then PickedAutomatically(s.version, c) && !MovedOnly(c) && HullCovered(c.from + c.into)
             else TakesLevel(s.version, c, MAX_FILE_SIZE)
    requires Sorted(input) && Elems(input) == InputEntries(c)
    ensures q.auto == p.auto && Leads(q, Just(t)) && SameMemory(s, t) && t.version == s.version
    ensures var snap := SmallestSnapshot(s);
            t.running == Compacting(c, s.version, snap, input, Kept(s.version, c.level, input, snap), 0, [], Nothing)
    ensures Sorted(t.running.kept)
  {
    KeptSorted(s.version, c.level, input, SmallestSnapshot(s));
    q := OneStep(p, s, Pick(c, input));
    t := Next(s, Pick(c, input));
  }

  // ---------------------------------------------------------------------------------------------
  // Small versions
  // ---------------------------------------------------------------------------------------------

  /** The values written, in order. */
  datatype Texts = Texts(one: Bytes, two: Bytes, three: Bytes, four: Bytes, five: Bytes)

  /** Levels `k` and `k + 1` hold these files, and the others none. */
  ghost predicate Holds(v: Version, k: nat, upper: seq<File>, lower: seq<File>) {
    && |v| == NUM_LEVELS && k + 1 < NUM_LEVELS && v[k] == upper && v[k + 1] == lower
    && forall l :: 0 <= l < NUM_LEVELS && l != k && l != k + 1 ==> v[l] == []
  }

  lemma Contained(v: Version, upper: seq<File>, lower: seq<File>)
    requires Holds(v, 0, upper, lower)
    ensures AllContents(v) == Contents(upper) + Contents(lower)
  {
    forall e | e in Contents(upper) + Contents(lower) ensures e in AllContents(v) {
      assert e in Contents(v[0]) || e in Contents(v[1]);
    }
  }

  lemma OneFile(f: File)
    ensures Contents([f]) == Elems(f.entries) && Contents([]) == {}
  {
    assert f in [f];
  }

  lemma TwoFiles(f: File, g: File)
    ensures Contents([f, g]) == Elems(f.entries) + Elems(g.entries)
  {
    assert [f, g][0] == f && [f, g][1] == g;
  }

  lemma SizeOfTwo(f: File, g: File)
    ensures TotalFileSize([f, g]) == f.size + g.size && TotalFileSize([f]) == f.size
  {
    var one, two := [f], [f, g];
    assert one[..|one| - 1] == [] && TotalFileSize(one) == f.size;
    assert two[..|two| - 1] == one && TotalFileSize(two) == f.size + g.size;
  }

  lemma {:induction false} OverlappingIsSmaller(files: seq<File>, lo: Bound, hi: Bound)
    ensures TotalFileSize(Overlapping(files, lo, hi)) <= TotalFileSize(files)
    decreases |files|
  {
    if files != [] {
      var init, o := files[..|files| - 1], Overlapping(files, lo, hi);
      OverlappingIsSmaller(init, lo, hi);
      if o != Overlapping(init, lo, hi) {
        assert o[..|o| - 1] == Overlapping(init, lo, hi);
      }
    }
  }

  /** A level that is free, with little in the level after it, does not stop a dump. */
  lemma Sinks(v: Version, level: nat, u: UserKey)
    requires level + 2 < |v| && TotalFileSize(v[level + 2]) <= 10 * MAX_FILE_SIZE
    requires forall f :: f in v[level + 1] ==> !Meets(f, At(u), At(u))
    ensures MaySink(v, level, u, u, MAX_FILE_SIZE)
  {
    OverlappingIsSmaller(v[level + 2], At(u), At(u));
  }

  lemma DumpHolds(v: Version, k: nat, upper: seq<File>, lower: seq<File>, level: nat, f: File)
    requires Holds(v, k, upper, lower) && level in {k, k + 1}
    ensures Holds(ApplyEdit(v, DumpChanges(level, f)), k,
                  if level == k then Insert(upper, f) else upper, if level == k then lower else Insert(lower, f))
  {
    var w := ApplyEdit(v, DumpChanges(level, f));
    forall l | 0 <= l < NUM_LEVELS ensures w[l] == if l == level then Insert(v[l], f) else v[l] {
      DumpLevel(v, level, f, l);
    }
  }

  lemma {:induction false} AllRemoved(files: seq<File>, gone: set<nat>)
    requires forall f :: f in files ==> f.number in gone
    ensures Remove(files, gone) == []
    decreases |files|
  {
    if files != [] {
      AllRemoved(files[..|files| - 1], gone);
      assert files[|files| - 1] in files;
    }
  }

  /** A compaction of all of level 0, with nothing to merge into. */
  lemma CompactedHolds(v: Version, upper: seq<File>, outputs: seq<File>)
    requires Holds(v, 0, upper, []) && KeySorted(outputs)
    ensures Holds(ApplyEdit(v, CompactionChanges(Inputs(0, upper, []), outputs)), 0, [], outputs)
  {
    var c := Inputs(0, upper, []);
    var w := ApplyEdit(v, CompactionChanges(c, outputs));
    forall l | 0 <= l < NUM_LEVELS ensures w[l] == if l == 1 then outputs else [] {
      LevelAfter(v, c, outputs, l);
      if l == 0 {
        AllRemoved(upper, Gone(c, outputs, 0));
      } else if l == 1 {
        InsertAllInOrder(outputs);
      }
    }
  }

  /** A new store, opened for the first time: the MANIFEST has number 2, the log number 3. */
  lemma NewStore(auto: bool) returns (p: Path, s: Db)
    ensures p.auto == auto && Leads(p, Just(s)) && Quiet(s) && s.mem == [] && s.last == 0 && s.running.Idle? && s.snapshots == []
    ensures s.version == EMPTY_VERSION && s.nextFile == 4 && s.logNumber == 3
    ensures s.disk.logs == map[3 := []] && ReplayMeta(s.disk.manifest) == Meta(3, 4, 0)
  {
    NewManifestReplays();
    s := Recovered(NEW_DISK, EMPTY_VERSION, [], [], 3, {});
    p := Path(auto, [s], []);
    OneEditForAll(EMPTY_VERSION, []);
  }

  // ---------------------------------------------------------------------------------------------
  // The old value gets to level 0 when the store is opened again
  // ---------------------------------------------------------------------------------------------

  function OldValue(x: Texts): Entry { Entry(5, 1, Value, x.one) }

  function OtherKey(x: Texts): Entry { Entry(1, 2, Value, x.two) }

  function Marker(): Entry { Entry(5, 3, Deletion, "") }

  function OtherAgain(x: Texts): Entry { Entry(1, 4, Value, x.four) }

  /** One insertion after the other. */
  lemma InsertedGroups(x: Texts)
    ensures InsertBatch([], [OldValue(x)]) == [OldValue(x)]
    ensures InsertBatch([], [OtherKey(x), Marker()]) == [OtherKey(x), Marker()]
    ensures InsertBatch([], [OtherAgain(x)]) == [OtherAgain(x)]
  {
    SingleInserted(OldValue(x));
    SingleInserted(OtherKey(x));
    SingleInserted(OtherAgain(x));
    assert [OtherKey(x), Marker()][..1] == [OtherKey(x)];
  }

  lemma SingleInserted(e: Entry)
    ensures InsertBatch([], [e]) == [e]
  {
    assert [e][..0] == [];
  }

  lemma AssignedGroups(x: Texts)
    ensures Assign([Put(5, x.one)], 1) == [OldValue(x)]
    ensures Assign([Put(1, x.two), Delete(5)], 2) == [OtherKey(x), Marker()]
    ensures Assign([Put(1, x.four)], 4) == [OtherAgain(x)]
  {
  }

  function Reopening(t: File): Action {
    Crash([], EMPTY_VERSION, [3], [t.entries], [t], 6)
  }

  lemma OldWritten(x: Texts) returns (p: Path, s: Db)
    ensures p.auto && Leads(p, Just(s)) && s.version == EMPTY_VERSION && s.disk.logs == map[3 := [[OldValue(x)]]]
    ensures ReplayMeta(s.disk.manifest) == Meta(3, 4, 0) && Survivors(s) == s.hist
  {
    InsertedGroups(x);
    AssignedGroups(x);
    p, s := NewStore(true);
    p, s := Write(p, s, [Put(5, x.one)]);
    assert [] + [[OldValue(x)]] == [[OldValue(x)]];
  }

  lemma MayReopen(p: Path, s: Db, t: File)
    requires Leads(p, Just(s)) && s.version == EMPTY_VERSION && |t.entries| == 1 && t.number == 5
    requires s.disk.logs == map[3 := [t.entries]] && ReplayMeta(s.disk.manifest) == Meta(3, 4, 0)
    ensures Enabled(s, Reopening(t)) && Feasible(p.auto, Just(s), Reopening(t))
  {
    PathInv(p, s);
    NothingFound(s);
    OneLogReplays(s.disk, t);
  }

  lemma NothingFound(s: Db)
    requires Inv(s) && s.version == EMPTY_VERSION
    ensures Built(Changes(s.disk.manifest), EMPTY_VERSION)
  {
    BuiltIsReplayed(Changes(s.disk.manifest), EMPTY_VERSION);
  }

  lemma OneLogReplays(disk: Disk, t: File)
    requires Built(Changes(disk.manifest), EMPTY_VERSION) && |t.entries| == 1 && t.number == 5
    requires disk.logs == map[3 := [t.entries]] && ReplayMeta(disk.manifest) == Meta(3, 4, 0)
    ensures MayAttempts(disk, []) && MayRecover(AfterAttempts(disk, []), EMPTY_VERSION, [3], [t.entries], [t], 6)
    ensures RecoversAtOnce(disk, [], [3], [t.entries], [t], 6)
  {
    LogOfOne(disk.logs, t.entries);
    SingleInserted(t.entries[0]);
    assert t.entries == [t.entries[0]];
  }

  lemma OneGroup(es: seq<Entry>)
    ensures Concat([es]) == es
  {
    assert [es][..0] == [];
    assert Concat([]) + es == es;
  }

  lemma LogOfOne(logs: map<nat, seq<Group>>, es: seq<Entry>)
    requires logs == map[3 := [es]]
    ensures LiveLogs(logs, 3, [3]) && FlatLogs(logs, [3]) == es && Concat([es]) == es
  {
    OneLog(logs, 3);
    OneGroup(es);
    assert [es][..0] == [] && [] + es == es;
    assert FlatRecords([es]) == es;
  }

  lemma Reopened(s: Db, t: File)
    requires Enabled(s, Reopening(t)) && |t.entries| == 1 && t.entries[0].seqno == 1 && ReplayMeta(s.disk.manifest) == Meta(3, 4, 0)
    ensures var r := Next(s, Reopening(t));
            && Quiet(r) && r.mem == [] && r.last == 1 && r.running.Idle? && r.snapshots == [] && r.nextFile == 7
            && Holds(r.version, 0, [t], [])
  {
    OneTableInstalled(t);
    OneEntryLast(s.disk, t.entries);
  }

  lemma OneTableInstalled(t: File)
    ensures Holds(ApplyEdit(EMPTY_VERSION, FileChanges({}, AddAt(0, [t]))), 0, [t], [])
  {
    var w := ApplyEdit(EMPTY_VERSION, FileChanges({}, AddAt(0, [t])));
    forall l | 0 <= l < NUM_LEVELS ensures w[l] == if l == 0 then [t] else [] {
      AddedLevel(EMPTY_VERSION, [t], l);
      assert [t][..0] == [];
    }
  }

  lemma OneEntryLast(disk: Disk, es: seq<Entry>)
    requires |es| == 1 && es[0].seqno == 1 && ReplayMeta(disk.manifest) == Meta(3, 4, 0)
    ensures RecoveredLast(AfterAttempts(disk, []), Concat([es])) == 1
  {
    OneGroup(es);
    assert es[..0] == [] && MaxSeqno(es) == 1;
  }

  /** Key 5 is written, the store is opened again, and a snapshot is taken. */
  lemma SnapshotTaken(x: Texts) returns (p: Path, s: Db, early: File)
    ensures p.auto && Leads(p, Just(s)) && Quiet(s) && s.mem == [] && s.last == 1 && s.running.Idle? && s.snapshots == [1]
    ensures early.entries == [OldValue(x)] && early.number == 5 && early.size == 1 && s.nextFile == 7 && Holds(s.version, 0, [early], [])
  {
    p, s := OldWritten(x);
    early := File(5, 1, [OldValue(x)]);
    MayReopen(p, s, early);
    Reopened(s, early);
    p := OneStep(p, s, Reopening(early));
    s := Next(s, Reopening(early));
    p := OneStep(p, s, TakeSnapshot);
    s := Next(s, TakeSnapshot);
  }

  /** Key 5 is deleted, and the memtable goes to level 0 because the old value is there. */
  lemma TwoAtLevelZero(x: Texts) returns (p: Path, s: Db, early: File, late: File)
    ensures p.auto && Leads(p, Just(s)) && Quiet(s) && s.mem == [] && s.last == 3 && s.running.Idle? && s.snapshots == [1]
    ensures FirstInputs(x, early, late) && Holds(s.version, 0, [late, early], [])
  {
    InsertedGroups(x);
    AssignedGroups(x);
    p, s, early := SnapshotTaken(x);
    p, s := Write(p, s, [Put(1, x.two), Delete(5)]);
    var v := s.version;
    assert early in v[0] && Meets(early, At(1), At(5));
    p, s, late := Dump(p, s, 0, MAX_FILE_SIZE);
    DumpHolds(v, 0, [early], [], 0, late);
    InsertedBefore(early, late);
  }

  lemma InsertedBefore(early: File, late: File)
    requires FileBefore(late, early)
    ensures Insert([early], late) == [late, early]
  {
    assert [early][..0] == [];
  }

  /** The deletion is in the newer of two files. */
  ghost predicate FirstInputs(x: Texts, early: File, late: File) {
    && early.entries == [OldValue(x)] && late.entries == [OtherKey(x), Marker()]
    && early.number < late.number && early.size == 1 && late.size == MAX_FILE_SIZE
  }

  // ---------------------------------------------------------------------------------------------
  // The first compaction ends an output between two entries of one key
  // ---------------------------------------------------------------------------------------------

  lemma {:induction false} AllKept(v: Version, level: nat, input: seq<Entry>, snap: Seqno)
    requires forall i :: 0 <= i < |input| ==> !Dropped(v, level, input, i, snap)
    ensures Kept(v, level, input, snap) == input
    decreases |input|
  {
    if input != [] {
      var n := |input| - 1;
      forall i | 0 <= i < n ensures !Dropped(v, level, input[..n], i, snap) {
        assert !Dropped(v, level, input, i, snap);
      }
      AllKept(v, level, input[..n], snap);
      assert input[..n] + [input[n]] == input;
    }
  }

  function FirstMerged(x: Texts): seq<Entry> {
    [OtherKey(x), Marker(), OldValue(x)]
  }

  lemma KeptWhole(x: Texts, v: Version)
    ensures Kept(v, 0, FirstMerged(x), 1) == FirstMerged(x)
  {
    forall i | 0 <= i < 3 ensures !Dropped(v, 0, FirstMerged(x), i, 1) {
      assert i == 0 || i == 1 || i == 2;
    }
    AllKept(v, 0, FirstMerged(x), 1);
  }

  function First(early: File, late: File): Inputs {
    Inputs(0, [late, early], [])
  }

  lemma BothMerged(x: Texts, early: File, late: File)
    requires FirstInputs(x, early, late)
    ensures Sorted(FirstMerged(x)) && Elems(FirstMerged(x)) == InputEntries(First(early, late))
  {
    TwoFiles(late, early);
    OneFile(early);
    var input := FirstMerged(x);
    assert input[0] in input && input[1] in input && input[2] in input;
    assert late.entries[0] in late.entries && late.entries[1] in late.entries && early.entries[0] in early.entries;
  }

  lemma Charge(v: Version, f: File, u: UserKey, l: nat, g: File)
    requires l < |v| && f in v[0] && f.Spans(u) && forall h :: h in v[0] && h.Spans(u) ==> h.number <= f.number
    requires g in v[l] && g != f && g.Spans(u)
    ensures ChargedBy(v, f, u)
  {
  }

  lemma BothAreTaken(x: Texts, v: Version, early: File, late: File)
    requires FirstInputs(x, early, late) && Holds(v, 0, [late, early], [])
    ensures WellChosen(v, First(early, late)) && HullCovered([late, early] + [])
    ensures PickedAutomatically(v, First(early, late))
  {
    var c := First(early, late);
    var files := [late, early];
    assert late in files && early in files;
    assert files + [] == files;
    forall u, f, g | f in files && g in files && f.Smallest().user <= u <= g.Largest().user ensures Covered(files, u) {
      assert late.Spans(u);
    }
    assert WellChosen(v, c);
    assert SettledBy(v, late, c) by {
      forall T | OverlapClosed(v[0], At(1), At(5), T) ensures FileSet(files) <= T {
        assert Meets(late, At(1), At(5)) && Meets(early, At(1), At(5));
      }
    }
    SizeOfTwo(late, early);
    assert v[0][1] == early;
    Charge(v, late, 5, 0, early);
    assert PickedAt(v, c, late, 5);
  }

  /** The marker ends one file of level 1, and the old value starts the next. */
  ghost predicate Split(x: Texts, left: File, right: File) {
    left.entries == [OtherKey(x), Marker()] && right.entries == [OldValue(x)] && left.size == MAX_FILE_SIZE && right.size == 1
  }

  lemma TwoOutputs(x: Texts, p: Path, s: Db) returns (q: Path, t: Db, left: File, right: File)
    requires Leads(p, Just(s)) && Quiet(s) && s.running.Compacting? && s.running.pos == 0 && s.running.outputs == []
    requires s.running.open.Nothing? && s.running.kept == FirstMerged(x) && NothingTwoDown(s.running.base, s.running.c.level)
    ensures q.auto == p.auto && Leads(q, Just(t)) && SameMemory(s, t) && t.version == s.version && Split(x, left, right)
    ensures t.running == s.running.(pos := 3, outputs := [left, right])
  {
    q, t, left := Output(p, s, 2, MAX_FILE_SIZE);
    q, t, right := Output(q, t, 1, 1);
    assert [left] + [right] == [left, right];
  }

  lemma FinishesApart(p: Path, s: Db)
    requires Leads(p, Just(s)) && Enabled(s, Finish) && InOneRun(s)
    ensures KeepsLevels(s, Finish)
  {
    PathInv(p, s);
    ConnectedKeepsLevels(s);
  }

  lemma FirstFinished(x: Texts, p: Path, s: Db, early: File, late: File, left: File, right: File) returns (q: Path, t: Db)
    requires Leads(p, Just(s)) && Quiet(s) && Holds(s.version, 0, [late, early], []) && Split(x, left, right)
    requires s.running.Compacting? && s.running.c == First(early, late) && s.running.outputs == [left, right]
    requires HullCovered([late, early] + [])
    requires s.running.open.Nothing? && s.running.pos == |s.running.kept|
    ensures q.auto == p.auto && Leads(q, Just(t)) && SameMemory(s, t) && t.running.Idle? && Holds(t.version, 0, [], [left, right])
  {
    FinishesApart(p, s);
    q := OneStep(p, s, Finish);
    t := Next(s, Finish);
    CompactedHolds(s.version, [late, early], [left, right]);
  }

  lemma SplitFiles(x: Texts) returns (p: Path, s: Db, left: File, right: File)
    ensures p.auto && Leads(p, Just(s)) && Quiet(s) && s.mem == [] && s.last == 3 && s.running.Idle? && s.snapshots == []
    ensures Split(x, left, right) && Holds(s.version, 0, [], [left, right])
  {
    var early, late;
    p, s, early, late := TwoAtLevelZero(x);
    BothAreTaken(x, s.version, early, late);
    BothMerged(x, early, late);
    KeptWhole(x, s.version);
    p, s := Start(p, s, First(early, late), FirstMerged(x));
    p, s, left, right := TwoOutputs(x, p, s);
    p, s := FirstFinished(x, p, s, early, late, left, right);
    p, s := Sweep(p, s);
    p := OneStep(p, s, ReleaseSnapshot(0));
    s := Next(s, ReleaseSnapshot(0));
  }

  // ---------------------------------------------------------------------------------------------
  // The second compaction takes only the first of the two files
  // ---------------------------------------------------------------------------------------------

  lemma ThreeFiles(x: Texts) returns (p: Path, s: Db, left: File, right: File, f: File)
    ensures p.auto && Leads(p, Just(s)) && Quiet(s) && s.mem == [] && s.last == 4 && s.running.Idle? && s.snapshots == []
    ensures f.entries == [OtherAgain(x)] && Split(x, left, right) && Holds(s.version, 0, [f], [left, right])
  {
    InsertedGroups(x);
    AssignedGroups(x);
    p, s, left, right := SplitFiles(x);
    p, s := Write(p, s, [Put(1, x.four)]);
    var v := s.version;
    assert left == v[1][0] && Meets(left, At(1), At(1));
    p, s, f := Dump(p, s, 0, 1);
    DumpHolds(v, 0, [], [left, right], 0, f);
  }

  function Second(f: File, left: File): Inputs {
    Inputs(0, [f], [left])
  }

  function SecondMerged(x: Texts): seq<Entry> {
    [OtherAgain(x), OtherKey(x), Marker()]
  }

  lemma OnlyLeftIsChosen(x: Texts, v: Version, f: File, left: File, right: File)
    requires f.entries == [OtherAgain(x)] && Split(x, left, right) && Holds(v, 0, [f], [left, right])
    ensures WellChosen(v, Second(f, left)) && HullCovered([f] + [left])
  {
    assert MeetsHull(left, [f]) by {
      assert f in [f];
    }
    assert !MeetsHull(right, [f]);
    forall u, g, h | g in [f] + [left] && h in [f] + [left] && g.Smallest().user <= u <= h.Largest().user
      ensures Covered([f] + [left], u)
    {
      assert left in [f] + [left] && left.Spans(u);
    }
  }

  lemma OnlyLeftIsTaken(x: Texts, v: Version, f: File, left: File, right: File)
    requires f.entries == [OtherAgain(x)] && Split(x, left, right) && Holds(v, 0, [f], [left, right])
    requires WellChosen(v, Second(f, left))
    ensures PickedAutomatically(v, Second(f, left))
  {
    var c := Second(f, left);
    assert f in [f];
    assert SettledBy(v, f, c) by {
      forall T | OverlapClosed(v[0], At(1), At(1), T) ensures FileSet([f]) <= T {
        assert Meets(f, At(1), At(1));
      }
    }
    SizeOfTwo(left, right);
    assert left == v[1][0];
    Charge(v, f, 1, 1, left);
    assert PickedAt(v, c, f, 1);
  }

  lemma LeftMerged(x: Texts, f: File, left: File)
    requires f.entries == [OtherAgain(x)] && left.entries == [OtherKey(x), Marker()]
    ensures Sorted(SecondMerged(x)) && Elems(SecondMerged(x)) == InputEntries(Second(f, left))
  {
    OneFile(f);
    OneFile(left);
    var input := SecondMerged(x);
    assert input[0] in input && input[1] in input && input[2] in input;
    assert f.entries[0] in f.entries && left.entries[0] in left.entries && left.entries[1] in left.entries;
  }

  lemma MarkerUncovers(x: Texts, v: Version, f: File, left: File, right: File)
    requires f.entries == [OtherAgain(x)] && Split(x, left, right) && Holds(v, 0, [f], [left, right])
    ensures CompactionHazards.Uncovers(v, v, Second(f, left), {}, 4, 5)
  {
    var c := Second(f, left);
    OneFile(f);
    OneFile(left);
    TwoFiles(left, right);
    Contained(v, [f], [left, right]);
    assert left.entries[1] in left.entries && left in v[1] && right in v[1];
    assert left == v[1][0] && right == v[1][1];
    assert CompactionHazards.FirstLeftOut(v, c, left, right);
    assert Newest({} + AllContents(v), 5, 4, Hit(Marker()));
    assert CompactionHazards.UncoversBy(v, v, c, {}, 4, 5, Marker(), left, right);
  }

  lemma SecondReady(x: Texts) returns (p: Path, s: Db, c: Inputs)
    ensures p.auto && Leads(p, Just(s)) && Quiet(s) && s.mem == [] && s.last == 4 && s.running.Idle? && s.snapshots == []
    ensures |s.version| == NUM_LEVELS && s.version[2] == [] && c.level == 0 && WellChosen(s.version, c) && HullCovered(c.from + c.into)
    ensures PickedAutomatically(s.version, c) && !MovedOnly(c)
    ensures Sorted(SecondMerged(x)) && Elems(SecondMerged(x)) == InputEntries(c)
    ensures CompactionHazards.Uncovers(s.version, s.version, c, {}, 4, 5)
  {
    var left, right, f;
    p, s, left, right, f := ThreeFiles(x);
    c := Second(f, left);
    OnlyLeftIsChosen(x, s.version, f, left, right);
    OnlyLeftIsTaken(x, s.version, f, left, right);
    LeftMerged(x, f, left);
    MarkerUncovers(x, s.version, f, left, right);
  }

  /** The second compaction is under way, or ready to be installed: its marker uncovers the old value. */
  ghost predicate Uncovering(s: Db, v: Version, c: Inputs) {
    && |v| == NUM_LEVELS && c.level == 0 && CompactionHazards.Uncovers(v, v, c, {}, 4, 5)
    && s.version == v && s.running.Compacting? && s.running.base == v && s.running.c == c && s.running.snap == 4 && s.last == 4
    && s.mem == [] && Quiet(s) && s.running.open.Nothing?
  }

  /** Just after the second compaction has started. */
  lemma SecondStarted(x: Texts) returns (p: Path, s: Db, v: Version, c: Inputs)
    ensures p.auto && Leads(p, Just(s)) && Uncovering(s, v, c) && HullCovered(c.from + c.into)
    ensures s.running.pos == 0 && Sorted(s.running.kept) && NothingTwoDown(v, c.level)
  {
    var ready;
    p, ready, c := SecondReady(x);
    v := ready.version;
    p, s := Start(p, ready, c, SecondMerged(x));
  }

  /** Just before it is installed. */
  lemma BeforeFinish(x: Texts) returns (p: Path, s: Db, v: Version, c: Inputs)
    ensures p.auto && Leads(p, Just(s)) && Uncovering(s, v, c) && Enabled(s, Finish) && InOneRun(s)
  {
    p, s, v, c := SecondStarted(x);
    p, s := OneOutput(p, s);
  }

  lemma OneOutput(p: Path, s: Db) returns (q: Path, t: Db)
    requires Leads(p, Just(s)) && Quiet(s) && s.running.Compacting? && s.running.open.Nothing? && s.running.pos == 0
    requires Sorted(s.running.kept) && NothingTwoDown(s.running.base, s.running.c.level)
    ensures q.auto == p.auto && Leads(q, Just(t)) && SameMemory(s, t) && t.version == s.version && t.running.Compacting?
    ensures t.running.pos == |t.running.kept| && t.running.open.Nothing?
    ensures t.running.c == s.running.c && t.running.base == s.running.base && t.running.snap == s.running.snap
  {
    q, t := p, s;
    if s.running.kept != [] {
      var f;
      q, t, f := Output(p, s, |s.running.kept|, 1);
    }
  }

  lemma NothingAbove(s: Db)
    requires s.mem == [] && s.imm == [] && s.inflight.NoWrite?
    ensures Above(s) == {}
  {
  }

  lemma FinishStays(s: Db)
    requires Enabled(s, Finish)
    ensures Next(s, Finish).last == s.last && Live(s, s.last) && Live(Next(s, Finish), s.last)
  {
  }

  /** The two last states of a run one step longer. */
  lemma LastTwo(p: Path, s: Db, q: Path, t: Db, a: Action)
    requires Leads(p, Just(s)) && Leads(q, Just(t)) && q == Path(true, p.states + [t], p.actions + [a])
    ensures |q.states| == |q.actions| + 1 && |p.actions| + 1 < |q.states|
    ensures q.states[|p.actions|] == s && q.states[|p.actions| + 1] == t && q.actions[|p.actions|] == a
    ensures IsRun(LevelSteps, q.states, q.actions)
  {
    StepsLength(LevelSteps, p.states, p.actions);
  }

  /** A reader at sequence number `q`, live in both states, is told different things about key `u`. */
  ghost predicate ReadsDiffer(earlier: Maybe<Db>, later: Db, u: UserKey, q: Seqno) {
    match earlier
    case Nothing => false
    case Just(s) => Live(s, q) && Live(later, q) && !SameAnswer(Readable(s), Readable(later), u, q)
  }

  lemma FinishDiffers(p: Path, s: Db, t: Db, v: Version, c: Inputs)
    requires Leads(p, Just(s)) && Enabled(s, Finish) && t == Next(s, Finish) && Uncovering(s, v, c) && InOneRun(s)
    ensures ReadsDiffer(Just(s), t, 5, 4) && KeepsLevels(s, Finish)
  {
    PathInv(p, s);
    ConnectedKeepsLevels(s);
    FinishStays(s);
    NothingAbove(s);
    FinishChangesAnswer(s, 5);
  }

  /** Key 5 is deleted, and the deletion acknowledged; later an automatic compaction brings the old value back, at a sequence
      number every new reader uses. All steps are taken as the code takes them. */
  lemma IsolationFails(x: Texts) returns (states: seq<Db>, actions: seq<Action>, i: nat)
    ensures IsRun(LevelSteps, states, actions) && i + 1 < |states| == |actions| + 1 && actions[i] == Finish
    ensures forall k :: 0 <= k < |actions| ==> TakenAt(true, states, actions, k) && Automatic(false, actions[k])
    ensures ReadsDiffer(Just(states[i]), states[i + 1], 5, 4)
  {
    var p, s, v, c := BeforeFinish(x);
    var t := Next(s, Finish);
    FinishDiffers(p, s, t, v, c);
    var q := OneStep(p, s, Finish);
    LastTwo(p, s, q, t, Finish);
    PathTaken(q, t);
    states, actions, i := q.states, q.actions, |p.actions|;
  }

  // ---------------------------------------------------------------------------------------------
  // A dump between the inputs of a manual compaction
  // ---------------------------------------------------------------------------------------------

  /** The write of `text` to `u` with sequence number `n`. */
  function Single(u: UserKey, n: Seqno, text: Bytes): Entry { Entry(u, n, Value, text) }

  lemma WriteOne(p: Path, s: Db, u: UserKey, text: Bytes) returns (q: Path, t: Db)
    requires Leads(p, Just(s)) && Quiet(s) && s.mem == [] && s.last < 10
    ensures q.auto == p.auto && Leads(q, Just(t)) && Quiet(t) && t.mem == [Single(u, s.last + 1, text)] && t.last == s.last + 1
    ensures t.version == s.version && t.running == s.running && t.snapshots == s.snapshots
  {
    var e := Single(u, s.last + 1, text);
    assert Assign([Put(u, text)], s.last + 1) == [e];
    SingleInserted(e);
    q, t := Write(p, s, [Put(u, text)]);
  }

  /** One write after another, each of them dumped: the file holds that write alone. */
  lemma WriteAndDump(p: Path, s: Db, u: UserKey, text: Bytes, level: nat) returns (q: Path, t: Db, f: File)
    requires Leads(p, Just(s)) && Quiet(s) && s.mem == [] && s.last < 10
    requires |s.version| == NUM_LEVELS && |s.version[0]| < L0_STOP_WRITES_TRIGGER && DumpGoesTo(s.version, u, u, MAX_FILE_SIZE, level)
    requires s.running.Compacting? ==> s.running.pos < |s.running.kept|
    ensures q.auto == p.auto && Leads(q, Just(t)) && Quiet(t) && t.mem == [] && t.last == s.last + 1
    ensures f.entries == [Single(u, s.last + 1, text)] && f.size == 1
    ensures t.version == ApplyEdit(s.version, DumpChanges(level, f))
    ensures t.running == s.running && t.snapshots == s.snapshots
  {
    q, t := WriteOne(p, s, u, text);
    q, t, f := Dump(q, t, level, 1);
  }

  /** The files on the way, each with one entry. */
  ghost predicate OneValue(f: File, u: UserKey, n: Seqno) {
    |f.entries| == 1 && f.entries[0].user == u && f.entries[0].seqno == n && f.entries[0].kind.Value? && f.size == 1
  }

  /** Everything but the file of user key `u` is at level 2, so a second dump of `u` stops at level 1. */
  lemma StopsAbove(v: Version, upper: seq<File>, lower: seq<File>, f: File, u: UserKey)
    requires Holds(v, 1, upper, lower) && f in lower && f.Spans(u)
    requires forall g :: g in upper ==> !g.Spans(u)
    requires TotalFileSize(lower) <= 10 * MAX_FILE_SIZE
    ensures DumpGoesTo(v, u, u, MAX_FILE_SIZE, 1)
  {
    Sinks(v, 0, u);
    assert Meets(f, At(u), At(u));
  }

  /** With nothing in its way a dump goes to level 2. */
  lemma GoesDown(v: Version, upper: seq<File>, lower: seq<File>, u: UserKey)
    requires Holds(v, 1, upper, lower) && TotalFileSize(lower) <= 10 * MAX_FILE_SIZE
    requires forall g :: g in upper || g in lower ==> !g.Spans(u)
    ensures DumpGoesTo(v, u, u, MAX_FILE_SIZE, 2)
  {
    Sinks(v, 0, u);
    assert TotalFileSize(v[3]) == 0;
    Sinks(v, 1, u);
  }

  lemma LowTwice(x: Texts) returns (p: Path, s: Db, a: File, b: File)
    ensures !p.auto && Leads(p, Just(s)) && Quiet(s) && s.mem == [] && s.last == 2 && s.running.Idle? && s.snapshots == []
    ensures OneValue(a, 1, 1) && OneValue(b, 1, 2) && Holds(s.version, 1, [b], [a])
  {
    p, s := NewStore(false);
    var v := s.version;
    GoesDown(v, [], [], 1);
    p, s, a := WriteAndDump(p, s, 1, x.one, 2);
    DumpHolds(v, 1, [], [], 2, a);
    var w := s.version;
    SizeOfTwo(a, a);
    assert a in [a];
    StopsAbove(w, [], [a], a, 1);
    p, s, b := WriteAndDump(p, s, 1, x.two, 1);
    DumpHolds(w, 1, [], [a], 1, b);
  }

  /** Each of two keys is in a file of level 2 and, newer, in a file of level 1. */
  ghost predicate Ends(s: Db, a: File, b: File, c: File, d: File) {
    && OneValue(a, 1, 1) && OneValue(b, 1, 2) && OneValue(c, 9, 3) && OneValue(d, 9, 4)
    && Holds(s.version, 1, [b, d], [a, c])
  }

  lemma FourFiles(x: Texts) returns (p: Path, s: Db, a: File, b: File, c: File, d: File)
    ensures !p.auto && Leads(p, Just(s)) && Quiet(s) && s.mem == [] && s.last == 4 && s.running.Idle? && s.snapshots == []
    ensures Ends(s, a, b, c, d)
  {
    p, s, a, b := LowTwice(x);
    p, s, c := HighDumped(x, p, s, a, b);
    p, s, d := HighDumpedAgain(x, p, s, a, b, c);
  }

  lemma HighDumpedAgain(x: Texts, p: Path, s: Db, a: File, b: File, c: File) returns (q: Path, t: Db, d: File)
    requires Leads(p, Just(s)) && Quiet(s) && s.mem == [] && s.last == 3 && s.running.Idle?
    requires OneValue(a, 1, 1) && OneValue(b, 1, 2) && OneValue(c, 9, 3) && Holds(s.version, 1, [b], [a, c])
    ensures q.auto == p.auto && Leads(q, Just(t)) && Quiet(t) && t.mem == [] && t.last == 4 && t.running.Idle? && t.snapshots == s.snapshots
    ensures Ends(t, a, b, c, d)
  {
    NineStops(s.version, a, b, c);
    q, t, d := WriteAndDump(p, s, 9, x.four, 1);
    NineAdded(s.version, a, b, c, d);
  }

  lemma NineStops(v: Version, a: File, b: File, c: File)
    requires OneValue(a, 1, 1) && OneValue(b, 1, 2) && OneValue(c, 9, 3) && Holds(v, 1, [b], [a, c])
    ensures DumpGoesTo(v, 9, 9, MAX_FILE_SIZE, 1)
  {
    SizeOfTwo(a, c);
    assert c == [a, c][1];
    StopsAbove(v, [b], [a, c], c, 9);
  }

  lemma NineAdded(v: Version, a: File, b: File, c: File, d: File)
    requires OneValue(b, 1, 2) && OneValue(d, 9, 4) && Holds(v, 1, [b], [a, c])
    ensures Holds(ApplyEdit(v, DumpChanges(1, d)), 1, [b, d], [a, c])
  {
    DumpHolds(v, 1, [b], [a, c], 1, d);
    InsertAtEnd([b], d);
  }

  lemma HighDumped(x: Texts, p: Path, s: Db, a: File, b: File) returns (q: Path, t: Db, c: File)
    requires Leads(p, Just(s)) && Quiet(s) && s.mem == [] && s.last == 2 && s.running.Idle?
    requires OneValue(a, 1, 1) && OneValue(b, 1, 2) && Holds(s.version, 1, [b], [a])
    ensures q.auto == p.auto && Leads(q, Just(t)) && Quiet(t) && t.mem == [] && t.last == 3 && t.running.Idle? && t.snapshots == s.snapshots
    ensures OneValue(c, 9, 3) && Holds(t.version, 1, [b], [a, c])
  {
    SizeOfTwo(a, a);
    GoesDown(s.version, [b], [a], 9);
    q, t, c := WriteAndDump(p, s, 9, x.three, 2);
    DumpHolds(s.version, 1, [b], [a], 2, c);
    InsertAtEnd([a], c);
  }

  function Whole(a: File, b: File, c: File, d: File): Inputs {
    Inputs(1, [b, d], [a, c])
  }

  function WholeMerged(a: File, b: File, c: File, d: File): seq<Entry> {
    [b.entries[0], a.entries[0], d.entries[0], c.entries[0]]
  }

  lemma AllChosen(s: Db, a: File, b: File, c: File, d: File)
    requires Ends(s, a, b, c, d)
    ensures WellChosen(s.version, Whole(a, b, c, d)) && TakesLevel(s.version, Whole(a, b, c, d), MAX_FILE_SIZE)
  {
    var from := [b, d];
    assert b in from && d in from;
    assert MeetsHull(a, from) && MeetsHull(c, from);
    SizeOfTwo(b, d);
    assert from[..1] == [b];
  }

  lemma AllMerged(s: Db, a: File, b: File, c: File, d: File)
    requires Ends(s, a, b, c, d)
    ensures Sorted(WholeMerged(a, b, c, d)) && Elems(WholeMerged(a, b, c, d)) == InputEntries(Whole(a, b, c, d))
  {
    TwoFiles(b, d);
    TwoFiles(a, c);
    var input := WholeMerged(a, b, c, d);
    assert input[0] in input && input[1] in input && input[2] in input && input[3] in input;
    assert a.entries == [a.entries[0]] && b.entries == [b.entries[0]] && c.entries == [c.entries[0]] && d.entries == [d.entries[0]];
  }

  /** Only the newer entry of each key is kept. */
  lemma NewerKept(s: Db, a: File, b: File, c: File, d: File)
    requires Ends(s, a, b, c, d)
    ensures Kept(s.version, 1, WholeMerged(a, b, c, d), 4) == [b.entries[0], d.entries[0]]
  {
    var v, input := s.version, WholeMerged(a, b, c, d);
    assert input[..0] == [] && input[..4] == input;
    KeptStep(v, 1, input, 0, 4);
    KeptStep(v, 1, input, 1, 4);
    KeptStep(v, 1, input, 2, 4);
    KeptStep(v, 1, input, 3, 4);
  }

  ghost predicate TakesAll(s: Db, a: File, b: File, c: File, d: File) {
    && s.running.Compacting? && s.running.c == Whole(a, b, c, d) && NothingTwoDown(s.running.base, 1)
    && s.running.pos == 0 && s.running.outputs == [] && s.running.open.Nothing? && s.running.kept == [b.entries[0], d.entries[0]]
  }

  lemma GapOpen(x: Texts) returns (p: Path, s: Db, a: File, b: File, c: File, d: File)
    ensures !p.auto && Leads(p, Just(s)) && Quiet(s) && s.mem == [] && s.last == 4
    ensures Ends(s, a, b, c, d) && TakesAll(s, a, b, c, d)
  {
    p, s, a, b, c, d := FourFiles(x);
    AllChosen(s, a, b, c, d);
    AllMerged(s, a, b, c, d);
    NewerKept(s, a, b, c, d);
    p, s := Start(p, s, Whole(a, b, c, d), WholeMerged(a, b, c, d));
  }

  /** While the compaction runs, a memtable is dumped into the gap of its output level. */
  lemma GapFilled(x: Texts) returns (p: Path, s: Db, a: File, b: File, c: File, d: File, middle: File)
    ensures !p.auto && Leads(p, Just(s)) && Quiet(s) && TakesAll(s, a, b, c, d) && InTheGap(s, a, b, c, d, middle)
  {
    p, s, a, b, c, d := GapOpen(x);
    var v := s.version;
    SizeOfTwo(a, c);
    GoesDown(v, [b, d], [a, c], 5);
    p, s, middle := WriteAndDump(p, s, 5, x.five, 2);
    DumpHolds(v, 1, [b, d], [a, c], 2, middle);
    InsertMembers([a, c], middle);
  }

  ghost predicate InTheGap(s: Db, a: File, b: File, c: File, d: File, middle: File) {
    && OneValue(a, 1, 1) && OneValue(b, 1, 2) && OneValue(c, 9, 3) && OneValue(d, 9, 4) && OneValue(middle, 5, 5)
    && |s.version| == NUM_LEVELS && middle in s.version[2]
  }

  /** Then one output takes what is kept. */
  lemma GapMerged(x: Texts) returns (p: Path, s: Db, a: File, b: File, c: File, d: File, middle: File, merged: File)
    ensures !p.auto && Leads(p, Just(s)) && Enabled(s, Finish) && InTheGap(s, a, b, c, d, middle)
    ensures s.running.c == Whole(a, b, c, d) && s.running.outputs == [merged]
    ensures merged.entries == [b.entries[0], d.entries[0]]
  {
    p, s, a, b, c, d, middle := GapFilled(x);
    p, s, merged := Output(p, s, 2, 1);
  }

  lemma Surrounded(s: Db, a: File, b: File, c: File, d: File, middle: File, merged: File)
    requires Enabled(s, Finish) && InTheGap(s, a, b, c, d, middle)
    requires s.running.c == Whole(a, b, c, d) && s.running.outputs == [merged]
    requires merged.entries == [b.entries[0], d.entries[0]]
    ensures !KeepsLevels(s, Finish)
  {
    assert merged in s.running.outputs && middle in s.version[2] && middle !in s.running.c.into;
    assert !Precedes(merged, middle) && !Precedes(middle, merged);
  }

  lemma BeforeOverlap(x: Texts) returns (p: Path, s: Db)
    ensures !p.auto && Leads(p, Just(s)) && Enabled(s, Finish) && !KeepsLevels(s, Finish)
  {
    var a, b, c, d, middle, merged;
    p, s, a, b, c, d, middle, merged := GapMerged(x);
    Surrounded(s, a, b, c, d, middle, merged);
  }

  /** A manual compaction of level 1, with a dump of the key in the middle while it runs, ends with two files of level 2 that
      overlap. All steps are taken as the code takes them. */
  lemma LevelsOverlap(x: Texts) returns (states: seq<Db>, actions: seq<Action>, s: Db)
    ensures IsRun(LevelSteps, states, actions) && states[|states| - 1] == s
    ensures forall k :: 0 <= k < |actions| ==> TakenAt(false, states, actions, k)
    ensures Enabled(s, Finish) && Taken(false, s, Finish) && !SortedLevels(Next(s, Finish).version)
  {
    var p;
    p, s := BeforeOverlap(x);
    PathInv(p, s);
    PathTaken(p, s);
    FinishKeepsLevelsIff(s);
    states, actions := p.states, p.actions;
  }
}
