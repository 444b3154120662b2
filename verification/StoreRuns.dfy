/** Steps and whole runs of the store: what every step keeps, and what every state of a run satisfies. */
module StoreRuns {
  import opened Values
  import opened InternalKeys
  import opened Versions
  import opened VersionEdits
  import opened OutputCuts
  import opened Manifests
  import opened Store
  import opened StoreInvariant
  import opened StoreWrites
  import opened StoreBackground
  import opened Recovery

  // ---------------------------------------------------------------------------------------------
  // One step
  // ---------------------------------------------------------------------------------------------

  /** Every action keeps the invariant of memory, versions, files and logs, as long as compactions keep the levels disjoint. */
  lemma StepKeeps(s: Db, a: Action)
    requires Inv(s) && Enabled(s, a) && KeepsLevels(s, a)
    ensures Inv(Next(s, a))
  {
    if Foreground(a) {
      ForegroundStepKeeps(s, a);
    } else if Compaction(a) {
      CompactionStepKeeps(s, a);
    } else {
      DiskStepKeeps(s, a);
    }
  }

  predicate Foreground(a: Action) {
    a.BeginWrite? || a.LogGroup? || a.InsertNext? || a.Publish? || a.Switch? || a.TakeSnapshot? || a.ReleaseSnapshot? ||
    a.AcquireVersion? || a.ReleaseVersion?
  }

  predicate Compaction(a: Action) {
    a.Pick? || a.OpenOutput? || a.FinishOutput? || a.Finish? || a.Abandon? || a.TrivialMove?
  }

  lemma DiskStepKeeps(s: Db, a: Action)
    requires Inv(s) && Enabled(s, a)
    requires a.BuildDump? || a.CommitDump? || a.DeleteObsolete? || a.Crash?
    ensures Inv(Next(s, a))
  {
    match a
    case BuildDump(size) => BuildDumpKeeps(s, size);
    case CommitDump(level) => CommitDumpKeeps(s, level);
    case DeleteObsolete => DeleteObsoleteKeeps(s);
    case Crash(_, _, _, _, _, _) => CrashKeeps(s, a);
  }

  lemma CompactionStepKeeps(s: Db, a: Action)
    requires Inv(s) && Enabled(s, a) && KeepsLevels(s, a)
    requires Compaction(a)
    ensures Inv(Next(s, a))
  {
    match a
    case Pick(c, input) => PickKeeps(s, c, input);
    case OpenOutput => OpenOutputKeeps(s);
    case FinishOutput(count, size) => FinishOutputKeeps(s, count, size);
    case Finish => FinishKeeps(s);
    case Abandon => AbandonKeeps(s);
    case TrivialMove(c) => TrivialMoveKeeps(s, c);
  }

  lemma ForegroundStepKeeps(s: Db, a: Action)
    requires Inv(s) && Enabled(s, a) && Foreground(a)
    ensures Inv(Next(s, a))
  {
    match a
    case BeginWrite(ops) => BeginWriteKeeps(s, ops);
    case LogGroup => LogGroupKeeps(s);
    case InsertNext => InsertNextKeeps(s);
    case Publish => PublishKeeps(s);
    case Switch => SwitchKeeps(s);
    case TakeSnapshot => TakeSnapshotKeeps(s);
    case ReleaseSnapshot(i) => ReleaseSnapshotKeeps(s, i);
    case AcquireVersion(reader) => AcquireVersionKeeps(s, reader);
    case ReleaseVersion(reader) => ReleaseVersionKeeps(s, reader);
  }

  /** The actions that can change what is read. */
  predicate Rearranges(a: Action) {
    a.Publish? || a.Switch? || a.ReleaseSnapshot? || a.CommitDump? || a.Finish? || a.TrivialMove? || a.Crash?
  }

  /** Every action keeps reads in agreement with the acknowledged writes, as long as no compaction leaves a boundary file out. */
  lemma StepReads(s: Db, a: Action)
    requires Inv(s) && Reads(s) && Enabled(s, a) && KeepsLevels(s, a) && KeepsReads(s, a)
    ensures Reads(Next(s, a))
  {
    if Rearranges(a) {
      RearrangingStepReads(s, a);
    } else {
      OtherStepReads(s, a);
    }
  }

  lemma RearrangingStepReads(s: Db, a: Action)
    requires Inv(s) && Reads(s) && Enabled(s, a) && KeepsLevels(s, a) && KeepsReads(s, a) && Rearranges(a)
    ensures Reads(Next(s, a))
  {
    match a
    case Publish => PublishReads(s);
    case Switch => SwitchReads(s);
    case ReleaseSnapshot(i) => ReleaseSnapshotReads(s, i);
    case CommitDump(level) => CommitDumpReads(s, level);
    case Finish => FinishReads(s);
    case TrivialMove(c) => TrivialMoveKeeps(s, c);
    case Crash(_, _, _, _, _, _) => CrashKeeps(s, a);
  }

  lemma OtherStepReads(s: Db, a: Action)
    requires Reads(s) && Enabled(s, a) && !Rearranges(a)
    ensures Reads(Next(s, a))
  {
    var t := Next(s, a);
    assert t.mem == s.mem && t.imm == s.imm && t.version == s.version && t.hist == s.hist;
    assert SmallestSnapshot(t) == SmallestSnapshot(s);
  }

  // ---------------------------------------------------------------------------------------------
  // Runs
  // ---------------------------------------------------------------------------------------------

  /** NewDB writes a manifest with one edit and nothing else. */
  const NEW_DISK: Disk := Disk(map[], [Record(NO_CHANGES, Meta(0, 2, 0))], map[])

  /** The store right after it was created and opened. */
  ghost predicate Init(s: Db) {
    && ReplayMeta(NEW_DISK.manifest).Meta?
    && exists newLog :: newLog > 2 && s == Recovered(NEW_DISK, EMPTY_VERSION, [], [], newLog, {})
  }

  ghost predicate Step(s: Db, a: Action, t: Db) {
    Enabled(s, a) && Same(t, Next(s, a))
  }

  ghost predicate StepAt(states: seq<Db>, actions: seq<Action>, i: nat) {
    i < |actions| && |states| == |actions| + 1 && Step(states[i], actions[i], states[i + 1])
  }

  ghost predicate LevelStepAt(states: seq<Db>, actions: seq<Action>, i: nat) {
    StepAt(states, actions, i) && KeepsLevels(states[i], actions[i])
  }

  ghost predicate CarefulStepAt(states: seq<Db>, actions: seq<Action>, i: nat) {
    LevelStepAt(states, actions, i) && KeepsReads(states[i], actions[i])
  }

  /** Runs with any steps; runs whose compactions keep the levels disjoint; runs whose compactions leave no boundary file out
      either. */
  datatype Runs = AnySteps | LevelSteps | CarefulSteps

  ghost predicate Steps(kind: Runs, states: seq<Db>, actions: seq<Action>) {
    match kind
    case AnySteps => |states| == |actions| + 1 && forall i :: 0 <= i < |actions| ==> StepAt(states, actions, i)
    case LevelSteps => |states| == |actions| + 1 && forall i :: 0 <= i < |actions| ==> LevelStepAt(states, actions, i)
    case CarefulSteps => |states| == |actions| + 1 && forall i :: 0 <= i < |actions| ==> CarefulStepAt(states, actions, i)
  }

  /** A run from the opening of a new store. */
  ghost predicate IsRun(kind: Runs, states: seq<Db>, actions: seq<Action>) {
    Steps(kind, states, actions) && Init(states[0])
  }

  /** The invariant, kept shut: proofs about runs hand it on without looking into it. */
  ghost predicate Sound(kind: Runs, s: Maybe<Db>) {
    match s
    case Nothing => true
    case Just(db) => forall k {:trigger Open(db, k)} :: Open(db, k) ==> Inv(db) && (kind.CarefulSteps? ==> Reads(db))
  }

  lemma EmptyVersionOk()
    ensures VersionOk(EMPTY_VERSION) && AllContents(EMPTY_VERSION) == {}
    ensures forall l, f: File :: 0 <= l < |EMPTY_VERSION| ==> f !in EMPTY_VERSION[l]
  {
  }

  lemma NewDiskRecoverable()
    ensures ReplayMeta(NEW_DISK.manifest).Meta?
    ensures Recoverable(NEW_DISK, [], {}) && RecoverableReads(NEW_DISK, [], {})
  {
    NewManifestReplays();
    EmptyVersionOk();
    NothingStored(AllContents(EMPTY_VERSION));
  }

  lemma NewManifestReplays()
    ensures ReplayVersion(NEW_DISK.manifest) == EMPTY_VERSION && ReplayMeta(NEW_DISK.manifest) == Meta(0, 2, 0)
    ensures AddedOnce(Changes(NEW_DISK.manifest))
  {
    var r := NEW_DISK.manifest[0];
    assert [] + [r] == NEW_DISK.manifest;
    ReplayAppend([], r);
    NoChangesReplay(EMPTY_VERSION);
    NothingAdded(Changes(NEW_DISK.manifest));
  }

  lemma NothingAdded(edits: seq<FileChanges>)
    requires edits == [NO_CHANGES]
    ensures AddedOnce(edits)
  {
    forall l | 0 <= l < NUM_LEVELS ensures AddedAfter(edits, l) == [] {
      assert AddedAfter(edits[..0], l) == [] && AddedFiles([], l) == [];
    }
  }

  lemma NothingStored(A: set<Entry>)
    requires A == {}
    ensures Elems([]) == {} && A + Elems([]) == {}
  {
  }

  lemma InitInv(s: Db)
    requires Init(s)
    ensures Inv(s) && Reads(s)
  {
    var newLog :| newLog > 2 && s == Recovered(NEW_DISK, EMPTY_VERSION, [], [], newLog, {});
    NewDiskRecoverable();
    NewManifestReplays();
    BuiltIsReplayed(Changes(NEW_DISK.manifest), EMPTY_VERSION);
    assert Concat([]) == [];
    assert FlatLogs(NEW_DISK.logs, []) == [];
    RecoveredInv(NEW_DISK, EMPTY_VERSION, [], [], [], newLog, {});
  }

  lemma SoundStep(kind: Runs, s: Db, a: Action, t: Db)
    requires Sound(kind, Just(s)) && Step(s, a, t) && KeepsLevels(s, a) && (kind.CarefulSteps? ==> KeepsReads(s, a))
    ensures Sound(kind, Just(t))
  {
    assert Open(s, 0);
    StepKeeps(s, a);
    if kind.CarefulSteps? {
      StepReads(s, a);
    }
  }

  /** What the steps of a guarded run have in common. */
  lemma StepOf(kind: Runs, states: seq<Db>, actions: seq<Action>, i: nat)
    requires Steps(kind, states, actions) && i < |actions|
    ensures |states| == |actions| + 1 && StepAt(states, actions, i)
    ensures !kind.AnySteps? ==> KeepsLevels(states[i], actions[i])
    ensures kind.CarefulSteps? ==> KeepsReads(states[i], actions[i])
  {
    match kind
    case AnySteps => assert StepAt(states, actions, i);
    case LevelSteps => assert LevelStepAt(states, actions, i);
    case CarefulSteps => assert CarefulStepAt(states, actions, i);
  }

  lemma RunSteps(kind: Runs, states: seq<Db>, actions: seq<Action>, i: nat)
    requires Steps(kind, states, actions) && !kind.AnySteps? && 0 < i < |states| && Sound(kind, Just(states[i - 1]))
    ensures Sound(kind, Just(states[i]))
  {
    StepsLength(kind, states, actions);
    StepOf(kind, states, actions, i - 1);
    SoundStep(kind, states[i - 1], actions[i - 1], states[i]);
  }

  lemma StepsLength(kind: Runs, states: seq<Db>, actions: seq<Action>)
    requires Steps(kind, states, actions)
    ensures |states| == |actions| + 1
  {
  }

  lemma {:induction false} RunStays(kind: Runs, states: seq<Db>, actions: seq<Action>, i: nat)
    requires Steps(kind, states, actions) && !kind.AnySteps? && i < |states| && Sound(kind, Just(states[0]))
    ensures Sound(kind, Just(states[i]))
    decreases i
  {
    if i != 0 {
      RunStays(kind, states, actions, i - 1);
      RunSteps(kind, states, actions, i);
    } else {
      FirstStays(kind, states, i);
    }
  }

  lemma FirstStays(kind: Runs, states: seq<Db>, i: nat)
    requires i == 0 < |states| && Sound(kind, Just(states[0]))
    ensures Sound(kind, Just(states[i]))
  {
  }

  lemma InitSound(kind: Runs, s: Db)
    requires Init(s)
    ensures Sound(kind, Just(s))
  {
    InitInv(s);
  }

  /** Every state of a run satisfies the invariant, as long as compactions keep the levels disjoint. */
  lemma RunKeeps(states: seq<Db>, actions: seq<Action>, i: nat)
    requires IsRun(LevelSteps, states, actions) && i < |states|
    ensures Inv(states[i])
  {
    InitSound(LevelSteps, states[0]);
    RunStays(LevelSteps, states, actions, i);
    assert Open(states[i], 0);
  }

  /** And reads agree with the acknowledged writes, as long as compactions leave no boundary file out either. */
  lemma RunReads(states: seq<Db>, actions: seq<Action>, i: nat)
    requires IsRun(CarefulSteps, states, actions) && i < |states|
    ensures Inv(states[i]) && Reads(states[i])
  {
    InitSound(CarefulSteps, states[0]);
    RunStays(CarefulSteps, states, actions, i);
    assert Open(states[i], 0);
  }

  // ---------------------------------------------------------------------------------------------
  // History
  // ---------------------------------------------------------------------------------------------

  /** History only grows, and only by entries newer than everything published so far. */
  lemma StepHistory(s: Db, a: Action)
    requires Inv(s) && Enabled(s, a)
    ensures s.hist <= Next(s, a).hist
    ensures forall e :: e in Next(s, a).hist && e !in s.hist ==> e.seqno > s.last
  {
    HistoryAdds(s, a);
    if s.inflight.Writing? {
      GroupIsNewer(s.inflight, s.last);
    }
  }

  /** Only a group in flight can join the history. */
  lemma HistoryAdds(s: Db, a: Action)
    requires Enabled(s, a)
    ensures s.hist <= Next(s, a).hist
    ensures forall e :: e in Next(s, a).hist && e !in s.hist ==> s.inflight.Writing? && e in Elems(s.inflight.batch)
  {
    if !a.Publish? && !a.Crash? {
      HistoryStays(s, a);
    }
  }

  lemma HistoryStays(s: Db, a: Action)
    requires Enabled(s, a) && !a.Publish? && !a.Crash?
    ensures Next(s, a).hist == s.hist && Next(s, a).last == s.last
  {
  }

  lemma GroupIsNewer(inflight: Inflight, last: Seqno)
    requires InflightOk(inflight, last) && inflight.Writing?
    ensures forall e :: e in Elems(inflight.batch) ==> e.seqno > last
  {
    forall e | e in Elems(inflight.batch) ensures e.seqno > last {
      var i :| 0 <= i < |inflight.batch| && inflight.batch[i] == e;
    }
  }

  lemma StepLast(s: Db, a: Action)
    requires Inv(s) && Enabled(s, a)
    ensures s.last <= Next(s, a).last
  {
    if a.Crash? {
      CrashLast(s, a);
    } else if !a.Publish? {
      HistoryStays(s, a);
    }
  }

  lemma CrashLast(s: Db, a: Action)
    requires Inv(s) && a.Crash? && Enabled(s, a)
    ensures Next(s, a).last == s.last + |InflightEntries(s.inflight)|
  {
    var es := CrashFinds(s, a);
  }

  /** Acknowledged writes stay, and later ones have higher sequence numbers. */
  ghost predicate Grown(earlier: Maybe<Db>, t: Db) {
    match earlier
    case Nothing => true
    case Just(s) => s.hist <= t.hist && s.last <= t.last && forall e :: e in t.hist && e !in s.hist ==> e.seqno > s.last
  }

  lemma GrownTransitive(r: Db, s: Db, t: Db)
    requires Grown(Just(r), s) && Grown(Just(s), t)
    ensures Grown(Just(r), t)
  {
  }

  lemma StepGrows(kind: Runs, s: Db, a: Action, t: Db)
    requires Sound(kind, Just(s)) && Step(s, a, t)
    ensures Grown(Just(s), t)
  {
    assert Open(s, 0);
    StepHistory(s, a);
    StepLast(s, a);
  }

  lemma RunGrows(kind: Runs, states: seq<Db>, actions: seq<Action>, j: nat)
    requires Steps(kind, states, actions) && !kind.AnySteps? && 0 < j < |states| && Sound(kind, Just(states[0]))
    ensures Grown(Just(states[j - 1]), states[j])
  {
    RunStays(kind, states, actions, j - 1);
    StepsLength(kind, states, actions);
    StepOf(kind, states, actions, j - 1);
    StepGrows(kind, states[j - 1], actions[j - 1], states[j]);
  }

  lemma {:induction false} HistoryGrows(kind: Runs, states: seq<Db>, actions: seq<Action>, i: nat, j: nat)
    requires Steps(kind, states, actions) && !kind.AnySteps? && i <= j < |states| && Sound(kind, Just(states[0]))
    ensures Grown(Just(states[i]), states[j])
    decreases j
  {
    if i != j {
      HistoryGrows(kind, states, actions, i, j - 1);
      RunGrows(kind, states, actions, j);
      GrownTransitive(states[i], states[j - 1], states[j]);
    }
  }
}
