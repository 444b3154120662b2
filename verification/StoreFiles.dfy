/** Files: none that anybody may still read is deleted, and the others are. */
module StoreFiles {
  import opened Values
  import opened InternalKeys
  import opened Versions
  import opened VersionEdits
  import opened Compactions
  import opened VersionLists
  import opened Store
  import opened StoreInvariant
  import opened StoreRuns
  import opened StoreSnapshots

  // ---------------------------------------------------------------------------------------------
  // Nothing that is in use is deleted
  // ---------------------------------------------------------------------------------------------

  /** At every point of a run each table of each version anybody holds is on disk with the contents it was written with. */
  lemma NoLiveFileDeleted(states: seq<Db>, actions: seq<Action>, i: nat, h: Holder)
    requires IsRun(LevelSteps, states, actions) && i < |states| && h in states[i].versions.holders
    ensures var s := states[i];
            && s.versions.holders[h] in s.versions.nodes
            && forall l, f :: 0 <= l < |Held(s.versions, h)| && f in Held(s.versions, h)[l] ==>
                 f.number in s.disk.tables && s.disk.tables[f.number] == f.entries
  {
    RunKeeps(states, actions, i);
    var s := states[i];
    HeldBacked(s.versions, h, s.disk.tables, s.nextFile);
    var v := Held(s.versions, h);
    forall l, f: File | 0 <= l < |v| && f in v[l] ensures f.number in s.disk.tables && s.disk.tables[f.number] == f.entries {
      assert BackedFile(f, s.disk.tables, s.nextFile);
    }
  }

  /** So is each finished output of a running compaction, and the one being written has not been deleted. */
  lemma NoOutputDeleted(states: seq<Db>, actions: seq<Action>, i: nat)
    requires IsRun(LevelSteps, states, actions) && i < |states| && states[i].running.Compacting?
    ensures var s := states[i];
            && (forall f :: f in s.running.outputs ==> f.number in s.disk.tables && s.disk.tables[f.number] == f.entries)
            && (s.running.open.Just? ==> s.running.open.value in s.disk.tables)
  {
    RunKeeps(states, actions, i);
    var s := states[i];
    OutputsThere(s.running, s.pending, s.disk.tables, s.nextFile);
  }

  lemma OutputsThere(r: Running, pending: set<nat>, tables: map<nat, seq<Entry>>, nextFile: nat)
    requires r.Compacting? && OutputsOk(r, pending, tables, nextFile)
    ensures forall f :: f in r.outputs ==> f.number in tables && tables[f.number] == f.entries
    ensures r.open.Just? ==> r.open.value in tables
  {
    forall f | f in r.outputs ensures f.number in tables && tables[f.number] == f.entries {
      assert BackedFile(f, tables, nextFile);
    }
  }

  /** A version is on the list exactly as long as somebody holds it, with the count of its holders. */
  lemma ListedWhileHeld(states: seq<Db>, actions: seq<Action>, i: nat, id: nat)
    requires IsRun(LevelSteps, states, actions) && i < |states|
    ensures var l := states[i].versions;
            && (id in l.nodes <==> exists h :: h in l.holders && l.holders[h] == id)
            && (id in l.nodes ==> l.nodes[id].refs == |HoldersOf(l.holders, id)| > 0)
  {
    RunKeeps(states, actions, i);
    ListedIffHeld(states[i].versions, id);
  }

  /** What deletion leaves: tables of versions somebody holds, and tables being written. */
  lemma OnlyUsedFilesRemain(s: Db, n: nat)
    requires Inv(s) && Enabled(s, DeleteObsolete) && n in Next(s, DeleteObsolete).disk.tables && n !in s.pending
    ensures exists h :: h in s.versions.holders && s.versions.holders[h] in s.versions.nodes &&
                        n in VersionNumbers(s.versions.nodes[s.versions.holders[h]].files)
  {
    assert n in LiveNumbers(s);
    var id :| id in s.versions.nodes && n in VersionNumbers(s.versions.nodes[id].files);
    ListedIffHeld(s.versions, id);
  }

  /** The numbers protected from deletion are those of the running compaction, and no others. */
  lemma PendingStep(s: Db, a: Action)
    requires Enabled(s, a) && s.pending == OutputNumbers(s.running)
    ensures Next(s, a).pending == OutputNumbers(Next(s, a).running)
  {
    match a
    case FinishOutput(count, size) =>
      var f := File(s.running.open.value, size, s.running.kept[s.running.pos..s.running.pos + count]);
      assert forall n :: n in Numbers(s.running.outputs + [f]) <==> n in Numbers(s.running.outputs) || n == f.number by {
        OneMoreNumber(s.running.outputs, f);
      }
    case _ =>
  }

  lemma OneMoreNumber(outputs: seq<File>, f: File)
    ensures Numbers(outputs + [f]) == Numbers(outputs) + {f.number}
  {
  }

  lemma {:induction false} PendingIsRunning(states: seq<Db>, actions: seq<Action>, i: nat)
    requires IsRun(AnySteps, states, actions) && i < |states|
    ensures states[i].pending == OutputNumbers(states[i].running)
    decreases i
  {
    if i > 0 {
      StepsLength(AnySteps, states, actions);
      PendingIsRunning(states, actions, i - 1);
      StepOf(AnySteps, states, actions, i - 1);
      PendingAfter(states[i - 1], actions[i - 1], states[i]);
    } else {
      NothingPending(states[0]);
    }
  }

  lemma PendingAfter(s: Db, a: Action, t: Db)
    requires Step(s, a, t) && s.pending == OutputNumbers(s.running)
    ensures t.pending == OutputNumbers(t.running)
  {
    PendingStep(s, a);
  }

  lemma NothingPending(s: Db)
    requires Init(s)
    ensures s.pending == OutputNumbers(s.running)
  {
  }

  /** Nothing leaks: after deletion every table is one of a version somebody holds, or an output of the running compaction. */
  lemma NoFileLeaks(states: seq<Db>, actions: seq<Action>, i: nat, n: nat)
    requires IsRun(LevelSteps, states, actions) && i < |actions| && actions[i] == DeleteObsolete
    requires i + 1 < |states| && n in states[i + 1].disk.tables
    ensures var s := states[i];
            || n in OutputNumbers(s.running)
            || exists h :: h in s.versions.holders && s.versions.holders[h] in s.versions.nodes &&
                           n in VersionNumbers(s.versions.nodes[s.versions.holders[h]].files)
  {
    RunKeeps(states, actions, i);
    AnyStepsOf(LevelSteps, states, actions);
    PendingIsRunning(states, actions, i);
    StepOf(LevelSteps, states, actions, i);
    if n !in states[i].pending {
      OnlyUsedFilesRemain(states[i], n);
    }
  }

  /** And of the logs, unchanged, the one new groups go to, and the one of the immutable memtable if there is one. */
  lemma OnlyLiveLogsRemain(s: Db)
    requires Inv(s) && Enabled(s, DeleteObsolete)
    ensures var logs := Next(s, DeleteObsolete).disk.logs;
            && logs.Keys == (if s.hasImm then {s.minLog, s.logNumber} else {s.logNumber})
            && forall n :: n in logs ==> n in s.disk.logs && logs[n] == s.disk.logs[n]
  {
    LogsKept(s.disk.logs, s.mem, s.imm, s.hasImm, s.inflight, s.minLog, s.logNumber, s.nextFile);
  }

  lemma LogsKept(logs: map<nat, seq<Group>>, mem: seq<Entry>, imm: seq<Entry>, hasImm: bool, inflight: Inflight,
                 minLog: nat, logNumber: nat, nextFile: nat)
    requires LogsOk(logs, mem, imm, hasImm, inflight, minLog, logNumber, nextFile)
    ensures KeepLogs(logs, minLog).Keys == if hasImm then {minLog, logNumber} else {logNumber}
    ensures forall n :: n in KeepLogs(logs, minLog) ==> n in logs && KeepLogs(logs, minLog)[n] == logs[n]
  {
  }

  // ---------------------------------------------------------------------------------------------
  // A reader's version
  // ---------------------------------------------------------------------------------------------

  ghost predicate Holds(l: VersionList, h: Holder, v: Version) {
    Counted(l) && h in l.holders && Held(l, h) == v
  }

  lemma HoldsAfterAcquire(l: VersionList, g: Holder, h: Holder, v: Version)
    requires Holds(l, h, v) && g !in l.holders
    ensures Holds(Acquire(l, g), h, v)
  {
    AcquireKeeps(l, g);
  }

  lemma HoldsAfterRelease(l: VersionList, g: Holder, h: Holder, v: Version)
    requires Holds(l, h, v) && g in l.holders && g != h && g != CurrentVersion
    ensures Holds(Release(l, g), h, v)
  {
    ReleaseKeeps(l, g);
  }

  lemma HoldsAfterAppend(l: VersionList, files: Version, h: Holder, v: Version)
    requires Holds(l, h, v) && h != CurrentVersion
    ensures Holds(AppendVersion(l, files), h, v)
  {
    AppendKeeps(l, files);
  }

  predicate LetsGo(a: Action, reader: nat) {
    a.Crash? || a == ReleaseVersion(reader)
  }

  lemma StepHolds(s: Db, a: Action, reader: nat, v: Version)
    requires Inv(s) && Enabled(s, a) && !LetsGo(a, reader) && Holds(s.versions, Reader(reader), v)
    ensures Holds(Next(s, a).versions, Reader(reader), v)
  {
    var l, h := s.versions, Reader(reader);
    match a
    case BuildDump(_) => HoldsAfterAcquire(l, DumpBase, h, v);
    case CommitDump(level) =>
      HoldsAfterRelease(l, DumpBase, h, v);
      HoldsAfterAppend(Release(l, DumpBase), ApplyEdit(s.version, DumpEdit(s, level)), h, v);
    case Pick(_, _) => HoldsAfterAcquire(l, CompactionInput, h, v);
    case Finish =>
      var v' := ApplyEdit(s.version, CompactionChanges(s.running.c, s.running.outputs));
      HoldsAfterAppend(l, v', h, v);
      AppendKeeps(l, v');
      HoldsAfterRelease(AppendVersion(l, v'), CompactionInput, h, v);
    case Abandon => HoldsAfterRelease(l, CompactionInput, h, v);
    case TrivialMove(c) => HoldsAfterAppend(l, ApplyEdit(s.version, CompactionChanges(c, c.from)), h, v);
    case AcquireVersion(other) => HoldsAfterAcquire(l, Reader(other), h, v);
    case ReleaseVersion(other) => HoldsAfterRelease(l, Reader(other), h, v);
    case _ =>
  }

  lemma SoundStepHolds(kind: Runs, s: Db, a: Action, t: Db, reader: nat, v: Version)
    requires Sound(kind, Just(s)) && Step(s, a, t) && !LetsGo(a, reader) && Holds(s.versions, Reader(reader), v)
    ensures Holds(t.versions, Reader(reader), v)
  {
    assert Open(s, 0);
    StepHolds(s, a, reader, v);
  }

  lemma AcquireShape(s: Db, reader: nat, t: Db)
    requires Step(s, AcquireVersion(reader), t)
    ensures Reader(reader) !in s.versions.holders && t.versions == Acquire(s.versions, Reader(reader))
  {
  }

  lemma AcquireHolds(kind: Runs, s: Db, reader: nat, t: Db)
    requires Sound(kind, Just(s)) && Step(s, AcquireVersion(reader), t)
    ensures Holds(t.versions, Reader(reader), s.version)
  {
    AcquireShape(s, reader, t);
    SoundListed(kind, s);
    AcquireKeeps(s.versions, Reader(reader));
  }

  lemma SoundListed(kind: Runs, s: Db)
    requires Sound(kind, Just(s))
    ensures Counted(s.versions) && Held(s.versions, CurrentVersion) == s.version
  {
    assert Open(s, 0);
  }

  /** From one state to a later one. */
  lemma {:induction false} StillHolds(kind: Runs, states: seq<Db>, actions: seq<Action>, i: nat, j: nat, reader: nat, v: Version)
    requires Steps(kind, states, actions) && !kind.AnySteps? && Sound(kind, Just(states[0])) && i <= j < |states| == |actions| + 1
    requires Holds(states[i].versions, Reader(reader), v) && forall k :: i <= k < j ==> !LetsGo(actions[k], reader)
    ensures Holds(states[j].versions, Reader(reader), v)
    decreases j
  {
    if i != j {
      StillHolds(kind, states, actions, i, j - 1, reader, v);
      RunStays(kind, states, actions, j - 1);
      StepOf(kind, states, actions, j - 1);
      SoundStepHolds(kind, states[j - 1], actions[j - 1], states[j], reader, v);
    }
  }

  /** A reader that took a reference to the current version still has that version, and all its tables are still there,
      until it lets go: whatever is dumped, compacted and deleted in between. */
  lemma ReaderUndisturbed(states: seq<Db>, actions: seq<Action>, i: nat, j: nat, reader: nat)
    requires IsRun(LevelSteps, states, actions) && i < j < |states| == |actions| + 1 && actions[i] == AcquireVersion(reader)
    requires forall k :: i < k < j ==> !LetsGo(actions[k], reader)
    ensures Holds(states[j].versions, Reader(reader), states[i].version)
    ensures Backed(states[i].version, states[j].disk.tables, states[j].nextFile)
  {
    InitSound(LevelSteps, states[0]);
    RunStays(LevelSteps, states, actions, i);
    StepOf(LevelSteps, states, actions, i);
    AcquireHolds(LevelSteps, states[i], reader, states[i + 1]);
    StillHolds(LevelSteps, states, actions, i + 1, j, reader, states[i].version);
    RunKeeps(states, actions, j);
    HeldBacked(states[j].versions, Reader(reader), states[j].disk.tables, states[j].nextFile);
  }

  lemma HeldBacked(l: VersionList, h: Holder, tables: map<nat, seq<Entry>>, nextFile: nat)
    requires Counted(l) && h in l.holders && FilesOk(l, tables, nextFile)
    ensures Backed(Held(l, h), tables, nextFile)
  {
    assert l.holders[h] in l.nodes;
  }
}
