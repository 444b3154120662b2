/** Runs whose compactions are picked automatically keep the levels disjoint, and where no snapshots are taken they never change
    what is read: nothing has to be assumed about them. */
module PlainRuns {
  import opened Values
  import opened InternalKeys
  import opened Versions
  import opened VersionEdits
  import opened InputSelection
  import opened CompactionInputs
  import opened DropRules
  import opened Compactions
  import opened Dumps
  import opened Manifests
  import opened Store
  import opened StoreInvariant
  import opened StoreBackground
  import opened Recovery
  import opened StoreRuns

  /** No user key lies in the ranges of two files. */
  ghost predicate Apart(files: seq<File>) {
    forall f, g :: f in files && g in files && f != g ==> !Overlap(f, g)
  }

  ghost predicate Unsplit(v: Version) {
    forall l {:trigger Apart(v[l])} :: 1 <= l < |v| ==> Apart(v[l])
  }

  /** The inputs of the running compaction form one run of keys, as those PickCompaction chooses do. */
  ghost predicate InOneRun(s: Db) {
    s.running.Compacting? ==> HullCovered(s.running.c.from + s.running.c.into)
  }

  /** What holds in addition when no snapshot is ever taken: below level 0 no key is split between files,
      and a running compaction sees nothing but entries every reader may already see. */
  ghost predicate Plain(s: Db) {
    && s.snapshots == []
    && Unsplit(s.version)
    && (s.running.Compacting? ==> UpTo(InputEntries(s.running.c), s.running.snap))
  }

  /** Compaction inputs as PickCompaction chooses them; if `plain`, no snapshots. */
  ghost predicate Automatic(plain: bool, a: Action) {
    (plain ==> !a.TakeSnapshot?) && (a.Pick? ==> HullCovered(a.c.from + a.c.into))
  }

  // ---------------------------------------------------------------------------------------------
  // Every action of such a store is careful
  // ---------------------------------------------------------------------------------------------

  lemma ConnectedKeepsLevels(s: Db)
    requires Inv(s) && InOneRun(s) && Enabled(s, Finish)
    ensures KeepsLevels(s, Finish)
  {
    assert AllContents(s.version) <= s.hist;
    OutputsOfCompaction(s.running, s.version, SmallestSnapshot(s), s.hist);
    ConnectedOutputsApart(s.version, s.running.c, s.running.outputs);
  }

  lemma UnsplitLeavesNothingOut(w: Version, c: Inputs)
    requires c.level + 1 < |w| && InputsPresent(w, c) && Apart(w[c.level + 1])
    ensures NothingLeftOut(w, c)
  {
    forall f, g ensures !BoundaryLeftOut(w, c, f, g) {
      if f in c.into && g in w[c.level + 1] && g !in c.into {
        KeysOrdered(f);
        KeysOrdered(g);
        assert !Overlap(f, g);
      }
    }
  }

  lemma PlainKeepsReads(s: Db)
    requires Inv(s) && Plain(s) && Enabled(s, Finish)
    ensures KeepsReads(s, Finish)
  {
    assert Apart(s.version[s.running.c.level + 1]);
    UnsplitLeavesNothingOut(s.version, s.running.c);
  }

  // ---------------------------------------------------------------------------------------------
  // Steps keep stores plain
  // ---------------------------------------------------------------------------------------------

  lemma SurvivorsDistinct(v: Version, level: nat, I: set<Entry>, snap: Seqno, a: Entry, b: Entry)
    requires UpTo(I, snap) && UniqueSeqnos(I)
    requires Survives(v, level, I, a, snap) && Survives(v, level, I, b, snap) && a.user == b.user
    ensures a == b
  {
    assert a.seqno < b.seqno ==> Hidden(I, a, snap);
    assert b.seqno < a.seqno ==> Hidden(I, b, snap);
  }

  /** One entry per key survives, so the outputs share no key. */
  lemma OutputsShareNoKey(v: Version, level: nat, I: set<Entry>, snap: Seqno, outputs: seq<File>)
    requires UpTo(I, snap) && UniqueSeqnos(I) && KeepsSurvivors(v, level, I, Contents(outputs), snap)
    requires SortedDisjoint(outputs)
    ensures Apart(outputs)
  {
    forall f, g | f in outputs && g in outputs && f != g ensures !Overlap(f, g) {
      Comparable(outputs, f, g);
      var x, y := if Precedes(f, g) then f else g, if Precedes(f, g) then g else f;
      var a, b := x.entries[|x.entries| - 1], y.entries[0];
      InContents(outputs, x, a);
      InContents(outputs, y, b);
      if a.user == b.user {
        SurvivorsDistinct(v, level, I, snap, a, b);
      }
    }
  }

  /** An output overlaps no file that stays at its level. */
  lemma OutputApartFromRest(w: Version, c: Inputs, outputs: seq<File>, f: File, g: File)
    requires Installable(w, c) && Apart(w[c.level + 1]) && OutputsApart(w, c, outputs) && Contents(outputs) <= InputEntries(c)
    requires f in outputs && g in w[c.level + 1] && g !in c.into
    ensures !Overlap(f, g)
  {
    assert Precedes(f, g) || Precedes(g, f);
    var e := if Precedes(f, g) then f.entries[|f.entries| - 1] else f.entries[0];
    InContents(outputs, f, e);
    InputNotSpanned(w, c, g, e);
    KeysOrdered(f);
    KeysOrdered(g);
  }

  lemma InputNotSpanned(w: Version, c: Inputs, g: File, e: Entry)
    requires Installable(w, c) && Apart(w[c.level + 1]) && e in InputEntries(c)
    requires g in w[c.level + 1] && g !in c.into
    ensures !g.Spans(e.user)
  {
    if e !in Contents(c.from) {
      var h :| h in c.into && e in h.entries;
      FileRange(h, e);
      assert !Overlap(h, g);
    }
  }

  lemma UnsplitAfterCompaction(w: Version, w': Version, c: Inputs, outputs: seq<File>)
    requires Unsplit(w) && Installable(w, c) && OutputsApart(w, c, outputs) && FilesAfter(w, w', c, outputs)
    requires Contents(outputs) <= InputEntries(c) && Apart(outputs)
    ensures Unsplit(w')
  {
    forall l | 1 <= l < |w'| ensures Apart(w'[l]) {
      assert Apart(w[l]);
      forall f: File, g: File | f in w'[l] && g in w'[l] && f != g ensures !Overlap(f, g) {
        var fStays, gStays := Stays(w, c, l, f), Stays(w, c, l, g);
        assert (fStays || (l == c.level + 1 && f in outputs)) && (gStays || (l == c.level + 1 && g in outputs));
        if !fStays && gStays {
          OutputApartFromRest(w, c, outputs, f, g);
        } else if fStays && !gStays {
          OutputApartFromRest(w, c, outputs, g, f);
        }
      }
    }
  }

  lemma UnsplitAfterDump(w: Version, w': Version, level: nat, f: File)
    requires Unsplit(w) && MayDump(w, level, f) && FilesAfterDump(w, w', level, f)
    ensures Unsplit(w')
  {
    forall l | 1 <= l < |w'| ensures Apart(w'[l]) {
      assert Apart(w[l]);
      assert l == level ==> Free(w, l, f);
      forall g: File, h: File | g in w'[l] && h in w'[l] && g != h ensures !Overlap(g, h) {
        assert (g in w[l] || (l == level && g == f)) && (h in w[l] || (l == level && h == f));
      }
    }
  }

  lemma FinishUnsplit(s: Db)
    requires Inv(s) && Plain(s) && Enabled(s, Finish) && KeepsLevels(s, Finish)
    ensures Unsplit(Next(s, Finish).version)
  {
    var r := s.running;
    assert AllContents(s.version) <= s.hist;
    OutputsOfCompaction(r, s.version, SmallestSnapshot(s), s.hist);
    FilesAfterChange(s.version, r.c, r.outputs);
    ContentsBefore(s.version, r.c);
    OutputsShareNoKey(r.base, r.c.level, InputEntries(r.c), r.snap, r.outputs);
    UnsplitAfterCompaction(s.version, Next(s, Finish).version, r.c, r.outputs);
  }

  lemma TrivialMoveUnsplit(s: Db, c: Inputs)
    requires Inv(s) && Plain(s) && Enabled(s, TrivialMove(c))
    ensures Unsplit(Next(s, TrivialMove(c)).version)
  {
    assert AllContents(s.version) <= s.hist;
    MoveUnsplit(s.version, c);
  }

  lemma MoveUnsplit(v: Version, c: Inputs)
    requires VersionOk(v) && UniqueSeqnos(AllContents(v)) && Unsplit(v) && WellChosen(v, c) && |c.from| == 1 && c.into == []
    ensures Unsplit(ApplyEdit(v, CompactionChanges(c, c.from)))
  {
    MovedOutputs(v, c);
    MovedApart(v, c);
    FilesAfterChange(v, c, c.from);
    UnsplitAfterCompaction(v, ApplyEdit(v, CompactionChanges(c, c.from)), c, c.from);
  }

  lemma CommitDumpUnsplit(s: Db, level: nat)
    requires Inv(s) && Plain(s) && Enabled(s, CommitDump(level))
    ensures Unsplit(Next(s, CommitDump(level)).version)
  {
    if s.imm == [] {
      NoChangesReplay(s.version);
    } else {
      var f := File(s.dumping.number, s.dumping.size, s.imm);
      DumpedMayDump(s.version, s.imm, s.dumping, level, s.running, s.hasImm, s.disk.tables, s.nextFile);
      DumpFiles(s.version, level, f);
      UnsplitAfterDump(s.version, Next(s, CommitDump(level)).version, level, f);
    }
  }

  lemma TablesKeepUnsplit(v: Version, tables: seq<File>)
    requires Unsplit(v)
    ensures Unsplit(ApplyEdit(v, FileChanges({}, AddAt(0, tables))))
  {
    OneEditForAll(v, tables);
    var w := WithTables(v, tables);
    WithTablesLength(v, tables);
    forall l | 1 <= l < |w| ensures Apart(w[l]) {
      WithTablesLevel(v, tables, l);
      assert Apart(v[l]);
    }
  }

  lemma CrashUnsplit(s: Db, a: Action)
    requires Inv(s) && Plain(s) && a.Crash? && Enabled(s, a)
    ensures Unsplit(Next(s, a).version)
  {
    var es := CrashFinds(s, a);
    FoundIsReplayed(AfterAttempts(s.disk, a.attempts), a.found);
    TablesKeepUnsplit(s.version, a.tables);
  }

  lemma PickPlain(s: Db, c: Inputs, input: seq<Entry>)
    requires Inv(s) && Plain(s) && Enabled(s, Pick(c, input))
    ensures Plain(Next(s, Pick(c, input)))
  {
    assert SmallestSnapshot(s) == s.last;
    assert InputsPresent(s.version, c);
    ContentsBefore(s.version, c);
    assert AllContents(s.version) <= s.hist;
    assert UpTo(InputEntries(c), s.last);
  }

  lemma PlainStep(s: Db, a: Action)
    requires Inv(s) && Plain(s) && Enabled(s, a) && KeepsLevels(s, a) && Automatic(true, a)
    ensures Plain(Next(s, a))
  {
    match a
    case Finish => FinishUnsplit(s);
    case TrivialMove(c) => TrivialMoveUnsplit(s, c);
    case CommitDump(level) => CommitDumpUnsplit(s, level);
    case Crash(_, _, _, _, _, _) => CrashUnsplit(s, a);
    case Pick(c, input) => PickPlain(s, c, input);
    case _ =>
  }

  lemma ConnectedStep(s: Db, a: Action, plain: bool)
    requires InOneRun(s) && Enabled(s, a) && Automatic(plain, a)
    ensures InOneRun(Next(s, a))
  {
  }

  lemma InitPlain(s: Db)
    requires Init(s)
    ensures InOneRun(s) && Plain(s)
  {
    var newLog :| newLog > 2 && s == Recovered(NEW_DISK, EMPTY_VERSION, [], [], newLog, {});
    forall l | 1 <= l < |EMPTY_VERSION| ensures Apart(EMPTY_VERSION[l]) {
      assert EMPTY_VERSION[l] == [];
    }
    TablesKeepUnsplit(EMPTY_VERSION, []);
  }

  // ---------------------------------------------------------------------------------------------
  // Runs
  // ---------------------------------------------------------------------------------------------

  ghost predicate Tame(plain: bool, s: Maybe<Db>) {
    match s
    case Nothing => true
    case Just(db) => forall k {:trigger Open(db, k)} :: Open(db, k) ==> Inv(db) && InOneRun(db) && (plain ==> Plain(db))
  }

  lemma TameCareful(plain: bool, s: Db, a: Action)
    requires Inv(s) && InOneRun(s) && (plain ==> Plain(s)) && Enabled(s, a)
    ensures KeepsLevels(s, a) && (plain ==> KeepsReads(s, a))
  {
    if a.Finish? {
      ConnectedKeepsLevels(s);
      if plain {
        PlainKeepsReads(s);
      }
    }
  }

  lemma TameStep(plain: bool, s: Db, a: Action, t: Db)
    requires Tame(plain, Just(s)) && Step(s, a, t) && Automatic(plain, a)
    ensures KeepsLevels(s, a) && (plain ==> KeepsReads(s, a)) && Tame(plain, Just(t))
  {
    assert Open(s, 0);
    TameCareful(plain, s, a);
    StepKeeps(s, a);
    ConnectedStep(s, a, plain);
    if plain {
      PlainStep(s, a);
    }
  }

  ghost predicate AllAutomatic(plain: bool, actions: Maybe<seq<Action>>) {
    match actions
    case Nothing => true
    case Just(all) => forall k :: 0 <= k < |all| ==> Automatic(plain, all[k])
  }

  lemma TameRunStep(plain: bool, states: seq<Db>, actions: seq<Action>, i: nat)
    requires Steps(AnySteps, states, actions) && AllAutomatic(plain, Just(actions)) && i < |actions| && Tame(plain, Just(states[i]))
    ensures |states| == |actions| + 1 && Tame(plain, Just(states[i + 1]))
    ensures LevelStepAt(states, actions, i) && (plain ==> CarefulStepAt(states, actions, i))
  {
    StepOf(AnySteps, states, actions, i);
    assert Automatic(plain, actions[i]);
    TameStep(plain, states[i], actions[i], states[i + 1]);
  }

  lemma {:induction false} TameRun(plain: bool, states: seq<Db>, actions: seq<Action>, i: nat)
    requires Steps(AnySteps, states, actions) && AllAutomatic(plain, Just(actions)) && i < |states| && Tame(plain, Just(states[0]))
    ensures Tame(plain, Just(states[i]))
    decreases i
  {
    if i != 0 {
      StepsLength(AnySteps, states, actions);
      var j := i - 1;
      TameRun(plain, states, actions, j);
      TameRunStep(plain, states, actions, j);
    } else {
      FirstTame(plain, states, i);
    }
  }

  lemma FirstTame(plain: bool, states: seq<Db>, i: nat)
    requires i == 0 < |states| && Tame(plain, Just(states[0]))
    ensures Tame(plain, Just(states[i]))
  {
  }

  lemma InitTame(plain: bool, s: Db)
    requires Init(s)
    ensures Tame(plain, Just(s))
  {
    InitInv(s);
    InitPlain(s);
  }

  lemma TameSteps(plain: bool, states: seq<Db>, actions: seq<Action>, i: nat)
    requires IsRun(AnySteps, states, actions) && AllAutomatic(plain, Just(actions)) && i < |actions|
    ensures LevelStepAt(states, actions, i) && (plain ==> CarefulStepAt(states, actions, i))
  {
    StepsLength(AnySteps, states, actions);
    InitTame(plain, states[0]);
    TameRun(plain, states, actions, i);
    TameRunStep(plain, states, actions, i);
  }

  /** In a run whose compactions are picked automatically the levels always stay disjoint, snapshots or not: the version
      invariant, the safety of files and the manifest need no condition. */
  lemma AutomaticRunKeepsLevels(states: seq<Db>, actions: seq<Action>)
    requires IsRun(AnySteps, states, actions) && forall k :: 0 <= k < |actions| ==> Automatic(false, actions[k])
    ensures IsRun(LevelSteps, states, actions)
  {
    StepsLength(AnySteps, states, actions);
    forall i | 0 <= i < |actions| ensures LevelStepAt(states, actions, i) {
      TameSteps(false, states, actions, i);
    }
  }

  /** If no snapshots are taken either, it is a careful run: snapshot isolation of its reads and durability hold without any
      condition. */
  lemma PlainRunIsCareful(states: seq<Db>, actions: seq<Action>)
    requires IsRun(AnySteps, states, actions) && forall k :: 0 <= k < |actions| ==> Automatic(true, actions[k])
    ensures IsRun(CarefulSteps, states, actions)
  {
    StepsLength(AnySteps, states, actions);
    forall i | 0 <= i < |actions| ensures CarefulStepAt(states, actions, i) {
      TameSteps(true, states, actions, i);
    }
  }
}
