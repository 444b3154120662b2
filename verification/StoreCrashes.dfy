/** Crashes: acknowledged writes survive them, and the store can always be opened again. */
module StoreCrashes {
  import opened Values
  import opened InternalKeys
  import opened Memtables
  import opened Versions
  import opened OutputCuts
  import opened DropRules
  import opened Manifests
  import opened Store
  import opened StoreInvariant
  import opened Recovery

  import opened StoreRuns
  import opened StoreReads

  // ---------------------------------------------------------------------------------------------
  // Durability
  // ---------------------------------------------------------------------------------------------

  /** The group whose record is in the log but that is not yet acknowledged. */
  ghost function LoggedGroup(s: Db): set<Entry> {
    if s.inflight.Writing? && s.inflight.logged then Elems(s.inflight.batch) else {}
  }

  /** After a crash at any point of a careful run, and after any number of openings that fail as well, the store reads at its
      latest sequence number as if every acknowledged write, and the group in flight exactly if its record was in the log, had
      been applied; and the latest sequence number is the one before the crash, or that of the last entry of that group. */
  lemma Durability(states: seq<Db>, actions: seq<Action>, i: nat, u: UserKey)
    requires IsRun(CarefulSteps, states, actions) && i < |actions| && actions[i].Crash?
    ensures |states| == |actions| + 1
    ensures SameAnswer(Readable(states[i + 1]), states[i + 1].hist, u, states[i + 1].last)
    ensures states[i + 1].hist == states[i].hist + LoggedGroup(states[i])
    ensures states[i + 1].last == states[i].last + |InflightEntries(states[i].inflight)|
    ensures UpTo(Readable(states[i + 1]), states[i + 1].last)
  {
    InitSound(CarefulSteps, states[0]);
    StepsLength(CarefulSteps, states, actions);
    RunStays(CarefulSteps, states, actions, i);
    RunStays(CarefulSteps, states, actions, i + 1);
    StepOf(CarefulSteps, states, actions, i);
    CrashLatest(states[i], actions[i], states[i + 1]);
    CrashShape(states[i], actions[i], states[i + 1]);
    LatestReads(states[i + 1], u);
  }

  lemma CrashLatest(s: Db, a: Action, t: Db)
    requires Sound(CarefulSteps, Just(s)) && a.Crash? && Step(s, a, t)
    ensures t.last == s.last + |InflightEntries(s.inflight)|
  {
    assert Open(s, 0);
    CrashLast(s, a);
  }

  lemma CrashShape(s: Db, a: Action, t: Db)
    requires a.Crash? && Step(s, a, t)
    ensures t.inflight.NoWrite? && t.hist == s.hist + LoggedGroup(s)
  {
    assert Survivors(s) == s.hist + LoggedGroup(s);
  }

  lemma LatestReads(t: Db, u: UserKey)
    requires Sound(CarefulSteps, Just(t)) && t.inflight.NoWrite?
    ensures SameAnswer(Readable(t), t.hist, u, t.last) && UpTo(Readable(t), t.last)
  {
    assert Open(t, 0);
    ReadsHistory(t, u, t.last);
    assert Readable(t) == Stored(t.mem, t.imm, t.version);
  }

  /** Every entry a reader can come across in memory is in a live log already. */
  lemma LoggedBeforeVisible(states: seq<Db>, actions: seq<Action>, i: nat, e: Entry)
    requires IsRun(LevelSteps, states, actions) && i < |states|
    requires e in Elems(Memtable(states[i])) + Elems(states[i].imm)
    ensures var s := states[i];
            exists n, g :: n in s.disk.logs && n >= s.minLog && g in s.disk.logs[n] && e in g
  {
    RunKeeps(states, actions, i);
    var s := states[i];
    MemoryIsLogged(s, e);
    var n := if e in Elems(s.imm) then s.minLog else s.logNumber;
    var k := FlatMember(s.disk.logs[n], e);
    assert s.disk.logs[n][k] in s.disk.logs[n];
  }

  lemma MemoryIsLogged(s: Db, e: Entry)
    requires MemoryInv(s) && e in Elems(Memtable(s)) + Elems(s.imm)
    ensures s.logNumber in s.disk.logs && s.minLog in s.disk.logs && s.minLog <= s.logNumber
    ensures e in FlatRecords(s.disk.logs[if e in Elems(s.imm) then s.minLog else s.logNumber])
  {
    assert e in Elems(s.imm) ==> s.hasImm;
    if e !in Elems(s.imm) && e !in Elems(s.mem) {
      InsertBatchElems(s.mem, s.inflight.batch[..s.inflight.inserted]);
      assert e in Elems(InflightEntries(s.inflight));
    }
    var n := if e in Elems(s.imm) then s.minLog else s.logNumber;
    assert e in Elems(FlatRecords(s.disk.logs[n]));
  }

  lemma {:induction false} FlatMember(records: seq<Group>, e: Entry) returns (k: nat)
    requires e in FlatRecords(records)
    ensures k < |records| && e in records[k]
    decreases |records|
  {
    var n := |records| - 1;
    if e in records[n] {
      k := n;
    } else {
      k := FlatMember(records[..n], e);
    }
  }

  // ---------------------------------------------------------------------------------------------
  // Opening
  // ---------------------------------------------------------------------------------------------

  /** Opening never fails for lack of anything on disk: a crash in any state can be recovered from, whichever openings were
      cut short before. */
  lemma CanRecover(s: Db, attempts: seq<Attempt>) returns (a: Action)
    requires Inv(s) && MayAttempts(s.disk, attempts)
    ensures a.Crash? && a.attempts == attempts && Enabled(s, a)
  {
    var es := CrashRecoverable(s);
    var order := AttemptsKeep(s.disk, attempts, LogOrder(s), es, Survivors(s));
    var disk := AfterAttempts(s.disk, attempts);
    var meta := ReplayMeta(disk.manifest);
    var groups, tables := OneTable(es, meta.nextFile + 1);
    BuiltIsReplayed(Changes(disk.manifest), ReplayVersion(disk.manifest));
    var newest := Largest(order);
    a := Crash(attempts, ReplayVersion(disk.manifest), order, groups, tables, meta.nextFile + 2 + newest);
  }

  lemma Largest(order: seq<nat>) returns (m: nat)
    ensures forall n :: n in order ==> n <= m
  {
    m := 0;
    for i := 0 to |order|
      invariant forall k :: 0 <= k < i ==> order[k] <= m
    {
      m := if m < order[i] then order[i] else m;
    }
  }

  /** Replay into a single memtable. */
  lemma OneTable(es: seq<Entry>, number: nat) returns (groups: seq<seq<Entry>>, tables: seq<File>)
    requires Ascending(es)
    ensures Concat(groups) == es && TablesOf(groups, tables, number)
    ensures forall t :: t in tables ==> t.number == number
  {
    groups, tables := [], [];
    if es != [] {
      InsertBatchSorted([], es);
      InsertBatchMembers([], es);
      assert es[0] in InsertBatch([], es);
      var t := File(number, 0, InsertBatch([], es));
      groups, tables := [es], [t];
      ConcatOne(es);
      SingleTable(es, t);
    }
  }

  lemma ConcatOne(es: seq<Entry>)
    ensures Concat([es]) == es
  {
    assert [es][..0] == [];
    assert Concat([]) + es == es;
  }

  lemma SingleTable(es: seq<Entry>, t: File)
    requires t.entries == InsertBatch([], es)
    ensures TablesOf([es], [t], t.number)
  {
  }
}
