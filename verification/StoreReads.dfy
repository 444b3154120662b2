/** What readers of the store find: the acknowledged writes, whatever goes on around them. */
module StoreReads {
  import opened Values
  import opened InternalKeys
  import opened Memtables
  import opened Versions
  import opened DropRules
  import opened CompactionHazards
  import opened Store
  import opened StoreInvariant
  import opened StoreWrites
  import opened StoreBackground
  import opened StoreRuns
  import opened StoreSnapshots

  // ---------------------------------------------------------------------------------------------
  // Reads
  // ---------------------------------------------------------------------------------------------

  /** Everything a reader can come across, including entries not yet published. */
  ghost function Readable(s: Db): set<Entry> {
    Elems(Memtable(s)) + (Elems(s.imm) + AllContents(s.version))
  }

  ghost predicate Live(s: Db, snapshot: Seqno) {
    snapshot == s.last || snapshot in s.snapshots
  }

  lemma MemtableParts(mem: seq<Entry>, inflight: Inflight, last: Seqno)
    requires Sorted(mem) && UpTo(Elems(mem), last) && InflightOk(inflight, last) && inflight.Writing?
    ensures var group := inflight.batch[..inflight.inserted];
            && Sorted(InsertBatch(mem, group)) && Elems(InsertBatch(mem, group)) == Elems(mem) + Elems(group)
            && forall e :: e in Elems(group) ==> e.seqno > last
  {
    var group := inflight.batch[..inflight.inserted];
    forall e | e in Elems(group) ensures e.seqno > last {
      var i :| 0 <= i < |group| && group[i] == e;
      assert inflight.batch[i] == e;
    }
    InsertBatchSorted(mem, group);
    InsertBatchElems(mem, group);
  }

  /** Unpublished entries are newer than everything and invisible to every reader. */
  lemma MemtableReadable(s: Db)
    requires Inv(s)
    ensures Sorted(Memtable(s))
    ensures Elems(s.mem) <= Elems(Memtable(s))
    ensures forall e :: e in Elems(Memtable(s)) && e !in Elems(s.mem) ==> e.seqno > s.last
  {
    assert UpTo(Elems(s.mem), s.last) by {
      assert Elems(s.mem) <= s.hist;
    }
    if s.inflight.Writing? {
      MemtableParts(s.mem, s.inflight, s.last);
    }
  }

  lemma ReadableLayered(s: Db)
    requires Inv(s)
    ensures Sorted(Memtable(s))
    ensures Layered(Elems(Memtable(s)), Elems(s.imm) + AllContents(s.version))
    ensures Layered(Elems(s.imm), AllContents(s.version))
  {
    MemtableReadable(s);
    var below := Elems(s.imm) + AllContents(s.version);
    assert UpTo(below, s.last) by {
      assert below <= s.hist;
    }
    assert Older(below, Elems(s.mem));
  }

  lemma UnpublishedInvisible(R: set<Entry>, C: set<Entry>, last: Seqno, u: UserKey, s: Seqno, h: Hit)
    requires C <= R && (forall e :: e in R && e !in C ==> e.seqno > last) && s <= last
    ensures Newest(R, u, s, h) <==> Newest(C, u, s, h)
  {
  }

  lemma ReadableIsStored(s: Db)
    requires Inv(s)
    ensures Stored(s.mem, s.imm, s.version) <= Readable(s)
    ensures forall e :: e in Readable(s) && e !in Stored(s.mem, s.imm, s.version) ==> e.seqno > s.last
  {
    MemtableReadable(s);
  }

  lemma LiveBounds(s: Db, snapshot: Seqno)
    requires SnapshotsOk(s.snapshots, s.last) && Live(s, snapshot)
    ensures SmallestSnapshot(s) <= snapshot <= s.last
  {
    if snapshot in s.snapshots {
      var i :| 0 <= i < |s.snapshots| && s.snapshots[i] == snapshot;
    }
  }

  /** What a reader finds at a live snapshot is what the acknowledged history says. */
  lemma ReadsHistory(s: Db, u: UserKey, snapshot: Seqno)
    requires Inv(s) && Reads(s) && Live(s, snapshot)
    ensures SameAnswer(Readable(s), s.hist, u, snapshot)
  {
    LiveBounds(s, snapshot);
    ReadableIsStored(s);
    assert SameAnswer(Stored(s.mem, s.imm, s.version), s.hist, u, snapshot);
    forall h, g | Newest(Readable(s), u, snapshot, h) && Newest(s.hist, u, snapshot, g) ensures AnswerOf(h) == AnswerOf(g) {
      UnpublishedInvisible(Readable(s), Stored(s.mem, s.imm, s.version), s.last, u, snapshot, h);
    }
  }

  /** DBImpl::Get in any state of a careful run: the newest acknowledged write not newer than the snapshot. */
  method Read(s: Db, u: UserKey, snapshot: Seqno) returns (answer: Answer)
    requires Inv(s) && Reads(s) && Live(s, snapshot)
    ensures forall g :: Newest(s.hist, u, snapshot, g) ==> answer == AnswerOf(g)
    ensures exists g :: Newest(s.hist, u, snapshot, g)
  {
    ReadableLayered(s);
    ghost var h;
    answer, h := Store.Get(Memtable(s), s.imm, s.version, u, snapshot);
    ReadsHistory(s, u, snapshot);
    ghost var g := NewestExists(s.hist, u, snapshot);
  }

  // ---------------------------------------------------------------------------------------------
  // Exactly when a compaction changes what is read
  // ---------------------------------------------------------------------------------------------

  lemma ReadableUnique(s: Db)
    requires Inv(s)
    ensures UniqueSeqnos(Readable(s))
  {
    MemtableReadable(s);
    if s.inflight.Writing? {
      MemtableUnique(s.mem, Elems(s.imm) + AllContents(s.version), s.hist, s.last, s.inflight);
    }
  }

  lemma MemtableUnique(mem: seq<Entry>, below: set<Entry>, hist: set<Entry>, last: Seqno, inflight: Inflight)
    requires HistoryOk(Elems(mem) + below, hist, last) && InflightOk(inflight, last) && inflight.Writing? && Sorted(mem)
    ensures UniqueSeqnos(Elems(InsertBatch(mem, inflight.batch[..inflight.inserted])) + below)
  {
    var group := inflight.batch[..inflight.inserted];
    InsertBatchElems(mem, group);
    BatchIsNewer(inflight, last, hist);
    AscendingUnique(inflight.batch);
    assert Elems(group) <= Elems(inflight.batch);
    OlderUnique(hist, Elems(inflight.batch));
  }

  lemma OlderUnique(A: set<Entry>, B: set<Entry>)
    requires UniqueSeqnos(A) && UniqueSeqnos(B) && Older(A, B)
    ensures UniqueSeqnos(A + B)
  {
  }

  /** What is read above the version. */
  ghost function Above(s: Db): set<Entry> {
    Elems(Memtable(s)) + Elems(s.imm)
  }

  lemma AboveVersion(s: Db)
    requires Inv(s)
    ensures Above(s) + AllContents(s.version) == Readable(s)
    ensures Layered(Above(s), AllContents(s.version)) && UniqueSeqnos(Above(s) + AllContents(s.version))
  {
    ReadableLayered(s);
    ReadableUnique(s);
    assert Above(s) + AllContents(s.version) == Readable(s);
  }

  lemma FinishReadable(s: Db)
    requires Enabled(s, Finish)
    ensures Readable(Next(s, Finish)) == Above(s) + AllContents(Next(s, Finish).version)
  {
    var t := Next(s, Finish);
    assert Memtable(t) == Memtable(s) && t.imm == s.imm;
  }

  /** In any state of any run: installing the compaction changes no read of a key at a live snapshot if and only if the key
      passes the check on the compaction's files. */
  lemma FinishUnobservableIff(s: Db, u: UserKey)
    requires Inv(s) && Enabled(s, Finish)
    requires s.running.c.level + 1 < |s.version|
    ensures (forall q: Seqno :: s.running.snap <= q ==> SameAnswer(Readable(s), Readable(Next(s, Finish)), u, q)) <==>
            !Uncovers(s.running.base, s.version, s.running.c, Above(s), s.running.snap, u)
  {
    var r := s.running;
    assert AllContents(s.version) <= s.hist;
    OutputsOfCompaction(r, s.version, SmallestSnapshot(s), s.hist);
    AboveVersion(s);
    FinishReadable(s);
    CompactionUnobservableIff(r.base, s.version, r.c, r.outputs, Above(s), r.snap, u);
  }

  /** A key that does not pass reads differently at once, at the oldest sequence number the compaction counted as live. */
  lemma FinishChangesAnswer(s: Db, u: UserKey)
    requires Inv(s) && Enabled(s, Finish) && s.running.c.level + 1 < |s.version|
    requires Uncovers(s.running.base, s.version, s.running.c, Above(s), s.running.snap, u)
    ensures !SameAnswer(Readable(s), Readable(Next(s, Finish)), u, s.running.snap)
  {
    var r := s.running;
    assert AllContents(s.version) <= s.hist;
    OutputsOfCompaction(r, s.version, SmallestSnapshot(s), s.hist);
    AboveVersion(s);
    FinishReadable(s);
    UncoveredChangesAnswer(r.base, s.version, r.c, r.outputs, Above(s), r.snap, u);
  }

  // ---------------------------------------------------------------------------------------------
  // Snapshot isolation
  // ---------------------------------------------------------------------------------------------

  /** A sequence number that is live at two points of a run reads the same at both. */
  lemma LiveReadsSame(states: seq<Db>, actions: seq<Action>, i: nat, j: nat, u: UserKey, snapshot: Seqno)
    requires IsRun(CarefulSteps, states, actions) && i <= j < |states|
    requires Live(states[i], snapshot) && Live(states[j], snapshot)
    ensures SameAnswer(Readable(states[i]), Readable(states[j]), u, snapshot)
  {
    RunReads(states, actions, i);
    RunReads(states, actions, j);
    InitSound(CarefulSteps, states[0]);
    HistoryGrows(CarefulSteps, states, actions, i, j);
    ReadsHistory(states[i], u, snapshot);
    ReadsHistory(states[j], u, snapshot);
    LiveBounds(states[i], snapshot);
    SameThroughHistories(Readable(states[i]), states[i].hist, Readable(states[j]), states[j].hist, states[i].last, u, snapshot);
  }

  /** A snapshot that has not been released, and that no crash has taken away, reads as it did. */
  lemma HeldReadsSame(states: seq<Db>, actions: seq<Action>, i: nat, j: nat, k: nat, u: UserKey, snapshot: Seqno)
    requires IsRun(CarefulSteps, states, actions) && i <= j < |states| == |actions| + 1
    requires OnList(states[i].snapshots, k, snapshot) && PlaceIn(actions, i, j, k).Just?
    ensures Live(states[j], snapshot) && SameAnswer(Readable(states[i]), Readable(states[j]), u, snapshot)
  {
    AnyStepsOf(CarefulSteps, states, actions);
    HeldSnapshotStays(states, actions, i, j, k, snapshot);
    LiveReadsSame(states, actions, i, j, u, snapshot);
  }

  /** Snapshot isolation: from the moment a snapshot is taken until it is itself released, or the store crashes, every read at it
      gives what a read of the latest state gave when it was taken, whatever else happens: writes, dumps, compactions, and other
      snapshots coming and going. */
  lemma SnapshotIsolation(states: seq<Db>, actions: seq<Action>, i: nat, j: nat, u: UserKey)
    requires IsRun(CarefulSteps, states, actions) && i < j < |states| == |actions| + 1
    requires actions[i].TakeSnapshot? && PlaceIn(actions, i + 1, j, |states[i].snapshots|).Just?
    ensures Live(states[j], states[i].last) && SameAnswer(Readable(states[i]), Readable(states[j]), u, states[i].last)
  {
    AnyStepsOf(CarefulSteps, states, actions);
    StepOf(CarefulSteps, states, actions, i);
    TakenIsListed(states, actions, i);
    HeldSnapshotStays(states, actions, i + 1, j, |states[i].snapshots|, states[i].last);
    LiveReadsSame(states, actions, i, j, u, states[i].last);
  }

  lemma SameThroughHistories(A: set<Entry>, earlier: set<Entry>, B: set<Entry>, later: set<Entry>, last: Seqno, u: UserKey, s: Seqno)
    requires SameAnswer(A, earlier, u, s) && SameAnswer(B, later, u, s)
    requires earlier <= later && (forall e :: e in later && e !in earlier ==> e.seqno > last) && s <= last
    ensures SameAnswer(A, B, u, s)
  {
    var g := NewestExists(earlier, u, s);
    UnpublishedInvisible(later, earlier, last, u, s, g);
  }

  // ---------------------------------------------------------------------------------------------
  // Readers that take their time
  // ---------------------------------------------------------------------------------------------

  /** What the memtable that was current in state `i` holds in state `j`: it grows until the next one takes over. */
  function Watched(states: seq<Db>, actions: seq<Action>, i: nat, j: nat): seq<Entry>
    requires i <= j < |states| == |actions| + 1
    decreases j - i
  {
    if i == j || actions[i].Switch? then Memtable(states[i]) else Watched(states, actions, i + 1, j)
  }

  ghost predicate NoCrash(actions: seq<Action>, i: nat, j: nat) {
    forall k :: i <= k < j && k < |actions| ==> !actions[k].Crash?
  }

  /** `A` with newer entries. */
  ghost predicate Beyond(A: set<Entry>, B: set<Entry>, last: Seqno) {
    A <= B && forall e :: e in B && e !in A ==> e.seqno > last
  }

  lemma BeyondTransitive(A: set<Entry>, B: set<Entry>, C: set<Entry>, last: Seqno, last': Seqno)
    requires Beyond(A, B, last) && Beyond(B, C, last') && last <= last'
    ensures Beyond(A, C, last)
  {
  }

  lemma MemtableGrows(s: Db, a: Action)
    requires InflightOk(s.inflight, s.last) && Enabled(s, a) && !a.Switch? && !a.Crash?
    ensures Beyond(Elems(s.mem), Elems(Next(s, a).mem), s.last)
  {
    if a.Publish? {
      PublishedBeyond(s.mem, s.inflight, s.last);
    } else {
      MemtableStays(s, a);
    }
  }

  lemma MemtableStays(s: Db, a: Action)
    requires Enabled(s, a) && !a.Switch? && !a.Crash? && !a.Publish?
    ensures Next(s, a).mem == s.mem
  {
  }

  lemma PublishedBeyond(mem: seq<Entry>, inflight: Inflight, last: Seqno)
    requires InflightOk(inflight, last) && inflight.Writing?
    ensures Beyond(Elems(mem), Elems(InsertBatch(mem, inflight.batch)), last)
  {
    InsertBatchElems(mem, inflight.batch);
    GroupIsNewer(inflight, last);
  }

  lemma WatchedStep(kind: Runs, s: Db, a: Action, t: Db)
    requires Sound(kind, Just(s)) && Step(s, a, t) && !a.Switch? && !a.Crash?
    ensures Beyond(Elems(s.mem), Elems(t.mem), s.last) && s.last <= t.last
  {
    assert Open(s, 0);
    assert InflightOk(s.inflight, s.last);
    MemtableGrows(s, a);
    StepLast(s, a);
  }

  lemma WatchedNow(kind: Runs, s: Db)
    requires Sound(kind, Just(s))
    ensures Beyond(Elems(s.mem), Elems(Memtable(s)), s.last) && Sorted(Memtable(s))
  {
    assert Open(s, 0);
    MemtableReadable(s);
  }

  lemma {:induction false} WatchedGrows(kind: Runs, states: seq<Db>, actions: seq<Action>, i: nat, j: nat)
    requires Steps(kind, states, actions) && !kind.AnySteps? && Sound(kind, Just(states[0]))
    requires i <= j < |states| == |actions| + 1 && NoCrash(actions, i, j)
    ensures Sorted(Watched(states, actions, i, j))
    ensures Beyond(Elems(states[i].mem), Elems(Watched(states, actions, i, j)), states[i].last)
    decreases j - i
  {
    RunStays(kind, states, actions, i);
    if i == j || actions[i].Switch? {
      WatchedNow(kind, states[i]);
    } else {
      WatchedGrows(kind, states, actions, i + 1, j);
      StepOf(kind, states, actions, i);
      WatchedStep(kind, states[i], actions[i], states[i + 1]);
      BeyondTransitive(Elems(states[i].mem), Elems(states[i + 1].mem), Elems(Watched(states, actions, i + 1, j)), states[i].last, states[i + 1].last);
    }
  }

  /** What a reader that took its references in state `i` finds if it looks into the memtable in state `j`. */
  ghost function LateReadable(states: seq<Db>, actions: seq<Action>, i: nat, j: nat): set<Entry>
    requires i <= j < |states| == |actions| + 1
  {
    Elems(Watched(states, actions, i, j)) + (Elems(states[i].imm) + AllContents(states[i].version))
  }

  lemma LateLayers(s: Db, later: seq<Entry>)
    requires Inv(s) && Beyond(Elems(s.mem), Elems(later), s.last)
    ensures Layered(Elems(later), Elems(s.imm) + AllContents(s.version)) && Layered(Elems(s.imm), AllContents(s.version))
  {
    var below := Elems(s.imm) + AllContents(s.version);
    assert UpTo(below, s.last) by {
      assert below <= s.hist;
    }
    assert Older(below, Elems(s.mem));
  }

  lemma LateAnswer(s: Db, later: seq<Entry>, u: UserKey, snapshot: Seqno)
    requires Inv(s) && Reads(s) && Live(s, snapshot) && Beyond(Elems(s.mem), Elems(later), s.last)
    ensures SameAnswer(Elems(later) + (Elems(s.imm) + AllContents(s.version)), s.hist, u, snapshot)
  {
    var all, stored := Elems(later) + (Elems(s.imm) + AllContents(s.version)), Stored(s.mem, s.imm, s.version);
    LiveBounds(s, snapshot);
    assert SameAnswer(stored, s.hist, u, snapshot);
    forall h, g | Newest(all, u, snapshot, h) && Newest(s.hist, u, snapshot, g) ensures AnswerOf(h) == AnswerOf(g) {
      UnpublishedInvisible(all, stored, s.last, u, snapshot, h);
    }
  }

  /** A reader takes its memtables and its version in state `i` and looks into them in state `j`, while writes, dumps and
      compactions go on. It finds what was acknowledged when it started. */
  lemma LateReader(states: seq<Db>, actions: seq<Action>, i: nat, j: nat, u: UserKey, snapshot: Seqno)
    requires IsRun(CarefulSteps, states, actions) && i <= j < |states| == |actions| + 1 && NoCrash(actions, i, j)
    requires Live(states[i], snapshot)
    ensures SameAnswer(LateReadable(states, actions, i, j), states[i].hist, u, snapshot)
  {
    RunReads(states, actions, i);
    InitSound(CarefulSteps, states[0]);
    WatchedGrows(CarefulSteps, states, actions, i, j);
    LateAnswer(states[i], Watched(states, actions, i, j), u, snapshot);
  }

  /** DBImpl::Get with its references taken in state `i` and its lookups done in state `j`. */
  method ReadLate(states: seq<Db>, actions: seq<Action>, i: nat, j: nat, u: UserKey, snapshot: Seqno) returns (answer: Answer)
    requires IsRun(CarefulSteps, states, actions) && i <= j < |states| == |actions| + 1 && NoCrash(actions, i, j)
    requires Live(states[i], snapshot)
    ensures forall g :: Newest(states[i].hist, u, snapshot, g) ==> answer == AnswerOf(g)
  {
    RunReads(states, actions, i);
    InitSound(CarefulSteps, states[0]);
    WatchedGrows(CarefulSteps, states, actions, i, j);
    var mem := Watched(states, actions, i, j);
    LateLayers(states[i], mem);
    assert Sorted(states[i].imm) && ValidVersion(states[i].version);
    ghost var h;
    answer, h := Store.Get(mem, states[i].imm, states[i].version, u, snapshot);
    LateReader(states, actions, i, j, u, snapshot);
  }
}
