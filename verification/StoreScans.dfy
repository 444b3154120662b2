/** Scanning the store: the iterator over all memtables and files lists exactly the keys that a Get finds. */
module StoreScans {
  import opened InternalKeys
  import opened Memtables
  import opened Versions
  import opened Cursors
  import MergingIterator
  import opened DbIterator
  import opened Store
  import opened StoreInvariant
  import opened StoreBackground
  import opened StoreReads

  // ---------------------------------------------------------------------------------------------
  // The sorted runs a store is made of
  // ---------------------------------------------------------------------------------------------

  type Entries = seq<Entry>

  function LevelZeroRuns(files: seq<File>): seq<Entries> {
    seq(|files|, i requires 0 <= i < |files| => files[i].entries)
  }

  /** One run for each of the first `n` levels below level 0 that has files. */
  function LowerRuns(v: Version, n: nat): seq<Entries>
    requires n <= |v|
  {
    if n <= 1 then [] else LowerRuns(v, n - 1) + if v[n - 1] == [] then [] else [ConcatFiles(v[n - 1])]
  }

  /** NewInternalIterator: the memtable, the immutable memtable if there is one, each file of level 0, each level below. */
  function Runs(mem: Entries, imm: Entries, hasImm: bool, v: Version): seq<Entries>
    requires |v| == NUM_LEVELS
  {
    [mem] + (if hasImm then [imm] else []) + (LevelZeroRuns(v[0]) + LowerRuns(v, NUM_LEVELS))
  }

  ghost predicate AllSorted(runs: seq<Entries>) {
    forall i :: 0 <= i < |runs| ==> Sorted(runs[i])
  }

  ghost function Held(runs: seq<Entries>): set<Entry> {
    set i, e | 0 <= i < |runs| && e in runs[i] :: e
  }

  ghost predicate NoKeyInCommon(A: set<Entry>, B: set<Entry>) {
    forall a, b :: a in A && b in B ==> a.Key() != b.Key()
  }

  ghost predicate Apart(runs: seq<Entries>) {
    forall i, j :: 0 <= i < j < |runs| ==> NoKeyInCommon(Elems(runs[i]), Elems(runs[j]))
  }

  lemma HeldConcat(a: seq<Entries>, b: seq<Entries>)
    ensures Held(a + b) == Held(a) + Held(b)
  {
    forall e ensures e in Held(a + b) <==> e in Held(a) || e in Held(b) {
      if e in Held(a) {
        var i :| 0 <= i < |a| && e in a[i];
        assert (a + b)[i] == a[i];
      }
      if e in Held(b) {
        var i :| 0 <= i < |b| && e in b[i];
        assert (a + b)[|a| + i] == b[i];
      }
    }
  }

  lemma HeldOne(run: Entries)
    ensures Held([run]) == Elems(run) && Held([]) == {}
  {
    assert [run][0] == run;
  }

  lemma ApartConcat(a: seq<Entries>, b: seq<Entries>)
    requires Apart(a) && Apart(b) && NoKeyInCommon(Held(a), Held(b))
    ensures Apart(a + b)
  {
    var all := a + b;
    forall i, j | 0 <= i < j < |all| ensures NoKeyInCommon(Elems(all[i]), Elems(all[j])) {
      if i < |a| <= j {
        assert all[i] == a[i] && all[j] == b[j - |a|];
        assert Elems(all[i]) <= Held(a) && Elems(all[j]) <= Held(b);
      }
    }
  }

  lemma LayeredApart(A: set<Entry>, B: set<Entry>)
    requires Layered(A, B)
    ensures NoKeyInCommon(A, B) && NoKeyInCommon(B, A)
  {
  }

  // ---------------------------------------------------------------------------------------------
  // Files
  // ---------------------------------------------------------------------------------------------

  lemma LevelZeroHolds(files: seq<File>)
    ensures Held(LevelZeroRuns(files)) == Contents(files) && AllSorted(LevelZeroRuns(files))
  {
    forall e | e in Contents(files) ensures e in Held(LevelZeroRuns(files)) {
      var f :| f in files && e in f.entries;
      var i :| 0 <= i < |files| && files[i] == f;
      assert LevelZeroRuns(files)[i] == f.entries;
    }
  }

  lemma LevelZeroApart(files: seq<File>)
    requires NumberedByAge(files)
    ensures Apart(LevelZeroRuns(files))
  {
    var runs := LevelZeroRuns(files);
    forall i, j | 0 <= i < j < |runs| ensures NoKeyInCommon(Elems(runs[i]), Elems(runs[j])) {
      var f, g := files[i], files[j];
      assert f in files && g in files && f.number != g.number;
      if f.number > g.number {
        LayeredApart(Elems(f.entries), Elems(g.entries));
      } else {
        LayeredApart(Elems(g.entries), Elems(f.entries));
      }
    }
  }

  lemma {:induction false} ConcatSorted(files: seq<File>)
    requires SortedDisjoint(files)
    ensures Sorted(ConcatFiles(files))
    decreases |files|
  {
    if files != [] {
      var init, last := files[..|files| - 1], files[|files| - 1];
      ConcatSorted(init);
      ConcatMembers(init);
      forall x, y | x in ConcatFiles(init) && y in last.entries ensures Less(x.Key(), y.Key()) {
        assert x in Elems(ConcatFiles(init));
        var f :| f in init && x in f.entries;
        var i :| 0 <= i < |init| && init[i] == f;
        assert Precedes(files[i], files[|files| - 1]);
        PrecedesEntries(f, last, x, y);
      }
      JoinSorted(ConcatFiles(init), last.entries);
    }
  }

  lemma JoinSorted(a: Entries, b: Entries)
    requires Sorted(a) && Sorted(b) && forall x, y :: x in a && y in b ==> Less(x.Key(), y.Key())
    ensures Sorted(a + b)
  {
    forall i, j | 0 <= i < j < |a + b| ensures Less((a + b)[i].Key(), (a + b)[j].Key()) {
      if i < |a| <= j {
        assert a[i] in a && b[j - |a|] in b;
      }
    }
  }

  /** The contents of the first `n` levels below level 0. */
  ghost function Lower(v: Version, n: nat): set<Entry>
    requires n <= |v|
  {
    set l, e | 1 <= l < n && e in Contents(v[l]) :: e
  }

  lemma {:induction false} LowerHolds(v: Version, n: nat)
    requires SortedLevels(v) && n <= |v|
    ensures Held(LowerRuns(v, n)) == Lower(v, n) && AllSorted(LowerRuns(v, n))
    decreases n
  {
    if n > 1 {
      LowerHolds(v, n - 1);
      var files := v[n - 1];
      ConcatMembers(files);
      assert SortedDisjoint(files);
      ConcatSorted(files);
      HeldOne(ConcatFiles(files));
      HeldConcat(LowerRuns(v, n - 1), if files == [] then [] else [ConcatFiles(files)]);
      assert files == [] ==> Contents(files) == {};
      LowerStep(v, n);
    }
  }

  lemma LowerStep(v: Version, n: nat)
    requires 1 < n <= |v|
    ensures Lower(v, n) == Lower(v, n - 1) + Contents(v[n - 1])
  {
  }

  lemma {:induction false} LowerApart(v: Version, n: nat)
    requires SortedLevels(v) && LevelsLayered(v) && n <= |v|
    ensures Apart(LowerRuns(v, n))
    decreases n
  {
    if n > 1 {
      LowerApart(v, n - 1);
      if v[n - 1] != [] {
        LowerHolds(v, n - 1);
        ConcatMembers(v[n - 1]);
        HeldOne(ConcatFiles(v[n - 1]));
        forall a, b | a in Lower(v, n - 1) && b in Contents(v[n - 1]) ensures a.Key() != b.Key() {
          var l :| 1 <= l < n - 1 && a in Contents(v[l]);
          assert Layered(Contents(v[l]), Contents(v[n - 1]));
        }
        ApartConcat(LowerRuns(v, n - 1), [ConcatFiles(v[n - 1])]);
      }
    }
  }

  lemma FileRuns(v: Version)
    requires ValidVersion(v)
    ensures var runs := LevelZeroRuns(v[0]) + LowerRuns(v, NUM_LEVELS);
            AllSorted(runs) && Apart(runs) && Held(runs) == AllContents(v)
  {
    LevelZeroHolds(v[0]);
    LevelZeroApart(v[0]);
    LowerHolds(v, NUM_LEVELS);
    LowerApart(v, NUM_LEVELS);
    HeldConcat(LevelZeroRuns(v[0]), LowerRuns(v, NUM_LEVELS));
    forall a, b | a in Contents(v[0]) && b in Lower(v, NUM_LEVELS) ensures a.Key() != b.Key() {
      var l :| 1 <= l < NUM_LEVELS && b in Contents(v[l]);
      assert Layered(Contents(v[0]), Contents(v[l]));
    }
    ApartConcat(LevelZeroRuns(v[0]), LowerRuns(v, NUM_LEVELS));
    ZeroAndLower(v);
  }

  lemma ZeroAndLower(v: Version)
    requires |v| == NUM_LEVELS
    ensures AllContents(v) == Contents(v[0]) + Lower(v, NUM_LEVELS)
  {
    forall e ensures e in AllContents(v) <==> e in Contents(v[0]) || e in Lower(v, NUM_LEVELS) {
      if e in AllContents(v) {
        var l :| 0 <= l < |v| && e in Contents(v[l]);
      }
      if e in Lower(v, NUM_LEVELS) {
        var l :| 1 <= l < NUM_LEVELS && e in Contents(v[l]);
      }
    }
  }

  /** The runs are sorted, share no key, and hold everything that can be read. */
  lemma RunsOfStore(mem: Entries, imm: Entries, hasImm: bool, v: Version)
    requires Sorted(mem) && Sorted(imm) && (!hasImm ==> imm == []) && ValidVersion(v)
    requires Layered(Elems(mem), Elems(imm) + AllContents(v)) && Layered(Elems(imm), AllContents(v))
    ensures var runs := Runs(mem, imm, hasImm, v);
            AllSorted(runs) && Apart(runs) && Held(runs) == Elems(mem) + (Elems(imm) + AllContents(v))
  {
    var files, below := LevelZeroRuns(v[0]) + LowerRuns(v, NUM_LEVELS), if hasImm then [imm] else [];
    FileRuns(v);
    HeldOne(mem);
    HeldOne(imm);
    assert !hasImm ==> Elems(imm) == {};
    LayeredApart(Elems(imm), AllContents(v));
    HeldConcat(below, files);
    ApartConcat(below, files);
    LayeredApart(Elems(mem), Elems(imm) + AllContents(v));
    HeldConcat([mem], below + files);
    ApartConcat([mem], below + files);
    assert [mem] + (below + files) == Runs(mem, imm, hasImm, v);
  }

  // ---------------------------------------------------------------------------------------------
  // The iterators
  // ---------------------------------------------------------------------------------------------

  /** Every set of entries with distinct sequence numbers can be listed in order. */
  lemma {:induction false} InOrder(S: set<Entry>) returns (es: Entries)
    requires UniqueSeqnos(S)
    ensures Sorted(es) && Elems(es) == S
    decreases |S|
  {
    if S == {} {
      es := [];
    } else {
      var e :| e in S;
      var rest := InOrder(S - {e});
      InsertEntryMembers(rest, e);
      forall x | x in rest ensures x.seqno != e.seqno {
        assert x in Elems(rest);
      }
      InsertEntrySorted(rest, e);
      es := InsertEntry(rest, e);
      forall x ensures x in Elems(es) <==> x in S {
        assert x in rest <==> x in Elems(rest);
      }
    }
  }

  /** One cursor per run under a merging iterator. */
  method NewInternalIterator(runs: seq<Entries>) returns (iter: MergingIterator.MergingIter)
    requires AllSorted(runs) && Apart(runs) && UniqueSeqnos(Held(runs))
    ensures iter.Valid() && fresh(iter) && fresh(iter.children) && Elems(iter.entries) == Held(runs)
  {
    var children: seq<Cursor> := [];
    for i := 0 to |runs|
      invariant |children| == i && fresh(children)
      invariant forall j :: 0 <= j < i ==> children[j].Valid() && children[j].entries == runs[j]
      invariant forall j, k :: 0 <= j < k < i ==> children[j] != children[k]
    {
      var c := new Cursor(runs[i]);
      children := children + [c];
    }
    ghost var entries := InOrder(Held(runs));
    ChildrenDistinct(children, runs);
    ChildrenHold(children, runs, entries);
    iter := new MergingIterator.MergingIter(children, entries);
  }

  lemma ChildrenDistinct(children: seq<Cursor>, runs: seq<Entries>)
    requires |children| == |runs| && (forall j :: 0 <= j < |runs| ==> children[j].entries == runs[j]) && Apart(runs)
    ensures MergingIterator.KeysDistinct(children)
  {
    forall i, j | 0 <= i < |children| && 0 <= j < |children| && i != j ensures MergingIterator.Disjoint(children[i], children[j]) {
      forall a, b | 0 <= a < |runs[i]| && 0 <= b < |runs[j]| ensures runs[i][a].Key() != runs[j][b].Key() {
        assert runs[i][a] in Elems(runs[i]) && runs[j][b] in Elems(runs[j]);
      }
    }
  }

  lemma ChildrenHold(children: seq<Cursor>, runs: seq<Entries>, entries: Entries)
    requires |children| == |runs| && (forall j :: 0 <= j < |runs| ==> children[j].entries == runs[j]) && Elems(entries) == Held(runs)
    ensures forall e :: e in entries <==> exists i :: 0 <= i < |children| && e in children[i].entries
  {
    forall e ensures e in entries <==> exists i :: 0 <= i < |children| && e in children[i].entries {
      assert e in entries <==> e in Held(runs);
      if e in Held(runs) {
        var i :| 0 <= i < |runs| && e in runs[i];
        assert e in children[i].entries;
      }
    }
  }

  /** DBImpl::NewIterator over everything that can be read. */
  method NewIterator(s: Db, snapshot: Seqno) returns (it: DbIter)
    requires Inv(s)
    ensures it.Valid() && fresh(it) && fresh(it.iter) && fresh(it.iter.children)
    ensures it.sequence == snapshot && Elems(it.Entries()) == Readable(s)
  {
    ReadableLayered(s);
    ReadableUnique(s);
    RunsOfStore(Memtable(s), s.imm, s.hasImm, s.version);
    var iter := NewInternalIterator(Runs(Memtable(s), s.imm, s.hasImm, s.version));
    it := new DbIter(iter, snapshot);
  }

  // ---------------------------------------------------------------------------------------------
  // A scan lists what a Get finds
  // ---------------------------------------------------------------------------------------------

  datatype KeyValue = KeyValue(key: UserKey, value: Bytes)

  function Pairs(es: Entries, shown: seq<nat>): seq<KeyValue>
    requires forall c :: 0 <= c < |shown| ==> shown[c] < |es|
  {
    seq(|shown|, c requires 0 <= c < |shown| => KeyValue(es[shown[c]].user, es[shown[c]].value))
  }

  ghost function VisiblePairs(es: Entries, s: Seqno): seq<KeyValue> {
    Pairs(es, Listing(es, s, |es|))
  }

  /** A key and a value are listed exactly if the newest visible entry of the key holds the value. */
  lemma ListedIffNewest(es: Entries, s: Seqno, u: UserKey, v: Bytes, h: Hit)
    requires Sorted(es) && UniqueSeqnos(Elems(es)) && Newest(Elems(es), u, s, h)
    ensures AnswerOf(h) == Found(v) <==> KeyValue(u, v) in VisiblePairs(es, s)
  {
    var shown := Listing(es, s, |es|);
    NewestUnique(Elems(es), u, s, h, Lookup(es, u, s));
    ListedIffFound(es, s, u, v);
    if i :| 0 <= i < |es| && Shown(es, s, i) && es[i].user == u && es[i].value == v {
      var c :| 0 <= c < |shown| && shown[c] == i;
      assert VisiblePairs(es, s)[c] == KeyValue(u, v);
    }
    if KeyValue(u, v) in VisiblePairs(es, s) {
      var c :| 0 <= c < |shown| && VisiblePairs(es, s)[c] == KeyValue(u, v);
      assert Shown(es, s, shown[c]);
    }
  }

  /** Keys rise through the list: each is there once. */
  lemma PairsRise(es: Entries, s: Seqno, c: nat, d: nat)
    requires Sorted(es) && c < d < |VisiblePairs(es, s)|
    ensures VisiblePairs(es, s)[c].key < VisiblePairs(es, s)[d].key
  {
    var shown := Listing(es, s, |es|);
    UsersOrdered(es, shown[c], shown[d]);
    ShownDistinct(es, s, shown[c], shown[d]);
  }

  method ScanForward(it: DbIter) returns (list: seq<KeyValue>)
    requires it.Valid()
    modifies it, it.iter, it.iter.children
    ensures it.Valid() && list == VisiblePairs(it.Entries(), it.sequence)
  {
    ghost var es, shown := it.Entries(), Listing(it.Entries(), it.sequence, |it.Entries()|);
    ghost var all, c: nat := VisiblePairs(es, it.sequence), 0;
    list := [];
    it.SeekToFirst();
    FirstInListing(es, it.sequence, shown, it.valid, it.at);
    while it.valid
      invariant it.Valid() && c <= |shown| == |all| && (it.valid <==> c < |shown|) && (it.valid ==> it.at == shown[c])
      invariant list == all[..c]
      decreases |shown| - c
    {
      OneMore(all, c);
      list := list + [KeyValue(it.Key(), it.Value())];
      it.Next();
      NextInListing(es, it.sequence, shown, c, it.valid, it.at);
      c := c + 1;
    }
  }

  method ScanBackward(it: DbIter) returns (list: seq<KeyValue>)
    requires it.Valid()
    modifies it, it.iter, it.iter.children
    ensures it.Valid() && list == VisiblePairs(it.Entries(), it.sequence)
  {
    ghost var es, shown := it.Entries(), Listing(it.Entries(), it.sequence, |it.Entries()|);
    ghost var all, c: nat := VisiblePairs(es, it.sequence), |shown|;
    list := [];
    it.SeekToLast();
    LastInListing(es, it.sequence, shown, it.valid, it.at);
    while it.valid
      invariant it.Valid() && c <= |shown| == |all| && (it.valid <==> c > 0) && (it.valid ==> it.at == shown[c - 1])
      invariant list == all[c..]
      decreases c
    {
      OneMore(all, c - 1);
      list := [KeyValue(it.Key(), it.Value())] + list;
      it.Prev();
      PrevInListing(es, it.sequence, shown, c - 1, it.valid, it.at);
      c := c - 1;
    }
  }

  lemma OneMore(all: seq<KeyValue>, c: nat)
    requires c < |all|
    ensures all[c..] == [all[c]] + all[c + 1..] && all[..c + 1] == all[..c] + [all[c]]
  {
  }

  /** What a list of a store at a snapshot must be: rising keys, each with the value a Get finds, and no key missing. */
  ghost predicate ListsStore(list: seq<KeyValue>, s: Db, snapshot: Seqno) {
    && (forall c, d :: 0 <= c < d < |list| ==> list[c].key < list[d].key)
    && (forall u, v, h :: Newest(Readable(s), u, snapshot, h) ==> (AnswerOf(h) == Found(v) <==> KeyValue(u, v) in list))
  }

  lemma PairsListStore(es: Entries, s: Db, snapshot: Seqno)
    requires Inv(s) && Sorted(es) && Elems(es) == Readable(s)
    ensures ListsStore(VisiblePairs(es, snapshot), s, snapshot)
  {
    var list := VisiblePairs(es, snapshot);
    ReadableUnique(s);
    forall c, d | 0 <= c < d < |list| ensures list[c].key < list[d].key {
      PairsRise(es, snapshot, c, d);
    }
    forall u, v, h | Newest(Readable(s), u, snapshot, h) ensures AnswerOf(h) == Found(v) <==> KeyValue(u, v) in list {
      ListedIffNewest(es, snapshot, u, v, h);
    }
  }

  /** From the first key to the last, and from the last to the first: the same list, and it is what Get finds key by key. */
  method ScanBothWays(s: Db, snapshot: Seqno) returns (forward: seq<KeyValue>, backward: seq<KeyValue>)
    requires Inv(s)
    ensures forward == backward && ListsStore(forward, s, snapshot)
  {
    var it := NewIterator(s, snapshot);
    forward := ScanForward(it);
    backward := ScanBackward(it);
    PairsListStore(it.Entries(), s, snapshot);
  }

  /** At a live snapshot a list of the store is the list of the acknowledged writes. */
  lemma ScanListsHistory(list: seq<KeyValue>, s: Db, snapshot: Seqno, u: UserKey, v: Bytes, g: Hit)
    requires Inv(s) && Reads(s) && Live(s, snapshot) && ListsStore(list, s, snapshot) && Newest(s.hist, u, snapshot, g)
    ensures AnswerOf(g) == Found(v) <==> KeyValue(u, v) in list
  {
    var h := NewestExists(Readable(s), u, snapshot);
    ReadsHistory(s, u, snapshot);
    assert AnswerOf(h) == AnswerOf(g);
  }
}
