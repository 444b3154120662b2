/** The one way a compaction can change what readers see, and an example of each way the selected inputs fall short. */
module CompactionHazards {
  import opened InternalKeys
  import opened Versions
  import opened VersionEdits
  import opened InputSelection
  import opened CompactionInputs
  import opened DropRules
  import opened Compactions
  import opened Dumps

  // ---------------------------------------------------------------------------------------------
  // Exactly when a deleted key comes back
  // ---------------------------------------------------------------------------------------------

  /** `g` is the first file behind `f` that starts with older entries of the last user key of `f`, and it is left out. */
  ghost predicate FirstLeftOut(w: Version, c: Inputs, f: File, g: File)
    requires c.level + 1 < |w|
  {
    BoundaryLeftOut(w, c, f, g) && forall h :: BoundaryLeftOut(w, c, f, h) ==> !Precedes(h, g)
  }

  /** A check on the chosen files and the oldest snapshot: the key is deleted by a marker among the inputs that will
      be dropped, and the next-level file left out right behind the inputs starts with a value of that key. */
  ghost predicate Uncovers(v: Version, w: Version, c: Inputs, above: set<Entry>, snap: Seqno, u: UserKey)
    requires c.level + 1 < |w|
  {
    exists m, f, g :: UncoversBy(v, w, c, above, snap, u, m, f, g)
  }

  ghost predicate UncoversBy(v: Version, w: Version, c: Inputs, above: set<Entry>, snap: Seqno, u: UserKey, m: Entry, f: File, g: File)
    requires c.level + 1 < |w|
  {
    && m in InputEntries(c) && m.kind.Deletion? && Newest(above + AllContents(w), u, snap, Hit(m))
    && BaseLevel(v, c.level, u)
    && f.Largest().user == u && FirstLeftOut(w, c, f, g) && g.entries[0].kind.Value?
  }

  /** A left-out file that shares a key with an input is not in a gap between the inputs. */
  lemma SharingIsClear(w: Version, c: Inputs, f: File, g: File, u: UserKey)
    requires c.level + 1 < |w| && LeftAside(w, c) && g in w[c.level + 1] && g !in c.into
    requires f in c.from + c.into && f.Spans(u) && g.Spans(u)
    ensures Clear(g, c)
  {
    assert Overlap(g, f);
  }

  lemma MarkerBeforeLeftOut(w: Version, c: Inputs, f: File, g: File, m: Entry)
    requires Installable(w, c) && LevelsLayered(w) && BoundaryLeftOut(w, c, f, g)
    requires m in InputEntries(c) && m.user == f.Largest().user
    ensures Less(m.Key(), g.Smallest())
  {
    KeysOrdered(f);
    KeysOrdered(g);
    SharingIsClear(w, c, f, g, f.Largest().user);
    var last := f.entries[|f.entries| - 1];
    InContents(c.into, f, last);
    assert !Less(g.Largest(), last.Key()) by {
      KeysOrdered(g);
    }
  }

  /** Among entries older than the marker the one the left-out file starts with is the newest. */
  lemma FirstLeftOutIsPrior(v: Version, w: Version, c: Inputs, above: set<Entry>, snap: Seqno, m: Entry, f: File, g: File)
    requires ValidVersion(w) && Installable(w, c) && BaseStillHolds(v, w, c)
    requires Layered(above, AllContents(w)) && UniqueSeqnos(above + AllContents(w))
    requires m in InputEntries(c) && BaseLevel(v, c.level, m.user) && m.user == f.Largest().user
    requires Newest(above + AllContents(w), m.user, snap, Hit(m))
    requires FirstLeftOut(w, c, f, g)
    ensures Newest(above + Rest(w, c), m.user, m.seqno, Hit(g.entries[0]))
  {
    var p := g.entries[0];
    LeftOutIsVisible(w, c, above, m, f, g);
    forall e | e in above + Rest(w, c) && Visible(e, m.user, m.seqno) ensures e.seqno <= p.seqno {
      PriorBound(v, w, c, above, m, e, f, g);
    }
  }

  lemma LeftOutIsVisible(w: Version, c: Inputs, above: set<Entry>, m: Entry, f: File, g: File)
    requires ValidVersion(w) && Installable(w, c) && UniqueSeqnos(above + AllContents(w))
    requires m in InputEntries(c) && m.user == f.Largest().user && FirstLeftOut(w, c, f, g)
    ensures m in AllContents(w) && g.entries[0] in Rest(w, c) && Visible(g.entries[0], m.user, m.seqno)
  {
    MarkerBeforeLeftOut(w, c, f, g, m);
    ContentsBefore(w, c);
    InRest(w, c, c.level + 1, g, g.entries[0]);
  }

  lemma PriorBound(v: Version, w: Version, c: Inputs, above: set<Entry>, m: Entry, e: Entry, f: File, g: File)
    requires ValidVersion(w) && Installable(w, c) && BaseStillHolds(v, w, c)
    requires Layered(above, AllContents(w)) && UniqueSeqnos(above + AllContents(w))
    requires m in InputEntries(c) && m in AllContents(w) && BaseLevel(v, c.level, m.user)
    requires FirstLeftOut(w, c, f, g) && f.Largest().user == m.user
    requires e in above + Rest(w, c) && Visible(e, m.user, m.seqno)
    ensures e.seqno <= g.entries[0].seqno
  {
    var h := LeftOutHolds(v, w, c, above, m, e, f);
    NotBefore(w[c.level + 1], c, f, g, h, e);
  }

  lemma NotBefore(files: seq<File>, c: Inputs, f: File, g: File, h: File, e: Entry)
    requires SortedDisjoint(files) && g in files && h in files && !Precedes(h, g) && e in h.entries
    requires e.user == g.Smallest().user
    ensures e.seqno <= g.entries[0].seqno
  {
    FileRange(h, e);
    if g != h {
      Comparable(files, g, h);
      PrecedesEntries(g, h, g.entries[0], e);
    }
  }

  /** Where an older entry outside the inputs can be. */
  lemma LeftOutHolds(v: Version, w: Version, c: Inputs, above: set<Entry>, m: Entry, e: Entry, f: File) returns (h: File)
    requires ValidVersion(w) && Installable(w, c) && BaseStillHolds(v, w, c)
    requires Layered(above, AllContents(w)) && UniqueSeqnos(above + AllContents(w))
    requires m in InputEntries(c) && m in AllContents(w) && BaseLevel(v, c.level, m.user)
    requires f in c.into && f.Largest().user == m.user
    requires e in above + Rest(w, c) && Visible(e, m.user, m.seqno)
    ensures h in w[c.level + 1] && e in h.entries && BoundaryLeftOut(w, c, f, h)
  {
    ContentsBefore(w, c);
    assert e !in above;
    var l, k :| 0 <= l < |w| && k in w[l] && Stays(w, c, l, k) && e in k.entries;
    h := k;
    DistinctFromRest(w, c, m, e, l, k);
    InAllContents(w, l, k, e);
    var f' := PriorIsNextLevel(v, w, c, m, e, l, k);
    SharedBoundary(w, c, f, f', k, m.user);
  }

  lemma SharedBoundary(w: Version, c: Inputs, f: File, f': File, k: File, u: UserKey)
    requires Installable(w, c) && BoundaryLeftOut(w, c, f', k) && f'.Largest().user == u
    requires f in c.into && f.Largest().user == u
    ensures BoundaryLeftOut(w, c, f, k)
  {
    var last', last := f'.entries[|f'.entries| - 1], f.entries[|f.entries| - 1];
    InContents(c.into, f', last');
    InContents(c.into, f, last);
    KeysOrdered(k);
    KeysOrdered(f');
    SharingIsClear(w, c, f', k, u);
  }

  /** An input is not an entry of a file that stays. */
  lemma DistinctFromRest(w: Version, c: Inputs, m: Entry, e: Entry, l: nat, k: File)
    requires LevelsLayered(w) && InputsPresent(w, c) && LeftAside(w, c) && LeftNewer(w, c)
    requires m in InputEntries(c) && m.user == e.user
    requires l < |w| && Stays(w, c, l, k) && e in k.entries
    ensures e != m
  {
    FileRange(k, e);
    InContents(w[l], k, e);
    if m in Contents(c.from) {
      SubsetContents(c.from, w[c.level]);
      assert e in Elems(k.entries);
      assert l == c.level ==> Layered(Elems(k.entries), Contents(c.from));
      OtherLevelOtherAge(w, l, c.level, e, m);
    } else {
      SubsetContents(c.into, w[c.level + 1]);
      if l == c.level + 1 {
        var f :| f in c.into && m in f.entries;
        FileRange(f, m);
        SharingIsClear(w, c, f, k, m.user);
      }
      OtherLevelOtherAge(w, l, c.level + 1, e, m);
    }
  }

  lemma OtherLevelOtherAge(w: Version, l: nat, k: nat, a: Entry, b: Entry)
    requires LevelsLayered(w) && l < |w| && k < |w|
    requires a in Contents(w[l]) && b in Contents(w[k]) && a.user == b.user
    ensures l != k ==> a.seqno != b.seqno
  {
    assert l < k ==> Layered(Contents(w[l]), Contents(w[k]));
    assert k < l ==> Layered(Contents(w[k]), Contents(w[l]));
  }

  lemma InRest(w: Version, c: Inputs, l: nat, f: File, e: Entry)
    requires l < |w| && Stays(w, c, l, f) && e in f.entries
    ensures e in Rest(w, c)
  {
  }

  /** The file that holds the newest older entry outside the inputs is the first one left out. */
  lemma NothingInBetween(w: Version, c: Inputs, above: set<Entry>, m: Entry, prior: Entry, f: File, g: File)
    requires ValidVersion(w) && Installable(w, c) && UniqueSeqnos(above + AllContents(w))
    requires m in InputEntries(c) && m.user == f.Largest().user
    requires BoundaryLeftOut(w, c, f, g) && prior in g.entries && Newest(above + Rest(w, c), m.user, m.seqno, Hit(prior))
    ensures FirstLeftOut(w, c, f, g) && prior == g.entries[0]
  {
    forall h | BoundaryLeftOut(w, c, f, h) ensures !Precedes(h, g) {
      StartsOlder(w, c, above, m, prior, f, g, h);
      OlderIsBehind(h, g, prior);
    }
    StartsOlder(w, c, above, m, prior, f, g, g);
    FileRange(g, prior);
  }

  lemma StartsOlder(w: Version, c: Inputs, above: set<Entry>, m: Entry, prior: Entry, f: File, g: File, h: File)
    requires LevelsLayered(w) && Installable(w, c) && UniqueSeqnos(above + AllContents(w))
    requires m in InputEntries(c) && m.user == f.Largest().user
    requires BoundaryLeftOut(w, c, f, g) && BoundaryLeftOut(w, c, f, h)
    requires prior in g.entries && Newest(above + Rest(w, c), m.user, m.seqno, Hit(prior))
    ensures h.entries[0].seqno < prior.seqno || h.entries[0] == prior
  {
    MarkerBeforeLeftOut(w, c, f, h, m);
    InRest(w, c, c.level + 1, h, h.entries[0]);
    InAllContents(w, c.level + 1, h, h.entries[0]);
    InAllContents(w, c.level + 1, g, prior);
  }

  lemma OlderIsBehind(h: File, g: File, prior: Entry)
    requires prior in g.entries && prior.user == h.Smallest().user
    requires h.entries[0].seqno < prior.seqno || h.entries[0] == prior
    ensures !Precedes(h, g)
  {
    KeysOrdered(h);
    FileRange(g, prior);
  }

  lemma ResurrectsIffUncovers(v: Version, w: Version, c: Inputs, above: set<Entry>, snap: Seqno, u: UserKey)
    requires ValidVersion(w) && Installable(w, c) && BaseStillHolds(v, w, c)
    requires Layered(above, AllContents(w)) && UniqueSeqnos(above + AllContents(w))
    ensures Resurrects(v, c.level, above + Rest(w, c), InputEntries(c), snap, u) <==> Uncovers(v, w, c, above, snap, u)
  {
    ContentsBefore(w, c);
    var R := above + Rest(w, c);
    assert R + InputEntries(c) == above + AllContents(w);
    if Uncovers(v, w, c, above, snap, u) {
      var m, f, g :| UncoversBy(v, w, c, above, snap, u, m, f, g);
      UncoversResurrects(v, w, c, above, snap, u, m, f, g);
    }
    if Resurrects(v, c.level, R, InputEntries(c), snap, u) {
      ResurrectsUncovers(v, w, c, above, snap, u);
    }
  }

  lemma UncoversResurrects(v: Version, w: Version, c: Inputs, above: set<Entry>, snap: Seqno, u: UserKey, m: Entry, f: File, g: File)
    requires ValidVersion(w) && Installable(w, c) && BaseStillHolds(v, w, c)
    requires Layered(above, AllContents(w)) && UniqueSeqnos(above + AllContents(w))
    requires above + Rest(w, c) + InputEntries(c) == above + AllContents(w)
    requires UncoversBy(v, w, c, above, snap, u, m, f, g)
    ensures Resurrects(v, c.level, above + Rest(w, c), InputEntries(c), snap, u)
  {
    FirstLeftOutIsPrior(v, w, c, above, snap, m, f, g);
    MarkerResurrects(v, c.level, above + Rest(w, c), InputEntries(c), snap, m, g.entries[0]);
  }

  lemma MarkerResurrects(v: Version, level: nat, R: set<Entry>, I: set<Entry>, snap: Seqno, m: Entry, prior: Entry)
    requires m in I && Newest(R + I, m.user, snap, Hit(m)) && m.kind.Deletion? && BaseLevel(v, level, m.user)
    requires Newest(R, m.user, m.seqno, Hit(prior)) && prior.kind.Value?
    ensures Resurrects(v, level, R, I, snap, m.user)
  {
    assert Obsolete(v, level, m, snap);
  }

  lemma ResurrectsUncovers(v: Version, w: Version, c: Inputs, above: set<Entry>, snap: Seqno, u: UserKey)
    requires ValidVersion(w) && Installable(w, c) && BaseStillHolds(v, w, c)
    requires Layered(above, AllContents(w)) && UniqueSeqnos(above + AllContents(w))
    requires above + AllContents(w) == above + Rest(w, c) + InputEntries(c)
    requires Resurrects(v, c.level, above + Rest(w, c), InputEntries(c), snap, u)
    ensures Uncovers(v, w, c, above, snap, u)
  {
    var R := above + Rest(w, c);
    var m, prior :| m in InputEntries(c) && Newest(R + InputEntries(c), u, snap, Hit(m)) && Obsolete(v, c.level, m, snap) &&
      Newest(R, u, m.seqno, Hit(prior)) && prior.kind.Value?;
    PriorUncovers(v, w, c, above, snap, m, prior);
  }

  lemma PriorUncovers(v: Version, w: Version, c: Inputs, above: set<Entry>, snap: Seqno, m: Entry, prior: Entry)
    requires ValidVersion(w) && Installable(w, c) && BaseStillHolds(v, w, c)
    requires Layered(above, AllContents(w)) && UniqueSeqnos(above + AllContents(w))
    requires m in InputEntries(c) && Newest(above + AllContents(w), m.user, snap, Hit(m)) && Obsolete(v, c.level, m, snap)
    requires Newest(above + Rest(w, c), m.user, m.seqno, Hit(prior)) && prior.kind.Value?
    ensures Uncovers(v, w, c, above, snap, m.user)
  {
    var f, g := PriorIsInFile(v, w, c, above, m, prior);
    NothingInBetween(w, c, above, m, prior, f, g);
    assert UncoversBy(v, w, c, above, snap, m.user, m, f, g);
  }

  /** Reads of one user key at every live snapshot are unchanged by a compaction if and only if the chosen files pass
      the check. `v` is the version the files were chosen from, `w` the one the results are installed in. */
  lemma CompactionUnobservableIff(v: Version, w: Version, c: Inputs, outputs: seq<File>, above: set<Entry>, snap: Seqno, u: UserKey)
    requires ValidVersion(w) && NumbersIdentify(w) && Installable(w, c) && BaseStillHolds(v, w, c) && FreshOutputs(w, c, outputs)
    requires Layered(above, AllContents(w)) && UniqueSeqnos(above + AllContents(w))
    requires KeepsSurvivors(v, c.level, InputEntries(c), Contents(outputs), snap)
    ensures var w' := ApplyEdit(w, CompactionChanges(c, outputs));
            (forall s: Seqno :: snap <= s ==> SameAnswer(above + AllContents(w), above + AllContents(w'), u, s)) <==>
            !Uncovers(v, w, c, above, snap, u)
  {
    var w' := ApplyEdit(w, CompactionChanges(c, outputs));
    assert UniqueSeqnos(AllContents(w));
    FilesAfterChange(w, c, outputs);
    ContentsBefore(w, c);
    ContentsAfter(w, w', c, outputs);
    ResurrectsIffUncovers(v, w, c, above, snap, u);
    SplitUnobservable(v, c.level, above, Rest(w, c), InputEntries(c), Contents(outputs), AllContents(w), AllContents(w'), snap, u);
  }

  /** A read of a key that does not pass changes already at the oldest live snapshot. */
  lemma UncoveredChangesAnswer(v: Version, w: Version, c: Inputs, outputs: seq<File>, above: set<Entry>, snap: Seqno, u: UserKey)
    requires ValidVersion(w) && NumbersIdentify(w) && Installable(w, c) && BaseStillHolds(v, w, c) && FreshOutputs(w, c, outputs)
    requires Layered(above, AllContents(w)) && UniqueSeqnos(above + AllContents(w))
    requires KeepsSurvivors(v, c.level, InputEntries(c), Contents(outputs), snap) && Uncovers(v, w, c, above, snap, u)
    ensures !SameAnswer(above + AllContents(w), above + AllContents(ApplyEdit(w, CompactionChanges(c, outputs))), u, snap)
  {
    var w' := ApplyEdit(w, CompactionChanges(c, outputs));
    FilesAfterChange(w, c, outputs);
    ContentsBefore(w, c);
    ContentsAfter(w, w', c, outputs);
    ResurrectsIffUncovers(v, w, c, above, snap, u);
    SplitObservable(v, c.level, above, Rest(w, c), InputEntries(c), Contents(outputs), AllContents(w), AllContents(w'), snap, u);
  }

  lemma SplitObservable(v: Version, level: nat, above: set<Entry>, rest: set<Entry>, I: set<Entry>, K: set<Entry>,
                        before: set<Entry>, after: set<Entry>, snap: Seqno, u: UserKey)
    requires before == rest + I && after == rest + K && Resurrects(v, level, above + rest, I, snap, u)
    requires UniqueSeqnos(above + before) && KeepsSurvivors(v, level, I, K, snap)
    ensures !SameAnswer(above + before, above + after, u, snap)
  {
    assert above + before == above + rest + I;
    assert above + after == above + rest + K;
    ResurrectionChangesAnswer(v, level, above + rest, I, K, snap, u);
  }

  /** Where no boundary file was left out at the next level, the check passes. */
  lemma NothingLeftOutIsSafe(v: Version, w: Version, c: Inputs, above: set<Entry>, snap: Seqno, u: UserKey)
    requires c.level + 1 < |w| && NothingLeftOut(w, c)
    ensures !Uncovers(v, w, c, above, snap, u)
  {
  }

  lemma SplitUnobservable(v: Version, level: nat, above: set<Entry>, rest: set<Entry>, I: set<Entry>, K: set<Entry>,
                          before: set<Entry>, after: set<Entry>, snap: Seqno, u: UserKey)
    requires before == rest + I && after == rest + K
    requires UniqueSeqnos(above + before) && KeepsSurvivors(v, level, I, K, snap)
    ensures (forall s: Seqno :: snap <= s ==> SameAnswer(above + before, above + after, u, s)) <==>
            !Resurrects(v, level, above + rest, I, snap, u)
  {
    assert above + before == above + rest + I;
    assert above + after == above + rest + K;
    DropsAreUnobservableIff(v, level, above + rest, I, K, snap, u);
  }

  // ---------------------------------------------------------------------------------------------
  // A version on which the check fails
  // ---------------------------------------------------------------------------------------------

  function Upper(): File {
    File(12, 1, [Entry(1, 10, Value, "a")])
  }

  /** The next level holds key 5 in two files: its deletion marker ends the first, the deleted value starts the second. */
  function Lower(): File {
    File(10, 1, [Entry(1, 4, Value, "b"), Entry(5, 7, Deletion, "")])
  }

  function OldValue(): File {
    File(11, 1, [Entry(5, 3, Value, "old")])
  }

  function SplitKey(): Version {
    [[], [Upper()], [Lower(), OldValue()], [], [], [], []]
  }

  ghost function Deletes5(): Entry {
    Lower().entries[1]
  }

  lemma OneFile(f: File)
    ensures Contents([f]) == Elems(f.entries)
  {
    assert f in [f];
  }

  lemma TwoFiles(f: File, g: File)
    ensures Contents([f, g]) == Elems(f.entries) + Elems(g.entries)
  {
    assert [f, g][0] == f && [f, g][1] == g;
  }

  lemma OneEntry(e: Entry)
    ensures Elems([e]) == {e}
  {
    assert e in [e];
  }

  lemma TwoEntries(d: Entry, e: Entry)
    ensures Elems([d, e]) == {d, e}
  {
    assert [d, e][0] == d && [d, e][1] == e;
  }

  lemma SplitKeyContents()
    ensures Contents(SplitKey()[1]) == {Upper().entries[0]}
    ensures Contents(SplitKey()[2]) == {Lower().entries[0], Deletes5(), OldValue().entries[0]}
    ensures forall l :: 0 <= l < 7 && l != 1 && l != 2 ==> SplitKey()[l] == []
  {
    OneFile(Upper());
    OneEntry(Upper().entries[0]);
    TwoFiles(Lower(), OldValue());
    TwoEntries(Lower().entries[0], Deletes5());
    OneEntry(OldValue().entries[0]);
  }

  lemma SplitKeyAll()
    ensures AllContents(SplitKey()) == {Upper().entries[0], Lower().entries[0], Deletes5(), OldValue().entries[0]}
  {
    SplitKeyContents();
    var v := SplitKey();
    assert |v| == 7;
    var all := Contents(v[1]) + Contents(v[2]);
    assert AllContents(v) == all by {
      forall e | e in all ensures e in AllContents(v) {
      }
    }
  }

  lemma SplitKeyLayered()
    ensures LevelsLayered(SplitKey())
  {
    var v := SplitKey();
    SplitKeyContents();
    forall l, m | 0 <= l < m < |v| ensures Layered(Contents(v[l]), Contents(v[m])) {
      if l == 1 && m == 2 {
        assert Layered({Upper().entries[0]}, {Lower().entries[0], Deletes5(), OldValue().entries[0]});
      } else {
        assert v[l] == [] || v[m] == [];
      }
    }
  }

  lemma SplitKeyFiles(l: nat, f: File)
    requires l < NUM_LEVELS && f in SplitKey()[l]
    ensures (l == 1 && f == Upper()) || (l == 2 && (f == Lower() || f == OldValue()))
  {
    var files := SplitKey()[l];
    var i :| 0 <= i < |files| && files[i] == f;
  }

  lemma SplitKeyPlace(l: nat, f: File)
    requires l < NUM_LEVELS && f in SplitKey()[l]
    ensures f.number in {10, 11, 12} && l == if f.number == 12 then 1 else 2
    ensures f == if f.number == 12 then Upper() else if f.number == 10 then Lower() else OldValue()
  {
    SplitKeyFiles(l, f);
  }

  lemma SplitKeyNumbers()
    ensures NumbersIdentify(SplitKey())
  {
    var v := SplitKey();
    forall l, m, f: File, g: File | 0 <= l < |v| && 0 <= m < |v| && f in v[l] && g in v[m] && f.number == g.number
      ensures l == m && f == g
    {
      SplitKeyPlace(l, f);
      SplitKeyPlace(m, g);
    }
  }

  lemma SplitKeySorted()
    ensures SortedLevels(SplitKey())
  {
    var v := SplitKey();
    assert Precedes(v[2][0], v[2][1]);
    forall l | 1 <= l < |v| ensures SortedDisjoint(v[l]) {
      assert |v[l]| == 2 ==> l == 2;
    }
  }

  lemma SplitKeyUnique()
    ensures UniqueSeqnos(AllContents(SplitKey()))
  {
    SplitKeyAll();
  }

  /** The version is as every step of the store leaves it. */
  lemma SplitKeyValid()
    ensures ValidVersion(SplitKey()) && NumbersIdentify(SplitKey()) && UniqueSeqnos(AllContents(SplitKey()))
  {
    SplitKeyLayered();
    SplitKeySorted();
    SplitKeyNumbers();
    SplitKeyUnique();
    assert SplitKey()[0] == [];
  }

  /** Whatever is chosen for a compaction of level 1 takes the marker and leaves the deleted value behind. */
  lemma SplitKeyChosen(c: Inputs)
    requires WellChosen(SplitKey(), c) && c.level == 1
    ensures Lower() in c.into && OldValue() !in c.into
    ensures BoundaryLeftOut(SplitKey(), c, Lower(), OldValue())
  {
    var v := SplitKey();
    assert c.from[0] in c.from && c.from[0] in v[1];
    assert Lower() == v[2][0] && OldValue() == v[2][1];
    assert MeetsHull(Lower(), c.from);
  }

  lemma SplitKeyReadsDeleted()
    ensures Newest({} + AllContents(SplitKey()), 5, 10, Hit(Deletes5()))
  {
    SplitKeyAll();
    assert {} + AllContents(SplitKey()) == AllContents(SplitKey());
  }

  lemma SplitKeyFirst(c: Inputs)
    requires WellChosen(SplitKey(), c) && c.level == 1
    ensures FirstLeftOut(SplitKey(), c, Lower(), OldValue())
  {
    SplitKeyChosen(c);
    forall h | BoundaryLeftOut(SplitKey(), c, Lower(), h) ensures !Precedes(h, OldValue()) {
      SplitKeyFiles(2, h);
    }
  }

  /** A deleted key comes back: no choice of inputs for a compaction of level 1 passes the check. */
  lemma DeletedKeyComesBack(c: Inputs)
    requires WellChosen(SplitKey(), c) && c.level == 1
    ensures Uncovers(SplitKey(), SplitKey(), c, {}, 10, 5)
  {
    SplitKeyReadsDeleted();
    SplitKeyFirst(c);
    InContents(c.into, Lower(), Deletes5());
    assert UncoversBy(SplitKey(), SplitKey(), c, {}, 10, 5, Deletes5(), Lower(), OldValue());
  }

  // ---------------------------------------------------------------------------------------------
  // A dump that lands inside the range of a running compaction
  // ---------------------------------------------------------------------------------------------

  /** A dump lands on the output level of a compaction that is then installed: the levels stay sorted and disjoint if and
      only if every output precedes or follows the dump. */
  lemma InstallAfterDumpIff(w: Version, c: Inputs, level: nat, f: File, outputs: seq<File>)
    requires ValidVersion(w) && NumbersIdentify(w) && WellChosen(w, c) && UniqueSeqnos(AllContents(w))
    requires MayDump(w, level, f) && level == c.level + 1
    requires SortedDisjoint(outputs) && Contents(outputs) <= InputEntries(c)
    requires FreshOutputs(ApplyEdit(w, DumpChanges(level, f)), c, outputs)
    ensures var w' := ApplyEdit(w, DumpChanges(level, f));
            SortedLevels(ApplyEdit(w', CompactionChanges(c, outputs))) <==>
            forall o :: o in outputs ==> Precedes(o, f) || Precedes(f, o)
  {
    var w' := ApplyEdit(w, DumpChanges(level, f));
    WellChosenInstallable(w, c);
    DumpKeepsValid(w, level, f);
    SortedLevelsAfterIff(w', c, outputs);
    ClearOutputsApart(w, c, outputs);
    DumpAloneMatters(w, w', c, level, f, outputs);
  }

  lemma DumpAloneMatters(w: Version, w': Version, c: Inputs, level: nat, f: File, outputs: seq<File>)
    requires level == c.level + 1 < |w| && FilesAfterDump(w, w', level, f) && OutputsApart(w, c, outputs) && f !in c.into
    ensures OutputsApart(w', c, outputs) <==> forall o :: o in outputs ==> Precedes(o, f) || Precedes(f, o)
  {
    assert f in w'[level];
    forall o, g: File | o in outputs && g in w'[level] && g !in c.into && g != f ensures Precedes(o, g) || Precedes(g, o) {
      assert g in w[level];
    }
  }

  function Left(): File {
    File(10, 1, [Entry(1, 1, Value, "a")])
  }

  function Right(): File {
    File(11, 1, [Entry(9, 2, Value, "c")])
  }

  function Gapped(): Version {
    [[], [Left(), Right()], [], [], [], [], []]
  }

  function Between5(): File {
    File(12, 1, [Entry(5, 3, Value, "b")])
  }

  /** One output that holds both inputs. */
  function Merged(): File {
    File(13, 1, [Entry(1, 1, Value, "a"), Entry(9, 2, Value, "c")])
  }

  function BothInputs(): Inputs {
    Inputs(1, [Left(), Right()], [])
  }

  /** A manual compaction of level 1 takes both files; a dump of key 5 is free to go to level 2, between them. */
  lemma DumpIntoGap()
    ensures WellChosen(Gapped(), BothInputs()) && MayDump(Gapped(), 2, Between5())
    ensures ValidVersion(Gapped()) && NumbersIdentify(Gapped()) && UniqueSeqnos(AllContents(Gapped()))
  {
    GappedFree(Between5());
    GappedValid();
    assert Gapped()[1] == BothInputs().from && Gapped()[2] == BothInputs().into;
  }

  lemma GappedFiles(l: nat, g: File)
    requires l < NUM_LEVELS && g in Gapped()[l]
    ensures l == 1 && (g == Left() || g == Right())
  {
    var i :| 0 <= i < |Gapped()[l]| && Gapped()[l][i] == g;
  }

  lemma GappedContents()
    ensures AllContents(Gapped()) == {Left().entries[0], Right().entries[0]}
    ensures Contents(Gapped()[1]) == {Left().entries[0], Right().entries[0]}
  {
    var w := Gapped();
    TwoFiles(Left(), Right());
    OneEntry(Left().entries[0]);
    OneEntry(Right().entries[0]);
    assert w[1] == [Left(), Right()] && |w| == 7;
    assert AllContents(w) == Contents(w[1]);
  }

  lemma GappedSorted()
    ensures SortedLevels(Gapped())
  {
    var w := Gapped();
    assert Precedes(w[1][0], w[1][1]);
    forall l | 1 <= l < |w| ensures SortedDisjoint(w[l]) {
      assert |w[l]| == 2 ==> l == 1;
    }
  }

  lemma GappedLayered()
    ensures LevelsLayered(Gapped())
  {
    var w := Gapped();
    forall l, m | 0 <= l < m < |w| ensures Layered(Contents(w[l]), Contents(w[m])) {
      assert w[l] == [] || w[m] == [];
    }
  }

  lemma GappedNumbers()
    ensures NumbersIdentify(Gapped())
  {
    var w := Gapped();
    forall l, m, f: File, g: File | 0 <= l < |w| && 0 <= m < |w| && f in w[l] && g in w[m] && f.number == g.number
      ensures l == m && f == g
    {
      GappedFiles(l, f);
      GappedFiles(m, g);
    }
  }

  lemma GappedValid()
    ensures ValidVersion(Gapped()) && NumbersIdentify(Gapped()) && UniqueSeqnos(AllContents(Gapped()))
  {
    GappedSorted();
    GappedLayered();
    GappedNumbers();
    GappedUnique();
    assert Gapped()[0] == [];
  }

  lemma GappedUnique()
    ensures UniqueSeqnos(AllContents(Gapped()))
  {
    GappedContents();
  }

  lemma GappedFree(f: File)
    requires f == Between5()
    ensures MayDump(Gapped(), 2, f)
  {
    GappedContents();
    forall l, g: File | 0 <= l < 7 && g in Gapped()[l] ensures g == Left() || g == Right() {
      GappedFiles(l, g);
    }
  }

  lemma MergedFresh()
    ensures FreshOutputs(ApplyEdit(Gapped(), DumpChanges(2, Between5())), BothInputs(), [Merged()])
    ensures Contents([Merged()]) <= InputEntries(BothInputs())
  {
    var w := Gapped();
    DumpFiles(w, 2, Between5());
    forall l, g: File | 0 <= l < |w| && g in ApplyEdit(w, DumpChanges(2, Between5()))[l] ensures g.number < 13 {
      if g in w[l] {
        GappedFiles(l, g);
      }
    }
    TwoFiles(Left(), Right());
    OneFile(Merged());
    TwoEntries(Left().entries[0], Right().entries[0]);
    OneEntry(Left().entries[0]);
    OneEntry(Right().entries[0]);
  }

  /** Written to one output, the inputs overlap the dump: the output level is no longer disjoint. */
  lemma OverlapAfterDump()
    ensures !SortedLevels(ApplyEdit(ApplyEdit(Gapped(), DumpChanges(2, Between5())), CompactionChanges(BothInputs(), [Merged()])))
  {
    DumpIntoGap();
    MergedFresh();
    InstallAfterDumpIff(Gapped(), BothInputs(), 2, Between5(), [Merged()]);
    assert Merged() in [Merged()];
  }
}
