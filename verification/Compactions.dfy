/** Installing a dump, a trivial move or a compaction: the version invariant is kept, and what is read stays the same. */
module Compactions {
  import opened InternalKeys
  import opened Versions
  import opened VersionEdits
  import opened InputSelection
  import opened CompactionInputs
  import opened DropRules

  ghost function InputEntries(c: Inputs): set<Entry> {
    Contents(c.from) + Contents(c.into)
  }

  function InputDeletions(c: Inputs): set<Deleted> {
    (set f | f in c.from :: Deleted(c.level, f.number)) + (set f | f in c.into :: Deleted(c.level + 1, f.number))
  }

  function CompactionChanges(c: Inputs, outputs: seq<File>): FileChanges {
    FileChanges(InputDeletions(c), AddAt(c.level + 1, outputs))
  }

  // ---------------------------------------------------------------------------------------------
  // Conditions under which the results of a compaction may be installed in `w`
  // ---------------------------------------------------------------------------------------------

  /** The inputs are still where they were picked. */
  ghost predicate InputsPresent(w: Version, c: Inputs) {
    c.level + 1 < |w| && Subset(c.from, w[c.level]) && Subset(c.into, w[c.level + 1])
  }

  /** `f` is a file of level `l` that does not take part. */
  ghost predicate Stays(w: Version, c: Inputs, l: nat, f: File)
    requires l < |w|
  {
    f in w[l] && !(l == c.level && f in c.from) && !(l == c.level + 1 && f in c.into)
  }

  /** Files of the level that stay are newer than the inputs that leave it. */
  ghost predicate LeftNewer(w: Version, c: Inputs)
    requires c.level < |w|
  {
    forall g :: g in w[c.level] && g !in c.from ==> Layered(Elems(g.entries), Contents(c.from))
  }

  /** `g` lies entirely before or entirely behind all inputs. */
  ghost predicate Clear(g: File, c: Inputs) {
    || (forall e :: e in InputEntries(c) ==> Less(e.Key(), g.Smallest()))
    || (forall e :: e in InputEntries(c) ==> Less(g.Largest(), e.Key()))
  }

  /** `g` touches no input, though it may lie between two of them. */
  ghost predicate Aside(g: File, c: Inputs) {
    forall f :: f in c.from + c.into ==> !Overlap(g, f)
  }

  ghost predicate LeftAside(w: Version, c: Inputs)
    requires c.level + 1 < |w|
  {
    forall g :: g in w[c.level + 1] && g !in c.into ==> Clear(g, c) || Aside(g, c)
  }

  /** Files of the next level that stay share no user key with the inputs that move into it. */
  ghost predicate LeftApart(w: Version, c: Inputs)
    requires c.level + 1 < |w|
  {
    forall g, e :: g in w[c.level + 1] && g !in c.into && e in Contents(c.from) ==> !g.Spans(e.user)
  }

  ghost predicate Installable(w: Version, c: Inputs) {
    InputsPresent(w, c) && LeftNewer(w, c) && LeftAside(w, c) && LeftApart(w, c)
  }

  lemma InContents(files: seq<File>, f: File, e: Entry)
    requires f in files && e in f.entries
    ensures e in Contents(files)
  {
  }

  // ---------------------------------------------------------------------------------------------
  // Well-chosen inputs can be installed in the version they were chosen from
  // ---------------------------------------------------------------------------------------------

  lemma LeftNewerSorted(files: seq<File>, from: seq<File>, g: File)
    requires SortedDisjoint(files) && Subset(from, files) && BoundaryClosed(files, from) && g in files && g !in from
    requires UniqueSeqnos(Contents(files))
    ensures Layered(Elems(g.entries), Contents(from))
  {
    forall a, b | a in Elems(g.entries) && b in Contents(from) && a.user == b.user ensures a.seqno > b.seqno {
      var f :| f in from && b in f.entries;
      FileRange(f, b);
      FileRange(g, a);
      InContents(files, f, b);
      InContents(files, g, a);
      Comparable(files, f, g);
      assert !BoundaryOf(f, g);
      if Precedes(g, f) {
        PrecedesEntries(g, f, a, b);
      }
    }
  }

  lemma LeftNewerLevelZero(files: seq<File>, from: seq<File>, g: File)
    requires ClosedUnderOverlap(files, from) && g in files && g !in from
    ensures Layered(Elems(g.entries), Contents(from))
  {
    forall a, b | a in Elems(g.entries) && b in Contents(from) ensures a.user != b.user {
      var f :| f in from && b in f.entries;
      FileRange(f, b);
      FileRange(g, a);
      assert !Overlap(g, f);
    }
  }

  /** The chosen next-level files reach exactly as far as the level's share. */
  ghost predicate ExactInto(files: seq<File>, c: Inputs) {
    Subset(c.into, files) && forall g :: g in files ==> (g in c.into <==> MeetsHull(g, c.from))
  }

  lemma ClearBefore(files: seq<File>, c: Inputs, g: File, e: Entry)
    requires SortedDisjoint(files) && ExactInto(files, c) && g in files && g !in c.into
    requires forall f :: f in c.from ==> g.Largest().user < f.Smallest().user
    requires e in InputEntries(c)
    ensures Less(g.Largest(), e.Key())
  {
    if e in Contents(c.from) {
      var f :| f in c.from && e in f.entries;
      FileRange(f, e);
    } else {
      var h :| h in c.into && e in h.entries;
      FileRange(h, e);
      var f :| f in c.from && f.Smallest().user <= h.Largest().user;
      Comparable(files, g, h);
      KeysOrdered(h);
      KeysOrdered(g);
    }
  }

  lemma ClearBehind(files: seq<File>, c: Inputs, g: File, e: Entry)
    requires SortedDisjoint(files) && ExactInto(files, c) && g in files && g !in c.into
    requires forall f :: f in c.from ==> f.Largest().user < g.Smallest().user
    requires e in InputEntries(c)
    ensures Less(e.Key(), g.Smallest())
  {
    if e in Contents(c.from) {
      var f :| f in c.from && e in f.entries;
      FileRange(f, e);
    } else {
      var h :| h in c.into && e in h.entries;
      FileRange(h, e);
      var f :| f in c.from && h.Smallest().user <= f.Largest().user;
      Comparable(files, g, h);
      KeysOrdered(h);
      KeysOrdered(g);
    }
  }

  lemma LeftOutClear(files: seq<File>, c: Inputs, g: File)
    requires SortedDisjoint(files) && ExactInto(files, c) && g in files && g !in c.into
    ensures Clear(g, c)
  {
    assert !MeetsHull(g, c.from);
    if forall f :: f in c.from ==> g.Largest().user < f.Smallest().user {
      forall e | e in InputEntries(c) ensures Less(g.Largest(), e.Key()) {
        ClearBefore(files, c, g, e);
      }
    } else {
      forall e | e in InputEntries(c) ensures Less(e.Key(), g.Smallest()) {
        ClearBehind(files, c, g, e);
      }
    }
  }

  lemma LeftOutApart(files: seq<File>, c: Inputs, g: File, e: Entry)
    requires ExactInto(files, c) && g in files && g !in c.into && e in Contents(c.from)
    ensures !g.Spans(e.user)
  {
    var f :| f in c.from && e in f.entries;
    FileRange(f, e);
  }

  lemma UniqueInLevel(v: Version, l: nat)
    requires UniqueSeqnos(AllContents(v)) && l < |v|
    ensures UniqueSeqnos(Contents(v[l]))
  {
    assert Contents(v[l]) <= AllContents(v);
  }

  lemma WellChosenInstallable(v: Version, c: Inputs)
    requires SortedLevels(v) && UniqueSeqnos(AllContents(v)) && WellChosen(v, c)
    ensures Installable(v, c)
    ensures forall g :: g in v[c.level + 1] && g !in c.into ==> Clear(g, c)
  {
    UniqueInLevel(v, c.level);
    forall g | g in v[c.level] && g !in c.from ensures Layered(Elems(g.entries), Contents(c.from)) {
      if c.level == 0 {
        LeftNewerLevelZero(v[0], c.from, g);
      } else {
        LeftNewerSorted(v[c.level], c.from, g);
      }
    }
    forall g | g in v[c.level + 1] && g !in c.into ensures Clear(g, c) {
      LeftOutClear(v[c.level + 1], c, g);
    }
    forall g, e | g in v[c.level + 1] && g !in c.into && e in Contents(c.from) ensures !g.Spans(e.user) {
      LeftOutApart(v[c.level + 1], c, g, e);
    }
  }

  // ---------------------------------------------------------------------------------------------
  // The levels after a compaction
  // ---------------------------------------------------------------------------------------------

  /** The numbers of the outputs are used by no file that stays at any level. */
  ghost predicate FreshOutputs(w: Version, c: Inputs, outputs: seq<File>) {
    && DistinctNumbers(outputs)
    && forall f, l, g :: f in outputs && 0 <= l < |w| && g in w[l] && g.number == f.number ==> l == c.level && g in c.from
  }

  /** What the levels hold after the change, as sets of files. */
  ghost predicate FilesAfter(w: Version, w': Version, c: Inputs, outputs: seq<File>) {
    |w'| == |w| && forall l, f :: 0 <= l < |w| ==> (f in w'[l] <==> Stays(w, c, l, f) || (l == c.level + 1 && f in outputs))
  }

  lemma DeletedNumbers(c: Inputs, outputs: seq<File>, l: nat)
    ensures DeletedAt(CompactionChanges(c, outputs), l) ==
            if l == c.level then Numbers(c.from) else if l == c.level + 1 then Numbers(c.into) else {}
  {
    var e := CompactionChanges(c, outputs);
    if l == c.level {
      forall n | n in Numbers(c.from) ensures n in DeletedAt(e, l) {
        assert Deleted(l, n) in e.deleted;
      }
    } else if l == c.level + 1 {
      forall n | n in Numbers(c.into) ensures n in DeletedAt(e, l) {
        assert Deleted(l, n) in e.deleted;
      }
    }
  }

  lemma NumbersInLevel(w: Version, c: Inputs, outputs: seq<File>, l: nat, f: File)
    requires NumbersIdentify(w) && InputsPresent(w, c) && FreshOutputs(w, c, outputs) && l < |w| && f in w[l]
    ensures l == c.level ==> (f.number in Numbers(c.from) <==> f in c.from)
    ensures l == c.level + 1 ==> (f.number in Numbers(c.into) - Numbers(outputs) <==> f in c.into)
  {
  }

  lemma ApplyLevelIs(files: seq<File>, e: FileChanges, l: nat, deleted: set<nat>, added: seq<File>)
    requires DeletedAt(e, l) == deleted && AddedFiles(e.added, l) == added
    ensures ApplyLevel(files, e, l) == InsertAll(Remove(files, deleted - Numbers(added)), added)
  {
  }

  /** The level as the builder leaves it: filtered, then filled up with the outputs. */
  lemma LevelAfter(w: Version, c: Inputs, outputs: seq<File>, l: nat)
    requires l < |w|
    ensures ApplyLevel(w[l], CompactionChanges(c, outputs), l) ==
            if l == c.level + 1 then InsertAll(Remove(w[l], Gone(c, outputs, l)), outputs) else Remove(w[l], Gone(c, outputs, l))
  {
    DeletedNumbers(c, outputs, l);
    AddedAt(c.level + 1, outputs, l);
    if l == c.level + 1 {
      ApplyLevelIs(w[l], CompactionChanges(c, outputs), l, Numbers(c.into), outputs);
    } else {
      var deleted := if l == c.level then Numbers(c.from) else {};
      ApplyLevelIs(w[l], CompactionChanges(c, outputs), l, deleted, []);
      assert deleted - Numbers([]) == deleted;
    }
  }

  ghost function Gone(c: Inputs, outputs: seq<File>, l: nat): set<nat> {
    if l == c.level then Numbers(c.from) else if l == c.level + 1 then Numbers(c.into) - Numbers(outputs) else {}
  }

  lemma FilesAfterChange(w: Version, c: Inputs, outputs: seq<File>)
    requires NumbersIdentify(w) && InputsPresent(w, c) && FreshOutputs(w, c, outputs)
    ensures FilesAfter(w, ApplyEdit(w, CompactionChanges(c, outputs)), c, outputs)
  {
    var w' := ApplyEdit(w, CompactionChanges(c, outputs));
    forall l, f: File | 0 <= l < |w|
      ensures f in w'[l] <==> Stays(w, c, l, f) || (l == c.level + 1 && f in outputs)
    {
      LevelAfter(w, c, outputs, l);
      var gone := Gone(c, outputs, l);
      RemoveMembers(w[l], gone);
      InsertAllMembers(Remove(w[l], gone), outputs);
      if f in w[l] {
        NumbersInLevel(w, c, outputs, l, f);
      }
    }
  }

  /** Every output precedes or follows every file of the output level that stays. */
  ghost predicate OutputsApart(w: Version, c: Inputs, outputs: seq<File>)
    requires c.level + 1 < |w|
  {
    forall o, g :: o in outputs && g in w[c.level + 1] && g !in c.into ==> Precedes(o, g) || Precedes(g, o)
  }

  /** Files before or behind all inputs are before or behind every output. */
  lemma ClearOutputsApart(w: Version, c: Inputs, outputs: seq<File>)
    requires c.level + 1 < |w| && Contents(outputs) <= InputEntries(c)
    requires forall g :: g in w[c.level + 1] && g !in c.into ==> Clear(g, c)
    ensures OutputsApart(w, c, outputs)
  {
    forall o, g | o in outputs && g in w[c.level + 1] && g !in c.into ensures Precedes(o, g) || Precedes(g, o) {
      var first, last := o.entries[0], o.entries[|o.entries| - 1];
      InContents(outputs, o, first);
      InContents(outputs, o, last);
      assert Clear(g, c);
    }
  }

  ghost function Staying(w: Version, c: Inputs, outputs: seq<File>): seq<File>
    requires c.level + 1 < |w|
  {
    Remove(w[c.level + 1], Gone(c, outputs, c.level + 1))
  }

  lemma StayingFiles(w: Version, c: Inputs, outputs: seq<File>, g: File)
    requires NumbersIdentify(w) && InputsPresent(w, c) && FreshOutputs(w, c, outputs)
    ensures g in Staying(w, c, outputs) <==> g in w[c.level + 1] && g !in c.into
  {
    RemoveMembers(w[c.level + 1], Gone(c, outputs, c.level + 1));
    if g in w[c.level + 1] {
      NumbersInLevel(w, c, outputs, c.level + 1, g);
    }
  }

  /** The output level stays sorted and disjoint if and only if every output precedes or follows every file that stays. */
  lemma OutputLevelSortedIff(w: Version, c: Inputs, outputs: seq<File>)
    requires NumbersIdentify(w) && InputsPresent(w, c) && FreshOutputs(w, c, outputs)
    requires SortedDisjoint(outputs) && SortedDisjoint(w[c.level + 1])
    ensures SortedDisjoint(InsertAll(Staying(w, c, outputs), outputs)) <==> OutputsApart(w, c, outputs)
  {
    var stay := Staying(w, c, outputs);
    RemoveSortedDisjoint(w[c.level + 1], Gone(c, outputs, c.level + 1));
    if OutputsApart(w, c, outputs) {
      forall f, g | f in outputs && g in stay ensures Precedes(f, g) || Precedes(g, f) {
        StayingFiles(w, c, outputs, g);
      }
      InsertAllSortedDisjoint(stay, outputs);
    }
    if SortedDisjoint(InsertAll(stay, outputs)) {
      InsertAllMembers(stay, outputs);
      forall o, g | o in outputs && g in w[c.level + 1] && g !in c.into ensures Precedes(o, g) || Precedes(g, o) {
        StayingFiles(w, c, outputs, g);
        OutputIsNew(w, c, outputs, o, g);
        Comparable(InsertAll(stay, outputs), o, g);
      }
    }
  }

  lemma OutputIsNew(w: Version, c: Inputs, outputs: seq<File>, o: File, g: File)
    requires FreshOutputs(w, c, outputs) && o in outputs && c.level + 1 < |w| && g in w[c.level + 1]
    ensures o != g
  {
  }

  lemma SortedAfter(w: Version, c: Inputs, outputs: seq<File>, l: nat)
    requires NumbersIdentify(w) && InputsPresent(w, c) && FreshOutputs(w, c, outputs) && l < |w|
    requires OutputsApart(w, c, outputs) && SortedDisjoint(outputs)
    requires SortedDisjoint(w[l])
    ensures SortedDisjoint(ApplyLevel(w[l], CompactionChanges(c, outputs), l))
  {
    LevelAfter(w, c, outputs, l);
    if l == c.level + 1 {
      OutputLevelSortedIff(w, c, outputs);
    } else {
      RemoveSortedDisjoint(w[l], Gone(c, outputs, l));
    }
  }

  lemma LevelZeroAfter(w: Version, c: Inputs, outputs: seq<File>)
    requires NumbersIdentify(w) && InputsPresent(w, c) && FreshOutputs(w, c, outputs)
    requires NumberedByAge(w[0])
    ensures var files := ApplyLevel(w[0], CompactionChanges(c, outputs), 0);
            NumberedByAge(files) && (KeySorted(w[0]) ==> KeySorted(files))
  {
    LevelAfter(w, c, outputs, 0);
    var gone := Gone(c, outputs, 0);
    RemoveMembers(w[0], gone);
    RemoveDistinctNumbers(w[0], gone);
    if KeySorted(w[0]) {
      RemoveKeySorted(w[0], gone);
    }
  }

  // ---------------------------------------------------------------------------------------------
  // The version invariant after a compaction or a trivial move
  // ---------------------------------------------------------------------------------------------

  /** Where an entry of the new version was before. */
  lemma Origin(w: Version, w': Version, c: Inputs, outputs: seq<File>, l: nat, e: Entry)
    requires InputsPresent(w, c) && FilesAfter(w, w', c, outputs) && Contents(outputs) <= InputEntries(c) && l < |w|
    requires e in Contents(w'[l])
    ensures || (exists f :: Stays(w, c, l, f) && e in f.entries)
            || (l == c.level + 1 && (e in Contents(c.from) || e in Contents(c.into)))
  {
    var f :| f in w'[l] && e in f.entries;
    if !Stays(w, c, l, f) {
      InContents(outputs, f, e);
    }
  }

  lemma SubsetContents(some: seq<File>, files: seq<File>)
    requires Subset(some, files)
    ensures Contents(some) <= Contents(files)
  {
  }

  lemma LayeredAfter(w: Version, w': Version, c: Inputs, outputs: seq<File>, l: nat, m: nat, a: Entry, b: Entry)
    requires LevelsLayered(w) && InputsPresent(w, c) && LeftNewer(w, c)
    requires FilesAfter(w, w', c, outputs) && Contents(outputs) <= InputEntries(c)
    requires l < m < |w| && a in Contents(w'[l]) && b in Contents(w'[m]) && a.user == b.user
    ensures a.seqno > b.seqno
  {
    Origin(w, w', c, outputs, l, a);
    Origin(w, w', c, outputs, m, b);
    SubsetContents(c.from, w[c.level]);
    SubsetContents(c.into, w[c.level + 1]);
    var l0 := if a in Contents(w[l]) then l else c.level;
    var m0 := if b in Contents(w[m]) then m else c.level;
    if l0 < m0 {
      assert Layered(Contents(w[l0]), Contents(w[m0]));
    } else {
      var f :| Stays(w, c, l, f) && a in f.entries;
      assert Layered(Elems(f.entries), Contents(c.from)) && a in Elems(f.entries);
    }
  }

  lemma NumbersAfter(w: Version, w': Version, c: Inputs, outputs: seq<File>)
    requires NumbersIdentify(w) && FreshOutputs(w, c, outputs) && FilesAfter(w, w', c, outputs)
    ensures NumbersIdentify(w')
  {
    forall l, m, f: File, g: File | 0 <= l < |w'| && 0 <= m < |w'| && f in w'[l] && g in w'[m] && f.number == g.number
      ensures l == m && f == g
    {
      if f in outputs && g in outputs {
        var i :| 0 <= i < |outputs| && outputs[i] == f;
        var j :| 0 <= j < |outputs| && outputs[j] == g;
        assert !(i < j) && !(j < i);
      }
      assert Stays(w, c, l, f) || f in outputs;
      assert Stays(w, c, m, g) || g in outputs;
    }
  }

  lemma LayersAfter(w: Version, w': Version, c: Inputs, outputs: seq<File>)
    requires LevelsLayered(w) && InputsPresent(w, c) && LeftNewer(w, c)
    requires FilesAfter(w, w', c, outputs) && Contents(outputs) <= InputEntries(c)
    ensures LevelsLayered(w')
  {
    forall l, m, a, b | 0 <= l < m < |w'| && a in Contents(w'[l]) && b in Contents(w'[m]) && a.user == b.user
      ensures a.seqno > b.seqno
    {
      LayeredAfter(w, w', c, outputs, l, m, a, b);
    }
  }

  lemma LevelsAfter(w: Version, c: Inputs, outputs: seq<File>)
    requires SortedLevels(w) && NumbersIdentify(w) && InputsPresent(w, c) && OutputsApart(w, c, outputs)
    requires FreshOutputs(w, c, outputs) && SortedDisjoint(outputs)
    ensures SortedLevels(ApplyEdit(w, CompactionChanges(c, outputs)))
  {
    forall l | 1 <= l < |w| ensures SortedDisjoint(ApplyLevel(w[l], CompactionChanges(c, outputs), l)) {
      SortedAfter(w, c, outputs, l);
    }
  }

  /** Below level 0 every level stays sorted and disjoint if and only if the outputs keep clear of the files that stay. */
  lemma SortedLevelsAfterIff(w: Version, c: Inputs, outputs: seq<File>)
    requires SortedLevels(w) && NumbersIdentify(w) && InputsPresent(w, c)
    requires FreshOutputs(w, c, outputs) && SortedDisjoint(outputs)
    ensures SortedLevels(ApplyEdit(w, CompactionChanges(c, outputs))) <==> OutputsApart(w, c, outputs)
  {
    var w' := ApplyEdit(w, CompactionChanges(c, outputs));
    if OutputsApart(w, c, outputs) {
      LevelsAfter(w, c, outputs);
    }
    assert SortedDisjoint(w[c.level + 1]);
    OutputLevelSortedIff(w, c, outputs);
    LevelAfter(w, c, outputs, c.level + 1);
    assert w'[c.level + 1] == ApplyLevel(w[c.level + 1], CompactionChanges(c, outputs), c.level + 1);
  }

  /** A compaction or a trivial move keeps the version invariant. */
  lemma CompactionKeepsValid(w: Version, c: Inputs, outputs: seq<File>)
    requires ValidVersion(w) && NumbersIdentify(w) && Installable(w, c) && OutputsApart(w, c, outputs)
    requires FreshOutputs(w, c, outputs) && SortedDisjoint(outputs) && Contents(outputs) <= InputEntries(c)
    ensures ValidVersion(ApplyEdit(w, CompactionChanges(c, outputs)))
    ensures NumbersIdentify(ApplyEdit(w, CompactionChanges(c, outputs)))
    ensures KeySorted(w[0]) ==> KeySorted(ApplyEdit(w, CompactionChanges(c, outputs))[0])
    ensures FilesAfter(w, ApplyEdit(w, CompactionChanges(c, outputs)), c, outputs)
  {
    var w' := ApplyEdit(w, CompactionChanges(c, outputs));
    FilesAfterChange(w, c, outputs);
    LevelsAfter(w, c, outputs);
    LevelZeroAfter(w, c, outputs);
    LayersAfter(w, w', c, outputs);
    NumbersAfter(w, w', c, outputs);
  }

  // ---------------------------------------------------------------------------------------------
  // What is read after a compaction
  // ---------------------------------------------------------------------------------------------

  /** The entries of files that do not take part. */
  ghost function Rest(w: Version, c: Inputs): set<Entry> {
    set l, f, e | 0 <= l < |w| && f in w[l] && Stays(w, c, l, f) && e in f.entries :: e
  }

  lemma InAllContents(w: Version, l: nat, f: File, e: Entry)
    requires l < |w| && f in w[l] && e in f.entries
    ensures e in AllContents(w)
  {
    InContents(w[l], f, e);
  }

  lemma ContentsBefore(w: Version, c: Inputs)
    requires InputsPresent(w, c)
    ensures AllContents(w) == Rest(w, c) + InputEntries(c)
  {
    forall e | e in AllContents(w) ensures e in Rest(w, c) + InputEntries(c) {
      var l :| 0 <= l < |w| && e in Contents(w[l]);
      var f :| f in w[l] && e in f.entries;
      if !Stays(w, c, l, f) {
        assert e in InputEntries(c);
      }
    }
    forall e | e in InputEntries(c) ensures e in AllContents(w) {
      if e in Contents(c.from) {
        var f :| f in c.from && e in f.entries;
        InAllContents(w, c.level, f, e);
      } else {
        var f :| f in c.into && e in f.entries;
        InAllContents(w, c.level + 1, f, e);
      }
    }
    forall e | e in Rest(w, c) ensures e in AllContents(w) {
      var l, f :| 0 <= l < |w| && f in w[l] && Stays(w, c, l, f) && e in f.entries;
      InAllContents(w, l, f, e);
    }
  }

  lemma ContentsAfter(w: Version, w': Version, c: Inputs, outputs: seq<File>)
    requires c.level + 1 < |w| && FilesAfter(w, w', c, outputs)
    ensures AllContents(w') == Rest(w, c) + Contents(outputs)
  {
    forall e | e in AllContents(w') ensures e in Rest(w, c) + Contents(outputs) {
      var l :| 0 <= l < |w'| && e in Contents(w'[l]);
      var f: File :| f in w'[l] && e in f.entries;
      assert Stays(w, c, l, f) || f in outputs;
    }
    forall e | e in Rest(w, c) ensures e in AllContents(w') {
      var l, f :| 0 <= l < |w| && f in w[l] && Stays(w, c, l, f) && e in f.entries;
      InAllContents(w', l, f, e);
    }
    forall e | e in Contents(outputs) ensures e in AllContents(w') {
      var f :| f in outputs && e in f.entries;
      InAllContents(w', c.level + 1, f, e);
    }
  }

  /** The test on the version the inputs were chosen from also holds of the version installed into. */
  ghost predicate BaseStillHolds(v: Version, w: Version, c: Inputs) {
    forall x, l, e :: x in InputEntries(c) && BaseLevel(v, c.level, x.user) && c.level + 2 <= l < |w| && e in Contents(w[l]) ==>
        e.user != x.user
  }

  lemma BaseHoldsAtFirst(v: Version, c: Inputs)
    ensures BaseStillHolds(v, v, c)
  {
    forall x, l, e | x in InputEntries(c) && BaseLevel(v, c.level, x.user) && c.level + 2 <= l < |v| && e in Contents(v[l])
      ensures e.user != x.user
    {
      var f :| f in v[l] && e in f.entries;
      var i :| 0 <= i < |v[l]| && v[l][i] == f;
      FileRange(f, e);
    }
  }

  /** A left-out next-level file that starts with older entries of the last key of an input. */
  ghost predicate BoundaryLeftOut(w: Version, c: Inputs, f: File, g: File)
    requires c.level + 1 < |w|
  {
    f in c.into && g in w[c.level + 1] && g !in c.into && BoundaryOf(f, g)
  }

  ghost predicate NothingLeftOut(w: Version, c: Inputs)
    requires c.level + 1 < |w|
  {
    forall f, g :: !BoundaryLeftOut(w, c, f, g)
  }

  /** A deleted key can only reappear out of a boundary file that was left out of the next level. */
  lemma ResurrectionNeedsBoundary(v: Version, w: Version, c: Inputs, above: set<Entry>, snap: Seqno, u: UserKey)
    returns (f: File, g: File)
    requires ValidVersion(w) && Installable(w, c) && BaseStillHolds(v, w, c)
    requires Layered(above, AllContents(w)) && UniqueSeqnos(above + AllContents(w))
    requires Resurrects(v, c.level, above + Rest(w, c), InputEntries(c), snap, u)
    ensures BoundaryLeftOut(w, c, f, g) && f.Largest().user == u
  {
    var R := above + Rest(w, c);
    var m, prior :| m in InputEntries(c) && Newest(R + InputEntries(c), u, snap, Hit(m)) && Obsolete(v, c.level, m, snap) &&
                    Newest(R, u, m.seqno, Hit(prior)) && prior.kind.Value?;
    f, g := PriorIsInFile(v, w, c, above, m, prior);
  }

  lemma PriorIsInFile(v: Version, w: Version, c: Inputs, above: set<Entry>, m: Entry, prior: Entry) returns (f: File, g: File)
    requires ValidVersion(w) && Installable(w, c) && BaseStillHolds(v, w, c)
    requires Layered(above, AllContents(w)) && UniqueSeqnos(above + AllContents(w))
    requires m in InputEntries(c) && BaseLevel(v, c.level, m.user) && m.kind != prior.kind
    requires prior in above + Rest(w, c) && prior.user == m.user && prior.seqno <= m.seqno
    ensures BoundaryLeftOut(w, c, f, g) && f.Largest().user == m.user && prior in g.entries
  {
    ContentsBefore(w, c);
    assert m in AllContents(w) && prior !in above;
    var l, h :| 0 <= l < |w| && h in w[l] && Stays(w, c, l, h) && prior in h.entries;
    g := h;
    f := PriorIsNextLevel(v, w, c, m, prior, l, g);
  }

  lemma PriorIsNextLevel(v: Version, w: Version, c: Inputs, m: Entry, prior: Entry, l: nat, g: File) returns (f: File)
    requires ValidVersion(w) && Installable(w, c) && BaseStillHolds(v, w, c)
    requires m in InputEntries(c) && BaseLevel(v, c.level, m.user)
    requires prior.user == m.user && prior.seqno < m.seqno
    requires l < |w| && Stays(w, c, l, g) && prior in g.entries
    ensures BoundaryLeftOut(w, c, f, g) && f.Largest().user == m.user
  {
    if m in Contents(c.from) {
      UpperMarkerHidesNothing(v, w, c, m, prior, l, g);
    } else {
      f :| f in c.into && m in f.entries;
      InContents(w[c.level + 1], f, m);
      InContents(w[l], g, prior);
      assert l < c.level + 1 ==> Layered(Contents(w[l]), Contents(w[c.level + 1]));
      if l == c.level + 1 {
        BoundaryBetween(w[l], f, g, m, prior);
      }
    }
  }

  lemma BoundaryBetween(files: seq<File>, f: File, g: File, m: Entry, prior: Entry)
    requires SortedDisjoint(files) && f in files && g in files && f != g
    requires m in f.entries && prior in g.entries && prior.user == m.user && prior.seqno < m.seqno
    ensures BoundaryOf(f, g) && f.Largest().user == m.user
  {
    FileRange(f, m);
    FileRange(g, prior);
    Comparable(files, f, g);
    if Precedes(g, f) {
      PrecedesEntries(g, f, prior, m);
    }
  }

  /** Entries outside the compaction are newer than a marker of the upper of its two levels. */
  lemma UpperMarkerHidesNothing(v: Version, w: Version, c: Inputs, m: Entry, prior: Entry, l: nat, g: File)
    requires LevelsLayered(w) && Installable(w, c) && BaseStillHolds(v, w, c)
    requires m in Contents(c.from) && BaseLevel(v, c.level, m.user)
    requires l < |w| && Stays(w, c, l, g) && prior in g.entries && prior.user == m.user
    ensures prior.seqno > m.seqno
  {
    SubsetContents(c.from, w[c.level]);
    InContents(w[l], g, prior);
    FileRange(g, prior);
    assert m in InputEntries(c) && prior in Elems(g.entries);
    if l < c.level {
      assert Layered(Contents(w[l]), Contents(w[c.level]));
    } else if l == c.level {
      assert Layered(Elems(g.entries), Contents(c.from));
    }
  }
}
