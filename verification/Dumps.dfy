/** Adding a dumped memtable to a version, also while a compaction is running. */
module Dumps {
  import opened InternalKeys
  import opened Versions
  import opened VersionEdits
  import opened InputSelection
  import opened CompactionInputs
  import opened DropRules
  import opened Compactions

  function DumpChanges(level: nat, f: File): FileChanges {
    FileChanges({}, [Added(level, f)])
  }

  /** No file of level `l` shares the user-key range of `f`. */
  ghost predicate Free(w: Version, l: nat, f: File)
    requires l < |w|
  {
    forall g :: g in w[l] ==> !Overlap(f, g)
  }

  /** What is known of a dump: newer than everything in the version, and placed where the picker allows. */
  ghost predicate MayDump(w: Version, level: nat, f: File) {
    && level < |w|
    && Layered(Elems(f.entries), AllContents(w))
    && (forall l, g :: 0 <= l < |w| && g in w[l] ==> g.number < f.number)
    && (level > 0 ==> forall l :: 0 <= l <= level ==> Free(w, l, f))
  }

  lemma PickedLevelIsFree(w: Version, level: nat, f: File)
    requires level < |w|
    requires level > 0 ==> forall l :: 0 <= l <= level ==> !Overlapped(w, l, f.Smallest().user, f.Largest().user)
    ensures level > 0 ==> forall l :: 0 <= l <= level ==> Free(w, l, f)
  {
    if level > 0 {
      forall l, g | 0 <= l <= level && g in w[l] ensures !Overlap(f, g) {
        assert !Overlapped(w, l, f.Smallest().user, f.Largest().user);
        assert !Meets(g, At(f.Smallest().user), At(f.Largest().user));
      }
    }
  }

  // ---------------------------------------------------------------------------------------------
  // The version invariant after a dump
  // ---------------------------------------------------------------------------------------------

  lemma {:induction false} RemoveNothing(files: seq<File>)
    ensures Remove(files, {}) == files
    decreases |files|
  {
    if files != [] {
      RemoveNothing(files[..|files| - 1]);
    }
  }

  lemma DumpLevel(w: Version, level: nat, f: File, l: nat)
    requires l < |w|
    ensures ApplyLevel(w[l], DumpChanges(level, f), l) == if l == level then Insert(w[l], f) else w[l]
  {
    RemoveNothing(w[l]);
    assert DumpChanges(level, f).added == AddAt(level, [f]);
    AddedAt(level, [f], l);
    var added := if l == level then [f] else [];
    ApplyLevelIs(w[l], DumpChanges(level, f), l, {}, added);
    assert {} - Numbers(added) == {};
    assert InsertAll(w[l], added[..0]) == w[l];
  }

  /** What the levels hold after the dump. */
  ghost predicate FilesAfterDump(w: Version, w': Version, level: nat, f: File) {
    |w'| == |w| && forall l, g :: 0 <= l < |w| ==> (g in w'[l] <==> g in w[l] || (l == level && g == f))
  }

  lemma DumpFiles(w: Version, level: nat, f: File)
    ensures FilesAfterDump(w, ApplyEdit(w, DumpChanges(level, f)), level, f)
  {
    forall l, g: File | 0 <= l < |w|
      ensures g in ApplyEdit(w, DumpChanges(level, f))[l] <==> g in w[l] || (l == level && g == f)
    {
      DumpLevel(w, level, f, l);
      InsertMembers(w[l], f);
    }
  }

  lemma FreeIsDisjoint(files: seq<File>, f: File)
    requires forall g :: g in files ==> !Overlap(f, g)
    ensures forall g :: g in files ==> Precedes(f, g) || Precedes(g, f)
  {
  }

  lemma DumpLevelZero(files: seq<File>, f: File)
    requires NumberedByAge(files)
    requires forall g :: g in files ==> g.number < f.number && Layered(Elems(f.entries), Elems(g.entries))
    ensures NumberedByAge(Insert(files, f))
    ensures KeySorted(files) ==> KeySorted(Insert(files, f))
  {
    InsertMembers(files, f);
    InsertDistinctNumbers(files, f);
    if KeySorted(files) {
      InsertKeySorted(files, f);
    }
  }

  lemma DumpSorted(w: Version, level: nat, f: File)
    requires SortedLevels(w) && MayDump(w, level, f)
    ensures SortedLevels(ApplyEdit(w, DumpChanges(level, f)))
  {
    forall l | 1 <= l < |w| ensures SortedDisjoint(ApplyLevel(w[l], DumpChanges(level, f), l)) {
      DumpLevel(w, level, f, l);
      if l == level {
        assert Free(w, l, f);
        FreeIsDisjoint(w[l], f);
        InsertSortedDisjoint(w[l], f);
      }
    }
  }

  lemma DumpLayered(w: Version, w': Version, level: nat, f: File)
    requires LevelsLayered(w) && MayDump(w, level, f) && FilesAfterDump(w, w', level, f)
    ensures LevelsLayered(w')
  {
    forall l, m, a, b | 0 <= l < m < |w'| && a in Contents(w'[l]) && b in Contents(w'[m]) && a.user == b.user
      ensures a.seqno > b.seqno
    {
      var g: File :| g in w'[l] && a in g.entries;
      var h: File :| h in w'[m] && b in h.entries;
      FileRange(g, a);
      FileRange(h, b);
      assert m == level ==> Free(w, l, f);
      if g in w[l] && h in w[m] {
        InContents(w[l], g, a);
        InContents(w[m], h, b);
      } else if g !in w[l] {
        assert m != level;
        InAllContents(w, m, h, b);
        assert a in Elems(f.entries);
      }
    }
  }

  lemma DumpNumbers(w: Version, w': Version, level: nat, f: File)
    requires NumbersIdentify(w) && MayDump(w, level, f) && FilesAfterDump(w, w', level, f)
    ensures NumbersIdentify(w')
  {
  }

  /** A dump keeps the version invariant. */
  lemma DumpKeepsValid(w: Version, level: nat, f: File)
    requires ValidVersion(w) && NumbersIdentify(w) && MayDump(w, level, f)
    ensures ValidVersion(ApplyEdit(w, DumpChanges(level, f)))
    ensures NumbersIdentify(ApplyEdit(w, DumpChanges(level, f)))
    ensures KeySorted(w[0]) ==> KeySorted(ApplyEdit(w, DumpChanges(level, f))[0])
    ensures FilesAfterDump(w, ApplyEdit(w, DumpChanges(level, f)), level, f)
  {
    var w' := ApplyEdit(w, DumpChanges(level, f));
    DumpFiles(w, level, f);
    DumpSorted(w, level, f);
    DumpLevel(w, level, f, 0);
    forall g | g in w[0] ensures Layered(Elems(f.entries), Elems(g.entries)) {
      forall b | b in g.entries ensures b in AllContents(w) {
        InAllContents(w, 0, g, b);
      }
    }
    DumpLevelZero(w[0], f);
    DumpLayered(w, w', level, f);
    DumpNumbers(w, w', level, f);
  }

  lemma DumpContents(w: Version, w': Version, level: nat, f: File)
    requires level < |w| && FilesAfterDump(w, w', level, f)
    ensures AllContents(w') == AllContents(w) + Elems(f.entries)
  {
    forall e | e in AllContents(w') ensures e in AllContents(w) + Elems(f.entries) {
      var l :| 0 <= l < |w'| && e in Contents(w'[l]);
      var g: File :| g in w'[l] && e in g.entries;
      if g in w[l] {
        InAllContents(w, l, g, e);
      }
    }
    forall e | e in AllContents(w) + Elems(f.entries) ensures e in AllContents(w') {
      if e in AllContents(w) {
        var l :| 0 <= l < |w| && e in Contents(w[l]);
        var g :| g in w[l] && e in g.entries;
        InAllContents(w', l, g, e);
      } else {
        InAllContents(w', level, f, e);
      }
    }
  }

  // ---------------------------------------------------------------------------------------------
  // A dump in the middle of a compaction
  // ---------------------------------------------------------------------------------------------

  /** A file that overlaps no input of a connected run of inputs lies outside the whole run. */
  lemma OutsideConnectedRun(c: Inputs, f: File)
    requires HullCovered(c.from + c.into)
    requires forall g :: g in c.from + c.into ==> !Overlap(f, g)
    ensures Clear(f, c)
  {
    var all := c.from + c.into;
    var start := f.Smallest().user;
    KeysOrdered(f);
    assert !Covered(all, start);
    forall e1, e2 | e1 in InputEntries(c) && e2 in InputEntries(c)
      ensures Less(e1.Key(), f.Smallest()) || Less(f.Largest(), e2.Key())
    {
      var g1 := Holder(c, e1);
      var g2 := Holder(c, e2);
      FileRange(g1, e1);
      FileRange(g2, e2);
      assert !(g2.Smallest().user <= start <= g1.Largest().user);
    }
  }

  lemma Holder(c: Inputs, e: Entry) returns (g: File)
    requires e in InputEntries(c)
    ensures g in c.from + c.into && e in g.entries
  {
    if e in Contents(c.from) {
      g :| g in c.from && e in g.entries;
    } else {
      g :| g in c.into && e in g.entries;
    }
  }

  lemma DumpKeepsLeftNewer(w: Version, w': Version, c: Inputs, level: nat, f: File)
    requires InputsPresent(w, c) && LeftNewer(w, c)
    requires Layered(Elems(f.entries), AllContents(w)) && FilesAfterDump(w, w', level, f)
    ensures LeftNewer(w', c)
  {
    forall g: File | g in w'[c.level] && g !in c.from ensures Layered(Elems(g.entries), Contents(c.from)) {
      if g !in w[c.level] {
        SubsetContents(c.from, w[c.level]);
        assert Contents(w[c.level]) <= AllContents(w);
      }
    }
  }

  lemma DumpedAside(w: Version, c: Inputs, f: File)
    requires InputsPresent(w, c) && Free(w, c.level, f) && Free(w, c.level + 1, f)
    ensures Aside(f, c)
  {
    forall g | g in c.from + c.into ensures !Overlap(f, g) {
      assert g in w[c.level] || g in w[c.level + 1];
    }
  }

  lemma DumpKeepsLeftApart(w: Version, w': Version, c: Inputs, level: nat, f: File)
    requires InputsPresent(w, c) && LeftAside(w, c) && LeftApart(w, c) && FilesAfterDump(w, w', level, f)
    requires level == c.level + 1 ==> Free(w, c.level, f) && Free(w, c.level + 1, f)
    ensures LeftAside(w', c) && LeftApart(w', c)
  {
    if level == c.level + 1 {
      DumpedAside(w, c, f);
    }
    forall g: File, e | g in w'[c.level + 1] && g !in c.into && e in Contents(c.from) ensures !g.Spans(e.user) {
      if g !in w[c.level + 1] {
        NotShared(c.from, f, e);
      }
    }
  }

  lemma DumpKeepsBase(v: Version, w: Version, w': Version, c: Inputs, level: nat, f: File)
    requires InputsPresent(w, c) && BaseStillHolds(v, w, c) && FilesAfterDump(w, w', level, f)
    requires level >= c.level + 2 ==> Free(w, c.level, f) && Free(w, c.level + 1, f)
    ensures BaseStillHolds(v, w', c)
  {
    forall x, l, e | x in InputEntries(c) && BaseLevel(v, c.level, x.user) && c.level + 2 <= l < |w'| && e in Contents(w'[l])
      ensures e.user != x.user
    {
      var g: File :| g in w'[l] && e in g.entries;
      if g in w[l] {
        InContents(w[l], g, e);
      } else {
        FileRange(f, e);
        NotShared(if x in Contents(c.from) then c.from else c.into, f, x);
      }
    }
  }

  /** A dump leaves the inputs of a running compaction in place, and what it adds shares no user key with them. */
  lemma DumpKeepsInstallable(v: Version, w: Version, w': Version, c: Inputs, level: nat, f: File)
    requires Installable(w, c) && BaseStillHolds(v, w, c)
    requires MayDump(w, level, f) && FilesAfterDump(w, w', level, f)
    ensures Installable(w', c) && BaseStillHolds(v, w', c)
  {
    DumpKeepsLeftNewer(w, w', c, level, f);
    DumpKeepsLeftApart(w, w', c, level, f);
    DumpKeepsBase(v, w, w', c, level, f);
  }

  /** The inputs of an automatic compaction form one run: whatever was dumped meanwhile is before or behind all of it. */
  lemma ConnectedOutputsApart(w: Version, c: Inputs, outputs: seq<File>)
    requires c.level + 1 < |w| && LeftAside(w, c) && HullCovered(c.from + c.into) && Contents(outputs) <= InputEntries(c)
    ensures OutputsApart(w, c, outputs)
  {
    forall g | g in w[c.level + 1] && g !in c.into ensures Clear(g, c) {
      if Aside(g, c) {
        OutsideConnectedRun(c, g);
      }
    }
    ClearOutputsApart(w, c, outputs);
  }

  lemma NotShared(files: seq<File>, f: File, e: Entry)
    requires e in Contents(files)
    requires forall g :: g in files ==> !Overlap(f, g)
    ensures !f.Spans(e.user)
  {
    var g :| g in files && e in g.entries;
    FileRange(g, e);
  }
}
