/** Choosing the files of one compaction: boundary files, the files of the next level, and expansion. */
module CompactionInputs {
  import opened InternalKeys
  import opened Versions
  import opened InputSelection

  /** The files of one compaction: `from` at `level` and `into` at `level + 1`. */
  datatype Inputs = Inputs(level: nat, from: seq<File>, into: seq<File>)

  ghost predicate Subset(chosen: seq<File>, files: seq<File>) {
    forall f :: f in chosen ==> f in files
  }

  /** `g` starts right behind `f` with older entries of the last user key of `f`. */
  ghost predicate BoundaryOf(f: File, g: File) {
    Precedes(f, g) && f.Largest().user == g.Smallest().user
  }

  /** No boundary file of any chosen file is left out. */
  ghost predicate BoundaryClosed(files: seq<File>, chosen: seq<File>) {
    forall f, g :: f in chosen && g in files && BoundaryOf(f, g) ==> g in chosen
  }

  /** No file between two chosen ones is left out. */
  ghost predicate Convex(files: seq<File>, chosen: seq<File>) {
    forall f, g, h :: f in chosen && h in chosen && g in files && Precedes(f, g) && Precedes(g, h) ==> g in chosen
  }

  ghost predicate ClosedUnderOverlap(files: seq<File>, chosen: seq<File>) {
    forall f, g :: f in files && g in chosen && Overlap(f, g) ==> f in chosen
  }

  /** Every user key between the ends of the files is spanned by one of them. */
  ghost predicate HullCovered(files: seq<File>) {
    forall u: UserKey, f, g :: f in files && g in files && f.Smallest().user <= u <= g.Largest().user ==> Covered(files, u)
  }

  /** The user-key range of `g` meets the range from the first to the last user key of `files`. */
  ghost predicate MeetsHull(g: File, files: seq<File>) {
    && (exists f :: f in files && f.Smallest().user <= g.Largest().user)
    && (exists f :: f in files && g.Smallest().user <= f.Largest().user)
  }

  /** What the reads after the compaction rely on. */
  ghost predicate WellChosen(v: Version, c: Inputs) {
    && c.level + 1 < |v| && c.from != []
    && Subset(c.from, v[c.level]) && Subset(c.into, v[c.level + 1])
    && (forall g :: g in v[c.level + 1] ==> (g in c.into <==> MeetsHull(g, c.from)))
    && (c.level == 0 ==> ClosedUnderOverlap(v[0], c.from))
    && (c.level >= 1 ==> BoundaryClosed(v[c.level], c.from))
  }

  lemma Comparable(files: seq<File>, f: File, g: File)
    requires SortedDisjoint(files) && f in files && g in files && f != g
    ensures Precedes(f, g) || Precedes(g, f)
    ensures !(Precedes(f, g) && Precedes(g, f))
  {
    var i :| 0 <= i < |files| && files[i] == f;
    var j :| 0 <= j < |files| && files[j] == g;
    KeysOrdered(f);
    KeysOrdered(g);
  }

  lemma KeysOrdered(f: File)
    ensures !Less(f.Largest(), f.Smallest())
    ensures f.Smallest().user <= f.Largest().user
  {
    FileRange(f, f.entries[0]);
  }

  // ---------------------------------------------------------------------------------------------
  // AddBoundaryInputs
  // ---------------------------------------------------------------------------------------------

  ghost predicate IsTop(files: seq<File>, top: File) {
    top in files && forall f :: f in files ==> !Less(top.Largest(), f.Largest())
  }

  method FindLargestKey(files: seq<File>) returns (largest: InternalKey, ghost top: File)
    requires files != []
    ensures IsTop(files, top) && largest == top.Largest()
  {
    largest, top := files[0].Largest(), files[0];
    for i := 1 to |files|
      invariant top in files && largest == top.Largest()
      invariant forall k :: 0 <= k < i ==> !Less(largest, files[k].Largest())
    {
      if Less(largest, files[i].Largest()) {
        largest, top := files[i].Largest(), files[i];
      }
    }
  }

  predicate StartsBehind(f: File, largest: InternalKey) {
    Less(largest, f.Smallest()) && f.Smallest().user == largest.user
  }

  datatype MaybeFile = NoFile | SomeFile(file: File)

  /** The first file behind `largest` that still holds its user key. */
  method FindSmallestBoundaryFile(files: seq<File>, largest: InternalKey) returns (b: MaybeFile)
    ensures b.NoFile? ==> forall f :: f in files ==> !StartsBehind(f, largest)
    ensures b.SomeFile? ==> b.file in files && StartsBehind(b.file, largest)
    ensures b.SomeFile? ==> forall f :: f in files && StartsBehind(f, largest) ==> !Less(f.Smallest(), b.file.Smallest())
  {
    b := NoFile;
    for i := 0 to |files|
      invariant b.NoFile? ==> forall k :: 0 <= k < i ==> !StartsBehind(files[k], largest)
      invariant b.SomeFile? ==> b.file in files && StartsBehind(b.file, largest)
      invariant b.SomeFile? ==>
                  forall k :: 0 <= k < i && StartsBehind(files[k], largest) ==> !Less(files[k].Smallest(), b.file.Smallest())
    {
      if Less(largest, files[i].Smallest()) && files[i].Smallest().user == largest.user {
        if b.NoFile? || Less(files[i].Smallest(), b.file.Smallest()) {
          b := SomeFile(files[i]);
        }
      }
    }
  }

  /** Follow boundary files from the largest chosen key until there is none left. */
  /** Closed under boundary files, as a set. */
  ghost predicate ClosedSet(files: seq<File>, T: set<File>) {
    forall f, g :: f in T && g in files && BoundaryOf(f, g) ==> g in T
  }

  method AddBoundaryInputs(files: seq<File>, chosen: seq<File>, ghost others: seq<File>) returns (r: seq<File>)
    requires Subset(chosen, files)
    ensures chosen <= r && Subset(r, files)
    ensures forall i, j :: |chosen| <= j < |r| && 0 <= i < j ==> r[i] != r[j]
    ensures SortedDisjoint(files) && Convex(files, chosen) ==> Convex(files, r) && BoundaryClosed(files, r)
    ensures ClosedUnderOverlap(files, chosen) ==> r == chosen
    ensures HullCovered(chosen + others) ==> HullCovered(r + others)
    ensures forall T :: ClosedSet(files, T) && FileSet(chosen) <= T ==> FileSet(r) <= T
  {
    r := chosen;
    if chosen == [] {
      return;
    }
    var largest, top := FindLargestKey(chosen);
    while true
      invariant chosen <= r && Subset(r, files)
      invariant IsTop(r, top) && largest == top.Largest()
      invariant forall i, j :: |chosen| <= j < |r| && 0 <= i < j ==> r[i] != r[j]
      invariant SortedDisjoint(files) && Convex(files, chosen) ==> Convex(files, r)
      invariant ClosedUnderOverlap(files, chosen) ==> r == chosen
      invariant HullCovered(chosen + others) ==> HullCovered(r + others)
      invariant forall T :: ClosedSet(files, T) && FileSet(chosen) <= T ==> FileSet(r) <= T
      decreases FilesBehind(files, largest)
    {
      var b := FindSmallestBoundaryFile(files, largest);
      if b.NoFile? {
        break;
      }
      BoundaryAdvances(files, r, top, b.file);
      BoundaryConvex(files, r, top, b.file);
      BoundaryCovers(r, top, b.file, others);
      NoBoundaryOutside(files, r, top, b.file);
      BoundaryInEvery(files, chosen, r, top, b.file);
      r := r + [b.file];
      largest, top := b.file.Largest(), b.file;
    }
    if SortedDisjoint(files) && Convex(files, chosen) {
      TopClosed(files, r, top);
    }
  }

  lemma BoundaryInEvery(files: seq<File>, chosen: seq<File>, r: seq<File>, top: File, b: File)
    requires IsTop(r, top) && b in files && StartsBehind(b, top.Largest())
    requires forall T :: ClosedSet(files, T) && FileSet(chosen) <= T ==> FileSet(r) <= T
    ensures forall T :: ClosedSet(files, T) && FileSet(chosen) <= T ==> FileSet(r + [b]) <= T
  {
    assert BoundaryOf(top, b);
    forall T | ClosedSet(files, T) && FileSet(chosen) <= T ensures FileSet(r + [b]) <= T {
      assert top in FileSet(r);
    }
  }

  ghost function FilesBehind(files: seq<File>, k: InternalKey): set<File> {
    set f | f in files && Less(k, f.Smallest())
  }

  lemma BoundaryAdvances(files: seq<File>, r: seq<File>, top: File, b: File)
    requires IsTop(r, top) && b in files && StartsBehind(b, top.Largest())
    ensures b !in r && IsTop(r + [b], b)
    ensures FilesBehind(files, b.Largest()) < FilesBehind(files, top.Largest())
  {
    KeysOrdered(b);
    assert b in FilesBehind(files, top.Largest());
    assert b !in FilesBehind(files, b.Largest());
    assert forall f :: f in FilesBehind(files, b.Largest()) ==> f in FilesBehind(files, top.Largest());
  }

  lemma BoundaryConvex(files: seq<File>, r: seq<File>, top: File, b: File)
    requires IsTop(r, top) && Subset(r, files) && b in files && StartsBehind(b, top.Largest())
    requires forall f :: f in files && StartsBehind(f, top.Largest()) ==> !Less(f.Smallest(), b.Smallest())
    ensures SortedDisjoint(files) && Convex(files, r) ==> Convex(files, r + [b])
  {
    if SortedDisjoint(files) && Convex(files, r) {
      forall f, g, h | f in r + [b] && h in r + [b] && g in files && Precedes(f, g) && Precedes(g, h)
        ensures g in r + [b]
      {
        BoundaryConvexOne(files, r, top, b, f, g, h);
      }
    }
  }

  lemma BoundaryConvexOne(files: seq<File>, r: seq<File>, top: File, b: File, f: File, g: File, h: File)
    requires IsTop(r, top) && Subset(r, files) && b in files && StartsBehind(b, top.Largest())
    requires forall f :: f in files && StartsBehind(f, top.Largest()) ==> !Less(f.Smallest(), b.Smallest())
    requires SortedDisjoint(files) && Convex(files, r)
    requires f in r + [b] && h in r + [b] && g in files && Precedes(f, g) && Precedes(g, h)
    ensures g in r + [b]
  {
    KeysOrdered(g);
    KeysOrdered(b);
    KeysOrdered(h);
    KeysOrdered(top);
    if g != top {
      Comparable(files, g, top);
    }
  }

  lemma BoundaryCovers(r: seq<File>, top: File, b: File, others: seq<File>)
    requires IsTop(r, top) && StartsBehind(b, top.Largest())
    ensures HullCovered(r + others) ==> HullCovered(r + [b] + others)
  {
    if HullCovered(r + others) {
      var all, all' := r + others, r + [b] + others;
      forall u: UserKey, f, g | f in all' && g in all' && f.Smallest().user <= u <= g.Largest().user
        ensures Covered(all', u)
      {
        KeysOrdered(b);
        assert b in all' && top in all;
        if !b.Spans(u) {
          if f == b {
            assert g in all && g.Largest().user > b.Largest().user && g.Largest().user >= u;
            assert top.Smallest().user <= u by { KeysOrdered(top); }
            assert Covered(all, u);
          } else {
            assert f in all;
            if g == b { assert u <= top.Largest().user; }
            assert Covered(all, u);
          }
          var w :| w in all && w.Spans(u);
          assert w in all';
        }
      }
    }
  }

  /** Where whole overlap components are taken there are no boundary files to add. */
  lemma NoBoundaryOutside(files: seq<File>, r: seq<File>, top: File, b: File)
    requires IsTop(r, top) && b in files && StartsBehind(b, top.Largest())
    ensures !ClosedUnderOverlap(files, r)
  {
    KeysOrdered(b);
    KeysOrdered(top);
    assert Overlap(b, top) && b !in r;
  }

  lemma TopClosed(files: seq<File>, r: seq<File>, top: File)
    requires SortedDisjoint(files) && Convex(files, r) && Subset(r, files) && IsTop(r, top)
    requires forall f :: f in files ==> !StartsBehind(f, top.Largest())
    ensures BoundaryClosed(files, r)
  {
    forall f, g | f in r && g in files && BoundaryOf(f, g) ensures g in r {
      if g != top {
        Comparable(files, g, top);
        KeysOrdered(g);
      }
    }
  }

  // ---------------------------------------------------------------------------------------------
  // GetRange and the files of the next level
  // ---------------------------------------------------------------------------------------------

  ghost predicate IsHull(files: seq<File>, lo: UserKey, hi: UserKey) {
    && (exists f :: f in files && f.Smallest().user == lo)
    && (exists f :: f in files && f.Largest().user == hi)
    && (forall f :: f in files ==> lo <= f.Smallest().user && f.Largest().user <= hi)
  }

  /** The minimal internal-key range that covers all the files. */
  method GetRange(files: seq<File>) returns (smallest: InternalKey, largest: InternalKey)
    requires files != []
    ensures forall f :: f in files ==> !Less(f.Smallest(), smallest) && !Less(largest, f.Largest())
    ensures exists f :: f in files && f.Smallest() == smallest
    ensures exists f :: f in files && f.Largest() == largest
    ensures IsHull(files, smallest.user, largest.user)
  {
    smallest, largest := files[0].Smallest(), files[0].Largest();
    assert files[0] in files;
    for i := 1 to |files|
      invariant forall k :: 0 <= k < i ==> !Less(files[k].Smallest(), smallest) && !Less(largest, files[k].Largest())
      invariant exists f :: f in files && f.Smallest() == smallest
      invariant exists f :: f in files && f.Largest() == largest
    {
      assert files[i] in files;
      if Less(files[i].Smallest(), smallest) {
        smallest := files[i].Smallest();
      }
      if Less(largest, files[i].Largest()) {
        largest := files[i].Largest();
      }
    }
    var f :| f in files && f.Smallest() == smallest;
    var g :| g in files && g.Largest() == largest;
  }

  lemma HullMeets(files: seq<File>, lo: UserKey, hi: UserKey, g: File)
    requires IsHull(files, lo, hi)
    ensures Meets(g, At(lo), At(hi)) <==> MeetsHull(g, files)
  {
    var f :| f in files && f.Smallest().user == lo;
    var h :| h in files && h.Largest().user == hi;
  }

  lemma {:induction false} WiderKeepsMore(files: seq<File>, lo: UserKey, hi: UserKey, lo': UserKey, hi': UserKey)
    requires lo' <= lo && hi <= hi'
    ensures |Overlapping(files, At(lo), At(hi))| <= |Overlapping(files, At(lo'), At(hi'))|
    ensures |Overlapping(files, At(lo), At(hi))| == |Overlapping(files, At(lo'), At(hi'))| ==>
              Overlapping(files, At(lo), At(hi)) == Overlapping(files, At(lo'), At(hi'))
    decreases |files|
  {
    if files != [] {
      WiderKeepsMore(files[..|files| - 1], lo, hi, lo', hi');
    }
  }

  lemma HullGrowsInto(from: seq<File>, into: seq<File>)
    requires HullCovered(from)
    requires forall g :: g in into ==> MeetsHull(g, from)
    ensures HullCovered(from + into)
  {
    forall u: UserKey, f, g | f in from + into && g in from + into && f.Smallest().user <= u <= g.Largest().user
      ensures Covered(from + into, u)
    {
      if !f.Spans(u) && !g.Spans(u) {
        assert exists a :: a in from && a.Smallest().user <= u by {
          if f !in from {
            var a :| a in from && a.Smallest().user <= f.Largest().user;
            assert a.Smallest().user <= u;
          }
        }
        assert exists b :: b in from && u <= b.Largest().user by {
          if g !in from {
            var b :| b in from && g.Smallest().user <= b.Largest().user;
            assert u <= b.Largest().user;
          }
        }
        var a :| a in from && a.Smallest().user <= u;
        var b :| b in from && u <= b.Largest().user;
        assert Covered(from, u);
        var w :| w in from && w.Spans(u);
        assert w in from + into;
      }
    }
  }

  lemma OverlappingConvex(files: seq<File>, lo: Bound, hi: Bound)
    requires SortedDisjoint(files)
    ensures Convex(files, Overlapping(files, lo, hi))
  {
    OverlappingMembers(files, lo, hi);
    forall f, g, h | f in Overlapping(files, lo, hi) && h in Overlapping(files, lo, hi) && g in files &&
        Precedes(f, g) && Precedes(g, h)
      ensures g in Overlapping(files, lo, hi)
    {
      KeysOrdered(f);
      KeysOrdered(g);
      KeysOrdered(h);
    }
  }

  // ---------------------------------------------------------------------------------------------
  // SetupOtherInputs
  // ---------------------------------------------------------------------------------------------

  /** The next-level files that meet the range of `from`. */
  method NextLevelInputs(v: Version, level: nat, from: seq<File>)
    returns (into: seq<File>, lo: UserKey, hi: UserKey)
    requires level + 1 < |v| && from != []
    ensures IsHull(from, lo, hi) && into == Overlapping(v[level + 1], At(lo), At(hi))
    ensures Subset(into, v[level + 1])
    ensures forall g :: g in v[level + 1] ==> (g in into <==> MeetsHull(g, from))
  {
    var smallest, largest := GetRange(from);
    lo, hi := smallest.user, largest.user;
    into := GetOverlappingInputs(v[level + 1], false, At(lo), At(hi));
    OverlappingMembers(v[level + 1], At(lo), At(hi));
    forall g | g in v[level + 1] ensures g in into <==> MeetsHull(g, from) {
      HullMeets(from, lo, hi, g);
    }
  }

  /** The level's share with its boundary files, and the next-level files it meets. */
  method SeedInputs(v: Version, level: nat, inputs0: seq<File>) returns (c: Inputs, lo: UserKey, hi: UserKey)
    requires SortedLevels(v) && level + 1 < NUM_LEVELS
    requires inputs0 != [] && Subset(inputs0, v[level])
    requires level == 0 ==> ClosedUnderOverlap(v[0], inputs0)
    requires level >= 1 ==> Convex(v[level], inputs0)
    ensures c.level == level && WellChosen(v, c) && inputs0 <= c.from && (level == 0 ==> c.from == inputs0)
    ensures forall T :: ClosedSet(v[level], T) && FileSet(inputs0) <= T ==> FileSet(c.from) <= T
    ensures IsHull(c.from, lo, hi) && c.into == Overlapping(v[level + 1], At(lo), At(hi))
    ensures HullCovered(inputs0) ==> HullCovered(c.from + c.into)
  {
    var from := BoundaryInputs(v, level, inputs0);
    var into;
    into, lo, hi := NextLevelInputs(v, level, from);
    c := Inputs(level, from, into);
    if HullCovered(from) {
      HullGrowsInto(from, into);
    }
  }

  method BoundaryInputs(v: Version, level: nat, inputs0: seq<File>) returns (from: seq<File>)
    requires SortedLevels(v) && level + 1 < NUM_LEVELS
    requires inputs0 != [] && Subset(inputs0, v[level])
    requires level == 0 ==> ClosedUnderOverlap(v[0], inputs0)
    requires level >= 1 ==> Convex(v[level], inputs0)
    ensures inputs0 <= from && Subset(from, v[level])
    ensures level == 0 ==> ClosedUnderOverlap(v[0], from)
    ensures level >= 1 ==> BoundaryClosed(v[level], from)
    ensures level == 0 ==> from == inputs0
    ensures forall T :: ClosedSet(v[level], T) && FileSet(inputs0) <= T ==> FileSet(from) <= T
    ensures HullCovered(inputs0) ==> HullCovered(from)
  {
    from := AddBoundaryInputs(v[level], inputs0, []);
    assert inputs0 + [] == inputs0 && from + [] == from;
  }

  /** `T` holds the files of the level that meet the range of the whole compaction, and what has to go with them. */
  ghost predicate Wanted(v: Version, c: Inputs, T: set<File>)
    requires c.level < |v|
  {
    && (forall g :: g in v[c.level] && MeetsHull(g, c.from + c.into) ==> g in T)
    && (if c.level == 0 then forall f, g :: f in v[0] && g in v[0] && g in T && Overlap(f, g) ==> f in T
        else ClosedSet(v[c.level], T))
  }

  /** The least such files. */
  ghost predicate Expansion(v: Version, c: Inputs, files: seq<File>)
    requires c.level < |v|
  {
    Wanted(v, c, FileSet(files)) && forall T :: Wanted(v, c, T) ==> FileSet(files) <= T
  }

  /** Taking these files instead costs less than 25 files' worth of bytes, and needs no more of the next level. */
  ghost predicate WorthIt(v: Version, c: Inputs, files: seq<File>, maxFileSize: nat)
    requires c.level + 1 < |v|
  {
    && |files| > |c.from| && TotalFileSize(c.into) + TotalFileSize(files) < 25 * maxFileSize
    && forall g :: g in v[c.level + 1] && MeetsHull(g, files) ==> g in c.into
  }

  /** How SetupOtherInputs completes a level's share: `seed` is the least that is closed under boundary files, and `expanded`
      replaces it exactly if that is worth it. */
  ghost predicate Completes(v: Version, inputs0: seq<File>, c: Inputs, seed: seq<File>, expanded: seq<File>, maxFileSize: nat)
    requires c.level + 1 < |v|
  {
    var before := Inputs(c.level, seed, c.into);
    && Subset(inputs0, seed) && (c.level == 0 ==> seed == inputs0)
    && WellChosen(v, before) && (forall T :: ClosedSet(v[c.level], T) && FileSet(inputs0) <= T ==> FileSet(seed) <= T)
    && if c.into == [] then c.from == seed
       else Expansion(v, before, expanded) && c.from == if WorthIt(v, before, expanded, maxFileSize) then expanded else seed
  }

  /** The least files of level 0 that meet the range and are closed under overlap. */
  ghost predicate LeastOverlap(files: seq<File>, begin: Bound, end: Bound, inputs0: seq<File>) {
    && OverlapClosed(files, begin, end, FileSet(inputs0))
    && forall T :: OverlapClosed(files, begin, end, T) ==> FileSet(inputs0) <= T
  }

  /** No other file of the level meets the range of the whole compaction. */
  ghost predicate NothingToGrow(v: Version, c: Inputs)
    requires c.level < |v|
  {
    forall g :: g in v[c.level] && MeetsHull(g, c.from + c.into) ==> g in c.from
  }

  /** Completes the inputs of a compaction. */
  method SetupOtherInputs(v: Version, level: nat, inputs0: seq<File>, maxFileSize: nat)
    returns (c: Inputs, ghost seed: seq<File>, ghost expanded: seq<File>)
    requires SortedLevels(v) && level + 1 < NUM_LEVELS
    requires inputs0 != [] && Subset(inputs0, v[level])
    requires level == 0 ==> ClosedUnderOverlap(v[0], inputs0)
    requires level >= 1 ==> Convex(v[level], inputs0)
    ensures c.level == level && WellChosen(v, c)
    ensures inputs0 <= seed && Subset(seed, c.from) && WellChosen(v, Inputs(level, seed, c.into))
    ensures Completes(v, inputs0, c, seed, expanded, maxFileSize)
    ensures level == 0 && NothingToGrow(v, Inputs(0, seed, c.into)) ==> FileSet(c.from) == FileSet(seed)
    ensures HullCovered(inputs0) ==> HullCovered(c.from + c.into)
  {
    var lo, hi;
    c, lo, hi := SeedInputs(v, level, inputs0);
    seed, expanded := c.from, c.from;
    if c.into != [] {
      c, expanded := Grow(v, c, lo, hi, maxFileSize);
    }
  }

  /** Takes more files of the level when that neither costs too much nor needs more next-level files. */
  method Grow(v: Version, c: Inputs, lo: UserKey, hi: UserKey, maxFileSize: nat)
    returns (r: Inputs, ghost expansion: seq<File>)
    requires SortedLevels(v) && WellChosen(v, c)
    requires IsHull(c.from, lo, hi) && c.into == Overlapping(v[c.level + 1], At(lo), At(hi))
    ensures r.level == c.level && r.into == c.into && Subset(c.from, r.from) && WellChosen(v, r)
    ensures Expansion(v, c, expansion) && r.from == if WorthIt(v, c, expansion, maxFileSize) then expansion else c.from
    ensures c.level == 0 && NothingToGrow(v, c) ==> FileSet(r.from) == FileSet(c.from)
    ensures HullCovered(c.from + c.into) ==> HullCovered(r.from + r.into)
  {
    r := c;
    var expanded := ExpandInputs(v, c);
    expansion := expanded;
    if |expanded| > |c.from| && TotalFileSize(c.into) + TotalFileSize(expanded) < 25 * maxFileSize {
      var into', lo', hi' := NextLevelInputs(v, c.level, expanded);
      GrownIsWellChosen(v, c, lo, hi, expanded, into', lo', hi');
      if |into'| == |c.into| {
        r := Inputs(c.level, expanded, into');
      }
    }
  }

  lemma GrownIsWellChosen(v: Version, c: Inputs, lo: UserKey, hi: UserKey, wider: seq<File>, into: seq<File>, lo': UserKey, hi': UserKey)
    requires WellChosen(v, c) && IsHull(c.from, lo, hi) && c.into == Overlapping(v[c.level + 1], At(lo), At(hi))
    requires IsHull(wider, lo', hi') && into == Overlapping(v[c.level + 1], At(lo'), At(hi'))
    requires Subset(c.from, wider) && Subset(wider, v[c.level])
    requires c.level == 0 ==> ClosedUnderOverlap(v[0], wider)
    requires c.level >= 1 ==> BoundaryClosed(v[c.level], wider)
    ensures |into| == |c.into| <==> forall g :: g in v[c.level + 1] && MeetsHull(g, wider) ==> g in c.into
    ensures |into| == |c.into| ==> into == c.into && WellChosen(v, Inputs(c.level, wider, into))
  {
    NextLevelSameIff(v, c, lo, hi, wider, lo', hi');
    if |into| == |c.into| {
      forall g | g in v[c.level + 1] ensures g in into <==> MeetsHull(g, wider) {
        OverlappingMembers(v[c.level + 1], At(lo'), At(hi'));
        HullMeets(wider, lo', hi', g);
      }
    }
  }

  /** The number of next-level files stays the same exactly if no other file comes in. */
  lemma NextLevelSameIff(v: Version, c: Inputs, lo: UserKey, hi: UserKey, wider: seq<File>, lo': UserKey, hi': UserKey)
    requires c.level + 1 < |v| && IsHull(c.from, lo, hi) && IsHull(wider, lo', hi') && Subset(c.from, wider)
    requires c.into == Overlapping(v[c.level + 1], At(lo), At(hi))
    ensures var into := Overlapping(v[c.level + 1], At(lo'), At(hi'));
            && (|into| == |c.into| <==> forall g :: g in v[c.level + 1] && MeetsHull(g, wider) ==> g in c.into)
            && (|into| == |c.into| ==> into == c.into)
  {
    var files := v[c.level + 1];
    OverlappingMembers(files, At(lo), At(hi));
    OverlappingMembers(files, At(lo'), At(hi'));
    forall g | g in files ensures Meets(g, At(lo'), At(hi')) <==> MeetsHull(g, wider) {
      HullMeets(wider, lo', hi', g);
    }
    if |Overlapping(files, At(lo'), At(hi'))| == |c.into| {
      SameNextLevel(files, c.from, lo, hi, wider, lo', hi');
    } else if forall g :: g in files && MeetsHull(g, wider) ==> g in c.into {
      HullWidens(c.from, lo, hi, wider, lo', hi');
      SameOverlapping(files, lo, hi, lo', hi');
    }
  }

  lemma {:induction false} SameOverlapping(files: seq<File>, lo: UserKey, hi: UserKey, lo': UserKey, hi': UserKey)
    requires lo' <= lo && hi <= hi' && forall g :: g in files && Meets(g, At(lo'), At(hi')) ==> Meets(g, At(lo), At(hi))
    ensures Overlapping(files, At(lo), At(hi)) == Overlapping(files, At(lo'), At(hi'))
    decreases |files|
  {
    if files != [] {
      SameOverlapping(files[..|files| - 1], lo, hi, lo', hi');
      assert files[|files| - 1] in files;
    }
  }

  lemma SameNextLevel(files: seq<File>, from: seq<File>, lo: UserKey, hi: UserKey, wider: seq<File>, lo': UserKey, hi': UserKey)
    requires IsHull(from, lo, hi) && IsHull(wider, lo', hi') && Subset(from, wider)
    requires |Overlapping(files, At(lo), At(hi))| == |Overlapping(files, At(lo'), At(hi'))|
    ensures Overlapping(files, At(lo), At(hi)) == Overlapping(files, At(lo'), At(hi'))
  {
    HullWidens(from, lo, hi, wider, lo', hi');
    WiderKeepsMore(files, lo, hi, lo', hi');
  }

  lemma HullWidens(from: seq<File>, lo: UserKey, hi: UserKey, wider: seq<File>, lo': UserKey, hi': UserKey)
    requires IsHull(from, lo, hi) && IsHull(wider, lo', hi') && Subset(from, wider)
    ensures lo' <= lo && hi <= hi'
  {
    var f :| f in from && f.Smallest().user == lo;
    var g :| g in from && g.Largest().user == hi;
  }

  /** The files of the level that meet the range of the whole compaction, with their boundary files. */
  method ExpandInputs(v: Version, c: Inputs) returns (expanded: seq<File>)
    requires SortedLevels(v) && WellChosen(v, c)
    ensures Subset(c.from, expanded) && Subset(expanded, v[c.level])
    ensures c.level == 0 ==> ClosedUnderOverlap(v[0], expanded)
    ensures c.level >= 1 ==> BoundaryClosed(v[c.level], expanded)
    ensures HullCovered(c.from + c.into) ==> HullCovered(expanded + c.into)
    ensures c.level == 0 && NothingToGrow(v, c) ==> FileSet(expanded) == FileSet(c.from)
    ensures Expansion(v, c, expanded)
  {
    var smallest, largest := GetRange(c.from + c.into);
    var lo, hi := smallest.user, largest.user;
    var chosen := GetOverlappingInputs(v[c.level], c.level == 0, At(lo), At(hi));
    ExpansionKeeps(v, c, lo, hi, chosen);
    if c.level == 0 && NothingToGrow(v, c) {
      NothingGrown(v, c, lo, hi, chosen);
    }
    expanded := AddBoundaryInputs(v[c.level], chosen, c.into);
    LeastExpansion(v, c, lo, hi, chosen, expanded);
  }

  lemma LeastExpansion(v: Version, c: Inputs, lo: UserKey, hi: UserKey, chosen: seq<File>, expanded: seq<File>)
    requires WellChosen(v, c) && IsHull(c.from + c.into, lo, hi) && chosen <= expanded && Subset(expanded, v[c.level])
    requires c.level != 0 ==> chosen == Overlapping(v[c.level], At(lo), At(hi)) && BoundaryClosed(v[c.level], expanded)
    requires c.level == 0 ==> expanded == chosen && OverlapClosed(v[0], At(lo), At(hi), FileSet(chosen))
    requires c.level == 0 ==> forall T :: OverlapClosed(v[0], At(lo), At(hi), T) ==> FileSet(chosen) <= T
    requires forall T :: ClosedSet(v[c.level], T) && FileSet(chosen) <= T ==> FileSet(expanded) <= T
    ensures Expansion(v, c, expanded)
  {
    var files := v[c.level];
    OverlappingMembers(files, At(lo), At(hi));
    forall g | g in files ensures Meets(g, At(lo), At(hi)) <==> MeetsHull(g, c.from + c.into) {
      HullMeets(c.from + c.into, lo, hi, g);
    }
    assert forall g :: g in chosen ==> g in expanded;
    forall T | Wanted(v, c, T) ensures FileSet(expanded) <= T {
      if c.level == 0 {
        assert OverlapClosed(files, At(lo), At(hi), T);
      } else {
        assert FileSet(chosen) <= T;
      }
    }
  }

  lemma NothingGrown(v: Version, c: Inputs, lo: UserKey, hi: UserKey, chosen: seq<File>)
    requires 0 < |v| && c.level == 0 && ClosedUnderOverlap(v[0], c.from) && NothingToGrow(v, c) && IsHull(c.from + c.into, lo, hi)
    requires forall T :: OverlapClosed(v[0], At(lo), At(hi), T) ==> FileSet(chosen) <= T
    requires Subset(c.from, chosen)
    ensures FileSet(chosen) == FileSet(c.from)
  {
    forall g | g in v[0] && Meets(g, At(lo), At(hi)) ensures g in c.from {
      HullMeets(c.from + c.into, lo, hi, g);
    }
    assert OverlapClosed(v[0], At(lo), At(hi), FileSet(c.from));
  }

  lemma ExpansionKeeps(v: Version, c: Inputs, lo: UserKey, hi: UserKey, chosen: seq<File>)
    requires SortedLevels(v) && WellChosen(v, c) && IsHull(c.from + c.into, lo, hi)
    requires forall f :: f in v[c.level] && Meets(f, At(lo), At(hi)) ==> f in chosen
    requires c.level != 0 ==> chosen == Overlapping(v[c.level], At(lo), At(hi))
    requires c.level == 0 ==> OverlapClosed(v[0], At(lo), At(hi), FileSet(chosen))
    requires Subset(chosen, v[c.level]) && Connected(chosen, At(lo), At(hi))
    ensures Subset(c.from, chosen)
    ensures c.level == 0 ==> ClosedUnderOverlap(v[0], chosen)
    ensures c.level >= 1 ==> Convex(v[c.level], chosen)
    ensures HullCovered(c.from + c.into) ==> HullCovered(chosen + c.into)
  {
    forall f | f in c.from ensures f in chosen {
      assert f in c.from + c.into;
      KeysOrdered(f);
      assert Meets(f, At(lo), At(hi));
    }
    if c.level >= 1 {
      OverlappingConvex(v[c.level], At(lo), At(hi));
    }
    if HullCovered(c.from + c.into) {
      assert c.from[0] in c.from;
      ExpandedCovered(c.from + c.into, lo, hi, chosen, c.into, c.from[0]);
    }
  }

  lemma ExpandedCovered(all: seq<File>, lo: UserKey, hi: UserKey, chosen: seq<File>, into: seq<File>, anchor: File)
    requires HullCovered(all) && IsHull(all, lo, hi)
    requires Connected(chosen, At(lo), At(hi))
    requires forall f :: f in all ==> f in chosen || f in into
    requires Subset(into, all) && anchor in all && anchor in chosen
    ensures HullCovered(chosen + into)
  {
    KeysOrdered(anchor);
    forall u: UserKey, f, g | f in chosen + into && g in chosen + into && f.Smallest().user <= u <= g.Largest().user
      ensures Covered(chosen + into, u)
    {
      if InRange(u, At(lo), At(hi)) {
        var first :| first in all && first.Smallest().user == lo;
        var last :| last in all && last.Largest().user == hi;
        assert Covered(all, u);
        var w :| w in all && w.Spans(u);
        assert w in chosen + into;
      } else {
        // a next-level file lies within [lo, hi], so the one sticking out is a file of the level
        assert if u < lo then f in chosen else g in chosen;
        assert Covered(chosen, u);
        var w :| w in chosen && w.Spans(u);
        assert w in chosen + into;
      }
    }
  }

  // ---------------------------------------------------------------------------------------------
  // The two ways a compaction is picked
  // ---------------------------------------------------------------------------------------------

  ghost predicate SameFiles(c: Inputs, d: Inputs) {
    c.level == d.level && FileSet(c.from) == FileSet(d.from) && FileSet(c.into) == FileSet(d.into)
  }

  /** Inputs at level 0 that the picked file `f` settles: the least set that is closed under overlap, with nothing to add. */
  ghost predicate SettledBy(v: Version, f: File, c: Inputs) {
    && WellChosen(v, c) && c.level == 0 && NothingToGrow(v, c)
    && OverlapClosed(v[0], At(f.Smallest().user), At(f.Largest().user), FileSet(c.from))
    && forall T :: OverlapClosed(v[0], At(f.Smallest().user), At(f.Largest().user), T) ==> FileSet(c.from) <= T
  }

  lemma SameInto(v: Version, c: Inputs, d: Inputs)
    requires WellChosen(v, c) && WellChosen(v, d) && c.level == d.level && FileSet(c.from) == FileSet(d.from)
    ensures SameFiles(c, d)
  {
    forall f ensures f in c.from <==> f in d.from {
      assert f in FileSet(c.from) <==> f in FileSet(d.from);
    }
    forall g | g in v[c.level + 1] ensures g in c.into <==> g in d.into {
      assert MeetsHull(g, c.from) <==> MeetsHull(g, d.from);
    }
  }

  lemma SameGrowth(v: Version, c: Inputs, d: Inputs)
    requires SameFiles(c, d) && c.level < |v| && NothingToGrow(v, d)
    ensures NothingToGrow(v, c)
  {
    forall f ensures (f in c.from <==> f in d.from) && (f in c.into <==> f in d.into) {
      assert f in FileSet(c.from) <==> f in FileSet(d.from);
      assert f in FileSet(c.into) <==> f in FileSet(d.into);
    }
    forall g | g in v[c.level] && MeetsHull(g, c.from + c.into) ensures g in c.from {
      assert MeetsHull(g, d.from + d.into);
    }
  }

  /** Settled inputs are what comes out. */
  lemma SettledAreTaken(v: Version, f: File, inputs0: seq<File>, c: Inputs, d: Inputs)
    requires WellChosen(v, c) && c.level == 0 && WellChosen(v, Inputs(0, inputs0, c.into)) && SettledBy(v, f, d)
    requires OverlapClosed(v[0], At(f.Smallest().user), At(f.Largest().user), FileSet(inputs0))
    requires forall T :: OverlapClosed(v[0], At(f.Smallest().user), At(f.Largest().user), T) ==> FileSet(inputs0) <= T
    requires NothingToGrow(v, Inputs(0, inputs0, c.into)) ==> FileSet(c.from) == FileSet(inputs0)
    ensures SameFiles(c, d)
  {
    assert FileSet(inputs0) == FileSet(d.from);
    SameInto(v, Inputs(0, inputs0, c.into), d);
    SameGrowth(v, Inputs(0, inputs0, c.into), d);
    SameInto(v, c, d);
  }

  /** Automatic compaction of the picked file `f`; the key ranges of its inputs form one connected run. */
  method PickCompaction(v: Version, level: nat, f: File, maxFileSize: nat)
    returns (c: Inputs, ghost picked: seq<File>, ghost seed: seq<File>, ghost expanded: seq<File>)
    requires SortedLevels(v) && level + 1 < NUM_LEVELS && f in v[level]
    ensures c.level == level && WellChosen(v, c) && f in c.from
    ensures if level == 0 then LeastOverlap(v[0], At(f.Smallest().user), At(f.Largest().user), picked) else picked == [f]
    ensures Completes(v, picked, c, seed, expanded, maxFileSize)
    ensures HullCovered(c.from + c.into)
    ensures level == 0 ==> forall d :: SettledBy(v, f, d) ==> SameFiles(c, d)
  {
    var inputs0 := [f];
    if level == 0 {
      inputs0 := GetOverlappingInputs(v[0], true, At(f.Smallest().user), At(f.Largest().user));
      KeysOrdered(f);
      assert f in inputs0;
      PickedCovered(inputs0, f);
    } else {
      assert HullCovered(inputs0);
      SingleConvex(v[level], f);
    }
    c, seed, expanded := SetupOtherInputs(v, level, inputs0, maxFileSize);
    picked := inputs0;
    assert f in inputs0 && f in seed;
    if level == 0 {
      forall d | SettledBy(v, f, d) ensures SameFiles(c, d) {
        SettledAreTaken(v, f, inputs0, c, d);
      }
    }
  }

  lemma PickedCovered(inputs0: seq<File>, f: File)
    requires f in inputs0 && Connected(inputs0, At(f.Smallest().user), At(f.Largest().user))
    ensures HullCovered(inputs0)
  {
  }

  lemma SingleConvex(files: seq<File>, f: File)
    requires SortedDisjoint(files) && f in files
    ensures Convex(files, [f])
  {
    forall g | g in files && Precedes(f, g) && Precedes(g, f) ensures g == f {
      if g != f {
        Comparable(files, f, g);
      }
    }
  }

  datatype MaybeInputs = NoInputs | SomeInputs(inputs: Inputs)

  /** All files of a level whose sizes, but for the last, stay below the limit. */
  ghost predicate TakesLevel(v: Version, c: Inputs, maxFileSize: nat) {
    && WellChosen(v, c) && c.level >= 1 && c.from == v[c.level]
    && forall k :: 1 <= k < |c.from| ==> TotalFileSize(c.from[..k]) < maxFileSize
  }

  /** The files that meet the range, in order, up to and including the one with which their sizes reach the limit. */
  ghost predicate UpToSize(files: seq<File>, begin: Bound, end: Bound, limit: nat, inputs: seq<File>) {
    && inputs <= Overlapping(files, begin, end)
    && (inputs != [] && inputs != Overlapping(files, begin, end) ==> TotalFileSize(inputs) >= limit)
    && forall k :: 1 <= k < |inputs| ==> TotalFileSize(inputs[..k]) < limit
  }

  /** Manual compaction of [begin, end]: below level 0 only a prefix of the overlapping files is taken at a time. */
  method CompactRange(v: Version, level: nat, begin: Bound, end: Bound, maxFileSize: nat)
    returns (c: MaybeInputs, ghost picked: seq<File>, ghost seed: seq<File>, ghost expanded: seq<File>)
    requires SortedLevels(v) && level + 1 < NUM_LEVELS
    ensures c.NoInputs? <==> forall f :: f in v[level] ==> !Meets(f, begin, end)
    ensures c.SomeInputs? ==> c.inputs.level == level && WellChosen(v, c.inputs)
    ensures c.SomeInputs? ==>
              && (if level == 0 then LeastOverlap(v[0], begin, end, picked) else UpToSize(v[level], begin, end, maxFileSize, picked))
              && Completes(v, picked, c.inputs, seed, expanded, maxFileSize)
    ensures begin.Unbounded? && end.Unbounded? ==>
              forall d :: TakesLevel(v, d, maxFileSize) && d.level == level ==> c.SomeInputs? && SameFiles(c.inputs, d)
  {
    var inputs := RangeInputs(v, level, begin, end, maxFileSize);
    if inputs == [] {
      forall d | TakesLevel(v, d, maxFileSize) && d.level == level ensures begin.At? || end.At? {
        assert d.from[0] in v[level];
      }
      return NoInputs, [], [], [];
    }
    var r;
    r, seed, expanded := SetupOtherInputs(v, level, inputs, maxFileSize);
    c, picked := SomeInputs(r), inputs;
    if begin.Unbounded? && end.Unbounded? {
      forall d | TakesLevel(v, d, maxFileSize) && d.level == level ensures SameFiles(r, d) {
        AllOverlap(v[level]);
        LevelIsTaken(v, inputs, r, d, maxFileSize);
      }
    }
  }

  lemma LevelIsTaken(v: Version, inputs: seq<File>, c: Inputs, d: Inputs, maxFileSize: nat)
    requires WellChosen(v, c) && TakesLevel(v, d, maxFileSize) && c.level == d.level && inputs != [] && Subset(inputs, c.from)
    requires inputs != v[c.level] ==> inputs <= v[c.level] && TotalFileSize(inputs) >= maxFileSize
    ensures SameFiles(c, d)
  {
    if inputs != v[c.level] {
      assert d.from[..|inputs|] == inputs;
    }
    SameInto(v, c, d);
  }

  method RangeInputs(v: Version, level: nat, begin: Bound, end: Bound, maxFileSize: nat) returns (inputs: seq<File>)
    requires SortedLevels(v) && level + 1 < NUM_LEVELS
    ensures inputs == [] <==> forall f :: f in v[level] ==> !Meets(f, begin, end)
    ensures Subset(inputs, v[level])
    ensures level == 0 ==> ClosedUnderOverlap(v[0], inputs)
    ensures level >= 1 ==> Convex(v[level], inputs)
    ensures if level == 0 then LeastOverlap(v[0], begin, end, inputs) else UpToSize(v[level], begin, end, maxFileSize, inputs)
  {
    if level == 0 {
      inputs := GetOverlappingInputs(v[0], true, begin, end);
      NothingMeets(v[0], begin, end, inputs);
    } else {
      inputs := LimitedInputs(v[level], begin, end, maxFileSize);
    }
  }

  /** Below level 0: the files that meet the range, in order, until their sizes reach the limit. */
  method LimitedInputs(files: seq<File>, begin: Bound, end: Bound, maxFileSize: nat) returns (inputs: seq<File>)
    requires SortedDisjoint(files)
    ensures inputs == [] <==> forall f :: f in files ==> !Meets(f, begin, end)
    ensures Subset(inputs, files) && Convex(files, inputs)
    ensures UpToSize(files, begin, end, maxFileSize, inputs)
  {
    inputs := GetOverlappingInputs(files, false, begin, end);
    OverlappingMembers(files, begin, end);
    OverlappingConvex(files, begin, end);
    OverlappingSorted(files, begin, end);
    if inputs != [] {
      assert inputs[0] in inputs;
      var n := UpToLimit(inputs, maxFileSize);
      PrefixConvex(files, inputs, n);
      assert forall k :: 1 <= k < n ==> inputs[..n][..k] == inputs[..k];
      inputs := inputs[..n];
    }
  }

  lemma {:induction false} AllOverlap(files: seq<File>)
    ensures Overlapping(files, Unbounded, Unbounded) == files
    decreases |files|
  {
    if files != [] {
      AllOverlap(files[..|files| - 1]);
    }
  }

  /** How many of the files to take: up to and including the one that reaches the limit. */
  method UpToLimit(inputs: seq<File>, limit: nat) returns (n: nat)
    requires inputs != []
    ensures 1 <= n <= |inputs|
    ensures n < |inputs| ==> TotalFileSize(inputs[..n]) >= limit
    ensures forall k :: 1 <= k < n ==> TotalFileSize(inputs[..k]) < limit
  {
    var total := 0;
    for i := 0 to |inputs|
      invariant total == TotalFileSize(inputs[..i])
      invariant forall k :: 1 <= k <= i ==> TotalFileSize(inputs[..k]) < limit
    {
      assert inputs[..i + 1][..i] == inputs[..i];
      total := total + inputs[i].size;
      if total >= limit {
        return i + 1;
      }
    }
    return |inputs|;
  }

  lemma NothingMeets(files: seq<File>, begin: Bound, end: Bound, inputs: seq<File>)
    requires forall f :: f in files && Meets(f, begin, end) ==> f in inputs
    requires forall T :: OverlapClosed(files, begin, end, T) ==> FileSet(inputs) <= T
    ensures inputs == [] <==> forall f :: f in files ==> !Meets(f, begin, end)
  {
    if forall f :: f in files ==> !Meets(f, begin, end) {
      assert OverlapClosed(files, begin, end, {});
    }
    NoFiles(inputs);
  }

  lemma NoFiles(files: seq<File>)
    ensures files == [] <==> FileSet(files) == {}
  {
    if files != [] {
      assert files[0] in FileSet(files);
    }
  }

  lemma PrefixConvex(files: seq<File>, chosen: seq<File>, n: nat)
    requires Convex(files, chosen) && SortedDisjoint(chosen) && n <= |chosen|
    ensures Convex(files, chosen[..n])
  {
    forall f, g, h | f in chosen[..n] && h in chosen[..n] && g in files && Precedes(f, g) && Precedes(g, h)
      ensures g in chosen[..n]
    {
      assert g in chosen;
      var i :| 0 <= i < |chosen| && chosen[i] == g;
      var j :| 0 <= j < n && chosen[j] == h;
      KeysOrdered(g);
      KeysOrdered(h);
    }
  }
}
