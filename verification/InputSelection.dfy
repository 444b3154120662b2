/** Which files a memtable dump or a compaction touches: overlap tests, input closure and boundary files. */
module InputSelection {
  import opened InternalKeys
  import opened Versions

  /** One end of a user-key range; a null pointer given to GetOverlappingInputs is Unbounded. */
  datatype Bound = Unbounded | At(user: UserKey)

  predicate AfterFile(lo: Bound, f: File) {
    lo.At? && lo.user > f.Largest().user
  }

  predicate BeforeFile(hi: Bound, f: File) {
    hi.At? && hi.user < f.Smallest().user
  }

  /** The user-key range of `f` meets [lo, hi]. */
  predicate Meets(f: File, lo: Bound, hi: Bound) {
    !AfterFile(lo, f) && !BeforeFile(hi, f)
  }

  predicate InRange(u: UserKey, lo: Bound, hi: Bound) {
    (lo.At? ==> lo.user <= u) && (hi.At? ==> u <= hi.user)
  }

  /** The user-key ranges of two files meet. */
  predicate Overlap(f: File, g: File) {
    f.Smallest().user <= g.Largest().user && g.Smallest().user <= f.Largest().user
  }

  // ---------------------------------------------------------------------------------------------
  // SomeFileOverlapsRange and the level picked for a memtable dump
  // ---------------------------------------------------------------------------------------------

  /** The binary search taken on sorted levels answers as the scan of all files does. */
  method SomeFileOverlapsRange(disjointSorted: bool, files: seq<File>, lo: Bound, hi: Bound) returns (overlap: bool)
    requires disjointSorted ==> SortedDisjoint(files)
    requires lo.At? && hi.At? ==> lo.user <= hi.user
    ensures overlap <==> exists f :: f in files && Meets(f, lo, hi)
  {
    if !disjointSorted {
      for i := 0 to |files|
        invariant forall k :: 0 <= k < i ==> !Meets(files[k], lo, hi)
      {
        if !(AfterFile(lo, files[i]) || BeforeFile(hi, files[i])) {
          assert files[i] in files;
          return true;
        }
      }
      return false;
    }
    var index := 0;
    if lo.At? {
      index := FindFile(files, InternalKey(lo.user, MAX_SEQUENCE, Value));
    }
    assert forall k :: 0 <= k < index ==> AfterFile(lo, files[k]);
    if index >= |files| {
      return false;
    }
    assert !AfterFile(lo, files[index]);
    overlap := !BeforeFile(hi, files[index]);
    if overlap {
      assert files[index] in files && Meets(files[index], lo, hi);
    } else {
      forall k | 0 <= k < |files| ensures !Meets(files[k], lo, hi) {
        SmallestIncreasing(files, index, k);
      }
    }
  }

  lemma SmallestIncreasing(files: seq<File>, i: nat, j: nat)
    requires SortedDisjoint(files) && i < |files| && j < |files|
    ensures i <= j ==> files[i].Smallest().user <= files[j].Smallest().user
  {
    if i < j {
      assert Precedes(files[i], files[j]);
      FileRange(files[i], files[i].entries[0]);
    }
  }

  ghost predicate Overlapped(v: Version, level: nat, lo: UserKey, hi: UserKey)
    requires level < |v|
  {
    exists f :: f in v[level] && Meets(f, At(lo), At(hi))
  }

  function TotalFileSize(files: seq<File>): nat {
    if files == [] then 0 else TotalFileSize(files[..|files| - 1]) + files[|files| - 1].size
  }

  const MAX_MEM_COMPACT_LEVEL := 2

  /** A dump that may go to `level` may also go one level further down. */
  ghost predicate MaySink(v: Version, level: nat, lo: UserKey, hi: UserKey, maxFileSize: nat)
    requires level + 2 < |v|
  {
    !Overlapped(v, level + 1, lo, hi) && TotalFileSize(Overlapping(v[level + 2], At(lo), At(hi))) <= 10 * maxFileSize
  }

  /** The one level a dump of [lo, hi] goes to. */
  ghost predicate DumpGoesTo(v: Version, lo: UserKey, hi: UserKey, maxFileSize: nat, level: nat)
    requires |v| == NUM_LEVELS
  {
    && level <= MAX_MEM_COMPACT_LEVEL
    && (level > 0 ==> !Overlapped(v, 0, lo, hi) && forall l :: 0 <= l < level ==> MaySink(v, l, lo, hi, maxFileSize))
    && (level < MAX_MEM_COMPACT_LEVEL ==> Overlapped(v, 0, lo, hi) || !MaySink(v, level, lo, hi, maxFileSize))
  }

  /** A dump skips levels only as long as nothing in them, or in the level it lands on, overlaps it. */
  method PickLevelForMemTableOutput(v: Version, lo: UserKey, hi: UserKey, maxFileSize: nat) returns (level: nat)
    requires SortedLevels(v) && lo <= hi
    ensures level <= MAX_MEM_COMPACT_LEVEL
    ensures level > 0 ==> forall l :: 0 <= l <= level ==> !Overlapped(v, l, lo, hi)
    ensures DumpGoesTo(v, lo, hi, maxFileSize, level)
  {
    level := 0;
    var overlap := SomeFileOverlapsRange(false, v[0], At(lo), At(hi));
    if !overlap {
      while level < MAX_MEM_COMPACT_LEVEL
        invariant 0 <= level <= MAX_MEM_COMPACT_LEVEL
        invariant forall l :: 0 <= l <= level ==> !Overlapped(v, l, lo, hi)
        invariant forall l :: 0 <= l < level ==> MaySink(v, l, lo, hi, maxFileSize)
      {
        overlap := SomeFileOverlapsRange(true, v[level + 1], At(lo), At(hi));
        if overlap {
          break;
        }
        if level + 2 < NUM_LEVELS {
          var overlaps := GetOverlappingInputs(v[level + 2], false, At(lo), At(hi));
          if TotalFileSize(overlaps) > 10 * maxFileSize {
            break;
          }
        }
        level := level + 1;
      }
    }
  }

  // ---------------------------------------------------------------------------------------------
  // GetOverlappingInputs
  // ---------------------------------------------------------------------------------------------

  /** The files that meet [lo, hi], in list order. */
  function Overlapping(files: seq<File>, lo: Bound, hi: Bound): seq<File> {
    if files == [] then []
    else
      var last := files[|files| - 1];
      Overlapping(files[..|files| - 1], lo, hi) + if Meets(last, lo, hi) then [last] else []
  }

  lemma {:induction false} OverlappingMembers(files: seq<File>, lo: Bound, hi: Bound)
    ensures forall f :: f in Overlapping(files, lo, hi) <==> f in files && Meets(f, lo, hi)
    decreases |files|
  {
    if files != [] {
      OverlappingMembers(files[..|files| - 1], lo, hi);
      assert files == files[..|files| - 1] + [files[|files| - 1]];
    }
  }

  lemma {:induction false} OverlappingSorted(files: seq<File>, lo: Bound, hi: Bound)
    requires SortedDisjoint(files)
    ensures SortedDisjoint(Overlapping(files, lo, hi))
    decreases |files|
  {
    if files != [] {
      var init, last := files[..|files| - 1], files[|files| - 1];
      OverlappingSorted(init, lo, hi);
      OverlappingMembers(init, lo, hi);
      assert forall f :: f in init ==> Precedes(f, last);
      var o := Overlapping(init, lo, hi);
      assert forall i :: 0 <= i < |o| ==> o[i] in o;
    }
  }

  /** `T` contains every file that meets [lo, hi] and every file that overlaps one of its members. */
  ghost predicate OverlapClosed(files: seq<File>, lo: Bound, hi: Bound, T: set<File>) {
    && (forall f :: f in files && Meets(f, lo, hi) ==> f in T)
    && (forall f, g :: f in files && g in files && g in T && Overlap(f, g) ==> f in T)
  }

  ghost function FileSet(files: seq<File>): set<File> {
    set f | f in files
  }

  /** Between the outermost ends of the chosen files every key is in a chosen file or in the range asked for. */
  ghost predicate Connected(files: seq<File>, lo: Bound, hi: Bound) {
    forall u: UserKey, f, g ::
      f in files && g in files && f.Smallest().user <= u <= g.Largest().user ==> InRange(u, lo, hi) || Covered(files, u)
  }

  ghost predicate Covered(files: seq<File>, u: UserKey) {
    exists f :: f in files && f.Spans(u)
  }

  /** What the restarting scan of level 0 knows about the range it has grown from [begin, end] to [lo, hi]. */
  ghost predicate Grown(files: seq<File>, begin: Bound, end: Bound, lo: Bound, hi: Bound) {
    && (lo.At? <==> begin.At?) && (hi.At? <==> end.At?)
    && (lo.At? ==> lo.user <= begin.user) && (hi.At? ==> end.user <= hi.user)
    && (forall T :: OverlapClosed(files, begin, end, T) ==> OverlapClosed(files, lo, hi, T))
    && (forall u :: InRange(u, lo, hi) ==> InRange(u, begin, end) || Covered(files, u))
  }

  lemma GrowByFile(files: seq<File>, begin: Bound, end: Bound, lo: Bound, hi: Bound, f: File, lo': Bound, hi': Bound)
    requires Grown(files, begin, end, lo, hi)
    requires f in files && Meets(f, lo, hi)
    requires || (lo.At? && lo' == At(f.Smallest().user) && lo'.user < lo.user && hi' == hi)
             || (hi.At? && hi' == At(f.Largest().user) && hi'.user > hi.user && lo' == lo)
    ensures Grown(files, begin, end, lo', hi')
  {
    forall T | OverlapClosed(files, begin, end, T) ensures OverlapClosed(files, lo', hi', T) {
      assert OverlapClosed(files, lo, hi, T);
      assert f in T;
      forall g | g in files && Meets(g, lo', hi') ensures g in T {
        if !Meets(g, lo, hi) {
          FileOrdered(f);
          FileOrdered(g);
          assert Overlap(g, f);
        }
      }
    }
    forall u | InRange(u, lo', hi') ensures InRange(u, begin, end) || Covered(files, u) {
      if !InRange(u, lo, hi) {
        assert f.Spans(u);
      }
    }
  }

  lemma FileOrdered(f: File)
    ensures f.Smallest().user <= f.Largest().user
  {
    FileRange(f, f.entries[0]);
  }

  ghost function SticksOutLeft(files: seq<File>, lo: Bound): set<int> {
    set i | 0 <= i < |files| && lo.At? && files[i].Smallest().user < lo.user
  }

  ghost function SticksOutRight(files: seq<File>, hi: Bound): set<int> {
    set i | 0 <= i < |files| && hi.At? && files[i].Largest().user > hi.user
  }

  /** Ends of level-0 files outside [lo, hi]: each restart of the scan swallows at least one. */
  ghost function SticksOut(files: seq<File>, lo: Bound, hi: Bound): nat {
    |SticksOutLeft(files, lo)| + |SticksOutRight(files, hi)|
  }

  lemma LeftShrinks(files: seq<File>, lo: Bound, k: nat)
    requires k < |files| && lo.At? && files[k].Smallest().user < lo.user
    ensures |SticksOutLeft(files, At(files[k].Smallest().user))| < |SticksOutLeft(files, lo)|
  {
    Cardinality(SticksOutLeft(files, At(files[k].Smallest().user)), SticksOutLeft(files, lo) - {k});
  }

  lemma RightShrinks(files: seq<File>, hi: Bound, k: nat)
    requires k < |files| && hi.At? && files[k].Largest().user > hi.user
    ensures |SticksOutRight(files, At(files[k].Largest().user))| < |SticksOutRight(files, hi)|
  {
    Cardinality(SticksOutRight(files, At(files[k].Largest().user)), SticksOutRight(files, hi) - {k});
  }

  lemma Cardinality(A: set<int>, B: set<int>)
    requires A <= B
    ensures |A| <= |B|
  {
    assert B == A + (B - A);
  }

  /** Level 0 restarts its scan whenever a file widens the range; the other levels scan once.
      The level-0 result is the least set of files that is closed under overlap and meets [begin, end]. */
  method GetOverlappingInputs(files: seq<File>, levelZero: bool, begin: Bound, end: Bound) returns (inputs: seq<File>)
    ensures !levelZero ==> inputs == Overlapping(files, begin, end)
    ensures forall f :: f in inputs ==> f in files
    ensures forall f :: f in files && Meets(f, begin, end) ==> f in inputs
    ensures levelZero ==> OverlapClosed(files, begin, end, FileSet(inputs))
    ensures levelZero ==> forall T :: OverlapClosed(files, begin, end, T) ==> FileSet(inputs) <= T
    ensures Connected(inputs, begin, end)
  {
    inputs := [];
    var lo, hi := begin, end;
    var i := 0;
    while i < |files|
      invariant 0 <= i <= |files|
      invariant inputs == Overlapping(files[..i], lo, hi)
      invariant !levelZero ==> lo == begin && hi == end
      invariant levelZero ==> forall f :: f in inputs ==> Within(f, lo, hi)
      invariant Grown(files, begin, end, lo, hi)
      decreases SticksOut(files, lo, hi), |files| - i
    {
      var f := files[i];
      i := i + 1;
      assert files[..i][..i - 1] == files[..i - 1];
      if AfterFile(lo, f) {
      } else if BeforeFile(hi, f) {
      } else {
        inputs := inputs + [f];
        if levelZero {
          if lo.At? && f.Smallest().user < lo.user {
            GrowByFile(files, begin, end, lo, hi, f, At(f.Smallest().user), hi);
            LeftShrinks(files, lo, i - 1);
            lo := At(f.Smallest().user);
            inputs := [];
            i := 0;
          } else if hi.At? && f.Largest().user > hi.user {
            GrowByFile(files, begin, end, lo, hi, f, lo, At(f.Largest().user));
            RightShrinks(files, hi, i - 1);
            hi := At(f.Largest().user);
            inputs := [];
            i := 0;
          }
        }
      }
    }
    assert files[..i] == files;
    ScanResult(files, levelZero, begin, end, lo, hi, inputs);
  }

  predicate Within(f: File, lo: Bound, hi: Bound) {
    (lo.At? ==> lo.user <= f.Smallest().user) && (hi.At? ==> f.Largest().user <= hi.user)
  }

  lemma ScanResult(files: seq<File>, levelZero: bool, begin: Bound, end: Bound, lo: Bound, hi: Bound, inputs: seq<File>)
    requires inputs == Overlapping(files, lo, hi)
    requires !levelZero ==> lo == begin && hi == end
    requires levelZero ==> forall f :: f in inputs ==> Within(f, lo, hi)
    requires Grown(files, begin, end, lo, hi)
    ensures forall f :: f in inputs ==> f in files
    ensures forall f :: f in files && Meets(f, begin, end) ==> f in inputs
    ensures levelZero ==> OverlapClosed(files, begin, end, FileSet(inputs))
    ensures levelZero ==> forall T :: OverlapClosed(files, begin, end, T) ==> FileSet(inputs) <= T
    ensures Connected(inputs, begin, end)
  {
    OverlappingMembers(files, lo, hi);
    forall u: UserKey, f, g | f in inputs && g in inputs && f.Smallest().user <= u <= g.Largest().user
      ensures InRange(u, begin, end) || Covered(inputs, u)
    {
      if levelZero && !InRange(u, begin, end) {
        var h :| h in files && h.Spans(u);
        assert h in inputs;
      } else if !levelZero && !InRange(u, lo, hi) {
        FileOrdered(f);
        FileOrdered(g);
        assert f.Spans(u) || g.Spans(u);
      }
    }
  }
}
