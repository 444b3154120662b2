/** Versions: seven levels of table files, the invariant that reads rely on, and the read path of Version::Get. */
module Versions {
  import opened InternalKeys

  const NUM_LEVELS := 7

  /** A nonempty sorted run of entries. */
  type Run = es: seq<Entry> | es != [] && Sorted(es) witness [Entry(0, 0, Deletion, "")]

  /** A table file: its metadata together with the immutable entries it holds. */
  datatype File = File(number: nat, size: nat, entries: Run) {
    function Smallest(): InternalKey {
      entries[0].Key()
    }

    function Largest(): InternalKey {
      entries[|entries| - 1].Key()
    }

    /** `u` lies in the user-key range of the file. */
    predicate Spans(u: UserKey) {
      Smallest().user <= u <= Largest().user
    }
  }

  type Version = seq<seq<File>>

  ghost predicate Precedes(f: File, g: File) {
    Less(f.Largest(), g.Smallest())
  }

  /** Disjoint ranges in increasing internal-key order. */
  ghost predicate SortedDisjoint(files: seq<File>) {
    forall i, j :: 0 <= i < j < |files| ==> Precedes(files[i], files[j])
  }

  ghost function Contents(files: seq<File>): set<Entry> {
    set f, e | f in files && e in f.entries :: e
  }

  ghost function Between(v: Version, lo: nat, hi: nat): set<Entry>
    requires lo <= hi <= |v|
  {
    set l, e | lo <= l < hi && e in Contents(v[l]) :: e
  }

  ghost function AllContents(v: Version): set<Entry> {
    Between(v, 0, |v|)
  }

  /** Among files that hold one user key, a higher file number means newer entries. */
  ghost predicate NumberedByAge(files: seq<File>) {
    && (forall f, g :: f in files && g in files && f.number > g.number ==> Layered(Elems(f.entries), Elems(g.entries)))
    && DistinctNumbers(files)
  }

  predicate DistinctNumbers(files: seq<File>) {
    forall i, j :: 0 <= i < j < |files| ==> files[i].number != files[j].number
  }

  lemma SameNumberSameFile(files: seq<File>, f: File, g: File)
    requires DistinctNumbers(files) && f in files && g in files && f.number == g.number
    ensures f == g
  {
    var i :| 0 <= i < |files| && files[i] == f;
    var j :| 0 <= j < |files| && files[j] == g;
    assert !(i < j) && !(j < i);
  }

  /** A file number names one file of one level. */
  ghost predicate NumbersIdentify(v: Version) {
    forall l, m, f, g :: 0 <= l < |v| && 0 <= m < |v| && f in v[l] && g in v[m] && f.number == g.number ==> l == m && f == g
  }

  ghost predicate LevelsLayered(v: Version) {
    forall l, m {:trigger Contents(v[l]), Contents(v[m])} :: 0 <= l < m < |v| ==> Layered(Contents(v[l]), Contents(v[m]))
  }

  /** Below level 0 the files of a level are sorted and disjoint. */
  ghost predicate SortedLevels(v: Version) {
    |v| == NUM_LEVELS && forall l {:trigger SortedDisjoint(v[l])} :: 1 <= l < |v| ==> SortedDisjoint(v[l])
  }

  /** The version invariant: what every step keeps and every read relies on. */
  ghost predicate ValidVersion(v: Version) {
    && SortedLevels(v)
    && NumberedByAge(v[0])
    && LevelsLayered(v)
  }

  // ---------------------------------------------------------------------------------------------
  // Ranges of single files and of levels
  // ---------------------------------------------------------------------------------------------

  lemma FileRange(f: File, e: Entry)
    requires e in f.entries
    ensures !Less(e.Key(), f.Smallest()) && !Less(f.Largest(), e.Key())
    ensures f.Spans(e.user)
  {
    var i :| 0 <= i < |f.entries| && f.entries[i] == e;
    assert i > 0 ==> Less(f.entries[0].Key(), f.entries[i].Key());
    assert i < |f.entries| - 1 ==> Less(f.entries[i].Key(), f.entries[|f.entries| - 1].Key());
  }

  lemma PrecedesEntries(f: File, g: File, a: Entry, b: Entry)
    requires Precedes(f, g)
    requires a in f.entries && b in g.entries
    ensures Less(a.Key(), b.Key())
  {
    FileRange(f, a);
    FileRange(g, b);
  }

  // ---------------------------------------------------------------------------------------------
  // FindFile and the search of a sorted level
  // ---------------------------------------------------------------------------------------------

  /** Binary search for the earliest file whose largest key is at or after `k`. */
  method FindFile(files: seq<File>, k: InternalKey) returns (index: nat)
    requires SortedDisjoint(files)
    ensures index <= |files|
    ensures forall j :: 0 <= j < index ==> Less(files[j].Largest(), k)
    ensures forall j :: index <= j < |files| ==> !Less(files[j].Largest(), k)
  {
    var left, right := 0, |files|;
    while left < right
      invariant 0 <= left <= right <= |files|
      invariant forall j :: 0 <= j < left ==> Less(files[j].Largest(), k)
      invariant forall j :: right <= j < |files| ==> !Less(files[j].Largest(), k)
    {
      var mid := (left + right) / 2;
      if Less(files[mid].Largest(), k) {
        forall j | 0 <= j <= mid ensures Less(files[j].Largest(), k) {
          LargestIncreasing(files, j, mid);
        }
        left := mid + 1;
      } else {
        forall j | mid <= j < |files| ensures !Less(files[j].Largest(), k) {
          LargestIncreasing(files, mid, j);
        }
        right := mid;
      }
    }
    index := right;
  }

  lemma LargestIncreasing(files: seq<File>, i: nat, j: nat)
    requires SortedDisjoint(files)
    requires i <= j < |files|
    ensures i == j || Less(files[i].Largest(), files[j].Largest())
  {
    if i < j {
      var g := files[j];
      assert Precedes(files[i], g);
      FileRange(g, g.entries[0]);
    }
  }

  /** The one file of a sorted level that can answer a lookup is the one FindFile returns. */
  method SearchSortedLevel(files: seq<File>, u: UserKey, s: Seqno) returns (h: Hit)
    requires SortedDisjoint(files)
    ensures Newest(Contents(files), u, s, h)
  {
    var index := FindFile(files, SeekKey(u, s));
    if index >= |files| || u < files[index].Smallest().user {
      h := Miss;
      forall e | e in Contents(files) ensures !Visible(e, u, s) {
        OutsideFound(files, index, u, s, e);
      }
    } else {
      h := Lookup(files[index].entries, u, s);
      forall e | e in Contents(files) && Visible(e, u, s)
        ensures h.Hit? && e.seqno <= h.entry.seqno
      {
        InsideFound(files, index, u, s, e, h);
      }
      if h.Hit? {
        assert h.entry in files[index].entries;
      }
    }
  }

  lemma OutsideFound(files: seq<File>, index: nat, u: UserKey, s: Seqno, e: Entry)
    requires SortedDisjoint(files)
    requires index <= |files|
    requires forall j :: 0 <= j < index ==> Less(files[j].Largest(), SeekKey(u, s))
    requires index < |files| ==> u < files[index].Smallest().user
    requires e in Contents(files)
    ensures !Visible(e, u, s)
  {
    var f :| f in files && e in f.entries;
    var j :| 0 <= j < |files| && files[j] == f;
    FileRange(f, e);
    if j > index {
      var g := files[index];
      assert Precedes(g, f);
      FileRange(g, g.entries[0]);
    }
  }

  lemma InsideFound(files: seq<File>, index: nat, u: UserKey, s: Seqno, e: Entry, h: Hit)
    requires SortedDisjoint(files)
    requires index < |files|
    requires forall j :: 0 <= j < index ==> Less(files[j].Largest(), SeekKey(u, s))
    requires !Less(files[index].Largest(), SeekKey(u, s))
    requires files[index].Smallest().user <= u
    requires Newest(Elems(files[index].entries), u, s, h)
    requires e in Contents(files) && Visible(e, u, s)
    ensures h.Hit? && e.seqno <= h.entry.seqno
  {
    var f :| f in files && e in f.entries;
    var j :| 0 <= j < |files| && files[j] == f;
    FileRange(f, e);
    var g := files[index];
    if j > index {
      // the last entry of the file found is visible too, and it is newer
      var last := g.entries[|g.entries| - 1];
      PrecedesEntries(g, f, last, e);
      FileRange(g, last);
      assert Visible(last, u, s);
      assert last in Elems(g.entries);
    } else {
      assert j == index;
      assert e in Elems(g.entries);
    }
  }

  // ---------------------------------------------------------------------------------------------
  // Level 0: every file that spans the key, newest file first
  // ---------------------------------------------------------------------------------------------

  ghost predicate NewestFirst(files: seq<File>) {
    forall i, j :: 0 <= i < j < |files| ==> files[i].number >= files[j].number
  }

  method InsertNewestFirst(sorted: seq<File>, f: File) returns (r: seq<File>)
    requires NewestFirst(sorted)
    ensures NewestFirst(r)
    ensures multiset(r) == multiset(sorted) + multiset{f}
  {
    var k := 0;
    while k < |sorted| && sorted[k].number >= f.number
      invariant 0 <= k <= |sorted|
      invariant forall i :: 0 <= i < k ==> sorted[i].number >= f.number
    {
      k := k + 1;
    }
    r := sorted[..k] + [f] + sorted[k..];
    SplicedCount(sorted, k, f);
  }

  lemma SplicedCount(files: seq<File>, k: nat, f: File)
    requires k <= |files|
    ensures multiset(files[..k] + [f] + files[k..]) == multiset(files) + multiset{f}
  {
    assert files == files[..k] + files[k..];
  }

  /** std::sort with NewestFirst. */
  method SortNewestFirst(files: seq<File>) returns (sorted: seq<File>)
    ensures multiset(sorted) == multiset(files)
    ensures NewestFirst(sorted)
  {
    sorted := [];
    var n := 0;
    while n < |files|
      invariant 0 <= n <= |files|
      invariant NewestFirst(sorted)
      invariant multiset(sorted) == multiset(files[..n])
    {
      assert files[..n + 1] == files[..n] + [files[n]];
      sorted := InsertNewestFirst(sorted, files[n]);
      n := n + 1;
    }
    assert files[..n] == files;
  }

  /** The files of level 0 to search for `u`, in the order they are searched. */
  method FilesToSearch(files: seq<File>, u: UserKey) returns (order: seq<File>)
    ensures NewestFirst(order)
    ensures forall f :: f in order <==> f in files && f.Spans(u)
  {
    var tmp: seq<File> := [];
    for i := 0 to |files|
      invariant forall f :: f in tmp <==> f in files[..i] && f.Spans(u)
    {
      if files[i].Smallest().user <= u <= files[i].Largest().user {
        tmp := tmp + [files[i]];
      }
    }
    assert files[..|files|] == files;
    order := SortNewestFirst(tmp);
    assert forall f :: f in order <==> f in multiset(order);
    assert forall f :: f in tmp <==> f in multiset(tmp);
  }

  method SearchLevel0(files: seq<File>, u: UserKey, s: Seqno) returns (h: Hit)
    requires NumberedByAge(files)
    ensures Newest(Contents(files), u, s, h)
  {
    var order := FilesToSearch(files, u);
    h := Miss;
    for i := 0 to |order|
      invariant h.Miss?
      invariant forall k :: 0 <= k < i ==> Newest(Elems(order[k].entries), u, s, Miss)
    {
      h := Lookup(order[i].entries, u, s);
      if h.Hit? {
        forall e | e in Contents(files) && Visible(e, u, s) ensures e.seqno <= h.entry.seqno {
          Level0Older(files, order, i, u, s, h, e);
        }
        assert order[i] in order && h.entry in order[i].entries;
        return;
      }
    }
    forall e | e in Contents(files) ensures !Visible(e, u, s) {
      Level0Missing(files, order, u, s, e);
    }
  }

  lemma Level0Missing(files: seq<File>, order: seq<File>, u: UserKey, s: Seqno, e: Entry)
    requires forall f :: f in order <==> f in files && f.Spans(u)
    requires forall k :: 0 <= k < |order| ==> Newest(Elems(order[k].entries), u, s, Miss)
    requires e in Contents(files)
    ensures !Visible(e, u, s)
  {
    var f :| f in files && e in f.entries;
    FileRange(f, e);
    if e.user == u {
      var k :| 0 <= k < |order| && order[k] == f;
      assert e in Elems(order[k].entries);
    }
  }

  lemma Level0Older(files: seq<File>, order: seq<File>, i: nat, u: UserKey, s: Seqno, h: Hit, e: Entry)
    requires NumberedByAge(files)
    requires NewestFirst(order) && i < |order|
    requires forall f :: f in order <==> f in files && f.Spans(u)
    requires forall k :: 0 <= k < i ==> Newest(Elems(order[k].entries), u, s, Miss)
    requires h.Hit? && Newest(Elems(order[i].entries), u, s, h)
    requires e in Contents(files) && Visible(e, u, s)
    ensures e.seqno <= h.entry.seqno
  {
    var f :| f in files && e in f.entries;
    FileRange(f, e);
    var k :| 0 <= k < |order| && order[k] == f;
    assert e in Elems(f.entries);
    var g := order[i];
    assert g in order;
    assert i <= k && f.number <= g.number;
    if f.number == g.number {
      SameNumberSameFile(files, f, g);
    } else {
      assert Layered(Elems(g.entries), Elems(f.entries));
    }
  }

  // ---------------------------------------------------------------------------------------------
  // Version::Get
  // ---------------------------------------------------------------------------------------------

  /** Search level by level and stop at the first level that has an entry for the key. */
  method Get(v: Version, u: UserKey, s: Seqno) returns (h: Hit)
    requires ValidVersion(v)
    ensures Newest(AllContents(v), u, s, h)
  {
    h := Miss;
    var level := 0;
    while level < NUM_LEVELS
      invariant 0 <= level <= NUM_LEVELS
      invariant h.Miss? && Newest(Between(v, 0, level), u, s, Miss)
    {
      if level == 0 {
        h := SearchLevel0(v[0], u, s);
      } else {
        h := SearchSortedLevel(v[level], u, s);
      }
      NewestNextLevel(v, level, u, s, h);
      if h.Hit? {
        NewestBelow(v, level + 1, u, s, h);
        return;
      }
      level := level + 1;
    }
  }

  lemma NewestNextLevel(v: Version, level: nat, u: UserKey, s: Seqno, h: Hit)
    requires ValidVersion(v) && level < |v|
    requires Newest(Between(v, 0, level), u, s, Miss)
    requires Newest(Contents(v[level]), u, s, h)
    ensures Newest(Between(v, 0, level + 1), u, s, h)
  {
    BetweenStep(v, level);
    assert Between(v, 0, level + 1) == Between(v, 0, level) + Contents(v[level]);
  }

  lemma BetweenStep(v: Version, level: nat)
    requires level < |v|
    ensures Between(v, 0, level + 1) == Between(v, 0, level) + Contents(v[level])
  {
    forall e | e in Between(v, 0, level + 1) ensures e in Between(v, 0, level) + Contents(v[level]) {
      var l :| 0 <= l < level + 1 && e in Contents(v[l]);
    }
    forall e | e in Contents(v[level]) ensures e in Between(v, 0, level + 1) {
    }
  }

  lemma NewestBelow(v: Version, level: nat, u: UserKey, s: Seqno, h: Hit)
    requires ValidVersion(v) && level <= |v|
    requires h.Hit? && Newest(Between(v, 0, level), u, s, h)
    ensures Newest(AllContents(v), u, s, h)
  {
    var m :| 0 <= m < level && h.entry in Contents(v[m]);
    assert h.entry in AllContents(v);
    forall e | e in AllContents(v) && Visible(e, u, s) ensures e.seqno <= h.entry.seqno {
      var l :| 0 <= l < |v| && e in Contents(v[l]);
      if l < level {
        assert e in Between(v, 0, level);
      } else {
        assert Layered(Contents(v[m]), Contents(v[l]));
      }
    }
  }
}
