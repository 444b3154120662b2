/** Version edits: the change of one version into the next, and the builder that replays many edits at once. */
module VersionEdits {
  import opened InternalKeys
  import opened Versions

  /** A file of `level`, by number. */
  datatype Deleted = Deleted(level: nat, number: nat)

  datatype Added = Added(level: nat, file: File)

  /** The file changes of one edit. */
  datatype FileChanges = FileChanges(deleted: set<Deleted>, added: seq<Added>)

  function DeletedAt(e: FileChanges, level: nat): set<nat> {
    set d | d in e.deleted && d.level == level :: d.number
  }

  function AddedFiles(added: seq<Added>, level: nat): seq<File> {
    if added == [] then []
    else
      AddedFiles(added[..|added| - 1], level) +
      var a := added[|added| - 1];
      if a.level == level then [a.file] else []
  }

  function Numbers(files: seq<File>): set<nat> {
    set f | f in files :: f.number
  }

  /** BySmallestKey: smallest internal key, ties broken by file number. */
  predicate FileBefore(f: File, g: File) {
    Less(f.Smallest(), g.Smallest()) || (f.Smallest() == g.Smallest() && f.number < g.number)
  }

  ghost predicate KeySorted(files: seq<File>) {
    forall i, j :: 0 <= i < j < |files| ==> FileBefore(files[i], files[j])
  }

  /** The files whose numbers are not in `gone`, in order. */
  function Remove(files: seq<File>, gone: set<nat>): seq<File> {
    if files == [] then []
    else
      Remove(files[..|files| - 1], gone) +
      var last := files[|files| - 1];
      if last.number in gone then [] else [last]
  }

  /** `f` put behind every file that is not after it. */
  function Insert(files: seq<File>, f: File): seq<File> {
    if files == [] || !FileBefore(f, files[|files| - 1]) then files + [f]
    else Insert(files[..|files| - 1], f) + [files[|files| - 1]]
  }

  function InsertAll(files: seq<File>, added: seq<File>): seq<File> {
    if added == [] then files
    else Insert(InsertAll(files, added[..|added| - 1]), added[|added| - 1])
  }

  /** The changes that add `files` to one level. */
  function AddAt(level: nat, files: seq<File>): seq<Added> {
    if files == [] then [] else AddAt(level, files[..|files| - 1]) + [Added(level, files[|files| - 1])]
  }

  lemma {:induction false} AddedAt(level: nat, files: seq<File>, l: nat)
    ensures AddedFiles(AddAt(level, files), l) == if l == level then files else []
    decreases |files|
  {
    if files != [] {
      AddedAt(level, files[..|files| - 1], l);
      var a := AddAt(level, files);
      assert a[..|a| - 1] == AddAt(level, files[..|files| - 1]);
    }
  }

  function ApplyLevel(files: seq<File>, e: FileChanges, level: nat): seq<File> {
    var added := AddedFiles(e.added, level);
    InsertAll(Remove(files, DeletedAt(e, level) - Numbers(added)), added)
  }

  function ApplyEdit(v: Version, e: FileChanges): Version {
    seq(|v|, l requires 0 <= l < |v| => ApplyLevel(v[l], e, l))
  }

  // ---------------------------------------------------------------------------------------------
  // Members and order
  // ---------------------------------------------------------------------------------------------

  lemma {:induction false} RemoveMembers(files: seq<File>, gone: set<nat>)
    ensures forall f :: f in Remove(files, gone) <==> f in files && f.number !in gone
    decreases |files|
  {
    if files != [] {
      RemoveMembers(files[..|files| - 1], gone);
      assert files == files[..|files| - 1] + [files[|files| - 1]];
    }
  }

  lemma {:induction false} RemoveSortedDisjoint(files: seq<File>, gone: set<nat>)
    requires SortedDisjoint(files)
    ensures SortedDisjoint(Remove(files, gone))
    decreases |files|
  {
    if files != [] {
      var init, last := files[..|files| - 1], files[|files| - 1];
      RemoveSortedDisjoint(init, gone);
      RemoveMembers(init, gone);
      var r := Remove(init, gone);
      assert forall i :: 0 <= i < |r| ==> r[i] in r && r[i] in init;
    }
  }

  lemma {:induction false} RemoveKeySorted(files: seq<File>, gone: set<nat>)
    requires KeySorted(files)
    ensures KeySorted(Remove(files, gone))
    decreases |files|
  {
    if files != [] {
      var init, last := files[..|files| - 1], files[|files| - 1];
      RemoveKeySorted(init, gone);
      RemoveMembers(init, gone);
      var r := Remove(init, gone);
      assert forall i :: 0 <= i < |r| ==> r[i] in r && r[i] in init;
    }
  }

  lemma {:induction false} RemoveDistinctNumbers(files: seq<File>, gone: set<nat>)
    requires DistinctNumbers(files)
    ensures DistinctNumbers(Remove(files, gone))
    decreases |files|
  {
    if files != [] {
      var init, last := files[..|files| - 1], files[|files| - 1];
      RemoveDistinctNumbers(init, gone);
      RemoveMembers(init, gone);
      var r := Remove(init, gone);
      assert forall i :: 0 <= i < |r| ==> r[i] in r && r[i] in init;
    }
  }

  lemma {:induction false} InsertMembers(files: seq<File>, f: File)
    ensures forall g :: g in Insert(files, f) <==> g in files || g == f
    ensures |Insert(files, f)| == |files| + 1
    decreases |files|
  {
    if !(files == [] || !FileBefore(f, files[|files| - 1])) {
      InsertMembers(files[..|files| - 1], f);
      assert files == files[..|files| - 1] + [files[|files| - 1]];
    }
  }

  lemma {:induction false} InsertSortedDisjoint(files: seq<File>, f: File)
    requires SortedDisjoint(files)
    requires forall g :: g in files ==> Precedes(f, g) || Precedes(g, f)
    ensures SortedDisjoint(Insert(files, f))
    decreases |files|
  {
    if files != [] {
      var init, last := files[..|files| - 1], files[|files| - 1];
      FileRange(f, f.entries[0]);
      FileRange(last, last.entries[0]);
      if FileBefore(f, last) {
        assert Precedes(f, last);
        InsertSortedDisjoint(init, f);
        InsertMembers(init, f);
        var r := Insert(init, f);
        forall i | 0 <= i < |r| ensures Precedes(r[i], last) {
          assert r[i] in r;
          if r[i] != f {
            var k :| 0 <= k < |init| && init[k] == r[i];
            assert files[k] == r[i];
          }
        }
      } else {
        assert Precedes(last, f);
        forall i | 0 <= i < |files| ensures Precedes(files[i], f) {
          if i < |files| - 1 {
            assert Precedes(files[i], last);
          }
        }
      }
    }
  }

  lemma {:induction false} InsertKeySorted(files: seq<File>, f: File)
    requires KeySorted(files)
    requires forall g :: g in files ==> FileBefore(f, g) || FileBefore(g, f)
    ensures KeySorted(Insert(files, f))
    decreases |files|
  {
    if files != [] {
      var init, last := files[..|files| - 1], files[|files| - 1];
      if FileBefore(f, last) {
        InsertKeySorted(init, f);
        InsertMembers(init, f);
        var r := Insert(init, f);
        forall i | 0 <= i < |r| ensures FileBefore(r[i], last) {
          assert r[i] in r;
          if r[i] != f {
            var k :| 0 <= k < |init| && init[k] == r[i];
            assert files[k] == r[i];
          }
        }
      } else {
        assert FileBefore(last, f);
      }
    }
  }

  lemma {:induction false} InsertDistinctNumbers(files: seq<File>, f: File)
    requires DistinctNumbers(files)
    requires forall g :: g in files ==> g.number != f.number
    ensures DistinctNumbers(Insert(files, f))
    decreases |files|
  {
    if files != [] {
      var init, last := files[..|files| - 1], files[|files| - 1];
      InsertDistinctNumbers(init, f);
      InsertMembers(init, f);
      var r := Insert(init, f);
      forall i | 0 <= i < |r| ensures r[i].number != last.number {
        assert r[i] in r;
        if r[i] == f {
          assert last in files;
        } else {
          var k :| 0 <= k < |init| && init[k] == r[i];
          assert files[k] == r[i];
        }
      }
    }
  }

  lemma {:induction false} InsertAllMembers(files: seq<File>, added: seq<File>)
    ensures forall g :: g in InsertAll(files, added) <==> g in files || g in added
    decreases |added|
  {
    if added != [] {
      InsertAllMembers(files, added[..|added| - 1]);
      InsertMembers(InsertAll(files, added[..|added| - 1]), added[|added| - 1]);
      assert added == added[..|added| - 1] + [added[|added| - 1]];
    }
  }

  lemma {:induction false} InsertAllSortedDisjoint(files: seq<File>, added: seq<File>)
    requires SortedDisjoint(files)
    requires SortedDisjoint(added)
    requires forall f, g :: f in added && g in files ==> Precedes(f, g) || Precedes(g, f)
    ensures SortedDisjoint(InsertAll(files, added))
    decreases |added|
  {
    if added != [] {
      var init, last := added[..|added| - 1], added[|added| - 1];
      assert added == init + [last];
      InsertAllSortedDisjoint(files, init);
      InsertAllMembers(files, init);
      InsertSortedDisjoint(InsertAll(files, init), last);
    }
  }

  lemma {:induction false} InsertAllKeySorted(files: seq<File>, added: seq<File>)
    requires KeySorted(files)
    requires forall f, g :: f in added && g in files ==> f.number != g.number
    requires forall i, j :: 0 <= i < j < |added| ==> added[i].number != added[j].number
    ensures KeySorted(InsertAll(files, added))
    decreases |added|
  {
    if added != [] {
      var init, last := added[..|added| - 1], added[|added| - 1];
      InsertAllKeySorted(files, init);
      InsertAllMembers(files, init);
      InsertKeySorted(InsertAll(files, init), last);
    }
  }

  lemma LastIsGreatest(a: seq<File>, f: File)
    requires KeySorted(a) && a != [] && f in a
    ensures f == a[|a| - 1] || (FileBefore(f, a[|a| - 1]) && f in a[..|a| - 1])
    ensures a[|a| - 1] !in a[..|a| - 1]
  {
    assert a == a[..|a| - 1] + [a[|a| - 1]];
  }

  /** Two sorted lists of the same files are the same list. */
  lemma {:induction false} KeySortedUnique(a: seq<File>, b: seq<File>)
    requires KeySorted(a) && KeySorted(b)
    requires forall f :: f in a <==> f in b
    ensures a == b
    decreases |a|
  {
    assert a != [] ==> a[0] in b;
    assert b != [] ==> b[0] in a;
    if a != [] {
      var x, y := a[|a| - 1], b[|b| - 1];
      LastIsGreatest(b, x);
      LastIsGreatest(a, y);
      assert x == y;
      var a', b' := a[..|a| - 1], b[..|b| - 1];
      forall f ensures f in a' <==> f in b' {
        if f in a' || f in b' {
          LastIsGreatest(a, f);
          LastIsGreatest(b, f);
        }
      }
      KeySortedUnique(a', b');
      assert a == a' + [x] && b == b' + [x];
    }
  }

  lemma SortedDisjointKeySorted(files: seq<File>)
    requires SortedDisjoint(files)
    ensures KeySorted(files)
  {
    forall i, j | 0 <= i < j < |files| ensures FileBefore(files[i], files[j]) {
      assert Precedes(files[i], files[j]);
      FileRange(files[i], files[i].entries[0]);
    }
  }
}
