/** The MANIFEST: a log of version edits, its replay, and the builder that replays many edits in one pass. */
module Manifests {
  import opened Values
  import opened InternalKeys
  import opened Versions
  import opened VersionEdits

  /** The counters LogAndApply adds to every edit; a snapshot of the current version carries none. */
  datatype Meta = NoMeta | Meta(logNumber: nat, nextFile: nat, last: Seqno)

  datatype Record = Record(changes: FileChanges, meta: Meta)

  const EMPTY_VERSION: Version := [[], [], [], [], [], [], []]

  function ReplayFrom(v: Version, edits: seq<FileChanges>): Version {
    if edits == [] then v
    else ApplyEdit(ReplayFrom(v, edits[..|edits| - 1]), edits[|edits| - 1])
  }

  function Changes(m: seq<Record>): seq<FileChanges> {
    if m == [] then [] else Changes(m[..|m| - 1]) + [m[|m| - 1].changes]
  }

  /** The version after one edit at a time. */
  function ReplayVersion(m: seq<Record>): Version {
    ReplayFrom(EMPTY_VERSION, Changes(m))
  }

  /** The counters as last recorded. */
  function ReplayMeta(m: seq<Record>): Meta {
    if m == [] then NoMeta
    else if m[|m| - 1].meta.Meta? then m[|m| - 1].meta
    else ReplayMeta(m[..|m| - 1])
  }

  lemma ReplayAppend(m: seq<Record>, r: Record)
    ensures ReplayVersion(m + [r]) == ApplyEdit(ReplayVersion(m), r.changes)
    ensures r.meta.Meta? ==> ReplayMeta(m + [r]) == r.meta
    ensures Changes(m + [r]) == Changes(m) + [r.changes]
  {
    assert (m + [r])[..|m|] == m;
    assert Changes(m + [r])[..|Changes(m)|] == Changes(m);
  }

  // ---------------------------------------------------------------------------------------------
  // WriteSnapshot
  // ---------------------------------------------------------------------------------------------

  function SnapshotAdds(v: Version, n: nat): seq<Added>
    requires n <= |v|
    decreases n
  {
    if n == 0 then [] else SnapshotAdds(v, n - 1) + AddAt(n - 1, v[n - 1])
  }

  function SnapshotChanges(v: Version): FileChanges {
    FileChanges({}, SnapshotAdds(v, |v|))
  }

  lemma {:induction false} AddedFilesConcat(a: seq<Added>, b: seq<Added>, l: nat)
    ensures Same(AddedFiles(a + b, l), AddedFiles(a, l) + AddedFiles(b, l))
    decreases |b|
  {
    if b == [] {
      assert a + b == a;
      EmptyConcat(AddedFiles(a, l));
    } else {
      assert (a + b)[..|a + b| - 1] == a + b[..|b| - 1];
      AddedFilesConcat(a, b[..|b| - 1], l);
      ConcatAssociates(AddedFiles(a, l), AddedFiles(b[..|b| - 1], l), if b[|b| - 1].level == l then [b[|b| - 1].file] else []);
    }
  }

  lemma {:induction false} SnapshotLevel(v: Version, n: nat, l: nat)
    requires n <= |v|
    ensures Same(AddedFiles(SnapshotAdds(v, n), l), if l < n then v[l] else [])
    decreases n
  {
    if n > 0 {
      SnapshotLevel(v, n - 1, l);
      AddedFilesConcat(SnapshotAdds(v, n - 1), AddAt(n - 1, v[n - 1]), l);
      AddedAtLevel(n - 1, v[n - 1], l);
      EmptyConcat(v[n - 1]);
      EmptyConcat(if l < n - 1 then v[l] else []);
    }
  }

  lemma AddedAtLevel(level: nat, files: seq<File>, l: nat)
    ensures Same(AddedFiles(AddAt(level, files), l), if l == level then files else [])
  {
    AddedAt(level, files, l);
  }

  lemma EmptyConcat(files: seq<File>)
    ensures Same(files + [], files) && Same([] + files, files)
  {
    assert files + [] == files && [] + files == files;
  }

  lemma InsertAtEnd(files: seq<File>, f: File)
    requires files != [] ==> FileBefore(files[|files| - 1], f)
    ensures Insert(files, f) == files + [f]
  {
  }

  lemma {:induction false} InsertAllInOrder(files: seq<File>)
    requires KeySorted(files)
    ensures InsertAll([], files) == files
    decreases |files|
  {
    if files != [] {
      var init, last := files[..|files| - 1], files[|files| - 1];
      InsertAllInOrder(init);
      InsertAtEnd(init, last);
      assert files == init + [last];
    }
  }

  ghost predicate KeySortedLevels(v: Version) {
    forall l {:trigger KeySorted(v[l])} :: 0 <= l < |v| ==> KeySorted(v[l])
  }

  lemma SnapshotOneLevel(v: Version, l: nat)
    requires l < |v| && KeySorted(v[l])
    ensures ApplyLevel([], SnapshotChanges(v), l) == v[l]
  {
    SnapshotLevel(v, |v|, l);
    InsertAllInOrder(v[l]);
  }

  /** Reading back the snapshot of a version gives that version. */
  lemma SnapshotReplays(v: Version)
    requires |v| == NUM_LEVELS && KeySortedLevels(v)
    ensures ApplyEdit(EMPTY_VERSION, SnapshotChanges(v)) == v
  {
    var e := SnapshotChanges(v);
    forall l | 0 <= l < NUM_LEVELS ensures ApplyLevel(EMPTY_VERSION[l], e, l) == v[l] {
      SnapshotOneLevel(v, l);
    }
  }

  // ---------------------------------------------------------------------------------------------
  // VersionSet::Builder
  // ---------------------------------------------------------------------------------------------

  /** Deleted numbers and added files of one level after a sequence of edits. */
  function DeletedAfter(edits: seq<FileChanges>, l: nat): set<nat> {
    if edits == [] then {}
    else
      var e := edits[|edits| - 1];
      (DeletedAfter(edits[..|edits| - 1], l) + DeletedAt(e, l)) - Numbers(AddedFiles(e.added, l))
  }

  function AddedAfter(edits: seq<FileChanges>, l: nat): seq<File> {
    if edits == [] then []
    else AddedAfter(edits[..|edits| - 1], l) + AddedFiles(edits[|edits| - 1].added, l)
  }

  /** std::set::insert: an element equal under the order is not added again. */
  function SetInsert(files: seq<File>, f: File): seq<File> {
    if exists i :: 0 <= i < |files| && !FileBefore(f, files[i]) && !FileBefore(files[i], f) then files
    else Insert(files, f)
  }

  lemma SetInsertKeySorted(files: seq<File>, f: File)
    requires KeySorted(files)
    ensures KeySorted(SetInsert(files, f))
    ensures forall g :: g in SetInsert(files, f) ==> g in files || g == f
    ensures (forall g :: g in files ==> g.number != f.number) ==> SetInsert(files, f) == Insert(files, f)
  {
    if SetInsert(files, f) != files {
      InsertKeySorted(files, f);
      InsertMembers(files, f);
    }
  }

  /** What the builder holds for one level once `edits` are applied. */
  ghost predicate LevelState(deleted: set<nat>, added: seq<File>, edits: seq<FileChanges>, l: nat) {
    && deleted == DeletedAfter(edits, l)
    && KeySorted(added)
    && (DistinctNumbers(AddedAfter(edits, l)) ==> forall f :: f in added <==> f in AddedAfter(edits, l))
  }

  /** The same in the middle of an edit, after its deletions and its first `i` additions. */
  ghost predicate Partial(deleted: set<nat>, added: seq<File>, edits: seq<FileChanges>, e: FileChanges, i: nat, l: nat) {
    && i <= |e.added|
    && deleted == (DeletedAfter(edits, l) + DeletedAt(e, l)) - Numbers(AddedFiles(e.added[..i], l))
    && KeySorted(added)
    && (DistinctNumbers(AddedAfter(edits, l) + AddedFiles(e.added[..i], l)) ==>
          forall f :: f in added <==> f in AddedAfter(edits, l) + AddedFiles(e.added[..i], l))
  }

  lemma PartialStart(deleted: set<nat>, added: seq<File>, edits: seq<FileChanges>, e: FileChanges, l: nat)
    requires LevelState(deleted, added, edits, l)
    ensures Partial(deleted + DeletedAt(e, l), added, edits, e, 0, l)
  {
    assert AddedFiles(e.added[..0], l) == [];
    assert AddedAfter(edits, l) + [] == AddedAfter(edits, l);
  }

  lemma PartialDone(deleted: set<nat>, added: seq<File>, edits: seq<FileChanges>, e: FileChanges, l: nat)
    requires Partial(deleted, added, edits, e, |e.added|, l)
    ensures LevelState(deleted, added, edits + [e], l)
  {
    assert e.added[..|e.added|] == e.added;
    assert (edits + [e])[..|edits|] == edits;
  }

  lemma PartialElsewhere(deleted: set<nat>, added: seq<File>, edits: seq<FileChanges>, e: FileChanges, i: nat, l: nat)
    requires Partial(deleted, added, edits, e, i, l) && i < |e.added| && e.added[i].level != l
    ensures Partial(deleted, added, edits, e, i + 1, l)
  {
    assert e.added[..i + 1][..i] == e.added[..i];
    assert AddedFiles(e.added[..i + 1], l) == AddedFiles(e.added[..i], l);
  }

  lemma PartialHere(deleted: set<nat>, added: seq<File>, edits: seq<FileChanges>, e: FileChanges, i: nat)
    requires i < |e.added| && Partial(deleted, added, edits, e, i, e.added[i].level)
    ensures Partial(deleted - {e.added[i].file.number}, SetInsert(added, e.added[i].file), edits, e, i + 1, e.added[i].level)
  {
    var l, f := e.added[i].level, e.added[i].file;
    assert e.added[..i + 1][..i] == e.added[..i];
    assert AddedFiles(e.added[..i + 1], l) == AddedFiles(e.added[..i], l) + [f];
    AddOne(AddedAfter(edits, l), AddedFiles(e.added[..i], l), added, f);
  }

  class Builder {
    const base: Version
    var deleted: seq<set<nat>>
    var added: seq<seq<File>>
    ghost var edits: seq<FileChanges>

    ghost predicate Valid()
      reads this
    {
      && |base| == |deleted| == |added|
      && forall l :: 0 <= l < |base| ==> LevelState(deleted[l], added[l], edits, l)
    }

    constructor (base: Version)
      ensures Valid() && edits == [] && this.base == base
    {
      this.base := base;
      deleted := seq(|base|, _ => {});
      added := seq(|base|, _ => []);
      edits := [];
    }

    /** Deletions first, then additions; adding a file takes its number off the deleted ones. */
    method Apply(e: FileChanges)
      requires Valid()
      modifies this
      ensures Valid() && edits == old(edits) + [e]
    {
      ApplyDeletions(e);
      for i := 0 to |e.added|
        invariant |base| == |deleted| == |added| && edits == old(edits)
        invariant forall l :: 0 <= l < |base| ==> Partial(deleted[l], added[l], edits, e, i, l)
      {
        AddFile(e, i);
      }
      forall l | 0 <= l < |base| ensures LevelState(deleted[l], added[l], edits + [e], l) {
        PartialDone(deleted[l], added[l], edits, e, l);
      }
      edits := edits + [e];
    }

    method ApplyDeletions(e: FileChanges)
      requires Valid()
      modifies this`deleted
      ensures |base| == |deleted| == |added|
      ensures forall l :: 0 <= l < |base| ==> Partial(deleted[l], added[l], edits, e, 0, l)
    {
      var l := 0;
      while l < |base|
        invariant 0 <= l <= |base| == |deleted| == |added|
        invariant forall k :: 0 <= k < l ==> Partial(deleted[k], added[k], edits, e, 0, k)
        invariant forall k :: l <= k < |base| ==> LevelState(deleted[k], added[k], edits, k)
      {
        PartialStart(deleted[l], added[l], edits, e, l);
        deleted := deleted[l := deleted[l] + DeletedAt(e, l)];
        l := l + 1;
      }
    }

    method AddFile(e: FileChanges, i: nat)
      requires |base| == |deleted| == |added| && i < |e.added|
      requires forall l :: 0 <= l < |base| ==> Partial(deleted[l], added[l], edits, e, i, l)
      modifies this`deleted, this`added
      ensures |base| == |deleted| == |added|
      ensures forall l :: 0 <= l < |base| ==> Partial(deleted[l], added[l], edits, e, i + 1, l)
    {
      var a := e.added[i];
      forall l | 0 <= l < |base| && l != a.level ensures Partial(deleted[l], added[l], edits, e, i + 1, l) {
        PartialElsewhere(deleted[l], added[l], edits, e, i, l);
      }
      if a.level < |base| {
        PartialHere(deleted[a.level], added[a.level], edits, e, i);
        deleted := deleted[a.level := deleted[a.level] - {a.file.number}];
        added := added[a.level := SetInsert(added[a.level], a.file)];
      }
    }

    /** Merge what is left of the base with what was added, level by level. */
    method SaveTo() returns (v: Version)
      requires Valid() && KeySortedLevels(base)
      ensures |v| == |base| == |ReplayFrom(base, edits)|
      ensures forall l :: 0 <= l < |v| && AddsAreNew(base, edits, l) ==> v[l] == ReplayFrom(base, edits)[l]
      ensures base == EMPTY_VERSION ==> Built(edits, v)
    {
      v := [];
      ReplayLength(base, edits);
      for l := 0 to |base|
        invariant |v| == l
        invariant forall k :: 0 <= k < l && AddsAreNew(base, edits, k) ==> v[k] == ReplayFrom(base, edits)[k]
        invariant base == EMPTY_VERSION ==> forall k :: 0 <= k < l ==> BuiltLevel(edits, v[k], k)
      {
        var files := SaveLevel(l);
        v := v + [files];
      }
    }

    method SaveLevel(l: nat) returns (files: seq<File>)
      requires Valid() && l < |base| && KeySortedLevels(base)
      ensures AddsAreNew(base, edits, l) ==> |ReplayFrom(base, edits)| == |base| && files == ReplayFrom(base, edits)[l]
      ensures base == EMPTY_VERSION ==> BuiltLevel(edits, files, l)
    {
      assert KeySorted(base[l]);
      files := MergeLevel(base[l], added[l], deleted[l]);
      if AddsAreNew(base, edits, l) {
        MergedIsReplayed(base, edits, l, added[l], files);
      }
      assert base == EMPTY_VERSION ==> base[l] == [];
    }
  }

  /** What one pass over all edits of a manifest makes of a level: where no number was added twice, its files are those added
      and not deleted since, in order. */
  ghost predicate BuiltLevel(edits: seq<FileChanges>, files: seq<File>, l: nat) {
    DistinctNumbers(AddedAfter(edits, l)) ==>
      KeySorted(files) && forall f :: f in files <==> f in AddedAfter(edits, l) && f.number !in DeletedAfter(edits, l)
  }

  ghost predicate Built(edits: seq<FileChanges>, v: Version) {
    |v| == NUM_LEVELS && forall l :: 0 <= l < NUM_LEVELS ==> BuiltLevel(edits, v[l], l)
  }

  /** VersionSet::Recover applies every edit to one builder and saves once. */
  method BuildVersion(edits: seq<FileChanges>) returns (v: Version)
    ensures Built(edits, v)
  {
    var builder := new Builder(EMPTY_VERSION);
    for i := 0 to |edits|
      invariant fresh(builder) && builder.Valid() && builder.base == EMPTY_VERSION && builder.edits == edits[..i]
    {
      builder.Apply(edits[i]);
      assert edits[..i + 1] == edits[..i] + [edits[i]];
    }
    assert edits[..|edits|] == edits;
    v := builder.SaveTo();
  }

  /** Every file number is added to a level at most once. */
  ghost predicate AddedOnce(edits: seq<FileChanges>) {
    forall l :: 0 <= l < NUM_LEVELS ==> DistinctNumbers(AddedAfter(edits, l))
  }

  /** Then the one pass finds the version that one edit at a time leads to, and nothing else. */
  lemma BuiltIsReplayed(edits: seq<FileChanges>, v: Version)
    requires AddedOnce(edits)
    ensures Built(edits, v) <==> v == ReplayFrom(EMPTY_VERSION, edits)
  {
    ReplayLength(EMPTY_VERSION, edits);
    forall l | 0 <= l < NUM_LEVELS && |v| == NUM_LEVELS
      ensures BuiltLevel(edits, v[l], l) <==> v[l] == ReplayFrom(EMPTY_VERSION, edits)[l]
    {
      assert EMPTY_VERSION[l] == [];
      ReplayLevel(EMPTY_VERSION, edits, l);
      if BuiltLevel(edits, v[l], l) {
        KeySortedUnique(v[l], ReplayFrom(EMPTY_VERSION, edits)[l]);
      }
    }
  }

  lemma AddOne(before: seq<File>, sofar: seq<File>, added: seq<File>, f: File)
    requires KeySorted(added)
    requires DistinctNumbers(before + sofar) ==> forall g :: g in added <==> g in before + sofar
    ensures KeySorted(SetInsert(added, f))
    ensures DistinctNumbers(before + (sofar + [f])) ==> forall g :: g in SetInsert(added, f) <==> g in before + (sofar + [f])
    ensures Numbers(sofar + [f]) == Numbers(sofar) + {f.number}
  {
    SetInsertKeySorted(added, f);
    var all := before + (sofar + [f]);
    assert all == (before + sofar) + [f];
    if DistinctNumbers(all) {
      assert DistinctNumbers(before + sofar) by {
        assert forall i :: 0 <= i < |before + sofar| ==> (before + sofar)[i] == all[i];
      }
      forall g | g in added ensures g.number != f.number {
        var i :| 0 <= i < |before + sofar| && (before + sofar)[i] == g;
        assert all[i] == g && all[|all| - 1] == f;
      }
      InsertMembers(added, f);
    }
  }

  // ---------------------------------------------------------------------------------------------
  // One pass over all edits is the same as one version per edit
  // ---------------------------------------------------------------------------------------------

  /** At level `l` every file number is added at most once and is not in the base. */
  predicate AddsAreNew(base: Version, edits: seq<FileChanges>, l: nat)
    requires l < |base|
  {
    && DistinctNumbers(AddedAfter(edits, l))
    && forall f, g :: f in base[l] && g in AddedAfter(edits, l) ==> f.number != g.number
  }

  lemma {:induction false} ReplayLength(base: Version, edits: seq<FileChanges>)
    ensures |ReplayFrom(base, edits)| == |base|
    decreases |edits|
  {
    if edits != [] {
      ReplayLength(base, edits[..|edits| - 1]);
    }
  }

  lemma EarlierAddsAreNew(base: Version, edits: seq<FileChanges>, l: nat)
    requires l < |base| && edits != [] && AddsAreNew(base, edits, l)
    ensures AddsAreNew(base, edits[..|edits| - 1], l)
    ensures var now := AddedFiles(edits[|edits| - 1].added, l);
            DistinctNumbers(now) &&
            forall f, g :: (f in base[l] || f in AddedAfter(edits[..|edits| - 1], l)) && g in now ==> f.number != g.number
  {
    var a, now, all := AddedAfter(edits[..|edits| - 1], l), AddedFiles(edits[|edits| - 1].added, l), AddedAfter(edits, l);
    assert all == a + now;
    assert forall i :: 0 <= i < |a| ==> a[i] == all[i];
    assert forall i :: 0 <= i < |now| ==> now[i] == all[|a| + i];
    forall f, g | (f in base[l] || f in a) && g in now ensures f.number != g.number {
      var j :| 0 <= j < |now| && now[j] == g;
      if f in a {
        var i :| 0 <= i < |a| && a[i] == f;
        assert all[i] == f && all[|a| + j] == g;
      } else {
        assert g in all;
      }
    }
  }

  /** The level after one edit at a time, as a set and in order. */
  lemma {:induction false} ReplayLevel(base: Version, edits: seq<FileChanges>, l: nat)
    requires l < |base| && KeySorted(base[l]) && AddsAreNew(base, edits, l)
    ensures |ReplayFrom(base, edits)| == |base| && KeySorted(ReplayFrom(base, edits)[l])
    ensures forall f :: f in ReplayFrom(base, edits)[l] <==>
                (f in base[l] || f in AddedAfter(edits, l)) && f.number !in DeletedAfter(edits, l)
    decreases |edits|
  {
    if edits != [] {
      var init, e := edits[..|edits| - 1], edits[|edits| - 1];
      EarlierAddsAreNew(base, edits, l);
      ReplayLevel(base, init, l);
      ReplayLevelStep(base, init, e, l, ReplayFrom(base, init)[l]);
    }
  }

  lemma ReplayLevelStep(base: Version, init: seq<FileChanges>, e: FileChanges, l: nat, files: seq<File>)
    requires l < |base| && KeySorted(files)
    requires forall f :: f in files <==> (f in base[l] || f in AddedAfter(init, l)) && f.number !in DeletedAfter(init, l)
    requires var now := AddedFiles(e.added, l);
             DistinctNumbers(now) &&
             forall f, g :: (f in base[l] || f in AddedAfter(init, l)) && g in now ==> f.number != g.number
    ensures KeySorted(ApplyLevel(files, e, l))
    ensures forall f :: f in ApplyLevel(files, e, l) <==>
                (f in base[l] || f in AddedAfter(init, l) + AddedFiles(e.added, l)) &&
                f.number !in (DeletedAfter(init, l) + DeletedAt(e, l)) - Numbers(AddedFiles(e.added, l))
  {
    var now := AddedFiles(e.added, l);
    var gone := DeletedAt(e, l) - Numbers(now);
    RemoveMembers(files, gone);
    RemoveKeySorted(files, gone);
    InsertAllMembers(Remove(files, gone), now);
    InsertAllKeySorted(Remove(files, gone), now);
  }

  lemma MergedIsReplayed(base: Version, edits: seq<FileChanges>, l: nat, added: seq<File>, merged: seq<File>)
    requires l < |base| && KeySorted(base[l]) && AddsAreNew(base, edits, l)
    requires forall f :: f in added <==> f in AddedAfter(edits, l)
    requires (forall f, g :: f in base[l] && g in added ==> FileBefore(f, g) || FileBefore(g, f)) ==> KeySorted(merged)
    requires forall f :: f in merged <==> (f in base[l] || f in added) && f.number !in DeletedAfter(edits, l)
    ensures |ReplayFrom(base, edits)| == |base| && merged == ReplayFrom(base, edits)[l]
  {
    ReplayLevel(base, edits, l);
    KeySortedUnique(merged, ReplayFrom(base, edits)[l]);
  }

  // ---------------------------------------------------------------------------------------------
  // The merge loop of SaveTo
  // ---------------------------------------------------------------------------------------------

  predicate Keeps(f: File, deleted: set<nat>) {
    f.number !in deleted
  }

  /** All base files before each added file, then that file; deleted ones are left out. */
  method MergeLevel(base: seq<File>, added: seq<File>, deleted: set<nat>) returns (r: seq<File>)
    requires KeySorted(base) && KeySorted(added)
    ensures forall f :: f in r <==> (f in base || f in added) && f.number !in deleted
    ensures (forall f, g :: f in base && g in added ==> FileBefore(f, g) || FileBefore(g, f)) ==> KeySorted(r)
  {
    r := [];
    var b := 0;
    ghost var comparable := forall f, g :: f in base && g in added ==> FileBefore(f, g) || FileBefore(g, f);
    for a := 0 to |added|
      invariant 0 <= b <= |base|
      invariant forall f :: f in r <==> (f in base[..b] || f in added[..a]) && f.number !in deleted
      invariant forall i :: b <= i < |base| && a > 0 ==> FileBefore(added[a - 1], base[i])
      invariant comparable ==> KeySorted(r)
      invariant comparable ==> forall f :: f in r ==> a < |added| ==> FileBefore(f, added[a])
    {
      var pos := UpperBound(base, b, added[a]);
      r, b := CopyBase(base, b, pos, deleted, r, added, a);
      r := CopyAdded(base, b, added, a, deleted, r);
    }
    r, b := CopyRest(base, b, deleted, r, added);
    assert base[..|base|] == base && added[..|added|] == added;
  }

  /** std::upper_bound over the rest of the base. */
  method UpperBound(base: seq<File>, from: nat, f: File) returns (pos: nat)
    requires KeySorted(base) && from <= |base|
    ensures from <= pos <= |base|
    ensures forall i :: from <= i < pos ==> !FileBefore(f, base[i])
    ensures forall i :: pos <= i < |base| ==> FileBefore(f, base[i])
  {
    var lo, hi := from, |base|;
    while lo < hi
      invariant from <= lo <= hi <= |base|
      invariant forall i :: from <= i < lo ==> !FileBefore(f, base[i])
      invariant forall i :: hi <= i < |base| ==> FileBefore(f, base[i])
    {
      var mid := (lo + hi) / 2;
      if FileBefore(f, base[mid]) {
        hi := mid;
      } else {
        lo := mid + 1;
      }
    }
    pos := lo;
  }

  method CopyBase(base: seq<File>, from: nat, to: nat, deleted: set<nat>, r0: seq<File>, ghost added: seq<File>, ghost a: nat)
    returns (r: seq<File>, b: nat)
    requires KeySorted(base) && KeySorted(added) && from <= to <= |base| && a < |added|
    requires forall f :: f in r0 <==> (f in base[..from] || f in added[..a]) && f.number !in deleted
    requires forall i :: from <= i < |base| && a > 0 ==> FileBefore(added[a - 1], base[i])
    requires forall i :: from <= i < to ==> !FileBefore(added[a], base[i])
    ensures b == to
    ensures forall f :: f in r <==> (f in base[..b] || f in added[..a]) && f.number !in deleted
    ensures var comparable := forall f, g :: f in base && g in added ==> FileBefore(f, g) || FileBefore(g, f);
            comparable && KeySorted(r0) && (forall f :: f in r0 ==> FileBefore(f, added[a])) ==>
              KeySorted(r) && forall f :: f in r ==> FileBefore(f, added[a])
  {
    r, b := r0, from;
    ghost var ok := (forall f, g :: f in base && g in added ==> FileBefore(f, g) || FileBefore(g, f)) &&
                    KeySorted(r0) && (forall f :: f in r0 ==> FileBefore(f, added[a]));
    while b < to
      invariant from <= b <= to
      invariant forall f :: f in r <==> (f in base[..b] || f in added[..a]) && f.number !in deleted
      invariant ok ==> KeySorted(r) && forall f :: f in r ==> FileBefore(f, added[a])
    {
      assert base[..b + 1] == base[..b] + [base[b]];
      if Keeps(base[b], deleted) {
        if ok {
          forall f | f in r ensures FileBefore(f, base[b]) {
            BeforeNextBase(base, b, added, a, f);
          }
        }
        r := r + [base[b]];
      }
      b := b + 1;
    }
  }

  lemma BeforeNextBase(base: seq<File>, b: nat, added: seq<File>, a: nat, f: File)
    requires KeySorted(base) && KeySorted(added) && b < |base| && a <= |added|
    requires a > 0 ==> FileBefore(added[a - 1], base[b])
    requires f in base[..b] || f in added[..a]
    ensures FileBefore(f, base[b])
  {
    if f in base[..b] {
      var i :| 0 <= i < b && base[i] == f;
    } else {
      var i :| 0 <= i < a && added[i] == f;
      assert i < a - 1 ==> FileBefore(added[i], added[a - 1]);
    }
  }

  method CopyAdded(ghost base: seq<File>, ghost b: nat, added: seq<File>, a: nat, deleted: set<nat>, r0: seq<File>)
    returns (r: seq<File>)
    requires KeySorted(added) && a < |added| && b <= |base|
    requires forall f :: f in r0 <==> (f in base[..b] || f in added[..a]) && f.number !in deleted
    ensures forall f :: f in r <==> (f in base[..b] || f in added[..a + 1]) && f.number !in deleted
    ensures KeySorted(r0) && (forall f :: f in r0 ==> FileBefore(f, added[a])) ==>
              KeySorted(r) && forall f :: f in r ==> a + 1 < |added| ==> FileBefore(f, added[a + 1])
  {
    assert added[..a + 1] == added[..a] + [added[a]];
    assert a + 1 < |added| ==> FileBefore(added[a], added[a + 1]);
    r := if Keeps(added[a], deleted) then r0 + [added[a]] else r0;
  }

  method CopyRest(base: seq<File>, from: nat, deleted: set<nat>, r0: seq<File>, ghost added: seq<File>)
    returns (r: seq<File>, b: nat)
    requires KeySorted(base) && KeySorted(added) && from <= |base|
    requires forall f :: f in r0 <==> (f in base[..from] || f in added[..|added|]) && f.number !in deleted
    requires forall i :: from <= i < |base| && |added| > 0 ==> FileBefore(added[|added| - 1], base[i])
    ensures b == |base|
    ensures forall f :: f in r <==> (f in base[..b] || f in added[..|added|]) && f.number !in deleted
    ensures KeySorted(r0) ==> KeySorted(r)
  {
    r, b := r0, from;
    while b < |base|
      invariant from <= b <= |base|
      invariant forall f :: f in r <==> (f in base[..b] || f in added[..|added|]) && f.number !in deleted
      invariant KeySorted(r0) ==> KeySorted(r)
    {
      assert base[..b + 1] == base[..b] + [base[b]];
      if Keeps(base[b], deleted) {
        forall f | f in r ensures FileBefore(f, base[b]) {
          BeforeNextBase(base, b, added, |added|, f);
        }
        r := r + [base[b]];
      }
      b := b + 1;
    }
  }

  // ---------------------------------------------------------------------------------------------
  // Why no number is ever added to a level twice
  // ---------------------------------------------------------------------------------------------

  /** Some edit has added a file with this number to this level. */
  ghost predicate SeenAt(edits: seq<FileChanges>, l: nat, n: nat) {
    exists f :: f in AddedAfter(edits, l) && f.number == n
  }

  ghost predicate Seen(edits: seq<FileChanges>, n: nat) {
    exists l: nat :: l < NUM_LEVELS && SeenAt(edits, l, n)
  }

  /** Files only ever move down: a number that was added to a level is at no level above it. */
  ghost predicate OnlyDown(edits: seq<FileChanges>, v: Version)
    requires |v| == NUM_LEVELS
  {
    forall l: nat, m: nat, g: File {:trigger SeenAt(edits, l, g.number), v[m]} ::
      m < l < NUM_LEVELS && g in v[m] ==> !SeenAt(edits, l, g.number)
  }

  ghost predicate VersionSeen(edits: seq<FileChanges>, v: Version)
    requires |v| == NUM_LEVELS
  {
    forall l: nat, g: File :: l < NUM_LEVELS && g in v[l] ==> Seen(edits, g.number)
  }

  ghost predicate EditsOk(edits: seq<FileChanges>, v: Version, nextFile: nat) {
    && |v| == NUM_LEVELS && AddedOnce(edits) && OnlyDown(edits, v) && VersionSeen(edits, v)
    && forall n: nat :: Seen(edits, n) ==> n < nextFile
  }

  /** The edit adds `files` at `level` and nothing else. */
  ghost predicate AddsOnlyAt(e: FileChanges, level: nat, files: seq<File>) {
    forall l: nat :: l < NUM_LEVELS ==> AddedFiles(e.added, l) == if l == level then files else []
  }

  lemma SeenAtStep(edits: seq<FileChanges>, e: FileChanges, level: nat, files: seq<File>, l: nat, n: nat)
    requires AddsOnlyAt(e, level, files) && l < NUM_LEVELS
    ensures SeenAt(edits + [e], l, n) <==> SeenAt(edits, l, n) || (l == level && n in Numbers(files))
  {
    AddedAfterStep(edits, e, level, files, l);
    if l == level {
      assert forall f :: f in AddedAfter(edits, l) + files <==> f in AddedAfter(edits, l) || f in files;
    }
  }

  lemma SeenStep(edits: seq<FileChanges>, e: FileChanges, level: nat, files: seq<File>, n: nat)
    requires AddsOnlyAt(e, level, files) && level < NUM_LEVELS
    ensures Seen(edits + [e], n) <==> Seen(edits, n) || n in Numbers(files)
  {
    forall l: nat | l < NUM_LEVELS
      ensures SeenAt(edits + [e], l, n) <==> SeenAt(edits, l, n) || (l == level && n in Numbers(files))
    {
      SeenAtStep(edits, e, level, files, l, n);
    }
    if n in Numbers(files) {
      assert SeenAt(edits + [e], level, n);
    }
    if Seen(edits, n) {
      var l: nat :| l < NUM_LEVELS && SeenAt(edits, l, n);
      assert SeenAt(edits + [e], l, n);
    }
  }

  lemma AddedAfterStep(edits: seq<FileChanges>, e: FileChanges, level: nat, files: seq<File>, l: nat)
    requires AddsOnlyAt(e, level, files) && l < NUM_LEVELS
    ensures AddedAfter(edits + [e], l) == AddedAfter(edits, l) + if l == level then files else []
  {
    assert (edits + [e])[..|edits|] == edits;
  }

  lemma DistinctConcat(a: seq<File>, b: seq<File>)
    requires DistinctNumbers(a) && DistinctNumbers(b) && forall f, g :: f in a && g in b ==> f.number != g.number
    ensures DistinctNumbers(a + b)
  {
    forall i, j | 0 <= i < j < |a + b| ensures (a + b)[i].number != (a + b)[j].number {
      assert i < |a| ==> a[i] in a;
      assert j >= |a| ==> b[j - |a|] in b;
    }
  }

  lemma StillAddedOnce(edits: seq<FileChanges>, e: FileChanges, level: nat, files: seq<File>)
    requires AddedOnce(edits) && AddsOnlyAt(e, level, files) && level < NUM_LEVELS
    requires DistinctNumbers(files) && forall f :: f in files ==> !SeenAt(edits, level, f.number)
    ensures AddedOnce(edits + [e])
  {
    forall l | 0 <= l < NUM_LEVELS ensures DistinctNumbers(AddedAfter(edits + [e], l)) {
      AddedAfterStep(edits, e, level, files, l);
      if l == level {
        forall f, g | f in AddedAfter(edits, l) && g in files ensures f.number != g.number {
          assert SeenAt(edits, l, f.number);
        }
        DistinctConcat(AddedAfter(edits, l), files);
      } else {
        assert AddedAfter(edits, l) + [] == AddedAfter(edits, l);
      }
    }
  }

  /** Where the files of the new version come from. */
  ghost predicate FilesFrom(v: Version, v': Version, level: nat, files: seq<File>) {
    && |v| == |v'| == NUM_LEVELS
    && forall l: nat, g: File :: l < NUM_LEVELS && g in v'[l] ==> g in v[l] || (l == level && g in files)
  }

  lemma FreshIsDown(edits: seq<FileChanges>, v: Version, v': Version, level: nat, files: seq<File>, l: nat, m: nat, g: File)
    requires FilesFrom(v, v', level, files) && OnlyDown(edits, v) && VersionSeen(edits, v)
    requires forall f :: f in files ==> !Seen(edits, f.number)
    requires m < l < NUM_LEVELS && level < NUM_LEVELS && g in v'[m]
    ensures !SeenAt(edits, l, g.number) && !(l == level && g.number in Numbers(files))
  {
    if g in v[m] {
      assert !SeenAt(edits, l, g.number) && Seen(edits, g.number);
    } else {
      assert g in files && !Seen(edits, g.number);
    }
  }

  lemma MovedIsDown(edits: seq<FileChanges>, v: Version, v': Version, level: nat, moved: File, l: nat, m: nat, g: File)
    requires |v| == |v'| == NUM_LEVELS && OnlyDown(edits, v) && 0 < level < NUM_LEVELS && moved in v[level - 1]
    requires m < l < NUM_LEVELS && g in v'[m] && (g in v[m] || (m == level && g in [moved]))
    requires m < level ==> g.number != moved.number
    ensures !SeenAt(edits, l, g.number) && !(l == level && g.number in Numbers([moved]))
  {
    var above := level - 1;
    assert moved in v[above];
    if g in v[m] {
      assert !SeenAt(edits, l, g.number);
    } else {
      assert !SeenAt(edits, l, moved.number);
    }
    assert Numbers([moved]) == {moved.number};
  }

  /** An edit that adds files under numbers no edit has added before. */
  lemma FreshKeepsEdits(edits: seq<FileChanges>, e: FileChanges, v: Version, v': Version, level: nat, files: seq<File>,
                        nextFile: nat, nextFile': nat)
    requires EditsOk(edits, v, nextFile) && nextFile <= nextFile' && level < NUM_LEVELS && AddsOnlyAt(e, level, files)
    requires DistinctNumbers(files) && forall f :: f in files ==> !Seen(edits, f.number) && f.number < nextFile'
    requires FilesFrom(v, v', level, files)
    ensures EditsOk(edits + [e], v', nextFile')
  {
    forall f | f in files ensures !SeenAt(edits, level, f.number) {
      assert SeenAt(edits, level, f.number) ==> Seen(edits, f.number);
    }
    StillAddedOnce(edits, e, level, files);
    forall l: nat, m: nat, g: File | m < l < NUM_LEVELS && g in v'[m] ensures !SeenAt(edits + [e], l, g.number) {
      SeenAtStep(edits, e, level, files, l, g.number);
      FreshIsDown(edits, v, v', level, files, l, m, g);
    }
    forall l: nat, g: File | l < NUM_LEVELS && g in v'[l] ensures Seen(edits + [e], g.number) {
      SeenStep(edits, e, level, files, g.number);
      assert g in v[l] ==> Seen(edits, g.number);
    }
    forall n: nat | Seen(edits + [e], n) ensures n < nextFile' {
      SeenStep(edits, e, level, files, n);
    }
  }

  /** An edit that moves one file to the next level. */
  lemma MoveKeepsEdits(edits: seq<FileChanges>, e: FileChanges, v: Version, v': Version, level: nat, moved: File,
                       nextFile: nat, nextFile': nat)
    requires EditsOk(edits, v, nextFile) && nextFile <= nextFile' && 0 < level < NUM_LEVELS && AddsOnlyAt(e, level, [moved])
    requires moved in v[level - 1] && FilesFrom(v, v', level, [moved])
    requires forall l: nat, g: File :: l < level && g in v'[l] ==> g.number != moved.number
    ensures EditsOk(edits + [e], v', nextFile')
  {
    var above := level - 1;
    assert moved in v[above];
    assert !SeenAt(edits, level, moved.number) && Seen(edits, moved.number);
    StillAddedOnce(edits, e, level, [moved]);
    forall l: nat, m: nat, g: File | m < l < NUM_LEVELS && g in v'[m] ensures !SeenAt(edits + [e], l, g.number) {
      SeenAtStep(edits, e, level, [moved], l, g.number);
      MovedIsDown(edits, v, v', level, moved, l, m, g);
    }
    forall l: nat, g: File | l < NUM_LEVELS && g in v'[l] ensures Seen(edits + [e], g.number) {
      SeenStep(edits, e, level, [moved], g.number);
      assert g in v[l] ==> Seen(edits, g.number);
    }
    forall n: nat | Seen(edits + [e], n) ensures n < nextFile' {
      SeenStep(edits, e, level, [moved], n);
    }
  }

  /** An edit that adds nothing. */
  lemma NothingKeepsEdits(edits: seq<FileChanges>, e: FileChanges, v: Version, nextFile: nat, nextFile': nat)
    requires EditsOk(edits, v, nextFile) && nextFile <= nextFile' && AddsOnlyAt(e, 0, [])
    ensures EditsOk(edits + [e], v, nextFile')
  {
    FreshKeepsEdits(edits, e, v, v, 0, [], nextFile, nextFile');
  }

  /** A manifest that starts with a snapshot. */
  lemma SnapshotEdits(v: Version, nextFile: nat)
    requires |v| == NUM_LEVELS && NumbersIdentify(v) && (forall l :: 0 <= l < NUM_LEVELS ==> DistinctNumbers(v[l]))
    requires forall l, f :: 0 <= l < NUM_LEVELS && f in v[l] ==> f.number < nextFile
    ensures EditsOk([SnapshotChanges(v)], v, nextFile)
  {
    var edits := [SnapshotChanges(v)];
    forall l | 0 <= l < NUM_LEVELS ensures DistinctNumbers(AddedAfter(edits, l)) {
      SnapshotAdded(v, l);
    }
    forall l: nat, m: nat, g: File | m < l < NUM_LEVELS && g in v[m] ensures !SeenAt(edits, l, g.number) {
      SnapshotAdded(v, l);
    }
    forall l: nat, g: File | l < NUM_LEVELS && g in v[l] ensures Seen(edits, g.number) {
      SnapshotAdded(v, l);
      assert SeenAt(edits, l, g.number);
    }
    forall n: nat | Seen(edits, n) ensures n < nextFile {
      var l: nat :| l < NUM_LEVELS && SeenAt(edits, l, n);
      SnapshotAdded(v, l);
    }
  }

  lemma SnapshotAdded(v: Version, l: nat)
    requires |v| == NUM_LEVELS && l < NUM_LEVELS
    ensures AddedAfter([SnapshotChanges(v)], l) == v[l]
  {
    assert [SnapshotChanges(v)][..0] == [];
    SnapshotLevel(v, |v|, l);
    assert [] + v[l] == v[l];
  }
}
