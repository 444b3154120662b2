/** ShouldStopBefore: an output ends before it overlaps too many bytes of the level after the next. */
module OutputLimits {
  import opened InternalKeys
  import opened Versions

  /** The bytes of the files whose largest key is not before `from`, but before `to`. */
  ghost function Passed(files: seq<File>, from: InternalKey, to: InternalKey): nat {
    if files == [] then 0
    else
      var f := files[|files| - 1];
      Passed(files[..|files| - 1], from, to) + if !Less(f.Largest(), from) && Less(f.Largest(), to) then f.size else 0
  }

  lemma {:induction false} NonePassed(files: seq<File>, from: InternalKey)
    ensures Passed(files, from, from) == 0
    decreases |files|
  {
    if files != [] {
      NonePassed(files[..|files| - 1], from);
    }
  }

  /** Files that are not before `to` do not count. */
  lemma {:induction false} OnlyThoseBefore(files: seq<File>, from: InternalKey, to: InternalKey, i: nat)
    requires i <= |files| && forall k :: i <= k < |files| ==> !Less(files[k].Largest(), to)
    ensures Passed(files, from, to) == Passed(files[..i], from, to)
    decreases |files|
  {
    var n := |files| - 1;
    if i <= n {
      OnlyThoseBefore(files[..n], from, to, i);
      assert files[..n][..i] == files[..i];
    } else {
      assert files[..i] == files;
    }
  }

  /** Files that are before one key and before another count for both alike. */
  lemma {:induction false} SameForBoth(files: seq<File>, from: InternalKey, to: InternalKey, to': InternalKey)
    requires forall f :: f in files ==> Less(f.Largest(), to) && Less(f.Largest(), to')
    ensures Passed(files, from, to) == Passed(files, from, to')
    decreases |files|
  {
    if files != [] {
      SameForBoth(files[..|files| - 1], from, to, to');
    }
  }

  /** Where the scan for a key stands: every file before has been passed, no file behind. */
  ghost predicate Stands(files: seq<File>, index: nat, key: InternalKey) {
    && index <= |files|
    && (forall k :: 0 <= k < index ==> Less(files[k].Largest(), key))
    && (forall k :: index <= k < |files| ==> !Less(files[k].Largest(), key))
  }

  ghost predicate LargestRise(files: seq<File>) {
    forall i, j :: 0 <= i < j < |files| ==> !Less(files[j].Largest(), files[i].Largest())
  }

  lemma SortedLargestRise(files: seq<File>)
    requires SortedDisjoint(files)
    ensures LargestRise(files)
  {
    forall i, j | 0 <= i < j < |files| ensures !Less(files[j].Largest(), files[i].Largest()) {
      assert Precedes(files[i], files[j]);
    }
  }

  ghost predicate AllBefore(files: seq<File>, index: nat, key: InternalKey)
    requires index <= |files|
  {
    forall k :: 0 <= k < index ==> Less(files[k].Largest(), key)
  }

  lemma StandsAt(files: seq<File>, index: nat, key: InternalKey)
    requires LargestRise(files) && index <= |files| && AllBefore(files, index, key)
    requires index < |files| ==> !Less(files[index].Largest(), key)
    ensures Stands(files, index, key)
  {
    forall k | index <= k < |files| ensures !Less(files[k].Largest(), key) {
      assert k > index ==> !Less(files[k].Largest(), files[index].Largest());
    }
  }

  lemma StandsForBoth(files: seq<File>, index: nat, from: InternalKey, key: InternalKey, key': InternalKey)
    requires Stands(files, index, key) && !Less(key', key)
    ensures AllBefore(files, index, key') && Passed(files, from, key) == Passed(files[..index], from, key')
  {
    OnlyThoseBefore(files, from, key, index);
    SameForBoth(files[..index], from, key, key');
  }

  lemma PassOne(files: seq<File>, first: nat, asked: InternalKey, index: nat, from: InternalKey, key: InternalKey)
    requires Stands(files, first, asked) && !Less(asked, from) && first <= index < |files| && Less(files[index].Largest(), key)
    ensures Passed(files[..index + 1], from, key) == Passed(files[..index], from, key) + files[index].size
  {
    assert files[..index + 1][..index] == files[..index];
    assert !Less(files[index].Largest(), asked);
  }

  /** The part of a running compaction that counts the bytes its current output overlaps. */
  class Grandparents {
    const files: seq<File>
    const limit: nat
    var index: nat
    var seenKey: bool
    var overlapped: nat
    /** The key asked about last, and the one before which the current output started. */
    ghost var asked: InternalKey
    ghost var start: InternalKey

    ghost predicate Valid()
      reads this
    {
      && LargestRise(files)
      && (if seenKey then Stands(files, index, asked) && !Less(asked, start) && overlapped == Passed(files, start, asked)
          else index == 0 && overlapped == 0)
    }

    constructor (files: seq<File>, limit: nat)
      requires SortedDisjoint(files)
      ensures Valid() && !seenKey && this.files == files && this.limit == limit
    {
      this.files := files;
      this.limit := limit;
      index, seenKey, overlapped := 0, false, 0;
      SortedLargestRise(files);
    }

    method ShouldStopBefore(key: InternalKey) returns (stop: bool)
      requires Valid() && (seenKey ==> !Less(key, asked))
      modifies this
      ensures Valid() && seenKey && asked == key
      ensures stop <==> old(seenKey) && Passed(files, old(start), key) > limit
      ensures start == if stop || !old(seenKey) then key else old(start)
    {
      ghost var from := if seenKey then start else key;
      ghost var first := index;
      if seenKey {
        StandsForBoth(files, index, start, asked, key);
      }
      while index < |files| && Less(files[index].Largest(), key)
        invariant first <= index <= |files| && seenKey == old(seenKey) && start == old(start) && asked == old(asked)
        invariant AllBefore(files, index, key)
        invariant overlapped == if seenKey then Passed(files[..index], from, key) else 0
        decreases |files| - index
      {
        if seenKey {
          PassOne(files, first, asked, index, from, key);
          overlapped := overlapped + files[index].size;
        }
        index := index + 1;
      }
      StandsAt(files, index, key);
      OnlyThoseBefore(files, from, key, index);
      NonePassed(files, key);
      seenKey := true;
      asked, start := key, from;
      stop := overlapped > limit;
      if stop {
        overlapped, start := 0, key;
      }
    }
  }

  /** Where the output that is open behind the entries asked about started: at the last stop, or with the first entry. */
  ghost function StartOf(stops: seq<bool>): (i: nat)
    ensures i < |stops| || (i == 0 && stops == [])
    ensures i > 0 ==> stops[i]
    ensures forall k :: i < k < |stops| ==> !stops[k]
  {
    if stops == [] then 0
    else if stops[|stops| - 1] then |stops| - 1
    else StartOf(stops[..|stops| - 1])
  }

  /** An output ends before an entry exactly if otherwise it would overlap more than `limit` bytes of the files, counted from the
      last such end. */
  ghost predicate StopsWhereFull(files: seq<File>, limit: nat, input: seq<Entry>, stops: seq<bool>)
    requires |stops| <= |input|
  {
    stops == [] ||
    (var before := stops[..|stops| - 1];
     StopsWhereFull(files, limit, input, before) && (stops[|stops| - 1] <==> Full(files, limit, input, before)))
  }

  /** The bytes passed since the output started that is open behind these entries, at the entry that follows them. */
  ghost predicate Full(files: seq<File>, limit: nat, input: seq<Entry>, stops: seq<bool>)
    requires |stops| < |input|
  {
    Passed(files, input[StartOf(stops)].Key(), input[|stops|].Key()) > limit
  }

  lemma OneMore(files: seq<File>, limit: nat, input: seq<Entry>, stops: seq<bool>, stop: bool)
    requires |stops| < |input| && StopsWhereFull(files, limit, input, stops) && (stop <==> Full(files, limit, input, stops))
    ensures StopsWhereFull(files, limit, input, stops + [stop])
    ensures StartOf(stops + [stop]) == if stop then |stops| else StartOf(stops)
  {
    assert (stops + [stop])[..|stops|] == stops;
  }

  lemma RisingKeys(input: seq<Entry>, n: nat)
    requires Sorted(input) && 0 < n < |input|
    ensures !Less(input[n].Key(), input[n - 1].Key())
  {
    assert Less(input[n - 1].Key(), input[n].Key());
  }

  /** An output ends before an entry exactly if otherwise it would overlap more than the limit, counted from the last such end. */
  lemma {:induction false} StopsAt(files: seq<File>, limit: nat, input: seq<Entry>, stops: seq<bool>, j: nat)
    requires j < |stops| <= |input| && StopsWhereFull(files, limit, input, stops)
    ensures stops[j] <==> Passed(files, input[StartOf(stops[..j])].Key(), input[j].Key()) > limit
    decreases |stops|
  {
    if j < |stops| - 1 {
      StopsAt(files, limit, input, stops[..|stops| - 1], j);
      assert stops[..|stops| - 1][..j] == stops[..j];
    } else {
      assert Full(files, limit, input, stops[..j]) <==> stops[j];
    }
  }

  /** There is one way to answer for the first `n` entries. */
  ghost function StopsOf(files: seq<File>, limit: nat, input: seq<Entry>, n: nat): (stops: seq<bool>)
    requires n <= |input|
    ensures |stops| == n && StopsWhereFull(files, limit, input, stops)
  {
    if n == 0 then []
    else
      var before := StopsOf(files, limit, input, n - 1);
      OneMore(files, limit, input, before, Full(files, limit, input, before));
      before + [Full(files, limit, input, before)]
  }

  /** The first `n` entries, and no others, have been asked about, and these were the answers. */
  ghost predicate AskedUpTo(g: Grandparents, input: seq<Entry>, stops: seq<bool>, n: nat)
    requires n <= |stops| == |input|
    reads g
  {
    && (g.seenKey <==> n > 0)
    && (n > 0 ==> g.asked == input[n - 1].Key() && g.start == input[StartOf(stops[..n])].Key())
  }

  /** The entries come in rising order, as they come out of the merging iterator. */
  method Ask(g: Grandparents, input: seq<Entry>, n: nat, ghost stops: seq<bool>) returns (stop: bool)
    requires g.Valid() && Sorted(input) && n < |input| == |stops|
    requires StopsWhereFull(g.files, g.limit, input, stops) && AskedUpTo(g, input, stops, n)
    modifies g
    ensures g.Valid() && AskedUpTo(g, input, stops, n + 1) && stop == stops[n]
  {
    if n > 0 {
      RisingKeys(input, n);
    }
    NonePassed(g.files, input[n].Key());
    StopsAt(g.files, g.limit, input, stops, n);
    assert stops[..n + 1][..n] == stops[..n];
    stop := g.ShouldStopBefore(input[n].Key());
  }
}
