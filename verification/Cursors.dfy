/** Iterators over one sorted sequence of entries, as memtables and tables provide them. */
module Cursors {
  import opened InternalKeys

  /** A cursor over sorted entries. Where it is not on an entry it does not tell on which side it fell off. */
  class Cursor {
    const entries: seq<Entry>
    var on: bool
    var pos: nat

    ghost predicate Valid()
      reads this
    {
      Sorted(entries) && (on ==> pos < |entries|)
    }

    constructor (entries: seq<Entry>)
      requires Sorted(entries)
      ensures Valid() && !on && this.entries == entries
    {
      this.entries := entries;
      on, pos := false, 0;
    }

    method Next()
      requires Valid() && on
      modifies this
      ensures Valid() && on == (old(pos) + 1 < |entries|) && (on ==> pos == old(pos) + 1)
    {
      pos := pos + 1;
      on := pos < |entries|;
    }

    method Prev()
      requires Valid() && on
      modifies this
      ensures Valid() && on == (old(pos) > 0) && (on ==> pos == old(pos) - 1)
    {
      on := pos > 0;
      if on {
        pos := pos - 1;
      }
    }

    method SeekToFirst()
      requires Valid()
      modifies this
      ensures Valid() && on == (entries != []) && (on ==> pos == 0)
    {
      on, pos := entries != [], 0;
    }

    method SeekToLast()
      requires Valid()
      modifies this
      ensures Valid() && on == (entries != []) && (on ==> pos == |entries| - 1)
    {
      on := entries != [];
      if on {
        pos := |entries| - 1;
      }
    }

    method Seek(k: InternalKey)
      requires Valid()
      modifies this
      ensures Valid() && on == (LowerBound(entries, k) < |entries|) && (on ==> pos == LowerBound(entries, k))
    {
      pos := LowerBound(entries, k);
      on := pos < |entries|;
    }
  }
}
