/** The merging iterator: several sorted children walked as one sorted sequence, in both directions. */
module MergingIterator {
  import opened InternalKeys
  import opened Values
  import opened Cursors

  // ---------------------------------------------------------------------------------------------
  // Where children stand
  // ---------------------------------------------------------------------------------------------

  /** A part of the key space that reaches to one of its ends. */
  datatype Part = Everything | AtLeast(k: InternalKey) | Above(k: InternalKey) | AtMost(k: InternalKey) | Below(k: InternalKey) {
    predicate Has(e: Entry) {
      match this
      case Everything => true
      case AtLeast(k) => !Less(e.Key(), k)
      case Above(k) => Less(k, e.Key())
      case AtMost(k) => !Less(k, e.Key())
      case Below(k) => Less(e.Key(), k)
    }
  }

  /** The cursor is on its first entry in `part`, or off if there is none. */
  ghost predicate OnFirst(c: Cursor, part: Part)
    reads c
  {
    if c.on then c.pos < |c.entries| && part.Has(c.entries[c.pos]) && forall a :: 0 <= a < c.pos ==> !part.Has(c.entries[a])
    else forall a :: 0 <= a < |c.entries| ==> !part.Has(c.entries[a])
  }

  ghost predicate OnLast(c: Cursor, part: Part)
    reads c
  {
    if c.on then c.pos < |c.entries| && part.Has(c.entries[c.pos]) && forall a :: c.pos < a < |c.entries| ==> !part.Has(c.entries[a])
    else forall a :: 0 <= a < |c.entries| ==> !part.Has(c.entries[a])
  }

  ghost predicate Stands(c: Cursor, direction: Direction, part: Part)
    reads c
  {
    if direction.Forward? then OnFirst(c, part) else OnLast(c, part)
  }

  /** Key `k` is at the near end of `part` as seen in this direction. */
  predicate Nearer(direction: Direction, k: InternalKey, l: InternalKey) {
    if direction.Forward? then !Less(l, k) else !Less(k, l)
  }

  function AtOrBeyond(direction: Direction, k: InternalKey): Part {
    if direction.Forward? then AtLeast(k) else AtMost(k)
  }

  function Beyond(direction: Direction, k: InternalKey): Part {
    if direction.Forward? then Above(k) else Below(k)
  }

  datatype Direction = Forward | Reverse

  datatype Current = Nobody | Child(index: nat)

  ghost predicate Disjoint(c: Cursor, d: Cursor) {
    forall a, b :: 0 <= a < |c.entries| && 0 <= b < |d.entries| ==> c.entries[a].Key() != d.entries[b].Key()
  }

  ghost predicate KeysDistinct(children: seq<Cursor>) {
    forall i, j :: 0 <= i < |children| && 0 <= j < |children| && i != j ==> Disjoint(children[i], children[j])
  }

  // ---------------------------------------------------------------------------------------------
  // Moving one child
  // ---------------------------------------------------------------------------------------------

  lemma KeysRise(es: seq<Entry>, i: nat, j: nat)
    requires Sorted(es) && i < |es| && j < |es|
    ensures i < j <==> Less(es[i].Key(), es[j].Key())
  {
  }

  /** To the first entry behind `k`. */
  method StepOver(c: Cursor, k: InternalKey)
    requires c.Valid()
    modifies c
    ensures c.Valid() && OnFirst(c, Above(k))
  {
    c.Seek(k);
    if c.on && c.entries[c.pos].Key() == k {
      forall j | 0 <= j < |c.entries| ensures Less(c.entries[j].Key(), k) <==> j < c.pos {
        KeysRise(c.entries, j, c.pos);
      }
      forall j | 0 <= j < |c.entries| ensures Less(k, c.entries[j].Key()) <==> j > c.pos {
        KeysRise(c.entries, c.pos, j);
      }
      c.Next();
    }
  }

  /** To the last entry before `k`. */
  method StepBefore(c: Cursor, k: InternalKey)
    requires c.Valid()
    modifies c
    ensures c.Valid() && OnLast(c, Below(k))
  {
    c.Seek(k);
    if c.on {
      c.Prev();
    } else {
      c.SeekToLast();
    }
  }

  /** From the entry with key `k` to the next one. */
  method StepOff(c: Cursor, k: InternalKey)
    requires c.Valid() && c.on && c.entries[c.pos].Key() == k
    modifies c
    ensures c.Valid() && OnFirst(c, Above(k))
  {
    forall j | 0 <= j < |c.entries| ensures Less(k, c.entries[j].Key()) <==> j > c.pos {
      KeysRise(c.entries, c.pos, j);
    }
    c.Next();
  }

  method StepBack(c: Cursor, k: InternalKey)
    requires c.Valid() && c.on && c.entries[c.pos].Key() == k
    modifies c
    ensures c.Valid() && OnLast(c, Below(k))
  {
    forall j | 0 <= j < |c.entries| ensures Less(c.entries[j].Key(), k) <==> j < c.pos {
      KeysRise(c.entries, j, c.pos);
    }
    c.Prev();
  }

  predicate OnEntry(c: Cursor)
    reads c
  {
    c.on && c.pos < |c.entries|
  }

  function KeyOf(c: Cursor): InternalKey
    reads c
    requires OnEntry(c)
  {
    c.entries[c.pos].Key()
  }

  /** `part` reaches to the far end in this direction. */
  predicate Reaches(direction: Direction, part: Part) {
    part.Everything? || if direction.Forward? then part.AtLeast? || part.Above? else part.AtMost? || part.Below?
  }

  /** The entry a child stands on is the nearest it has in `part`. */
  lemma StandsNearest(c: Cursor, direction: Direction, part: Part, e: Entry)
    requires c.Valid() && Stands(c, direction, part) && e in c.entries && part.Has(e)
    ensures OnEntry(c) && Nearer(direction, KeyOf(c), e.Key())
  {
    var a :| 0 <= a < |c.entries| && c.entries[a] == e;
    if c.on {
      KeysRise(c.entries, a, c.pos);
      KeysRise(c.entries, c.pos, a);
    }
  }

  ghost predicate Lacks(c: Cursor, k: InternalKey) {
    forall a :: 0 <= a < |c.entries| ==> c.entries[a].Key() != k
  }

  /** A child that does not hold `k` and stands at or beyond it stands beyond it. */
  lemma StandsBeyond(c: Cursor, direction: Direction, k: InternalKey)
    requires Lacks(c, k) && Stands(c, direction, AtOrBeyond(direction, k))
    ensures Stands(c, direction, Beyond(direction, k))
  {
  }

  /** Where the nearest key of `part` is `k`, standing on the first entry of `part` is standing at or beyond `k`. */
  lemma StandsAtNearest(c: Cursor, direction: Direction, part: Part, k: InternalKey)
    requires Stands(c, direction, part) && (c.on ==> Nearer(direction, k, c.entries[c.pos].Key()))
    requires forall a :: 0 <= a < |c.entries| && AtOrBeyond(direction, k).Has(c.entries[a]) ==> part.Has(c.entries[a])
    ensures Stands(c, direction, AtOrBeyond(direction, k))
  {
  }

  // ---------------------------------------------------------------------------------------------
  // The merging iterator
  // ---------------------------------------------------------------------------------------------

  class MergingIter {
    const children: seq<Cursor>
    var current: Current
    var direction: Direction
    /** All entries of all children in order, and the index of the one shown. */
    ghost const entries: seq<Entry>
    ghost var pos: nat

    ghost predicate Owned()
      reads this, children
    {
      && (forall i, j :: 0 <= i < j < |children| ==> children[i] != children[j])
      && (forall i :: 0 <= i < |children| ==> children[i].Valid())
      && KeysDistinct(children)
      && (current.Child? ==> current.index < |children| && children[current.index].on)
    }

    constructor (children: seq<Cursor>, ghost entries: seq<Entry>)
      requires (forall i, j :: 0 <= i < j < |children| ==> children[i] != children[j]) && KeysDistinct(children)
      requires forall i :: 0 <= i < |children| ==> children[i].Valid()
      requires Sorted(entries) && forall e :: e in entries <==> exists i :: 0 <= i < |children| && e in children[i].entries
      ensures Valid() && this.children == children && this.entries == entries && !On()
    {
      this.children := children;
      this.entries := entries;
      current, direction, pos := Nobody, Forward, 0;
    }

    /** Every child stands at or beyond the key shown, seen in the direction of travel. */
    ghost predicate Placed()
      reads this, children
    {
      && Owned()
      && (current.Child? ==> forall i :: 0 <= i < |children| ==> Stands(children[i], direction, AtOrBeyond(direction, Key())))
    }

    /** The entry shown is the one at `pos`. */
    ghost predicate Standing()
      reads this, children
    {
      Placed() && IsMerged(entries) && (On() ==> pos < |entries| && entries[pos] == Shown())
    }

    /** Users of the iterator hand this on without looking into it. */
    ghost predicate Valid()
      reads this, children
    {
      && Sorted(entries) && (On() ==> pos < |entries|)
      && forall mark {:trigger Open(this, mark)} :: Open(this, mark) ==> Standing()
    }

    predicate On()
      reads this
    {
      current.Child?
    }

    function Shown(): Entry
      reads this, children
      requires Owned() && On()
    {
      children[current.index].entries[children[current.index].pos]
    }

    /** The entry shown. */
    function Current(): (e: Entry)
      reads this, children
      requires Valid() && On()
      ensures e == entries[pos]
    {
      assert Open(this, 0);
      Shown()
    }

    function Key(): InternalKey
      reads this, children
      requires Owned() && current.Child?
    {
      children[current.index].entries[children[current.index].pos].Key()
    }

    /** Some child holds an entry with this key. */
    ghost predicate Holds(e: Entry) {
      exists i :: 0 <= i < |children| && e in children[i].entries
    }

    /** The iterator shows the nearest entry of `part`, or nothing if there is none. */
    ghost predicate Shows(direction: Direction, part: Part)
      reads this, children
      requires Owned()
    {
      if current.Child? then
        && part.Has(children[current.index].entries[children[current.index].pos])
        && forall e :: Holds(e) && part.Has(e) ==> Nearer(direction, Key(), e.Key())
      else
        forall e :: Holds(e) ==> !part.Has(e)
    }

    ghost predicate AllStand(direction: Direction, part: Part)
      reads children
    {
      forall i :: 0 <= i < |children| ==> children[i].Valid() && Stands(children[i], direction, part)
    }

    ghost predicate Apart() {
      (forall i, j :: 0 <= i < j < |children| ==> children[i] != children[j]) && KeysDistinct(children)
    }

    ghost predicate NearestChild(direction: Direction, from: nat, to: nat, best: Current)
      reads children
      requires from <= to <= |children|
    {
      match best
      case Nobody => forall j :: from <= j < to ==> !children[j].on
      case Child(b) =>
        && from <= b < to && OnEntry(children[b])
        && forall j :: from <= j < to && children[j].on ==> OnEntry(children[j]) && Nearer(direction, KeyOf(children[b]), KeyOf(children[j]))
    }

    /** The child with the smallest key, the first of them if there are several. */
    method FindSmallest(ghost part: Part)
      requires Apart() && direction.Forward? && Reaches(Forward, part) && AllStand(Forward, part)
      modifies this`current
      ensures direction == old(direction) && Placed() && Shows(Forward, part)
    {
      var smallest := Nobody;
      for i := 0 to |children|
        invariant direction.Forward? && AllStand(Forward, part) && NearestChild(Forward, 0, i, smallest)
      {
        if children[i].on {
          if smallest.Nobody? {
            smallest := Child(i);
          } else if Less(KeyOf(children[i]), KeyOf(children[smallest.index])) {
            smallest := Child(i);
          }
        }
      }
      current := smallest;
      NearestShown(Forward, part);
    }

    /** The child with the largest key. */
    method FindLargest(ghost part: Part)
      requires Apart() && direction.Reverse? && Reaches(Reverse, part) && AllStand(Reverse, part)
      modifies this`current
      ensures direction == old(direction) && Placed() && Shows(Reverse, part)
    {
      var largest := Nobody;
      for i := |children| downto 0
        invariant direction.Reverse? && AllStand(Reverse, part) && NearestChild(Reverse, i, |children|, largest)
      {
        if children[i].on {
          if largest.Nobody? {
            largest := Child(i);
          } else if Less(KeyOf(children[largest.index]), KeyOf(children[i])) {
            largest := Child(i);
          }
        }
      }
      current := largest;
      NearestShown(Reverse, part);
    }

    lemma NearestShown(d: Direction, part: Part)
      requires Apart() && direction == d && Reaches(d, part) && AllStand(d, part) && NearestChild(d, 0, |children|, current)
      ensures Placed() && Shows(d, part)
    {
      if current.Child? {
        forall e | Holds(e) && part.Has(e) ensures Nearer(d, Key(), e.Key()) {
          var i :| 0 <= i < |children| && e in children[i].entries;
          StandsNearest(children[i], d, part, e);
        }
        forall i | 0 <= i < |children| ensures Stands(children[i], d, AtOrBeyond(d, Key())) {
          StandsAtNearest(children[i], d, part, Key());
        }
      } else {
        forall e | Holds(e) ensures !part.Has(e) {
          var i :| 0 <= i < |children| && e in children[i].entries;
        }
      }
    }

    method SeekToFirst()
      requires Valid()
      modifies this, children
      ensures Valid() && On() == (entries != []) && (On() ==> pos == 0)
    {
      assert Open(this, 0);
      FirstOfAll();
      FirstInMerged(entries);
      pos := 0;
    }

    method FirstOfAll()
      requires Placed()
      modifies this`current, this`direction, children
      ensures Placed() && Shows(Forward, Everything)
    {
      for i := 0 to |children|
        invariant Apart() && forall j :: 0 <= j < |children| ==> children[j].Valid()
        invariant forall j :: 0 <= j < i ==> OnFirst(children[j], Everything)
      {
        children[i].SeekToFirst();
      }
      direction := Forward;
      FindSmallest(Everything);
    }

    method SeekToLast()
      requires Valid()
      modifies this, children
      ensures Valid() && On() == (entries != []) && (On() ==> pos == |entries| - 1)
    {
      assert Open(this, 0);
      LastOfAll();
      LastInMerged(entries);
      pos := if On() then |entries| - 1 else 0;
    }

    method LastOfAll()
      requires Placed()
      modifies this`current, this`direction, children
      ensures Placed() && Shows(Reverse, Everything)
    {
      for i := 0 to |children|
        invariant Apart() && forall j :: 0 <= j < |children| ==> children[j].Valid()
        invariant forall j :: 0 <= j < i ==> OnLast(children[j], Everything)
      {
        children[i].SeekToLast();
      }
      direction := Reverse;
      FindLargest(Everything);
    }

    method Seek(target: InternalKey)
      requires Valid()
      modifies this, children
      ensures Valid() && On() == (LowerBound(entries, target) < |entries|) && (On() ==> pos == LowerBound(entries, target))
    {
      assert Open(this, 0);
      FirstAtLeast(target);
      SeekInMerged(entries, target);
      pos := LowerBound(entries, target);
    }

    method FirstAtLeast(target: InternalKey)
      requires Placed()
      modifies this`current, this`direction, children
      ensures Placed() && Shows(Forward, AtLeast(target))
    {
      for i := 0 to |children|
        invariant Apart() && forall j :: 0 <= j < |children| ==> children[j].Valid()
        invariant forall j :: 0 <= j < i ==> OnFirst(children[j], AtLeast(target))
      {
        children[i].Seek(target);
      }
      direction := Forward;
      FindSmallest(AtLeast(target));
    }

    /** Moves to the next entry of all children together, whatever the direction was before. */
    method Next()
      requires Valid() && On()
      modifies this, children
      ensures Valid() && On() == (old(pos) + 1 < |entries|) && (On() ==> pos == old(pos) + 1)
    {
      assert Open(this, 0);
      ghost var i := pos;
      FirstAbove();
      NextInMerged(entries, i);
      pos := i + 1;
    }

    method FirstAbove()
      requires Placed() && On()
      modifies this`current, this`direction, children
      ensures Placed() && Shows(Forward, Above(old(Key())))
    {
      var k, c := Key(), current.index;
      StepForward(k, c);
      FindSmallest(Above(k));
    }

    /** Moves to the previous entry of all children together, whatever the direction was before. */
    method Prev()
      requires Valid() && On()
      modifies this, children
      ensures Valid() && On() == (old(pos) > 0) && (On() ==> pos == old(pos) - 1)
    {
      assert Open(this, 0);
      ghost var i := pos;
      LastBelow();
      PrevInMerged(entries, i);
      pos := if i > 0 then i - 1 else 0;
    }

    method LastBelow()
      requires Placed() && On()
      modifies this`current, this`direction, children
      ensures Placed() && Shows(Reverse, Below(old(Key())))
    {
      var k, c := Key(), current.index;
      StepBackward(k, c);
      FindLargest(Below(k));
    }

    method StepForward(k: InternalKey, c: nat)
      requires Placed() && current == Child(c) && Key() == k
      modifies this`direction, children
      ensures direction.Forward? && Apart() && AllStand(Forward, Above(k))
    {
      TurnForward(k, c);
      StepOff(children[c], k);
    }

    /** Where the direction was another, the other children step over the key shown. */
    method TurnForward(k: InternalKey, c: nat)
      requires Placed() && current == Child(c) && Key() == k
      modifies this`direction, children
      ensures direction.Forward? && Apart() && OnEntry(children[c]) && KeyOf(children[c]) == k
      ensures forall j :: 0 <= j < |children| ==> children[j].Valid() && (j != c ==> OnFirst(children[j], Above(k)))
    {
      if !direction.Forward? {
        for i := 0 to |children|
          invariant Apart() && (forall j :: 0 <= j < |children| ==> children[j].Valid())
          invariant OnEntry(children[c]) && KeyOf(children[c]) == k
          invariant forall j :: 0 <= j < i && j != c ==> OnFirst(children[j], Above(k))
        {
          if i != c {
            StepOver(children[i], k);
          }
        }
        direction := Forward;
      } else {
        OthersBeyond(Forward, k, c);
      }
    }

    method StepBackward(k: InternalKey, c: nat)
      requires Placed() && current == Child(c) && Key() == k
      modifies this`direction, children
      ensures direction.Reverse? && Apart() && AllStand(Reverse, Below(k))
    {
      TurnBack(k, c);
      StepBack(children[c], k);
    }

    method TurnBack(k: InternalKey, c: nat)
      requires Placed() && current == Child(c) && Key() == k
      modifies this`direction, children
      ensures direction.Reverse? && Apart() && OnEntry(children[c]) && KeyOf(children[c]) == k
      ensures forall j :: 0 <= j < |children| ==> children[j].Valid() && (j != c ==> OnLast(children[j], Below(k)))
    {
      if !direction.Reverse? {
        for i := 0 to |children|
          invariant Apart() && (forall j :: 0 <= j < |children| ==> children[j].Valid())
          invariant OnEntry(children[c]) && KeyOf(children[c]) == k
          invariant forall j :: 0 <= j < i && j != c ==> OnLast(children[j], Below(k))
        {
          if i != c {
            StepBefore(children[i], k);
          }
        }
        direction := Reverse;
      } else {
        OthersBeyond(Reverse, k, c);
      }
    }

    lemma OthersBeyond(d: Direction, k: InternalKey, c: nat)
      requires Placed() && current == Child(c) && direction == d && Key() == k
      ensures forall j :: 0 <= j < |children| && j != c ==> Stands(children[j], d, Beyond(d, k))
    {
      forall j | 0 <= j < |children| && j != c ensures Stands(children[j], d, Beyond(d, k)) {
        assert Disjoint(children[j], children[c]);
        StandsBeyond(children[j], d, k);
      }
    }

    // The fully merged sequence

    ghost predicate IsMerged(merged: seq<Entry>) {
      Sorted(merged) && forall e :: Holds(e) <==> e in merged
    }

    /** After Next the iterator is one further in the merged sequence. */
    lemma NextInMerged(merged: seq<Entry>, i: nat)
      requires Placed() && IsMerged(merged) && i < |merged| && Shows(Forward, Above(merged[i].Key()))
      ensures current.Child? <==> i + 1 < |merged|
      ensures current.Child? ==> Shown() == merged[i + 1]
    {
      if i + 1 < |merged| {
        KeysRise(merged, i, i + 1);
        assert merged[i + 1] in merged;
      }
      if current.Child? {
        var j := IndexShown(merged);
        KeysRise(merged, i, j);
        if i + 1 < |merged| {
          KeysRise(merged, j, i + 1);
          KeysRise(merged, i + 1, j);
        }
      }
    }

    lemma PrevInMerged(merged: seq<Entry>, i: nat)
      requires Placed() && IsMerged(merged) && i < |merged| && Shows(Reverse, Below(merged[i].Key()))
      ensures current.Child? <==> i > 0
      ensures current.Child? ==> Shown() == merged[i - 1]
    {
      if i > 0 {
        KeysRise(merged, i - 1, i);
        assert merged[i - 1] in merged;
      }
      if current.Child? {
        var j := IndexShown(merged);
        KeysRise(merged, j, i);
        if i > 0 {
          KeysRise(merged, j, i - 1);
          KeysRise(merged, i - 1, j);
        }
      }
    }

    /** Seeking lands where a search of the merged sequence would. */
    lemma SeekInMerged(merged: seq<Entry>, target: InternalKey)
      requires Placed() && IsMerged(merged) && Shows(Forward, AtLeast(target))
      ensures current.Child? <==> LowerBound(merged, target) < |merged|
      ensures current.Child? ==> Shown() == merged[LowerBound(merged, target)]
    {
      var i := LowerBound(merged, target);
      if i < |merged| {
        assert merged[i] in merged;
      }
      if current.Child? {
        var j := IndexShown(merged);
        if i < |merged| {
          KeysRise(merged, i, j);
          KeysRise(merged, j, i);
        }
      }
    }

    lemma FirstInMerged(merged: seq<Entry>)
      requires Placed() && IsMerged(merged) && Shows(Forward, Everything)
      ensures current.Child? <==> merged != []
      ensures current.Child? ==> Shown() == merged[0]
    {
      if merged != [] {
        assert merged[0] in merged;
      }
      if current.Child? {
        var j := IndexShown(merged);
        KeysRise(merged, 0, j);
      }
    }

    lemma LastInMerged(merged: seq<Entry>)
      requires Placed() && IsMerged(merged) && Shows(Reverse, Everything)
      ensures current.Child? <==> merged != []
      ensures current.Child? ==> Shown() == merged[|merged| - 1]
    {
      if merged != [] {
        assert merged[|merged| - 1] in merged;
      }
      if current.Child? {
        var j := IndexShown(merged);
        KeysRise(merged, j, |merged| - 1);
      }
    }

    lemma IndexShown(merged: seq<Entry>) returns (j: nat)
      requires Placed() && IsMerged(merged) && current.Child?
      ensures j < |merged| && merged[j] == children[current.index].entries[children[current.index].pos]
    {
      var e := children[current.index].entries[children[current.index].pos];
      assert e in children[current.index].entries && Holds(e);
      j :| 0 <= j < |merged| && merged[j] == e;
    }
  }
}
