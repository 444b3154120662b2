/** The hash table of the cache: chained buckets that grow with the number of entries. */
module HandleTables {
  import opened Values

  /** A key together with its hash; entries are told apart by both. */
  datatype Name = Name(key: string, hash: nat)

  /** A table entry: the name of a cache entry and the handle that has it. */
  datatype Slot = Slot(name: Name, id: nat)

  type Buckets = seq<seq<Slot>>

  ghost predicate PowerOfTwo(n: nat)
  {
    n == 1 || (n > 1 && n % 2 == 0 && PowerOfTwo(n / 2))
  }

  /** Every slot is in the bucket of its hash, and no name is there twice. */
  ghost predicate Hashed(list: Buckets) {
    && list != []
    && (forall b, i :: 0 <= b < |list| && 0 <= i < |list[b]| ==> list[b][i].name.hash % |list| == b)
    && (forall b, i, j :: 0 <= b < |list| && 0 <= i < j < |list[b]| ==> list[b][i].name != list[b][j].name)
  }

  ghost predicate Within(list: Buckets, s: Slot) {
    exists b :: 0 <= b < |list| && s in list[b]
  }

  /** The buckets hold exactly the entries of the map. */
  ghost predicate Represents(list: Buckets, contents: map<Name, nat>) {
    forall s: Slot :: Within(list, s) <==> s.name in contents && contents[s.name] == s.id
  }

  ghost predicate InBucket(list: Buckets, s: Slot) {
    list != [] && s in list[s.name.hash % |list|]
  }

  lemma OwnBucket(list: Buckets, s: Slot)
    requires Hashed(list)
    ensures Within(list, s) <==> InBucket(list, s)
  {
    if Within(list, s) {
      var b :| 0 <= b < |list| && s in list[b];
      var i :| 0 <= i < |list[b]| && list[b][i] == s;
    }
  }

  /** Only one bucket differs. */
  lemma BucketReplaced(list: Buckets, b: nat, chain: seq<Slot>, s: Slot)
    requires Hashed(list) && b < |list| && Hashed(list[b := chain])
    ensures Within(list[b := chain], s) <==> if s.name.hash % |list| == b then s in chain else Within(list, s)
  {
    OwnBucket(list, s);
    OwnBucket(list[b := chain], s);
  }

  class HandleTable {
    var length: nat
    var elems: nat
    var list: Buckets
    ghost var contents: map<Name, nat>

    ghost predicate Valid()
      reads this
    {
      && length == |list| && PowerOfTwo(length) && Hashed(list)
      && Represents(list, contents) && elems == |contents| <= length
    }

    constructor ()
      ensures Valid() && contents == map[]
    {
      length, elems, list, contents := 4, 0, [[], [], [], []], map[];
    }

    /** The bucket of a name and its place in the chain, or the end of the chain if it is not there. */
    method FindPointer(name: Name) returns (b: nat, i: nat)
      requires Valid()
      ensures b == name.hash % length && b < |list| && i <= |list[b]|
      ensures i < |list[b]| ==> list[b][i].name == name && name in contents && contents[name] == list[b][i].id
      ensures i == |list[b]| ==> name !in contents
    {
      b, i := name.hash % length, 0;
      while i < |list[b]| && list[b][i].name != name
        invariant i <= |list[b]|
        invariant forall j :: 0 <= j < i ==> list[b][j].name != name
      {
        i := i + 1;
      }
      if i < |list[b]| {
        assert list[b][i] in list[b] && Within(list, list[b][i]);
      } else if name in contents {
        OwnBucket(list, Slot(name, contents[name]));
      }
    }

    method Lookup(name: Name) returns (found: Maybe<nat>)
      requires Valid()
      ensures found == if name in contents then Just(contents[name]) else Nothing
    {
      var b, i := FindPointer(name);
      found := if i < |list[b]| then Just(list[b][i].id) else Nothing;
    }

    /** Replaces an entry of the same name, which is returned, or adds one. */
    method Insert(s: Slot) returns (before: Maybe<nat>)
      requires Valid()
      modifies this
      ensures Valid() && contents == old(contents)[s.name := s.id]
      ensures before == if s.name in old(contents) then Just(old(contents)[s.name]) else Nothing
    {
      var b, i := FindPointer(s.name);
      if i < |list[b]| {
        before := Just(list[b][i].id);
        ReplaceKeeps(list, contents, b, i, s);
        list := list[b := list[b][i := s]];
        contents := contents[s.name := s.id];
      } else {
        before := Nothing;
        AppendKeeps(list, contents, b, s);
        list := list[b := list[b] + [s]];
        contents := contents[s.name := s.id];
        elems := elems + 1;
        if elems > length {
          Resize();
        }
      }
    }

    method Remove(name: Name) returns (removed: Maybe<nat>)
      requires Valid()
      modifies this
      ensures Valid() && contents == old(contents) - {name}
      ensures removed == if name in old(contents) then Just(old(contents)[name]) else Nothing
    {
      var b, i := FindPointer(name);
      removed := Nothing;
      if i < |list[b]| {
        removed := Just(list[b][i].id);
        RemoveKeeps(list, contents, b, i, name);
        list := list[b := list[b][..i] + list[b][i + 1..]];
        contents := contents - {name};
        elems := elems - 1;
      }
    }

    /** Moves every entry to the shortest table that is as long as the number of entries. */
    method Resize()
      requires length == |list| && Hashed(list) && Represents(list, contents) && elems == |contents|
      modifies this
      ensures Valid() && contents == old(contents) && (length == 4 || length < 2 * elems)
    {
      var newLength := 4;
      assert PowerOfTwo(2) && PowerOfTwo(4);
      while newLength < elems
        invariant PowerOfTwo(newLength) && (newLength == 4 || newLength < 2 * elems)
        decreases elems - newLength
      {
        newLength := newLength * 2;
      }
      var newList: Buckets := seq(newLength, _ => []);
      for b := 0 to length
        invariant list == old(list) && length == |list| && contents == old(contents) && elems == old(elems)
        invariant |newList| == newLength && Hashed(newList) && Moved(list, newList, b, 0)
      {
        newList := MoveBucket(newList, b);
      }
      AllMoved(list, newList, contents);
      list, length := newList, newLength;
    }

    method MoveBucket(newList: Buckets, b: nat) returns (r: Buckets)
      requires length == |list| && Hashed(list) && b < length && Hashed(newList) && Moved(list, newList, b, 0)
      ensures |r| == |newList| && Hashed(r) && Moved(list, r, b + 1, 0)
    {
      r := newList;
      for i := 0 to |list[b]|
        invariant |r| == |newList| && Hashed(r) && Moved(list, r, b, i)
      {
        var h := list[b][i];
        var to := h.name.hash % |r|;
        MoveKeeps(list, r, b, i, to);
        r := r[to := [h] + r[to]];
      }
      BucketMoved(list, r, b);
    }
  }

  // ---------------------------------------------------------------------------------------------
  // Changing one chain
  // ---------------------------------------------------------------------------------------------

  lemma ReplaceKeeps(list: Buckets, contents: map<Name, nat>, b: nat, i: nat, s: Slot)
    requires Hashed(list) && Represents(list, contents) && b < |list| && i < |list[b]| && list[b][i].name == s.name
    ensures Hashed(list[b := list[b][i := s]]) && Represents(list[b := list[b][i := s]], contents[s.name := s.id])
    ensures |contents[s.name := s.id]| == |contents|
  {
    var chain := list[b][i := s];
    assert list[b][i] in list[b] && Within(list, list[b][i]);
    forall t: Slot
      ensures Within(list[b := chain], t) <==> t.name in contents[s.name := s.id] && contents[s.name := s.id][t.name] == t.id
    {
      BucketReplaced(list, b, chain, t);
      OwnBucket(list, t);
      ChainReplaced(list[b], i, s, t);
    }
    assert contents[s.name := s.id].Keys == contents.Keys;
  }

  lemma ChainReplaced(chain: seq<Slot>, i: nat, s: Slot, t: Slot)
    requires i < |chain| && chain[i].name == s.name
    requires forall j, k :: 0 <= j < k < |chain| ==> chain[j].name != chain[k].name
    ensures t in chain[i := s] <==> if t.name == s.name then t == s else t in chain
  {
    if t in chain {
      var j :| 0 <= j < |chain| && chain[j] == t;
      assert j != i ==> chain[i := s][j] == t;
    }
    assert chain[i := s][i] == s;
  }

  lemma AppendKeeps(list: Buckets, contents: map<Name, nat>, b: nat, s: Slot)
    requires Hashed(list) && Represents(list, contents) && b < |list| && b == s.name.hash % |list| && s.name !in contents
    ensures Hashed(list[b := list[b] + [s]]) && Represents(list[b := list[b] + [s]], contents[s.name := s.id])
    ensures |contents[s.name := s.id]| == |contents| + 1
  {
    forall t | t in list[b] ensures t.name != s.name {
      assert Within(list, t);
    }
    forall t: Slot
      ensures Within(list[b := list[b] + [s]], t) <==> t.name in contents[s.name := s.id] && contents[s.name := s.id][t.name] == t.id
    {
      BucketReplaced(list, b, list[b] + [s], t);
      OwnBucket(list, t);
    }
    assert contents[s.name := s.id].Keys == contents.Keys + {s.name};
  }

  lemma RemoveKeeps(list: Buckets, contents: map<Name, nat>, b: nat, i: nat, name: Name)
    requires Hashed(list) && Represents(list, contents) && b < |list| && i < |list[b]| && list[b][i].name == name
    ensures var chain := list[b][..i] + list[b][i + 1..];
            Hashed(list[b := chain]) && Represents(list[b := chain], contents - {name})
    ensures |contents - {name}| == |contents| - 1
  {
    var chain := list[b][..i] + list[b][i + 1..];
    assert list[b][i] in list[b] && Within(list, list[b][i]);
    assert forall j :: 0 <= j < |chain| ==> chain[j] == list[b][if j < i then j else j + 1];
    forall t: Slot
      ensures Within(list[b := chain], t) <==> t.name in contents - {name} && (contents - {name})[t.name] == t.id
    {
      BucketReplaced(list, b, chain, t);
      OwnBucket(list, t);
      ChainShortened(list[b], i, t);
    }
    assert (contents - {name}).Keys == contents.Keys - {name};
  }

  lemma ChainShortened(chain: seq<Slot>, i: nat, t: Slot)
    requires i < |chain|
    requires forall j, k :: 0 <= j < k < |chain| ==> chain[j].name != chain[k].name
    ensures t in chain[..i] + chain[i + 1..] <==> t in chain && t.name != chain[i].name
  {
    var shorter := chain[..i] + chain[i + 1..];
    if t in chain && t.name != chain[i].name {
      var j :| 0 <= j < |chain| && chain[j] == t;
      assert shorter[if j < i then j else j - 1] == t;
    }
    if t in shorter {
      var j :| 0 <= j < |shorter| && shorter[j] == t;
      assert chain[if j < i then j else j + 1] == t;
    }
  }

  // ---------------------------------------------------------------------------------------------
  // Resizing
  // ---------------------------------------------------------------------------------------------

  ghost predicate Passed(list: Buckets, b: nat, i: nat, s: Slot) {
    || (exists c :: 0 <= c < b && c < |list| && s in list[c])
    || (b < |list| && i <= |list[b]| && s in list[b][..i])
  }

  /** The new buckets hold what has been passed: the buckets before `b` and the first `i` of bucket `b`. */
  ghost predicate Moved(list: Buckets, newList: Buckets, b: nat, i: nat) {
    forall s :: Within(newList, s) <==> Passed(list, b, i, s)
  }

  lemma NameNotPassed(list: Buckets, b: nat, i: nat, s: Slot)
    requires Hashed(list) && b < |list| && i < |list[b]| && Passed(list, b, i, s)
    ensures s.name != list[b][i].name
  {
    if s in list[b][..i] {
      var j :| 0 <= j < i && list[b][..i][j] == s;
    } else {
      var c :| 0 <= c < b && s in list[c];
      var j :| 0 <= j < |list[c]| && list[c][j] == s;
    }
  }

  lemma MoveKeeps(list: Buckets, r: Buckets, b: nat, i: nat, to: nat)
    requires Hashed(list) && b < |list| && i < |list[b]| && Hashed(r) && Moved(list, r, b, i)
    requires to == list[b][i].name.hash % |r|
    ensures Hashed(r[to := [list[b][i]] + r[to]]) && Moved(list, r[to := [list[b][i]] + r[to]], b, i + 1)
  {
    var h := list[b][i];
    forall t | t in r[to] ensures t.name != h.name {
      assert Within(r, t);
      NameNotPassed(list, b, i, t);
    }
    var chain := [h] + r[to];
    var r', next := r[to := chain], i + 1;
    forall t ensures Within(r', t) <==> Passed(list, b, next, t) {
      BucketReplaced(r, to, chain, t);
      OwnBucket(r, t);
      assert list[b][..i + 1] == list[b][..i] + [h];
    }
  }

  lemma BucketMoved(list: Buckets, r: Buckets, b: nat)
    requires b < |list| && Moved(list, r, b, |list[b]|)
    ensures Moved(list, r, b + 1, 0)
  {
    assert list[b][..|list[b]|] == list[b];
    forall s ensures Passed(list, b, |list[b]|, s) <==> Passed(list, b + 1, 0, s) {
    }
  }

  lemma AllMoved(list: Buckets, r: Buckets, contents: map<Name, nat>)
    requires Moved(list, r, |list|, 0) && Represents(list, contents)
    ensures Represents(r, contents)
  {
    forall s ensures Passed(list, |list|, 0, s) <==> Within(list, s) {
    }
  }
}
