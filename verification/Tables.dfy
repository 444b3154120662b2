/** Tables: data blocks under an index of shortened separators and a block of filters, and point lookup in them. */
module Tables {
  import opened Values
  import opened Coding
  import opened InternalKeys
  import opened Filters

  // ---------------------------------------------------------------------------------------------
  // Separators
  // ---------------------------------------------------------------------------------------------

  /** The comparator's two ways to find a short user key in between or behind, and its comparison of lengths. */
  datatype Shortening = Shortening(separator: (UserKey, UserKey) -> UserKey, successor: UserKey -> UserKey, shorter: (UserKey, UserKey) -> bool)

  /** What the comparator promises: a separator is not before its first key and before its second, unless they are equal. */
  ghost predicate Separating(s: Shortening) {
    && (forall u, v {:trigger s.separator(u, v)} :: u < v ==> u <= s.separator(u, v) < v)
    && (forall u {:trigger s.separator(u, u)} :: s.separator(u, u) == u)
    && (forall u {:trigger s.successor(u)} :: u <= s.successor(u))
  }

  function FirstOf(u: UserKey): InternalKey {
    InternalKey(u, MAX_SEQUENCE, Value)
  }

  function FindShortestSeparator(s: Shortening, start: InternalKey, limit: InternalKey): InternalKey {
    var tmp := s.separator(start.user, limit.user);
    if s.shorter(tmp, start.user) && start.user < tmp then FirstOf(tmp) else start
  }

  function FindShortSuccessor(s: Shortening, key: InternalKey): InternalKey {
    var tmp := s.successor(key.user);
    if s.shorter(tmp, key.user) && key.user < tmp then FirstOf(tmp) else key
  }

  /** An index key behind `last`: either that key itself, or the first key of a user key behind it. */
  predicate Closes(sep: InternalKey, last: InternalKey) {
    sep == last || (sep == FirstOf(sep.user) && last.user < sep.user)
  }

  lemma SeparatorCloses(s: Shortening, start: InternalKey, limit: InternalKey)
    requires Separating(s) && Less(start, limit)
    ensures var sep := FindShortestSeparator(s, start, limit);
            Closes(sep, start) && (sep != start ==> sep.user < limit.user) && !Less(sep, start) && Less(sep, limit)
    ensures var sep, tmp := FindShortestSeparator(s, start, limit), s.separator(start.user, limit.user);
            if start.user < tmp && s.shorter(tmp, start.user) then sep == InternalKey(tmp, MAX_SEQUENCE, Value) else sep == start
  {
    assert start.user < limit.user || s.separator(start.user, start.user) == start.user;
  }

  lemma SuccessorCloses(s: Shortening, key: InternalKey)
    requires Separating(s)
    ensures Closes(FindShortSuccessor(s, key), key) && !Less(FindShortSuccessor(s, key), key)
    ensures var sep, tmp := FindShortSuccessor(s, key), s.successor(key.user);
            if key.user < tmp && s.shorter(tmp, key.user) then sep == InternalKey(tmp, MAX_SEQUENCE, Value) else sep == key
  {
  }

  /** InternalFilterPolicy: a policy for byte strings on the user keys of internal keys. */
  function OnUserKeys(policy: Policy<Key>, bytes: UserKey -> Key): Policy<UserKey> {
    Policy(keys => policy.create(seq(|keys|, i requires 0 <= i < |keys| => bytes(keys[i]))),
           (key, filter) => policy.mayMatch(bytes(key), filter))
  }

  lemma OnUserKeysLawful(policy: Policy<Key>, bytes: UserKey -> Key)
    requires Lawful(policy)
    ensures Lawful(OnUserKeys(policy, bytes))
  {
    var lifted := OnUserKeys(policy, bytes);
    forall keys: seq<UserKey>, key: UserKey | key in keys ensures lifted.mayMatch(key, lifted.create(keys)) {
      var strings := seq(|keys|, i requires 0 <= i < |keys| => bytes(keys[i]));
      var i :| 0 <= i < |keys| && keys[i] == key;
      assert strings[i] == bytes(key) && bytes(key) in strings;
    }
  }

  // ---------------------------------------------------------------------------------------------
  // Tables
  // ---------------------------------------------------------------------------------------------

  datatype Block = Block(offset: nat, entries: seq<Entry>)

  datatype Table = Table(blocks: seq<Block>, index: seq<InternalKey>, filter: Maybe<seq<Byte>>)

  function Flat(blocks: seq<Block>): seq<Entry> {
    if blocks == [] then [] else Flat(blocks[..|blocks| - 1]) + blocks[|blocks| - 1].entries
  }

  ghost predicate EndsBefore(b: Block, key: InternalKey) {
    forall e :: e in b.entries ==> Less(e.Key(), key)
  }

  /** Blocks are sorted runs, one behind the other. */
  ghost predicate InOrder(blocks: seq<Block>) {
    && (forall i :: 0 <= i < |blocks| ==> blocks[i].entries != [] && Sorted(blocks[i].entries))
    && (forall i, j, e :: 0 <= i < j < |blocks| && e in blocks[j].entries ==> EndsBefore(blocks[i], e.Key()))
  }

  function LastKey(es: seq<Entry>): InternalKey
    requires es != []
  {
    es[|es| - 1].Key()
  }

  /** The index key of block `i` closes the block, and no entry behind has its user key, unless it is the block's last key. */
  ghost predicate Indexed(blocks: seq<Block>, index: seq<InternalKey>, i: nat)
    requires i < |index| && i < |blocks|
  {
    && blocks[i].entries != [] && Closes(index[i], LastKey(blocks[i].entries))
    && (index[i] != LastKey(blocks[i].entries) ==>
          forall j, e :: i < j < |blocks| && e in blocks[j].entries ==> index[i].user < e.user)
  }

  ghost predicate Filtered(blocks: seq<Block>, groups: seq<seq<UserKey>>) {
    forall i, e :: 0 <= i < |blocks| && e in blocks[i].entries ==> HasKey(groups, blocks[i].offset / 2048, e.user)
  }

  ghost predicate HasKey(groups: seq<seq<UserKey>>, i: nat, u: UserKey) {
    i < |groups| && u in groups[i]
  }

  /** A table that holds these entries. */
  ghost predicate IsTable(t: Table, policy: Policy<UserKey>, es: seq<Entry>) {
    && Flat(t.blocks) == es && InOrder(t.blocks) && |t.index| == |t.blocks|
    && (forall i :: 0 <= i < |t.blocks| ==> Indexed(t.blocks, t.index, i))
    && (t.filter.Just? ==> HasFilter(t, policy))
  }

  ghost predicate HasFilter(t: Table, policy: Policy<UserKey>)
    requires t.filter.Just?
  {
    exists groups :: t.filter.value == FilterBlock(policy, groups) && Filtered(t.blocks, groups) && |Result(policy, groups)| < 0x1_0000_0000
  }

  // ---------------------------------------------------------------------------------------------
  // Point lookup
  // ---------------------------------------------------------------------------------------------

  /** Position of the first index key at or after `k`. */
  function SeekIndex(index: seq<InternalKey>, k: InternalKey): (i: nat)
    ensures i <= |index| && (i < |index| ==> !Less(index[i], k))
    ensures forall j :: 0 <= j < i ==> Less(index[j], k)
  {
    if index == [] || !Less(index[0], k) then 0 else 1 + SeekIndex(index[1..], k)
  }

  lemma BlockBefore(t: Table, policy: Policy<UserKey>, es: seq<Entry>, j: nat, k: InternalKey)
    requires IsTable(t, policy, es) && j < |t.blocks| && Less(t.index[j], k)
    ensures EndsBefore(t.blocks[j], k)
  {
    var es := t.blocks[j].entries;
    assert Indexed(t.blocks, t.index, j) && Sorted(es);
    forall e | e in es ensures Less(e.Key(), k) {
      var i :| 0 <= i < |es| && es[i] == e;
      assert i < |es| - 1 ==> Less(es[i].Key(), LastKey(es));
    }
  }

  lemma {:induction false} InSomeBlock(blocks: seq<Block>, e: Entry) returns (i: nat)
    requires e in Flat(blocks)
    ensures i < |blocks| && e in blocks[i].entries
    decreases |blocks|
  {
    var n := |blocks| - 1;
    if e in blocks[n].entries {
      i := n;
    } else {
      i := InSomeBlock(blocks[..n], e);
    }
  }

  lemma {:induction false} InFlat(blocks: seq<Block>, i: nat, e: Entry)
    requires i < |blocks| && e in blocks[i].entries
    ensures e in Flat(blocks)
    decreases |blocks|
  {
    var n := |blocks| - 1;
    if i < n {
      InFlat(blocks[..n], i, e);
    }
  }

  /** Every visible entry is in the block the index names or behind it. */
  lemma VisibleBehind(t: Table, policy: Policy<UserKey>, es: seq<Entry>, u: UserKey, s: Seqno, e: Entry) returns (j: nat)
    requires IsTable(t, policy, es) && e in es && Visible(e, u, s)
    ensures SeekIndex(t.index, SeekKey(u, s)) <= j < |t.blocks| && e in t.blocks[j].entries
  {
    j := InSomeBlock(t.blocks, e);
    if j < SeekIndex(t.index, SeekKey(u, s)) {
      BlockBefore(t, policy, es, j, SeekKey(u, s));
    }
  }

  lemma NothingVisible(t: Table, policy: Policy<UserKey>, es: seq<Entry>, u: UserKey, s: Seqno)
    requires IsTable(t, policy, es) && SeekIndex(t.index, SeekKey(u, s)) == |t.blocks|
    ensures Newest(Elems(es), u, s, Miss)
  {
    forall e | e in es ensures !Visible(e, u, s) {
      if Visible(e, u, s) {
        var j := VisibleBehind(t, policy, es, u, s, e);
      }
    }
  }

  /** The seek in the block finds an entry: it is the newest visible one, or there is none. */
  lemma FoundInBlock(t: Table, policy: Policy<UserKey>, es: seq<Entry>, u: UserKey, s: Seqno, i: nat, p: nat)
    requires IsTable(t, policy, es) && i == SeekIndex(t.index, SeekKey(u, s)) < |t.blocks|
    requires p == LowerBound(t.blocks[i].entries, SeekKey(u, s)) < |t.blocks[i].entries|
    ensures Newest(Elems(es), u, s, if t.blocks[i].entries[p].user == u then Hit(t.blocks[i].entries[p]) else Miss)
  {
    var b := t.blocks[i].entries;
    InFlat(t.blocks, i, b[p]);
    forall e | e in es && Visible(e, u, s) ensures b[p].user == u && e.seqno <= b[p].seqno {
      var j := VisibleBehind(t, policy, es, u, s, e);
      if j == i {
        var q :| 0 <= q < |b| && b[q] == e;
        assert q >= p;
        assert q > p ==> Less(b[p].Key(), b[q].Key());
      } else {
        assert EndsBefore(t.blocks[i], e.Key());
        assert Less(b[p].Key(), e.Key());
      }
    }
  }

  /** The seek runs off the end of the block: the key lies between the block and its separator, where no entry is. */
  lemma BeyondBlock(t: Table, policy: Policy<UserKey>, es: seq<Entry>, u: UserKey, s: Seqno, i: nat)
    requires IsTable(t, policy, es) && i == SeekIndex(t.index, SeekKey(u, s)) < |t.blocks|
    requires LowerBound(t.blocks[i].entries, SeekKey(u, s)) == |t.blocks[i].entries|
    ensures Newest(Elems(es), u, s, Miss)
  {
    forall e | e in es ensures !Visible(e, u, s) {
      if Visible(e, u, s) {
        var j := VisibleBehind(t, policy, es, u, s, e);
        NotVisibleBehind(t, policy, es, u, s, i, j, e);
      }
    }
  }

  lemma NotVisibleBehind(t: Table, policy: Policy<UserKey>, es: seq<Entry>, u: UserKey, s: Seqno, i: nat, j: nat, e: Entry)
    requires IsTable(t, policy, es) && i == SeekIndex(t.index, SeekKey(u, s)) <= j < |t.blocks| && e in t.blocks[j].entries
    requires LowerBound(t.blocks[i].entries, SeekKey(u, s)) == |t.blocks[i].entries|
    ensures !Visible(e, u, s)
  {
    var b := t.blocks[i].entries;
    assert Indexed(t.blocks, t.index, i) && Less(LastKey(b), SeekKey(u, s));
    if j == i {
      var q :| 0 <= q < |b| && b[q] == e;
    } else {
      assert t.index[i].user < e.user;
    }
  }

  /** The filter denies the key: no entry of the block has it, so the seek would have found another key or none. */
  lemma Denied(t: Table, policy: Policy<UserKey>, es: seq<Entry>, u: UserKey, s: Seqno, i: nat)
    requires IsTable(t, policy, es) && Lawful(policy) && i == SeekIndex(t.index, SeekKey(u, s)) < |t.blocks|
    requires t.filter.Just? && !KeyMayMatch(policy, t.filter.value, t.blocks[i].offset, u)
    ensures Newest(Elems(es), u, s, Miss)
  {
    var p := LowerBound(t.blocks[i].entries, SeekKey(u, s));
    if p < |t.blocks[i].entries| {
      FoundInBlock(t, policy, es, u, s, i, p);
      if t.blocks[i].entries[p].user == u {
        var groups :| t.filter.value == FilterBlock(policy, groups) && Filtered(t.blocks, groups) && |Result(policy, groups)| < 0x1_0000_0000;
        NoFalseNegatives(policy, groups, t.blocks[i].offset, u);
      }
    } else {
      BeyondBlock(t, policy, es, u, s, i);
    }
  }

  /** Block `i` is the first whose index key is not before `k`, and no filter denies the user key for it. */
  ghost predicate MustRead(t: Table, policy: Policy<UserKey>, u: UserKey, k: InternalKey, i: nat) {
    && i < |t.index| == |t.blocks| && !Less(t.index[i], k) && (forall j :: 0 <= j < i ==> Less(t.index[j], k))
    && (t.filter.Just? ==> KeyMayMatch(policy, t.filter.value, t.blocks[i].offset, u))
  }

  ghost predicate ReadsRight(t: Table, policy: Policy<UserKey>, u: UserKey, k: InternalKey, read: Maybe<nat>) {
    forall i: nat :: MustRead(t, policy, u, k, i) <==> read == Just(i)
  }

  lemma FirstBlock(t: Table, policy: Policy<UserKey>, es: seq<Entry>, u: UserKey, k: InternalKey)
    requires IsTable(t, policy, es)
    ensures var i := SeekIndex(t.index, k);
            if i < |t.blocks| && (t.filter.Just? ==> KeyMayMatch(policy, t.filter.value, t.blocks[i].offset, u))
            then ReadsRight(t, policy, u, k, Just(i)) else ReadsRight(t, policy, u, k, Nothing)
  {
    var i := SeekIndex(t.index, k);
    forall j: nat | MustRead(t, policy, u, k, j) ensures j == i {
    }
  }

  /** Table::InternalGet with the check of the user key that its caller makes; `read` is the block that is read, if one is. It is
      the first one that does not end before the key, and it is left alone if there is a filter that denies the key. */
  method Get(t: Table, policy: Policy<UserKey>, u: UserKey, s: Seqno, ghost es: seq<Entry>) returns (h: Hit, read: Maybe<nat>)
    requires IsTable(t, policy, es) && Lawful(policy)
    ensures Newest(Elems(es), u, s, h)
    ensures ReadsRight(t, policy, u, SeekKey(u, s), read)
  {
    read := Nothing;
    var k := SeekKey(u, s);
    var i := SeekIndex(t.index, k);
    FirstBlock(t, policy, es, u, k);
    if i == |t.index| {
      NothingVisible(t, policy, es, u, s);
      return Miss, Nothing;
    }
    var block := t.blocks[i];
    if t.filter.Just? && !KeyMayMatch(policy, t.filter.value, block.offset, u) {
      Denied(t, policy, es, u, s, i);
      return Miss, Nothing;
    }
    read := Just(i);
    var p := LowerBound(block.entries, k);
    if p == |block.entries| {
      BeyondBlock(t, policy, es, u, s, i);
      return Miss, read;
    }
    FoundInBlock(t, policy, es, u, s, i, p);
    h := if block.entries[p].user == u then Hit(block.entries[p]) else Miss;
  }

  // ---------------------------------------------------------------------------------------------
  // Building
  // ---------------------------------------------------------------------------------------------

  /** The user key is among those of filter `i`, which may still be open. */
  ghost predicate InFilter(groups: seq<seq<UserKey>>, keys: seq<UserKey>, i: nat, u: UserKey) {
    if i < |groups| then u in groups[i] else i == |groups| && u in keys
  }

  ghost predicate AllInFilters(blocks: seq<Block>, groups: seq<seq<UserKey>>, keys: seq<UserKey>) {
    forall i, e :: 0 <= i < |blocks| && e in blocks[i].entries ==> InFilter(groups, keys, blocks[i].offset / 2048, e.user)
  }

  /** Blocks as if the entries collected so far were the last one. */
  ghost function WithData(blocks: seq<Block>, data: seq<Entry>, offset: nat): seq<Block> {
    if data == [] then blocks else blocks + [Block(offset, data)]
  }

  /** Every finished block has its index entry, but for one that waits for what comes behind it. */
  ghost predicate Shape(blocks: seq<Block>, data: seq<Entry>, offset: nat, index: seq<InternalKey>, pending: bool, lastKey: InternalKey) {
    && InOrder(WithData(blocks, data, offset))
    && |blocks| == |index| + (if pending then 1 else 0) && (pending ==> data == [])
    && (data != [] ==> lastKey == LastKey(data))
    && (data == [] && blocks != [] ==> pending && lastKey == LastKey(blocks[|blocks| - 1].entries))
    && forall i :: 0 <= i < |index| ==> Indexed(WithData(blocks, data, offset), index, i)
  }

  /** The index key of block `i` is the short key between its last key and the first key of the block behind it. */
  ghost predicate ShortBetween(s: Shortening, blocks: seq<Block>, index: seq<InternalKey>, i: nat)
    requires i < |index| && i + 1 < |blocks|
  {
    && blocks[i].entries != [] && blocks[i + 1].entries != []
    && index[i] == FindShortestSeparator(s, LastKey(blocks[i].entries), blocks[i + 1].entries[0].Key())
  }

  ghost predicate Shortened(s: Shortening, blocks: seq<Block>, index: seq<InternalKey>) {
    forall i :: 0 <= i < |index| && i + 1 < |blocks| ==> ShortBetween(s, blocks, index, i)
  }

  /** Every index key is as short as the comparator makes it, the last one with nothing behind it. */
  ghost predicate ShortIndex(s: Shortening, blocks: seq<Block>, index: seq<InternalKey>) {
    && |index| == |blocks| && Shortened(s, blocks, index)
    && (blocks != [] ==> blocks[|blocks| - 1].entries != [] &&
                         index[|blocks| - 1] == FindShortSuccessor(s, LastKey(blocks[|blocks| - 1].entries)))
  }

  /** Both entries are in one block. */
  ghost predicate SameBlock(blocks: seq<Block>, a: Entry, b: Entry) {
    exists k :: 0 <= k < |blocks| && a in blocks[k].entries && b in blocks[k].entries
  }

  /** Of the first `n` entries, neighbours are in one block exactly if no block was full with the first of them. */
  ghost predicate CutWhereFull(blocks: seq<Block>, es: seq<Entry>, full: seq<bool>, n: nat)
    requires n <= |es| == |full|
  {
    forall i, j :: 0 <= i < j < n && j == i + 1 ==> (SameBlock(blocks, es[i], es[j]) <==> !full[i])
  }

  /** The index after a key has been added behind a block that waits. */
  function IndexBefore(s: Shortening, index: seq<InternalKey>, pending: bool, lastKey: InternalKey, key: InternalKey): seq<InternalKey> {
    if pending then index + [FindShortestSeparator(s, lastKey, key)] else index
  }

  lemma AddShape(s: Shortening, blocks: seq<Block>, data: seq<Entry>, offset: nat, index: seq<InternalKey>, pending: bool,
                 lastKey: InternalKey, e: Entry, es: seq<Entry>)
    requires Separating(s) && Shape(blocks, data, offset, index, pending, lastKey) && es == Flat(blocks) + data
    requires es != [] ==> Less(LastKey(es), e.Key())
    ensures Shape(blocks, data + [e], offset, IndexBefore(s, index, pending, lastKey, e.Key()), false, e.Key())
  {
    LastIsLast(blocks, data, offset, es);
    AddInOrder(blocks, data, offset, e, es);
    if pending {
      assert data + [e] == [e];
      PendingIndexed(s, blocks, index, offset, e);
    } else {
      StillIndexed(blocks, data, index, offset, e);
    }
  }

  lemma AddShortened(s: Shortening, blocks: seq<Block>, data: seq<Entry>, offset: nat, index: seq<InternalKey>, pending: bool,
                     lastKey: InternalKey, e: Entry)
    requires Shape(blocks, data, offset, index, pending, lastKey)
    ensures Shortened(s, WithData(blocks, data, offset), index) ==>
              Shortened(s, WithData(blocks, data + [e], offset), IndexBefore(s, index, pending, lastKey, e.Key()))
  {
    var all, more := WithData(blocks, data, offset), WithData(blocks, data + [e], offset);
    var index' := IndexBefore(s, index, pending, lastKey, e.Key());
    if Shortened(s, all, index) {
      forall i | 0 <= i < |index'| && i + 1 < |more| ensures ShortBetween(s, more, index', i) {
        assert more[i] == all[i];
        if i < |index| {
          assert ShortBetween(s, all, index, i) && index'[i] == index[i];
          assert more[i + 1].entries[0] == all[i + 1].entries[0];
        } else {
          assert more[i + 1].entries == [e];
        }
      }
    }
  }

  /** A new last entry shares the block of the one before it exactly if that block is still open. */
  lemma AddedBlocks(blocks: seq<Block>, data: seq<Entry>, offset: nat, e: Entry, a: Entry, b: Entry)
    requires a != e && forall x :: x in Flat(blocks) + data ==> x != e
    ensures b != e ==>
              (SameBlock(WithData(blocks, data + [e], offset), a, b) <==> SameBlock(WithData(blocks, data, offset), a, b))
    ensures SameBlock(WithData(blocks, data + [e], offset), a, e) <==> a in data
  {
    var all, more := WithData(blocks, data, offset), WithData(blocks, data + [e], offset);
    var n := |blocks|;
    assert more[n].entries == data + [e] && more[n].entries[|data|] == e;
    assert data != [] ==> all[n].entries == data;
    forall k | 0 <= k < n && e in blocks[k].entries ensures e in Flat(blocks) + data {
      InFlat(blocks, k, e);
    }
    assert forall k :: 0 <= k < n ==> all[k] == more[k] == blocks[k];
    if k :| 0 <= k < |more| && a in more[k].entries && b in more[k].entries {
      if b != e {
        assert k == n ==> a in data && b in data;
        assert k < |all| && a in all[k].entries && b in all[k].entries;
      }
    }
    if k :| 0 <= k < |all| && a in all[k].entries && b in all[k].entries {
      assert a in more[k].entries && b in more[k].entries;
    }
    if k :| 0 <= k < |more| && a in more[k].entries && e in more[k].entries {
      assert k == n;
    }
    if a in data {
      assert a in more[n].entries && e in more[n].entries;
    }
  }

  lemma AddKeepsCuts(blocks: seq<Block>, data: seq<Entry>, offset: nat, es: seq<Entry>, full: seq<bool>, n: nat)
    requires n < |es| == |full| && Sorted(es) && Flat(blocks) + data == es[..n]
    requires CutWhereFull(WithData(blocks, data, offset), es, full, n)
    requires n > 0 ==> (data == [] <==> full[n - 1])
    ensures CutWhereFull(WithData(blocks, data + [es[n]], offset), es, full, n + 1)
  {
    var all, more := WithData(blocks, data, offset), WithData(blocks, data + [es[n]], offset);
    forall x | x in es[..n] ensures x != es[n] {
      var k :| 0 <= k < n && es[k] == x;
      assert Less(es[k].Key(), es[n].Key());
    }
    forall i, j | 0 <= i < j < n + 1 && j == i + 1 ensures SameBlock(more, es[i], es[j]) <==> !full[i] {
      assert es[..n][i] == es[i];
      AddedBlocks(blocks, data, offset, es[n], es[i], es[j]);
      if j < n {
        assert es[..n][j] == es[j];
      } else if data != [] {
        assert (Flat(blocks) + data)[i] == data[|data| - 1];
      }
    }
  }

  /** A builder's fields between two calls. */
  datatype Progress = Progress(blocks: seq<Block>, data: seq<Entry>, offset: nat, index: seq<InternalKey>, pending: bool, lastKey: InternalKey) {
    ghost function Blocks(): seq<Block> {
      WithData(blocks, data, offset)
    }

    ghost function Entries(): seq<Entry> {
      Flat(blocks) + data
    }

    ghost predicate Fits(s: Shortening) {
      Shape(blocks, data, offset, index, pending, lastKey) && Shortened(s, Blocks(), index)
    }
  }

  /** `Fits`, shut. */
  ghost predicate InStep(s: Shortening, p: Progress) {
    match Just(p)
    case Nothing => true
    case Just(q) => forall mark {:trigger Open(q, mark)} :: Open(q, mark) ==> q.Fits(s)
  }

  /** `AllInFilters`, shut. */
  ghost predicate InTheirFilters(blocks: seq<Block>, groups: seq<seq<UserKey>>, keys: seq<UserKey>) {
    match Just(blocks)
    case Nothing => true
    case Just(bs) => forall mark {:trigger Open(bs, mark)} :: Open(bs, mark) ==> AllInFilters(bs, groups, keys)
  }

  /** `CutWhereFull`, shut. */
  ghost predicate CutsSoFar(blocks: seq<Block>, es: seq<Entry>, full: seq<bool>, n: nat)
    requires n <= |es| == |full|
  {
    match Just(blocks)
    case Nothing => true
    case Just(bs) => forall mark {:trigger Open(bs, mark)} :: Open(bs, mark) ==> CutWhereFull(bs, es, full, n)
  }

  /** Finished blocks with an index that fits, shut. */
  ghost predicate AllIndexed(blocks: seq<Block>, index: seq<InternalKey>) {
    match Just(blocks)
    case Nothing => true
    case Just(bs) =>
      forall mark {:trigger Open(bs, mark)} :: Open(bs, mark) ==>
        InOrder(bs) && |index| == |bs| && forall i :: 0 <= i < |bs| ==> Indexed(bs, index, i)
  }

  lemma FinishedTable(t: Table, policy: Policy<UserKey>, es: seq<Entry>)
    requires Flat(t.blocks) == es && AllIndexed(t.blocks, t.index)
    requires t.filter.Just? && |t.filter.value| < 0x1_0000_0000 ==> HasFilter(t, policy)
    ensures (t.filter.Just? ==> |t.filter.value| < 0x1_0000_0000) ==> IsTable(t, policy, es)
  {
    assert Open(t.blocks, 0);
  }

  lemma AddInStep(s: Shortening, p: Progress, e: Entry)
    requires Separating(s) && InStep(s, p) && (p.Entries() != [] ==> Less(LastKey(p.Entries()), e.Key()))
    ensures InStep(s, Progress(p.blocks, p.data + [e], p.offset, IndexBefore(s, p.index, p.pending, p.lastKey, e.Key()), false, e.Key()))
  {
    assert Open(p, 0);
    AddShape(s, p.blocks, p.data, p.offset, p.index, p.pending, p.lastKey, e, p.Entries());
    AddShortened(s, p.blocks, p.data, p.offset, p.index, p.pending, p.lastKey, e);
  }

  lemma FlushInStep(s: Shortening, p: Progress, offset: nat)
    requires InStep(s, p) && p.data != []
    ensures var blocks := p.blocks + [Block(p.offset, p.data)];
            && p.Blocks() == blocks && Flat(blocks) + [] == p.Entries()
            && InStep(s, Progress(blocks, [], offset, p.index, true, p.lastKey))
  {
    assert Open(p, 0);
    assert p.Blocks()[..|p.blocks|] == p.blocks;
  }

  lemma AddInTheirFilters(blocks: seq<Block>, data: seq<Entry>, offset: nat, groups: seq<seq<UserKey>>, keys: seq<UserKey>, e: Entry)
    requires InTheirFilters(WithData(blocks, data, offset), groups, keys) && |groups| == offset / 2048
    ensures InTheirFilters(WithData(blocks, data + [e], offset), groups, keys + [e.user])
  {
    assert Open(WithData(blocks, data, offset), 0);
    AddInFilters(blocks, data, offset, groups, keys, e);
  }

  lemma StartInTheirFilters(blocks: seq<Block>, groups: seq<seq<UserKey>>, keys: seq<UserKey>, groups': seq<seq<UserKey>>, keys': seq<UserKey>,
                            more: seq<seq<UserKey>>)
    requires InTheirFilters(blocks, groups, keys)
    requires (groups' == groups && keys' == keys) || groups' == groups + [keys] + more
    ensures InTheirFilters(blocks, groups', keys')
  {
    assert Open(blocks, 0);
    StartKeepsFilters(blocks, groups, keys, groups', keys');
  }

  lemma AddCuts(blocks: seq<Block>, data: seq<Entry>, offset: nat, es: seq<Entry>, full: seq<bool>, n: nat)
    requires n < |es| == |full| && Sorted(es) && Flat(blocks) + data == es[..n]
    requires CutsSoFar(WithData(blocks, data, offset), es, full, n)
    requires n > 0 ==> (data == [] <==> full[n - 1])
    ensures CutsSoFar(WithData(blocks, data + [es[n]], offset), es, full, n + 1)
  {
    assert Open(WithData(blocks, data, offset), 0);
    AddKeepsCuts(blocks, data, offset, es, full, n);
  }

  lemma CutsDone(blocks: seq<Block>, es: seq<Entry>, full: seq<bool>)
    requires |es| == |full| && CutsSoFar(blocks, es, full, |es|)
    ensures CutWhereFull(blocks, es, full, |es|)
  {
    assert Open(blocks, 0);
  }

  class TableBuilder {
    const shortening: Shortening
    const policy: Policy<UserKey>
    const filter: FilterBlockBuilder?<UserKey>
    var blocks: seq<Block>
    var data: seq<Entry>
    var offset: nat
    var pending: bool
    var lastKey: InternalKey
    var index: seq<InternalKey>

    ghost function State(): Progress
      reads this
    {
      Progress(blocks, data, offset, index, pending, lastKey)
    }

    ghost function Entries(): seq<Entry>
      reads this
    {
      State().Entries()
    }

    /** The blocks, with the open one as the last. */
    ghost function Blocks(): seq<Block>
      reads this
    {
      State().Blocks()
    }

    ghost predicate Valid()
      reads this, filter
    {
      && Separating(shortening) && InStep(shortening, State())
      && (filter != null ==>
            filter.Valid() && filter.policy == policy && |filter.groups| == offset / 2048 &&
            InTheirFilters(Blocks(), filter.groups, filter.keys))
    }

    constructor (shortening: Shortening, policy: Policy<UserKey>, filtered: bool)
      requires Separating(shortening)
      ensures Valid() && Entries() == [] && data == [] && this.policy == policy && this.shortening == shortening
      ensures filtered <==> filter != null
      ensures filter != null ==> fresh(filter)
    {
      this.shortening := shortening;
      this.policy := policy;
      var f: FilterBlockBuilder?<UserKey> := null;
      if filtered {
        f := new FilterBlockBuilder(policy);
        f.StartBlock(0);
      }
      this.filter := f;
      blocks, data, offset, pending, index := [], [], 0, false, [];
      lastKey := FirstOf(0);
    }

    /** The index entry of a block waits for the first key behind the block; `full` says that the block has reached its size,
        and is then closed and followed by the five bytes of its trailer. */
    method Add(e: Entry, full: bool, size: nat)
      requires Valid() && (Entries() != [] ==> Less(LastKey(Entries()), e.Key()))
      modifies this, filter
      ensures Valid() && Entries() == old(Entries()) + [e]
      ensures Blocks() == WithData(old(blocks), old(data) + [e], old(offset))
      ensures data == (if full then [] else old(data) + [e]) && offset == old(offset) + (if full then size + 5 else 0)
    {
      AddEntry(e);
      if full {
        Flush(size);
      }
    }

    method AddEntry(e: Entry)
      requires Valid() && (Entries() != [] ==> Less(LastKey(Entries()), e.Key()))
      modifies this, filter
      ensures Valid() && Entries() == old(Entries()) + [e]
      ensures data == old(data) + [e] && blocks == old(blocks) && offset == old(offset)
      ensures filter != null ==> filter.keys == old(filter.keys) + [e.user] && filter.groups == old(filter.groups)
    {
      AddInStep(shortening, State(), e);
      index := IndexBefore(shortening, index, pending, lastKey, e.Key());
      pending := false;
      if filter != null {
        AddInTheirFilters(blocks, data, offset, filter.groups, filter.keys, e);
        filter.AddKey(e.user);
      }
      lastKey := e.Key();
      data := data + [e];
      assert Flat(blocks) + data == old(Entries()) + [e];
    }

    method Flush(size: nat)
      requires Valid()
      modifies this, filter
      ensures Valid() && data == [] && Entries() == old(Entries()) && index == old(index)
      ensures blocks == old(Blocks()) && offset == old(offset) + (if old(data) == [] then 0 else size + 5)
    {
      if data == [] {
        return;
      }
      FlushInStep(shortening, State(), offset + size + 5);
      blocks := blocks + [Block(offset, data)];
      pending := true;
      data := [];
      offset := offset + size + 5;
      if filter != null {
        ghost var groups, keys := filter.groups, filter.keys;
        assert |groups| <= offset / 2048;
        filter.StartBlock(offset);
        StartInTheirFilters(blocks, groups, keys, filter.groups, filter.keys,
                            seq(if offset / 2048 == |groups| then 0 else offset / 2048 - |groups| - 1, _ => []));
      }
    }

    method Finish(size: nat) returns (t: Table)
      requires Valid()
      modifies this, filter
      ensures t.filter.Just? <==> filter != null
      ensures t.blocks == old(Blocks()) && ShortIndex(shortening, t.blocks, t.index)
      ensures (t.filter.Just? ==> |t.filter.value| < 0x1_0000_0000) ==> IsTable(t, policy, old(Entries()))
    {
      Flush(size);
      assert Flat(blocks) + [] == Flat(blocks);
      FinishIndex();
      var contents := FinishFilter();
      t := Table(blocks, index, contents);
      FinishedTable(t, policy, old(Entries()));
    }

    method FinishIndex()
      requires Valid() && data == []
      modifies this`index, this`pending
      ensures AllIndexed(blocks, index) && ShortIndex(shortening, blocks, index)
    {
      ghost var before := index;
      assert Open(State(), 0);
      if pending {
        LastIndexed(shortening, blocks, index);
        index := index + [FindShortSuccessor(shortening, lastKey)];
        pending := false;
      }
      forall i | 0 <= i < |index| && i + 1 < |blocks| ensures ShortBetween(shortening, blocks, index, i) {
        assert ShortBetween(shortening, blocks, before, i) && index[i] == before[i];
      }
    }

    method FinishFilter() returns (contents: Maybe<seq<Byte>>)
      requires filter != null ==> filter.Valid() && filter.policy == policy && InTheirFilters(blocks, filter.groups, filter.keys)
      modifies filter
      ensures contents.Just? <==> filter != null
      ensures contents.Just? && |contents.value| < 0x1_0000_0000 ==> HasFilter(Table(blocks, index, contents), policy)
    {
      contents := Nothing;
      if filter != null {
        ghost var groups, keys := filter.groups, filter.keys;
        var bytes := filter.Finish();
        contents := Just(bytes);
        assert Open(blocks, 0);
        FinishedFilters(blocks, groups, keys, filter.groups);
        assert |Result(policy, filter.groups)| <= |bytes|;
      }
    }
  }

  lemma {:induction false} FlatSorted(blocks: seq<Block>)
    requires InOrder(blocks)
    ensures Sorted(Flat(blocks))
    decreases |blocks|
  {
    if blocks != [] {
      var n := |blocks| - 1;
      FlatSorted(blocks[..n]);
      var before, last := Flat(blocks[..n]), blocks[n].entries;
      forall x, y | x in before && y in last ensures Less(x.Key(), y.Key()) {
        var i := InSomeBlock(blocks[..n], x);
        assert EndsBefore(blocks[i], y.Key());
      }
      SortedConcat(before, last);
    }
  }

  lemma SortedConcat(a: seq<Entry>, b: seq<Entry>)
    requires Sorted(a) && Sorted(b) && forall x, y :: x in a && y in b ==> Less(x.Key(), y.Key())
    ensures Sorted(a + b)
  {
    forall i, j | 0 <= i < j < |a + b| ensures Less((a + b)[i].Key(), (a + b)[j].Key()) {
      if i < |a| <= j {
        assert a[i] in a && b[j - |a|] in b;
      }
    }
  }

  /** Everything in the builder is before what may be added to it. */
  lemma LastIsLast(blocks: seq<Block>, data: seq<Entry>, offset: nat, es: seq<Entry>)
    requires InOrder(WithData(blocks, data, offset)) && es == Flat(blocks) + data
    ensures Sorted(es) && Flat(WithData(blocks, data, offset)) == es
    ensures data != [] ==> LastKey(es) == LastKey(data)
    ensures data == [] && blocks != [] ==> es != [] && LastKey(es) == LastKey(blocks[|blocks| - 1].entries)
  {
    var all := WithData(blocks, data, offset);
    if data != [] {
      assert all[..|blocks|] == blocks;
    } else {
      assert Flat(blocks) + [] == Flat(blocks);
    }
    FlatSorted(all);
  }

  lemma BeforeNext(es: seq<Entry>, x: Entry, key: InternalKey)
    requires Sorted(es) && x in es && Less(LastKey(es), key)
    ensures Less(x.Key(), key)
  {
    var i :| 0 <= i < |es| && es[i] == x;
    assert i < |es| - 1 ==> Less(es[i].Key(), LastKey(es));
  }

  lemma AddInOrder(blocks: seq<Block>, data: seq<Entry>, offset: nat, e: Entry, es: seq<Entry>)
    requires InOrder(WithData(blocks, data, offset)) && es == Flat(blocks) + data && Sorted(es)
    requires es != [] ==> Less(LastKey(es), e.Key())
    ensures InOrder(WithData(blocks, data + [e], offset))
  {
    var all, more := WithData(blocks, data, offset), WithData(blocks, data + [e], offset);
    forall i | 0 <= i < |more| ensures more[i].entries != [] && Sorted(more[i].entries) {
      if i < |blocks| {
        assert more[i] == all[i];
      } else {
        assert data != [] ==> all[i].entries == data;
        forall x | x in data ensures Less(x.Key(), e.Key()) {
          BeforeNext(es, x, e.Key());
        }
        SortedConcat(data, [e]);
      }
    }
    forall i, j, x | 0 <= i < j < |more| && x in more[j].entries ensures EndsBefore(more[i], x.Key()) {
      assert more[i] == blocks[i] == all[i];
      if x == e {
        forall y | y in blocks[i].entries ensures Less(y.Key(), e.Key()) {
          InFlat(blocks, i, y);
          BeforeNext(es, y, e.Key());
        }
      } else {
        assert x in all[j].entries;
      }
    }
  }

  /** A user key before one of the entries of a block behind is before the next entry, too. */
  lemma StillIndexed(blocks: seq<Block>, data: seq<Entry>, index: seq<InternalKey>, offset: nat, e: Entry)
    requires InOrder(WithData(blocks, data + [e], offset)) && InOrder(WithData(blocks, data, offset))
    requires |index| == |blocks| && (data == [] ==> blocks == [])
    requires forall i :: 0 <= i < |index| ==> Indexed(WithData(blocks, data, offset), index, i)
    ensures forall i :: 0 <= i < |index| ==> Indexed(WithData(blocks, data + [e], offset), index, i)
  {
    var all, more := WithData(blocks, data, offset), WithData(blocks, data + [e], offset);
    forall i | 0 <= i < |index| ensures Indexed(more, index, i) {
      assert Indexed(all, index, i) && more[i] == all[i];
      FirstOfData(blocks, data, offset, e);
      NextIndexed(all, more, index, i, data[0], e);
    }
  }

  lemma FirstOfData(blocks: seq<Block>, data: seq<Entry>, offset: nat, e: Entry)
    requires data != [] && InOrder(WithData(blocks, data + [e], offset))
    ensures Less(data[0].Key(), e.Key())
    ensures data[0] in WithData(blocks, data, offset)[|blocks|].entries
    ensures forall j, x :: 0 <= j <= |blocks| && x in WithData(blocks, data + [e], offset)[j].entries ==>
              x == e || x in WithData(blocks, data, offset)[j].entries
  {
    var es := data + [e];
    assert WithData(blocks, es, offset)[|blocks|].entries == es;
    assert es[0] == data[0] && es[|data|] == e;
    assert data[0] in data;
  }

  lemma NextIndexed(all: seq<Block>, more: seq<Block>, index: seq<InternalKey>, i: nat, first: Entry, e: Entry)
    requires i < |index| && i < |all| && i < |more| && Indexed(all, index, i) && more[i] == all[i]
    requires exists j :: i < j < |all| && first in all[j].entries
    requires Less(first.Key(), e.Key())
    requires forall j, x :: i < j < |more| && x in more[j].entries ==> x == e || exists k :: i < k < |all| && x in all[k].entries
    ensures Indexed(more, index, i)
  {
  }

  lemma PendingIndexed(s: Shortening, blocks: seq<Block>, index: seq<InternalKey>, offset: nat, e: Entry)
    requires Separating(s) && InOrder(blocks) && InOrder(WithData(blocks, [e], offset)) && |blocks| == |index| + 1
    requires forall i :: 0 <= i < |index| ==> Indexed(blocks, index, i)
    ensures var sep := FindShortestSeparator(s, LastKey(blocks[|blocks| - 1].entries), e.Key());
            forall i :: 0 <= i < |blocks| ==> Indexed(WithData(blocks, [e], offset), index + [sep], i)
  {
    var more, n := WithData(blocks, [e], offset), |blocks| - 1;
    var last := blocks[n].entries;
    var lastEntry := last[|last| - 1];
    assert more[n] == blocks[n] && e in more[n + 1].entries;
    assert EndsBefore(more[n], e.Key()) && lastEntry in last;
    SeparatorCloses(s, LastKey(last), e.Key());
    var index' := index + [FindShortestSeparator(s, LastKey(last), e.Key())];
    forall i | 0 <= i < |blocks| ensures Indexed(more, index', i) {
      if i < n {
        assert Indexed(blocks, index, i) && more[i] == blocks[i] && index'[i] == index[i];
        NextIndexed(blocks, more, index', i, lastEntry, e);
      }
    }
  }

  lemma LastIndexed(s: Shortening, blocks: seq<Block>, index: seq<InternalKey>)
    requires Separating(s) && InOrder(blocks) && |blocks| == |index| + 1
    requires forall i :: 0 <= i < |index| ==> Indexed(blocks, index, i)
    ensures var sep := FindShortSuccessor(s, LastKey(blocks[|blocks| - 1].entries));
            forall i :: 0 <= i < |blocks| ==> Indexed(blocks, index + [sep], i)
  {
    SuccessorCloses(s, LastKey(blocks[|blocks| - 1].entries));
    var index' := index + [FindShortSuccessor(s, LastKey(blocks[|blocks| - 1].entries))];
    forall i | 0 <= i < |blocks| ensures Indexed(blocks, index', i) {
      if i < |index| {
        assert Indexed(blocks, index, i) && index'[i] == index[i];
      }
    }
  }

  lemma AddInFilters(blocks: seq<Block>, data: seq<Entry>, offset: nat, groups: seq<seq<UserKey>>, keys: seq<UserKey>, e: Entry)
    requires AllInFilters(WithData(blocks, data, offset), groups, keys) && |groups| == offset / 2048
    ensures AllInFilters(WithData(blocks, data + [e], offset), groups, keys + [e.user])
  {
    var all, more := WithData(blocks, data, offset), WithData(blocks, data + [e], offset);
    forall i, x | 0 <= i < |more| && x in more[i].entries ensures InFilter(groups, keys + [e.user], more[i].offset / 2048, x.user) {
      if i < |blocks| {
        assert all[i] == more[i];
      } else if x in data {
        assert x in all[i].entries && all[i].offset == offset;
      }
    }
  }

  /** Closing filters leaves every key in the filter it was added for. */
  lemma StartKeepsFilters(blocks: seq<Block>, groups: seq<seq<UserKey>>, keys: seq<UserKey>, groups': seq<seq<UserKey>>, keys': seq<UserKey>)
    requires AllInFilters(blocks, groups, keys)
    requires (groups' == groups && keys' == keys) || (|groups'| > |groups| && groups'[..|groups|] == groups && groups'[|groups|] == keys)
    ensures AllInFilters(blocks, groups', keys')
  {
    forall i, e | 0 <= i < |blocks| && e in blocks[i].entries ensures InFilter(groups', keys', blocks[i].offset / 2048, e.user) {
      var k := blocks[i].offset / 2048;
      assert InFilter(groups, keys, k, e.user);
      assert k < |groups| && groups' != groups ==> groups'[k] == groups'[..|groups|][k];
    }
  }

  lemma FinishedFilter(groups: seq<seq<UserKey>>, keys: seq<UserKey>, groups': seq<seq<UserKey>>, k: nat, u: UserKey)
    requires InFilter(groups, keys, k, u) && groups' == if keys == [] then groups else groups + [keys]
    ensures HasKey(groups', k, u)
  {
  }

  lemma FinishedFilters(blocks: seq<Block>, groups: seq<seq<UserKey>>, keys: seq<UserKey>, groups': seq<seq<UserKey>>)
    requires AllInFilters(blocks, groups, keys) && groups' == if keys == [] then groups else groups + [keys]
    ensures Filtered(blocks, groups')
  {
    forall i, e: Entry | 0 <= i < |blocks| && e in blocks[i].entries
      ensures HasKey(groups', blocks[i].offset / 2048, e.user)
    {
      FinishedFilter(groups, keys, groups', blocks[i].offset / 2048, e.user);
    }
  }

  /** Feeds the builder; `full` says behind which entries a block ends, `sizes` how long the block is then. */
  method Build(shortening: Shortening, policy: Policy<UserKey>, filtered: bool, es: seq<Entry>, full: seq<bool>, sizes: seq<nat>)
    returns (t: Table)
    requires Separating(shortening) && Sorted(es) && |full| == |sizes| == |es|
    ensures CutWhereFull(t.blocks, es, full, |es|) && ShortIndex(shortening, t.blocks, t.index)
    ensures t.filter.Just? <==> filtered
    ensures (t.filter.Just? ==> |t.filter.value| < 0x1_0000_0000) ==> IsTable(t, policy, es)
  {
    var builder := new TableBuilder(shortening, policy, filtered);
    for i := 0 to |es|
      invariant fresh(builder) && (builder.filter != null ==> fresh(builder.filter)) && builder.policy == policy
      invariant builder.shortening == shortening && (builder.filter != null <==> filtered)
      invariant builder.Valid() && builder.Entries() == es[..i] && CutsSoFar(builder.Blocks(), es, full, i)
      invariant i > 0 ==> (builder.data == [] <==> full[i - 1])
    {
      NextInOrder(es, i);
      AddCuts(builder.blocks, builder.data, builder.offset, es, full, i);
      builder.Add(es[i], full[i], sizes[i]);
    }
    assert es[..|es|] == es;
    CutsDone(builder.Blocks(), es, full);
    t := builder.Finish(0);
  }

  lemma NextInOrder(es: seq<Entry>, i: nat)
    requires Sorted(es) && i < |es|
    ensures es[..i + 1] == es[..i] + [es[i]]
    ensures es[..i] != [] ==> Less(LastKey(es[..i]), es[i].Key())
  {
  }

  /** A table built from sorted entries, wherever blocks end and however keys are shortened, answers lookups as the entries do. */
  method BuildAndGet(shortening: Shortening, policy: Policy<UserKey>, filtered: bool, es: seq<Entry>, full: seq<bool>, sizes: seq<nat>,
                     u: UserKey, s: Seqno) returns (t: Table, h: Maybe<Hit>)
    requires Separating(shortening) && Lawful(policy) && Sorted(es) && |full| == |sizes| == |es|
    ensures h.Just? ==> Newest(Elems(es), u, s, h.value)
    ensures h.Nothing? ==> t.filter.Just? && |t.filter.value| >= 0x1_0000_0000
  {
    t := Build(shortening, policy, filtered, es, full, sizes);
    if t.filter.Just? && |t.filter.value| >= 0x1_0000_0000 {
      return t, Nothing;
    }
    var hit, read := Get(t, policy, u, s, es);
    h := Just(hit);
  }
}
