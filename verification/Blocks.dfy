/** Blocks: keys stored without the prefix they share with the key before, restart points, and a cursor over the bytes. */
module Blocks {
  import opened Values
  import opened Coding

  type Key = seq<Byte>

  datatype Pair = Pair(key: Key, value: seq<Byte>)

  // ---------------------------------------------------------------------------------------------
  // One entry
  // ---------------------------------------------------------------------------------------------

  function EntryHead(shared: nat, pair: Pair): seq<Byte>
    requires shared <= |pair.key|
  {
    Varint(shared) + Varint(|pair.key| - shared) + Varint(|pair.value|)
  }

  function EncodeEntry(shared: nat, pair: Pair): seq<Byte>
    requires shared <= |pair.key|
  {
    EntryHead(shared, pair) + pair.key[shared..] + pair.value
  }

  /** Three lengths, what the key adds to the one before, and the value. */
  lemma EntryBytes(shared: nat, pair: Pair)
    requires shared <= |pair.key| < 128 && |pair.value| < 128
    ensures EncodeEntry(shared, pair) == [shared, |pair.key| - shared, |pair.value|] + pair.key[shared..] + pair.value
  {
    var a, b := |pair.key| - shared, |pair.value|;
    assert Varint(shared) == [shared] && Varint(a) == [a] && Varint(b) == [b];
  }

  /** The three lengths of an entry and where its key bytes start. */
  datatype Decoded = Bad | Decoded(shared: nat, nonShared: nat, valueLength: nat, delta: nat)

  function Checked(shared: nat, nonShared: nat, valueLength: nat, delta: nat, limit: nat): Decoded {
    if limit - delta < (nonShared + valueLength) % 0x1_0000_0000 then Bad else Decoded(shared, nonShared, valueLength, delta)
  }

  /** DecodeEntry on the bytes from `p` to `limit`: three lengths of one byte each are read at once. */
  function DecodeEntry(data: seq<Byte>, p: nat, limit: nat): Decoded
    requires p <= limit <= |data|
  {
    if limit - p < 3 then Bad
    else if data[p] < 128 && data[p + 1] < 128 && data[p + 2] < 128 then Checked(data[p], data[p + 1], data[p + 2], p + 3, limit)
    else DecodeVarints(data[p..limit], limit)
  }

  function DecodeVarints(input: seq<Byte>, limit: nat): Decoded {
    var a := ParseVarint(input, 0);
    if a.Failed? then Bad else DecodeTwo(a.value, a.rest, limit)
  }

  function DecodeTwo(shared: nat, input: seq<Byte>, limit: nat): Decoded {
    var b := ParseVarint(input, 0);
    if b.Failed? then Bad else DecodeLast(shared, b.value, b.rest, limit)
  }

  function DecodeLast(shared: nat, nonShared: nat, input: seq<Byte>, limit: nat): Decoded {
    var c := ParseVarint(input, 0);
    if c.Failed? || |c.rest| > limit then Bad else Checked(shared, nonShared, c.value, limit - |c.rest|, limit)
  }

  lemma SmallVarint(v: nat, rest: seq<Byte>)
    ensures (Varint(v) + rest)[0] < 128 <==> v < 128
    ensures v < 128 ==> Varint(v) == [v]
  {
  }

  lemma HeadBytes(a: nat, b: nat, c: nat, rest: seq<Byte>)
    ensures var h := Varint(a) + (Varint(b) + (Varint(c) + rest));
            |h| >= 3 && (h[0] < 128 && h[1] < 128 && h[2] < 128 ==> a < 128 && b < 128 && c < 128 && h == [a, b, c] + rest)
  {
    var tail := Varint(c) + rest;
    SmallVarint(c, rest);
    SmallVarint(b, tail);
    SmallVarint(a, Varint(b) + tail);
    if a < 128 && b < 128 && c < 128 {
      assert [a] + ([b] + ([c] + rest)) == [a, b, c] + rest;
    }
  }

  lemma VarintsDecode(a: nat, b: nat, c: nat, rest: seq<Byte>, input: seq<Byte>, limit: nat)
    requires input == Varint(a) + (Varint(b) + (Varint(c) + rest)) && |rest| <= limit
    requires a < 0x1_0000_0000 && b < 0x1_0000_0000 && c < 0x1_0000_0000
    ensures DecodeVarints(input, limit) == Checked(a, b, c, limit - |rest|, limit)
  {
    var last := Varint(c) + rest;
    var middle := Varint(b) + last;
    VarintParses(a, middle, 0);
    assert DecodeVarints(input, limit) == DecodeTwo(a, middle, limit);
    TwoDecode(a, b, c, rest, last, limit);
  }

  lemma TwoDecode(a: nat, b: nat, c: nat, rest: seq<Byte>, last: seq<Byte>, limit: nat)
    requires last == Varint(c) + rest && |rest| <= limit && b < 0x1_0000_0000 && c < 0x1_0000_0000
    ensures DecodeTwo(a, Varint(b) + last, limit) == Checked(a, b, c, limit - |rest|, limit)
  {
    VarintParses(b, last, 0);
    VarintParses(c, rest, 0);
  }

  lemma Fits(a: nat, b: nat, c: nat, delta: nat, limit: nat)
    requires b + c < 0x1_0000_0000 && delta + b + c <= limit
    ensures Checked(a, b, c, delta, limit) == Decoded(a, b, c, delta)
  {
  }

  /** Both ways of reading give the lengths that were written. */
  lemma HeadDecodes(data: seq<Byte>, p: nat, limit: nat, a: nat, b: nat, c: nat, rest: seq<Byte>)
    requires p <= limit <= |data| && data[p..limit] == Varint(a) + (Varint(b) + (Varint(c) + rest))
    requires a < 0x1_0000_0000 && b + c < 0x1_0000_0000 && b + c <= |rest|
    ensures |rest| <= limit && DecodeEntry(data, p, limit) == Decoded(a, b, c, limit - |rest|)
  {
    var h := data[p..limit];
    HeadBytes(a, b, c, rest);
    VarintsDecode(a, b, c, rest, h, limit);
    Fits(a, b, c, limit - |rest|, limit);
    assert h[0] == data[p] && h[1] == data[p + 1] && h[2] == data[p + 2];
    if h[0] < 128 && h[1] < 128 && h[2] < 128 {
      ThreeBytes(h, a, b, c, rest);
    }
  }

  lemma ThreeBytes(h: seq<Byte>, a: nat, b: nat, c: nat, rest: seq<Byte>)
    requires a < 128 && b < 128 && c < 128 && h == [a, b, c] + rest
    ensures h[0] == a && h[1] == b && h[2] == c && |h| == 3 + |rest|
  {
  }

  // ---------------------------------------------------------------------------------------------
  // The layout of a block
  // ---------------------------------------------------------------------------------------------

  /** Where the pairs are: `offsets` has one more element than there are pairs, `restarts` are the indices of restart points. */
  datatype Layout = Layout(pairs: seq<Pair>, shared: seq<nat>, offsets: seq<nat>, restarts: seq<nat>)

  predicate SharesPrefix(shared: nat, before: Key, key: Key) {
    shared <= |before| && shared <= |key| && before[..shared] == key[..shared]
  }

  /** Pair `i` is encoded at its offset, and shares what it leaves out with the pair before. */
  ghost predicate EntryAt(buffer: seq<Byte>, l: Layout, i: nat) {
    && i < |l.pairs| && i < |l.shared| && i + 1 < |l.offsets|
    && SharesPrefix(l.shared[i], if i == 0 then [] else l.pairs[i - 1].key, l.pairs[i].key)
    && l.offsets[i] < l.offsets[i + 1] <= |buffer|
    && buffer[l.offsets[i]..l.offsets[i + 1]] == EncodeEntry(l.shared[i], l.pairs[i])
  }

  predicate RestartsOk(l: Layout) {
    && l.restarts != [] && l.restarts[0] == 0
    && (forall i, j :: 0 <= i < j < |l.restarts| ==> l.restarts[i] < l.restarts[j])
    && (forall j :: 0 <= j < |l.restarts| ==> IsRestart(l, l.restarts[j]))
  }

  /** A pair that leaves nothing out; in an empty block, the end. */
  predicate IsRestart(l: Layout, i: nat) {
    if l.pairs == [] then i == 0 else i < |l.pairs| && i < |l.shared| && l.shared[i] == 0
  }

  ghost predicate LaidOut(buffer: seq<Byte>, l: Layout) {
    && |l.shared| == |l.pairs| && |l.offsets| == |l.pairs| + 1 && l.offsets[0] == 0 && l.offsets[|l.pairs|] == |buffer|
    && (forall i :: 0 <= i < |l.pairs| ==> EntryAt(buffer, l, i))
    && RestartsOk(l)
  }

  /** Nothing more is shared than that. */
  predicate SharesAll(shared: nat, before: Key, key: Key) {
    SharesPrefix(shared, before, key) && (shared == |before| || shared == |key| || before[shared] != key[shared])
  }

  /** A restart point at every `interval`-th pair and nowhere else; between them each pair leaves out all it shares with the
      one before. */
  ghost predicate Compressed(l: Layout, interval: nat) {
    && |l.shared| == |l.pairs|
    && (forall j :: 0 <= j < |l.restarts| ==> l.restarts[j] == j * interval)
    && |l.pairs| <= |l.restarts| * interval && (l.pairs != [] ==> (|l.restarts| - 1) * interval < |l.pairs|)
    && (forall i :: 0 <= i < |l.pairs| ==> LeavesOut(l, i))
  }

  predicate LeavesOut(l: Layout, i: nat)
    requires i < |l.pairs| == |l.shared|
  {
    if i == 0 || i in l.restarts then l.shared[i] == 0 else SharesAll(l.shared[i], l.pairs[i - 1].key, l.pairs[i].key)
  }

  predicate Storable(pair: Pair) {
    |pair.key| + |pair.value| < 0x1_0000_0000
  }

  function RestartOffsets(l: Layout): seq<nat>
    requires forall j :: 0 <= j < |l.restarts| ==> l.restarts[j] < |l.offsets|
  {
    seq(|l.restarts|, j requires 0 <= j < |l.restarts| => l.offsets[l.restarts[j]])
  }

  // ---------------------------------------------------------------------------------------------
  // Building
  // ---------------------------------------------------------------------------------------------

  ghost predicate BuilderOk(buffer: seq<Byte>, restarts: seq<nat>, counter: nat, lastKey: Key, l: Layout, interval: nat) {
    && LaidOut(buffer, l) && Compressed(l, interval) && 1 <= interval && counter <= interval
    && |l.pairs| == (|l.restarts| - 1) * interval + counter && (l.pairs == [] <==> counter == 0)
    && restarts == RestartOffsets(l)
    && lastKey == (if l.pairs == [] then [] else l.pairs[|l.pairs| - 1].key)
  }

  class BlockBuilder {
    const interval: nat
    var buffer: seq<Byte>
    var restarts: seq<nat>
    var counter: nat
    var lastKey: Key
    ghost var layout: Layout

    ghost predicate Valid()
      reads this
    {
      BuilderOk(buffer, restarts, counter, lastKey, layout, interval)
    }

    constructor (interval: nat)
      requires interval >= 1
      ensures Valid() && layout.pairs == [] && this.interval == interval
    {
      this.interval := interval;
      buffer, restarts, counter, lastKey := [], [0], 0, [];
      layout := Layout([], [], [0], [0]);
    }

    /** How many bytes the key shares with the last one. */
    method SharedWith(key: Key) returns (shared: nat)
      ensures SharesAll(shared, lastKey, key)
    {
      var minLength := if |lastKey| < |key| then |lastKey| else |key|;
      shared := 0;
      while shared < minLength && lastKey[shared] == key[shared]
        invariant shared <= minLength && lastKey[..shared] == key[..shared]
      {
        shared := shared + 1;
      }
    }

    method Add(pair: Pair)
      requires Valid()
      modifies this
      ensures Valid() && layout.pairs == old(layout.pairs) + [pair]
      ensures layout.restarts == if old(layout.pairs) != [] && old(counter) == interval then old(layout.restarts) + [|old(layout.pairs)|]
                                 else old(layout.restarts)
    {
      var shared := 0;
      ghost var restart := counter >= interval;
      if counter < interval {
        shared := SharedWith(pair.key);
      } else {
        restarts := restarts + [|buffer|];
        counter := 0;
      }
      AddKeeps(buffer, layout, interval, old(restarts), old(counter), lastKey, shared, pair);
      buffer := buffer + EncodeEntry(shared, pair);
      lastKey := lastKey[..shared] + pair.key[shared..];
      counter := counter + 1;
      layout := Extended(layout, shared, pair, |buffer|, restart);
    }

    method Finish() returns (contents: seq<Byte>)
      requires Valid()
      ensures contents == BlockBytes(buffer, layout)
    {
      contents := buffer;
      for i := 0 to |restarts|
        invariant contents == buffer + Words(restarts[..i])
      {
        assert restarts[..i + 1][..i] == restarts[..i];
        contents := contents + Word32(restarts[i]);
      }
      assert restarts[..|restarts|] == restarts;
      contents := contents + Word32(|restarts|);
    }
  }

  /** The finished block. */
  function BlockBytes(buffer: seq<Byte>, l: Layout): seq<Byte>
    requires forall j :: 0 <= j < |l.restarts| ==> l.restarts[j] < |l.offsets|
  {
    buffer + Words(RestartOffsets(l)) + Word32(|l.restarts|)
  }

  /** One more pair at the end. */
  function Extended(l: Layout, shared: nat, pair: Pair, end: nat, restart: bool): Layout {
    Layout(l.pairs + [pair], l.shared + [shared], l.offsets + [end], if restart then l.restarts + [|l.pairs|] else l.restarts)
  }

  /** A pair is added: what it shares is all of the common prefix, or nothing where a restart point is due. */
  lemma AddKeeps(buffer: seq<Byte>, l: Layout, interval: nat, restarts: seq<nat>, counter: nat, lastKey: Key, shared: nat, pair: Pair)
    requires BuilderOk(buffer, restarts, counter, lastKey, l, interval)
    requires if counter < interval then SharesAll(shared, lastKey, pair.key) else shared == 0
    ensures var buffer', restart := buffer + EncodeEntry(shared, pair), counter >= interval;
            BuilderOk(buffer', if restart then restarts + [|buffer|] else restarts, if restart then 1 else counter + 1,
                      lastKey[..shared] + pair.key[shared..], Extended(l, shared, pair, |buffer'|, restart), interval)
  {
    var end, restart := |buffer + EncodeEntry(shared, pair)|, counter >= interval;
    LayoutGrows(buffer, l, shared, pair, restart);
    NextMultiple(|l.restarts|, interval);
    CompressedGrows(l, interval, shared, pair, end, restart);
    KeyRebuilt(lastKey, pair.key, shared);
    RestartsGrow(l, shared, pair, end, restart);
    CountGrows(|l.restarts|, interval, counter, |l.pairs|);
  }

  lemma CountGrows(n: nat, interval: nat, counter: nat, pairs: nat)
    requires n > 0 && pairs == (n - 1) * interval + counter && counter <= interval
    ensures if counter >= interval then pairs + 1 == n * interval + 1 else pairs + 1 == (n - 1) * interval + (counter + 1)
  {
    NextMultiple(n, interval);
  }

  lemma CompressedGrows(l: Layout, interval: nat, shared: nat, pair: Pair, end: nat, restart: bool)
    requires Compressed(l, interval) && l.restarts != [] && interval >= 1
    requires if restart then shared == 0 && l.pairs != [] && |l.pairs| == (|l.restarts| - 1) * interval + interval
             else |l.pairs| < (|l.restarts| - 1) * interval + interval
    requires l.pairs == [] ==> shared == 0 && |l.restarts| == 1
    requires !restart && l.pairs != [] ==> SharesAll(shared, l.pairs[|l.pairs| - 1].key, pair.key)
    ensures Compressed(Extended(l, shared, pair, end, restart), interval)
  {
    var more := Extended(l, shared, pair, end, restart);
    NextMultiple(|l.restarts|, interval);
    forall i | 0 <= i < |more.pairs| ensures LeavesOut(more, i) {
      if i < |l.pairs| {
        assert LeavesOut(l, i);
      } else if !restart && i > 0 {
        NotAMultiple(l.restarts, interval, i);
      }
    }
  }

  lemma NextMultiple(n: nat, interval: nat)
    requires n > 0
    ensures (n - 1) * interval + interval == n * interval
  {
  }

  /** A pair behind the last restart point and before the next one is none. */
  lemma NotAMultiple(restarts: seq<nat>, interval: nat, i: nat)
    requires restarts != [] && forall j :: 0 <= j < |restarts| ==> restarts[j] == j * interval
    requires i > (|restarts| - 1) * interval
    ensures i !in restarts
  {
    forall j | 0 <= j < |restarts| ensures restarts[j] < i {
      Monotone(j, |restarts| - 1, interval);
    }
  }

  lemma Monotone(a: nat, b: nat, interval: nat)
    requires a <= b
    ensures a * interval <= b * interval
  {
  }

  lemma KeyRebuilt(before: Key, key: Key, shared: nat)
    requires SharesPrefix(shared, before, key)
    ensures before[..shared] + key[shared..] == key
  {
  }

  lemma RestartsGrow(l: Layout, shared: nat, pair: Pair, end: nat, restart: bool)
    requires (forall j :: 0 <= j < |l.restarts| ==> l.restarts[j] < |l.offsets|) && |l.offsets| == |l.pairs| + 1
    ensures var more := Extended(l, shared, pair, end, restart);
            && (forall j :: 0 <= j < |more.restarts| ==> more.restarts[j] < |more.offsets|)
            && RestartOffsets(more) == RestartOffsets(l) + if restart then [l.offsets[|l.pairs|]] else []
  {
  }

  lemma LayoutGrows(buffer: seq<Byte>, l: Layout, shared: nat, pair: Pair, restart: bool)
    requires LaidOut(buffer, l) && SharesPrefix(shared, if l.pairs == [] then [] else l.pairs[|l.pairs| - 1].key, pair.key)
    requires restart ==> shared == 0 && l.pairs != []
    ensures var buffer' := buffer + EncodeEntry(shared, pair);
            LaidOut(buffer', Extended(l, shared, pair, |buffer'|, restart))
  {
    var buffer' := buffer + EncodeEntry(shared, pair);
    var more := Extended(l, shared, pair, |buffer'|, restart);
    forall i | 0 <= i < |more.pairs| ensures EntryAt(buffer', more, i) {
      if i < |l.pairs| {
        assert EntryAt(buffer, l, i);
        SlicePrefix(buffer, EncodeEntry(shared, pair), l.offsets[i], l.offsets[i + 1]);
      } else {
        assert buffer'[|buffer|..] == EncodeEntry(shared, pair);
      }
    }
    forall j | 0 <= j < |more.restarts| ensures IsRestart(more, more.restarts[j]) {
      if j < |l.restarts| {
        assert IsRestart(l, l.restarts[j]);
      }
    }
    forall i, j | 0 <= i < j < |more.restarts| ensures more.restarts[i] < more.restarts[j] {
      assert IsRestart(l, l.restarts[i]);
    }
  }

  // ---------------------------------------------------------------------------------------------
  // Reading
  // ---------------------------------------------------------------------------------------------

  /** `data` is a finished block whose entries end at `end`. */
  ghost predicate Finished(data: seq<Byte>, end: nat, l: Layout) {
    && end <= |data| < 0x1_0000_0000 && LaidOut(data[..end], l) && data == BlockBytes(data[..end], l)
    && forall i :: 0 <= i < |l.pairs| ==> Storable(l.pairs[i])
  }

  lemma EntryStarts(buffer: seq<Byte>, l: Layout, k: nat)
    requires k < |l.pairs| && EntryAt(buffer, l, k)
    ensures var shared, pair := l.shared[k], l.pairs[k];
            buffer[l.offsets[k]..l.offsets[k + 1]] ==
            Varint(shared) + (Varint(|pair.key| - shared) + (Varint(|pair.value|) + (pair.key[shared..] + pair.value)))
  {
    var shared, pair := l.shared[k], l.pairs[k];
    FiveParts(Varint(shared), Varint(|pair.key| - shared), Varint(|pair.value|), pair.key[shared..], pair.value);
  }

  lemma FiveParts(a: seq<Byte>, b: seq<Byte>, c: seq<Byte>, d: seq<Byte>, e: seq<Byte>)
    ensures a + b + c + d + e == a + (b + (c + (d + e)))
  {
  }

  lemma FourParts(a: seq<Byte>, b: seq<Byte>, c: seq<Byte>, d: seq<Byte>, rest: seq<Byte>)
    ensures a + (b + (c + d)) + rest == a + (b + (c + (d + rest)))
  {
  }

  lemma Tail(data: seq<Byte>, p: nat, q: nat, end: nat)
    requires p <= q <= end <= |data|
    ensures data[p..end] == data[p..q] + data[q..end]
  {
  }

  lemma KeyAndValue(data: seq<Byte>, delta: nat, key: seq<Byte>, value: seq<Byte>, rest: seq<Byte>, end: nat)
    requires delta <= end <= |data| && data[delta..end] == key + value + rest
    ensures delta + |key| + |value| <= end && data[delta..delta + |key|] == key
    ensures data[delta + |key|..delta + |key| + |value|] == value
  {
    var tail := data[delta..end];
    InMiddle([], key, value + rest, 0, |key|);
    assert [] + key + (value + rest) == key + value + rest;
    InMiddle(key, value, rest, 0, |value|);
    SliceOf(data, delta, end, 0, |key|);
    SliceOf(data, delta, end, |key|, |key| + |value|);
  }

  lemma SliceOf(data: seq<Byte>, p: nat, q: nat, lo: nat, hi: nat)
    requires p <= q <= |data| && lo <= hi <= q - p
    ensures data[p..q][lo..hi] == data[p + lo..p + hi]
  {
    var whole, part := data[p..q], data[p + lo..p + hi];
    assert |whole[lo..hi]| == |part|;
    assert forall i :: 0 <= i < |part| ==> whole[lo..hi][i] == whole[lo + i] == part[i];
  }

  lemma Behind(data: seq<Byte>, p: nat, head: seq<Byte>, tail: seq<Byte>, end: nat)
    requires p <= end <= |data| && data[p..end] == head + tail
    ensures |tail| <= end && data[end - |tail|..end] == tail
  {
    assert data[p..end][|head|..] == tail;
  }

  /** What the bytes of pair `k` decode to. */
  lemma EntryDecodes(data: seq<Byte>, end: nat, l: Layout, k: nat) returns (d: Decoded)
    requires end <= |data| && LaidOut(data[..end], l) && k < |l.pairs| && Storable(l.pairs[k])
    ensures l.offsets[k] <= end && d == DecodeEntry(data, l.offsets[k], end) && d.Decoded?
    ensures d.shared == l.shared[k] && d.nonShared == |l.pairs[k].key| - d.shared && d.valueLength == |l.pairs[k].value|
    ensures d.delta + d.nonShared + d.valueLength == l.offsets[k + 1] <= end
    ensures data[d.delta..d.delta + d.nonShared] == l.pairs[k].key[d.shared..]
    ensures data[d.delta + d.nonShared..d.delta + d.nonShared + d.valueLength] == l.pairs[k].value
  {
    var shared, pair, p, q := l.shared[k], l.pairs[k], l.offsets[k], l.offsets[k + 1];
    assert EntryAt(data[..end], l, k);
    EntryStarts(data[..end], l, k);
    var a, b, c := Varint(shared), Varint(|pair.key| - shared), Varint(|pair.value|);
    var body, rest := pair.key[shared..] + pair.value, data[q..end];
    assert data[p..q] == data[..end][p..q];
    Tail(data, p, q, end);
    FourParts(a, b, c, body, rest);
    HeadDecodes(data, p, end, shared, |pair.key| - shared, |pair.value|, body + rest);
    d := DecodeEntry(data, p, end);
    HeadFirst(a, b, c, body + rest);
    Behind(data, p, a + b + c, body + rest, end);
    KeyAndValue(data, d.delta, pair.key[shared..], pair.value, rest, end);
  }

  /** Decoding at the offset of pair `k`. */
  method Decode(data: seq<Byte>, p: nat, end: nat, ghost l: Layout, ghost k: nat) returns (d: Decoded)
    requires end <= |data| && LaidOut(data[..end], l) && k < |l.pairs| && Storable(l.pairs[k]) && p == l.offsets[k] <= end
    ensures d.Decoded? && d.shared == l.shared[k] && d.nonShared == |l.pairs[k].key| - d.shared && d.valueLength == |l.pairs[k].value|
    ensures d.delta + d.nonShared + d.valueLength == l.offsets[k + 1] <= end
    ensures data[d.delta..d.delta + d.nonShared] == l.pairs[k].key[d.shared..]
    ensures data[d.delta + d.nonShared..d.delta + d.nonShared + d.valueLength] == l.pairs[k].value
  {
    ghost var decoded := EntryDecodes(data, end, l, k);
    d := DecodeEntry(data, p, end);
  }

  lemma HeadFirst(a: seq<Byte>, b: seq<Byte>, c: seq<Byte>, rest: seq<Byte>)
    ensures a + (b + (c + rest)) == a + b + c + rest
  {
  }

  lemma {:induction false} OffsetsRise(buffer: seq<Byte>, l: Layout, i: nat, j: nat)
    requires LaidOut(buffer, l) && i <= j <= |l.pairs|
    ensures l.offsets[i] <= l.offsets[j] <= |buffer| && (i < j ==> l.offsets[i] < l.offsets[j])
    decreases j
  {
    if i < j {
      assert EntryAt(buffer, l, j - 1);
      OffsetsRise(buffer, l, i, j - 1);
    } else if i < |l.pairs| {
      assert EntryAt(buffer, l, i);
    }
  }

  lemma RestartReads(data: seq<Byte>, end: nat, l: Layout, j: nat)
    requires Finished(data, end, l) && j < |l.restarts|
    ensures end + 4 * j + 4 <= |data| && l.restarts[j] < |l.offsets| && ReadWord(data, end + 4 * j) == l.offsets[l.restarts[j]]
  {
    var offsets := RestartOffsets(l);
    assert IsRestart(l, l.restarts[j]);
    WordsAt(offsets, j);
    InMiddle(data[..end], Words(offsets), Word32(|l.restarts|), 4 * j, 4 * j + 4);
    OffsetsRise(data[..end], l, l.restarts[j], l.restarts[j]);
    WordReads(data, end + 4 * j, offsets[j]);
  }

  lemma InMiddle(a: seq<Byte>, b: seq<Byte>, c: seq<Byte>, lo: nat, hi: nat)
    requires lo <= hi <= |b|
    ensures (a + b + c)[|a| + lo..|a| + hi] == b[lo..hi]
  {
  }

  ghost predicate Transitive(before: (Key, Key) -> bool) {
    forall a, b, c :: before(a, b) && before(b, c) ==> before(a, c)
  }

  ghost predicate KeysRise(before: (Key, Key) -> bool, l: Layout) {
    forall i, j :: 0 <= i < j < |l.pairs| ==> before(l.pairs[i].key, l.pairs[j].key)
  }

  class BlockIter {
    const before: (Key, Key) -> bool
    const data: seq<Byte>
    const end: nat          // where the array of restart points starts
    const count: nat        // how many there are
    var current: nat
    var restartIndex: nat
    var key: Key
    var valueAt: nat
    var valueLength: nat
    ghost const layout: Layout
    /** The index of the current pair. */
    ghost var at: nat

    ghost predicate Sound() {
      Finished(data, end, layout) && count == |layout.restarts|
    }

    /** No restart point behind the one remembered is before pair `k`. */
    ghost predicate InRegion(k: nat)
      reads this
      requires Sound()
    {
      && restartIndex < count && layout.restarts[restartIndex] <= k
      && (restartIndex + 1 < count ==> layout.restarts[restartIndex + 1] >= k)
    }

    ghost predicate Valid()
      reads this
    {
      && Sound() && at <= |layout.pairs|
      && if at == |layout.pairs| then current == end
         else
           && current == layout.offsets[at] && key == layout.pairs[at].key && InRegion(at)
           && valueAt + valueLength == layout.offsets[at + 1] <= end
           && data[valueAt..valueAt + valueLength] == layout.pairs[at].value
    }

    /** What has been read suffices to read pair `k` next. */
    ghost predicate Ready(k: nat)
      reads this
    {
      && Sound() && k <= |layout.pairs| && valueAt + valueLength == layout.offsets[k]
      && (k < |layout.pairs| ==> SharesPrefix(layout.shared[k], key, layout.pairs[k].key))
      && restartIndex < count && layout.restarts[restartIndex] <= k
    }

    constructor (before: (Key, Key) -> bool, data: seq<Byte>, end: nat, ghost layout: Layout)
      requires Finished(data, end, layout)
      ensures Valid() && at == |layout.pairs| && this.before == before && this.data == data && this.layout == layout
    {
      this.before := before;
      this.data := data;
      this.end := end;
      this.count := (|data| - 4 - end) / 4;
      this.layout := layout;
      current, restartIndex, key, valueAt, valueLength := end, 0, [], 0, 0;
      at := |layout.pairs|;
      new;
      CountIs(data, end, layout);
    }

    method GetRestartPoint(i: nat) returns (offset: nat)
      requires Sound() && i < count
      ensures layout.restarts[i] < |layout.offsets| && offset == layout.offsets[layout.restarts[i]]
    {
      RestartReads(data, end, layout, i);
      offset := ReadWord(data, end + 4 * i);
    }

    method SeekToRestartPoint(i: nat)
      requires Sound() && i < count
      modifies this
      ensures Ready(layout.restarts[i]) && restartIndex == i
    {
      assert IsRestart(layout, layout.restarts[i]);
      key := [];
      restartIndex := i;
      valueAt := GetRestartPoint(i);
      valueLength := 0;
    }

    method ParseNextKey(ghost k: nat) returns (more: bool)
      requires Ready(k)
      modifies this
      ensures Valid() && at == k && (more <==> k < |layout.pairs|)
    {
      current := valueAt + valueLength;
      at := k;
      OffsetsRise(data[..end], layout, k, |layout.pairs|);
      if current >= end {
        current := end;
        restartIndex := count;
        return false;
      }
      ReadEntry(k);
      AdvanceRestart(k);
      more := true;
    }

    method ReadEntry(ghost k: nat)
      requires Ready(k) && k < |layout.pairs| && current == layout.offsets[k] <= end
      modifies this`key, this`valueAt, this`valueLength
      ensures key == layout.pairs[k].key && valueAt + valueLength == layout.offsets[k + 1] <= end
      ensures data[valueAt..valueAt + valueLength] == layout.pairs[k].value
    {
      var d := Decode(data, current, end, layout, k);
      valueAt, valueLength := d.delta + d.nonShared, d.valueLength;
      key := WholeKey(layout.pairs[k].key, d);
    }

    /** The prefix kept from the key before, and the bytes of the entry. */
    method WholeKey(ghost whole: Key, d: Decoded) returns (k: Key)
      requires d.Decoded? && SharesPrefix(d.shared, key, whole)
      requires d.delta + d.nonShared <= |data| && data[d.delta..d.delta + d.nonShared] == whole[d.shared..]
      ensures k == whole
    {
      KeyRebuilt(key, whole, d.shared);
      k := key[..d.shared] + data[d.delta..d.delta + d.nonShared];
    }

    method Next()
      requires Valid() && at < |layout.pairs|
      modifies this
      ensures Valid() && at == old(at) + 1
    {
      assert at + 1 < |layout.pairs| ==> EntryAt(data[..end], layout, at + 1);
      var _ := ParseNextKey(at + 1);
    }

    /** Back to the last restart point before the current entry, then forward to the entry that ends where this one starts. */
    method Prev()
      requires Valid() && at < |layout.pairs|
      modifies this
      ensures Valid() && at == if old(at) == 0 then |layout.pairs| else old(at) - 1
    {
      var original := current;
      ghost var k := at;
      while true
        invariant Sound() && k < |layout.pairs| && original == layout.offsets[k] && restartIndex < count
        invariant restartIndex + 1 < count ==> layout.restarts[restartIndex + 1] >= k
        decreases restartIndex
      {
        assert IsRestart(layout, layout.restarts[restartIndex]);
        var start := GetRestartPoint(restartIndex);
        if start < original {
          RestartBefore(data[..end], layout, restartIndex, k);
          break;
        }
        RestartNotBefore(data[..end], layout, restartIndex, k);
        if restartIndex == 0 {
          current := end;
          restartIndex := count;
          at := |layout.pairs|;
          return;
        }
        restartIndex := restartIndex - 1;
      }
      SeekToRestartPoint(restartIndex);
      ParseUpTo(original, layout.restarts[restartIndex], k);
    }

    /** Reads on until the end of the current entry reaches `original`. */
    method ParseUpTo(original: nat, ghost from: nat, ghost k: nat)
      requires Ready(from) && from <= k <= |layout.pairs| && original == layout.offsets[k]
      requires from == k ==> k == |layout.pairs|
      modifies this
      ensures Valid() && at == if from < k then k - 1 else k
    {
      ghost var i := from;
      var more := ParseNextKey(i);
      while more && valueAt + valueLength < original
        invariant Valid() && at == i && (more ==> i < k) && (!more ==> i == k == from)
        decreases k - i
      {
        RestNotReached(data[..end], layout, i + 1, k);
        assert EntryAt(data[..end], layout, i + 1);
        i := i + 1;
        more := ParseNextKey(i);
      }
      if more {
        NotBeyond(data[..end], layout, i + 1, k);
      }
    }

    method SeekToFirst()
      requires Valid()
      modifies this
      ensures Valid() && at == 0
    {
      SeekToRestartPoint(0);
      var _ := ParseNextKey(0);
    }

    method SeekToLast()
      requires Valid()
      modifies this
      ensures Valid() && at == if layout.pairs == [] then 0 else |layout.pairs| - 1
    {
      assert IsRestart(layout, layout.restarts[count - 1]);
      SeekToRestartPoint(count - 1);
      ParseUpTo(end, layout.restarts[count - 1], |layout.pairs|);
    }

    /** Binary search over the restart points, then forward to the first key not before the target. */
    method Seek(target: Key)
      requires Valid() && Transitive(before) && KeysRise(before, layout)
      modifies this
      ensures Valid() && (at < |layout.pairs| ==> !before(layout.pairs[at].key, target))
      ensures forall i :: 0 <= i < at ==> before(layout.pairs[i].key, target)
    {
      var left := SeekRestart(target);
      SeekToRestartPoint(left);
      ghost var k := layout.restarts[left];
      EarlierBefore(before, layout, left, target);
      while true
        invariant Ready(k) && forall i :: 0 <= i < k ==> before(layout.pairs[i].key, target)
        decreases |layout.pairs| - k
      {
        var more := ParseNextKey(k);
        if !more || !before(key, target) {
          return;
        }
        assert k + 1 < |layout.pairs| ==> EntryAt(data[..end], layout, k + 1);
        k := k + 1;
      }
    }

    /** The last restart point with a key before the target, or the first one. */
    method SeekRestart(target: Key) returns (left: nat)
      requires Sound() && Transitive(before) && KeysRise(before, layout)
      ensures left < count && layout.restarts[left] <= |layout.pairs|
      ensures left > 0 ==> layout.restarts[left] < |layout.pairs| && before(layout.pairs[layout.restarts[left]].key, target)
    {
      left := 0;
      var right := count - 1;
      while left < right
        invariant 0 <= left <= right < count
        invariant left > 0 ==> layout.restarts[left] < |layout.pairs| && before(layout.pairs[layout.restarts[left]].key, target)
      {
        var mid := (left + right + 1) / 2;
        var offset := GetRestartPoint(mid);
        RestartKey(data, end, layout, mid);
        var d := DecodeEntry(data, offset, end);
        if before(data[d.delta..d.delta + d.nonShared], target) {
          left := mid;
        } else {
          right := mid - 1;
        }
      }
      assert IsRestart(layout, layout.restarts[left]);
    }

    method AdvanceRestart(ghost k: nat)
      requires Sound() && k < |layout.pairs| && current == layout.offsets[k]
      requires restartIndex < count && layout.restarts[restartIndex] <= k
      modifies this`restartIndex
      ensures InRegion(k)
    {
      while restartIndex + 1 < count
        invariant restartIndex < count && layout.restarts[restartIndex] <= k
        decreases count - restartIndex
      {
        var next := GetRestartPoint(restartIndex + 1);
        assert IsRestart(layout, layout.restarts[restartIndex + 1]);
        if next >= current {
          RestartNotBefore(data[..end], layout, restartIndex + 1, k);
          return;
        }
        RestartBefore(data[..end], layout, restartIndex + 1, k);
        restartIndex := restartIndex + 1;
      }
    }
  }

  lemma CountIs(data: seq<Byte>, end: nat, l: Layout)
    requires Finished(data, end, l)
    ensures |data| >= end + 4 && (|data| - 4 - end) / 4 == |l.restarts|
  {
    WordsAt(RestartOffsets(l), 0);
  }

  lemma RestartNotBefore(buffer: seq<Byte>, l: Layout, j: nat, k: nat)
    requires LaidOut(buffer, l) && j < |l.restarts| && k < |l.pairs| && l.restarts[j] < |l.offsets|
    requires l.offsets[l.restarts[j]] >= l.offsets[k]
    ensures l.restarts[j] >= k
  {
    if l.restarts[j] < k {
      OffsetsRise(buffer, l, l.restarts[j], k);
    }
  }

  lemma RestartBefore(buffer: seq<Byte>, l: Layout, j: nat, k: nat)
    requires LaidOut(buffer, l) && j < |l.restarts| && k < |l.pairs| && l.restarts[j] < |l.offsets|
    requires l.offsets[l.restarts[j]] < l.offsets[k]
    ensures l.restarts[j] < k
  {
    if l.restarts[j] >= k {
      OffsetsRise(buffer, l, k, l.restarts[j]);
    }
  }

  lemma RestNotReached(buffer: seq<Byte>, l: Layout, i: nat, k: nat)
    requires LaidOut(buffer, l) && i <= k <= |l.pairs| && l.offsets[i] < l.offsets[k]
    ensures i < k
  {
  }

  lemma NotBeyond(buffer: seq<Byte>, l: Layout, i: nat, k: nat)
    requires LaidOut(buffer, l) && i <= k <= |l.pairs| && l.offsets[i] >= l.offsets[k]
    ensures i == k
  {
    OffsetsRise(buffer, l, i, k);
  }

  /** A restart point other than the first has a pair, and its whole key. */
  lemma RestartKey(data: seq<Byte>, end: nat, l: Layout, j: nat)
    requires Finished(data, end, l) && 0 < j < |l.restarts|
    ensures l.restarts[j] < |l.pairs| && l.offsets[l.restarts[j]] <= end
    ensures var d := DecodeEntry(data, l.offsets[l.restarts[j]], end);
            d.Decoded? && d.shared == 0 && d.delta + d.nonShared <= end && data[d.delta..d.delta + d.nonShared] == l.pairs[l.restarts[j]].key
  {
    assert l.restarts[0] < l.restarts[j] && IsRestart(l, l.restarts[j]);
    var d := EntryDecodes(data, end, l, l.restarts[j]);
  }

  lemma EarlierBefore(before: (Key, Key) -> bool, l: Layout, left: nat, target: Key)
    requires Transitive(before) && KeysRise(before, l) && left < |l.restarts| && RestartsOk(l)
    requires left > 0 ==> l.restarts[left] < |l.pairs| && before(l.pairs[l.restarts[left]].key, target)
    ensures forall i :: 0 <= i < l.restarts[left] && i < |l.pairs| ==> before(l.pairs[i].key, target)
  {
    forall i | 0 <= i < l.restarts[left] && i < |l.pairs| ensures before(l.pairs[i].key, target) {
      assert left > 0 && before(l.pairs[i].key, l.pairs[l.restarts[left]].key);
    }
  }

  // ---------------------------------------------------------------------------------------------
  // From a builder to a cursor
  // ---------------------------------------------------------------------------------------------

  /** Where the array of restart points starts, as the last word of the block says. */
  function RestartOffset(data: seq<Byte>): Maybe<nat> {
    if |data| < 4 then Nothing
    else
      var count := ReadWord(data, |data| - 4);
      if count > (|data| - 4) / 4 then Nothing else Just(|data| - 4 * (1 + count))
  }

  lemma BlockOpens(buffer: seq<Byte>, l: Layout, data: seq<Byte>)
    requires LaidOut(buffer, l) && data == BlockBytes(buffer, l) && |data| < 0x1_0000_0000
    ensures RestartOffset(data) == Just(|buffer|) && data[..|buffer|] == buffer
  {
    WordsAt(RestartOffsets(l), 0);
    assert data[|data| - 4..|data| - 4 + 4] == Word32(|l.restarts|);
    WordReads(data, |data| - 4, |l.restarts|);
  }

  method BuildBlock(interval: nat, pairs: seq<Pair>) returns (contents: seq<Byte>, ghost buffer: seq<Byte>, ghost l: Layout)
    requires interval >= 1
    ensures LaidOut(buffer, l) && Compressed(l, interval) && l.pairs == pairs && contents == BlockBytes(buffer, l)
  {
    var builder := new BlockBuilder(interval);
    for i := 0 to |pairs|
      invariant fresh(builder) && builder.Valid() && builder.interval == interval && builder.layout.pairs == pairs[..i]
    {
      assert pairs[..i + 1] == pairs[..i] + [pairs[i]];
      builder.Add(pairs[i]);
    }
    assert pairs[..|pairs|] == pairs;
    contents := builder.Finish();
    buffer, l := builder.buffer, builder.layout;
  }

  /** Whatever the restart interval, iterating over a finished block gives back the pairs it was built from. */
  method BuildAndIterate(interval: nat, pairs: seq<Pair>, before: (Key, Key) -> bool) returns (contents: seq<Byte>, read: seq<Pair>)
    requires interval >= 1 && forall i :: 0 <= i < |pairs| ==> Storable(pairs[i])
    ensures |contents| < 0x1_0000_0000 ==> read == pairs
  {
    ghost var buffer, l;
    contents, buffer, l := BuildBlock(interval, pairs);
    read := [];
    if |contents| >= 0x1_0000_0000 {
      return;
    }
    BlockOpens(buffer, l, contents);
    var end := RestartOffset(contents);
    var iter := new BlockIter(before, contents, end.value, l);
    read := Iterate(iter);
  }

  method Iterate(iter: BlockIter) returns (read: seq<Pair>)
    requires iter.Valid()
    modifies iter
    ensures read == iter.layout.pairs
  {
    ghost var pairs := iter.layout.pairs;
    read := [];
    iter.SeekToFirst();
    while iter.current < iter.end
      invariant iter.Valid() && read == pairs[..iter.at]
      decreases |pairs| - iter.at
    {
      StartsInside(iter.data[..iter.end], iter.layout, iter.at);
      assert pairs[..iter.at + 1] == pairs[..iter.at] + [pairs[iter.at]];
      read := read + [Pair(iter.key, iter.data[iter.valueAt..iter.valueAt + iter.valueLength])];
      iter.Next();
    }
    AtEnd(iter.data[..iter.end], iter.layout, iter.at, iter.current);
    assert pairs[..|pairs|] == pairs;
  }

  lemma StartsInside(buffer: seq<Byte>, l: Layout, k: nat)
    requires LaidOut(buffer, l) && k <= |l.pairs|
    ensures k < |l.pairs| ==> l.offsets[k] < |buffer|
  {
    OffsetsRise(buffer, l, k, |l.pairs|);
  }

  lemma AtEnd(buffer: seq<Byte>, l: Layout, k: nat, current: nat)
    requires LaidOut(buffer, l) && k <= |l.pairs| && current >= |buffer| && (k < |l.pairs| ==> current == l.offsets[k])
    ensures k == |l.pairs|
  {
    if k < |l.pairs| {
      StartsInside(buffer, l, k);
    }
  }
}
