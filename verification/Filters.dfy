/** Filters: the Bloom filter, and the filter block that holds one filter for every two kilobytes of table data. */
module Filters {
  import opened Values
  import opened Coding

  // ---------------------------------------------------------------------------------------------
  // Bits of bytes
  // ---------------------------------------------------------------------------------------------

  predicate Bit(b: nat, i: nat) {
    if i == 0 then b % 2 == 1 else Bit(b / 2, i - 1)
  }

  function SetBit(b: nat, i: nat): nat {
    if i == 0 then b - b % 2 + 1 else b % 2 + 2 * SetBit(b / 2, i - 1)
  }

  function Power(n: nat): (p: nat)
    ensures p >= 1
  {
    if n == 0 then 1 else 2 * Power(n - 1)
  }

  lemma {:induction false} BitAfterSet(b: nat, i: nat, j: nat)
    ensures Bit(SetBit(b, i), j) <==> i == j || Bit(b, j)
    decreases i
  {
    if i > 0 && j > 0 {
      BitAfterSet(b / 2, i - 1, j - 1);
      assert SetBit(b, i) / 2 == SetBit(b / 2, i - 1);
    } else if i == 0 {
      assert SetBit(b, 0) / 2 == b / 2;
    }
  }

  lemma {:induction false} SetBitFits(b: nat, i: nat, n: nat)
    requires b < Power(n) && i < n
    ensures SetBit(b, i) < Power(n)
    decreases i
  {
    if i > 0 {
      var half := b / 2;
      assert Power(n) == 2 * Power(n - 1) && b == 2 * half + b % 2;
      SetBitFits(half, i - 1, n - 1);
    } else {
      EvenPower(n);
    }
  }

  lemma EvenPower(n: nat)
    requires n > 0
    ensures Power(n) % 2 == 0
  {
  }

  lemma {:induction false} ZeroBits(i: nat)
    ensures !Bit(0, i)
    decreases i
  {
    if i > 0 {
      ZeroBits(i - 1);
    }
  }

  /** Bit `p` of an array of bytes. */
  predicate BitAt(a: seq<Byte>, p: nat)
    requires p < 8 * |a|
  {
    Bit(a[p / 8], p % 8)
  }

  function WithBit(a: seq<Byte>, p: nat): (r: seq<Byte>)
    requires p < 8 * |a|
    ensures |r| == |a|
  {
    SetBitFits(a[p / 8], p % 8, 8);
    assert Power(8) == 256 by { assert Power(4) == 16; }
    a[p / 8 := SetBit(a[p / 8], p % 8)]
  }

  lemma BitAtAfter(a: seq<Byte>, p: nat, q: nat)
    requires p < 8 * |a| && q < 8 * |a|
    ensures BitAt(WithBit(a, p), q) <==> q == p || BitAt(a, q)
  {
    BitAfterSet(a[p / 8], p % 8, q % 8);
  }

  // ---------------------------------------------------------------------------------------------
  // The Bloom filter
  // ---------------------------------------------------------------------------------------------

  type Key = seq<Byte>

  type HashFunction = Key -> Word

  /** Rotation to the right by 17 bits. */
  function Delta(h: Word): Word {
    h / 0x2_0000 + 0x8000 * (h % 0x2_0000)
  }

  function NextHash(h: Word, delta: Word): Word {
    (h + delta) % 0x1_0000_0000
  }

  /** Double hashing: the hash after `j` additions. */
  function Probe(h: Word, delta: Word, j: nat): Word {
    if j == 0 then h else NextHash(Probe(h, delta, j - 1), delta)
  }

  /** That is the hash plus `j` times its rotation. */
  lemma {:induction false} ProbeIs(h: Word, delta: Word, j: nat)
    ensures Probe(h, delta, j) == (h + j * delta) % 0x1_0000_0000
    decreases j
  {
    if j > 0 {
      ProbeIs(h, delta, j - 1);
      AddWrapped(h + (j - 1) * delta, delta);
      assert h + (j - 1) * delta + delta == h + j * delta;
    }
  }

  lemma AddWrapped(a: nat, b: nat)
    ensures (a % 0x1_0000_0000 + b) % 0x1_0000_0000 == (a + b) % 0x1_0000_0000
  {
    var q := a / 0x1_0000_0000;
    assert a + b == 0x1_0000_0000 * q + (a % 0x1_0000_0000 + b);
    WholeTurns(q, a % 0x1_0000_0000 + b);
  }

  lemma {:induction false} WholeTurns(q: nat, b: nat)
    ensures (0x1_0000_0000 * q + b) % 0x1_0000_0000 == b % 0x1_0000_0000
    decreases q
  {
    if q > 0 {
      WholeTurns(q - 1, b);
    }
  }

  /** The 17 low bits of the hash are the high ones of the rotation, and the 15 high bits the low ones. */
  lemma DeltaBits(h: Word)
    ensures Delta(h) / 0x8000 == h % 0x2_0000 && Delta(h) % 0x8000 == h / 0x2_0000
  {
  }

  /** The first `k` probes of a key. */
  function Marked(a: seq<Byte>, h: Word, k: nat): (r: seq<Byte>)
    requires a != []
    ensures |r| == |a|
    decreases k
  {
    if k == 0 then a else WithBit(Marked(a, h, k - 1), Probe(h, Delta(h), k - 1) % (8 * |a|))
  }

  /** The probes of the first `n` keys. */
  function MarkedAll(hash: HashFunction, a: seq<Byte>, keys: seq<Key>, n: nat, k: nat): (r: seq<Byte>)
    requires a != [] && n <= |keys|
    ensures |r| == |a|
    decreases n
  {
    if n == 0 then a else Marked(MarkedAll(hash, a, keys, n - 1, k), hash(keys[n - 1]), k)
  }

  function FilterBytes(n: nat, bitsPerKey: nat): (bytes: nat)
    ensures bytes >= 8 && 8 * bytes >= n * bitsPerKey
    ensures bytes > 8 ==> 8 * bytes < n * bitsPerKey + 8
  {
    ((if n * bitsPerKey < 64 then 64 else n * bitsPerKey) + 7) / 8
  }

  function Zeros(n: nat): (r: seq<Byte>)
    ensures |r| == n && forall i :: 0 <= i < n ==> r[i] == 0
  {
    seq(n, _ => 0)
  }

  function BloomFilter(hash: HashFunction, bitsPerKey: nat, k: Byte, keys: seq<Key>): seq<Byte> {
    MarkedAll(hash, Zeros(FilterBytes(|keys|, bitsPerKey)), keys, |keys|, k) + [k]
  }

  /** What a filter says about a key. */
  predicate BloomMayMatch(hash: HashFunction, key: Key, filter: seq<Byte>) {
    if |filter| < 2 then false
    else
      var a, k := filter[..|filter| - 1], filter[|filter| - 1];
      k > 30 || forall j :: 0 <= j < k ==> BitAt(a, Probe(hash(key), Delta(hash(key)), j) % (8 * |a|))
  }

  /** One of the first `k` probes hits bit `p`. */
  ghost predicate Hits(h: Word, k: nat, bits: nat, p: nat)
    requires bits > 0
  {
    exists j: nat :: j < k && Probe(h, Delta(h), j) % bits == p
  }

  lemma HitsNext(h: Word, k: nat, bits: nat, p: nat)
    requires bits > 0 && k > 0
    ensures Hits(h, k, bits, p) <==> Hits(h, k - 1, bits, p) || Probe(h, Delta(h), k - 1) % bits == p
  {
    if Hits(h, k - 1, bits, p) {
      var j: nat :| j < k - 1 && Probe(h, Delta(h), j) % bits == p;
      assert j < k;
    }
  }

  lemma {:induction false} MarkedBits(a: seq<Byte>, h: Word, k: nat, p: nat)
    requires p < 8 * |a|
    ensures BitAt(Marked(a, h, k), p) <==> BitAt(a, p) || Hits(h, k, 8 * |a|, p)
    decreases k
  {
    if k > 0 {
      MarkedBits(a, h, k - 1, p);
      HitsNext(h, k, 8 * |a|, p);
      BitAtAfter(Marked(a, h, k - 1), Probe(h, Delta(h), k - 1) % (8 * |a|), p);
    }
  }

  /** Exactly the bits that some key probes are set. */
  lemma {:induction false} MarkedAllBits(hash: HashFunction, a: seq<Byte>, keys: seq<Key>, n: nat, k: nat, p: nat)
    requires n <= |keys| && p < 8 * |a|
    ensures BitAt(MarkedAll(hash, a, keys, n, k), p) <==> BitAt(a, p) || exists i :: 0 <= i < n && Hits(hash(keys[i]), k, 8 * |a|, p)
    decreases n
  {
    if n > 0 {
      MarkedAllBits(hash, a, keys, n - 1, k, p);
      MarkedBits(MarkedAll(hash, a, keys, n - 1, k), hash(keys[n - 1]), k, p);
    }
  }

  /** A filter never denies one of its keys. */
  lemma BloomNoFalseNegatives(hash: HashFunction, bitsPerKey: nat, k: Byte, keys: seq<Key>, i: nat)
    requires i < |keys|
    ensures BloomMayMatch(hash, keys[i], BloomFilter(hash, bitsPerKey, k, keys))
  {
    var filter, zeros, h := BloomFilter(hash, bitsPerKey, k, keys), Zeros(FilterBytes(|keys|, bitsPerKey)), hash(keys[i]);
    var a := filter[..|filter| - 1];
    assert a == MarkedAll(hash, zeros, keys, |keys|, k);
    forall j: nat | j < k ensures BitAt(a, Probe(h, Delta(h), j) % (8 * |a|)) {
      MarkedAllBits(hash, zeros, keys, |keys|, k, Probe(h, Delta(h), j) % (8 * |a|));
      assert Hits(h, k, 8 * |a|, Probe(h, Delta(h), j) % (8 * |a|));
    }
  }

  /** A key all of whose bits are clear is denied: what is set beyond the probes of the keys is nothing. */
  lemma BloomDenies(hash: HashFunction, bitsPerKey: nat, k: Byte, keys: seq<Key>, key: Key, j: nat)
    requires j < k <= 30
    requires var bits := 8 * FilterBytes(|keys|, bitsPerKey);
             forall i :: 0 <= i < |keys| ==> !Hits(hash(keys[i]), k, bits, Probe(hash(key), Delta(hash(key)), j) % bits)
    ensures !BloomMayMatch(hash, key, BloomFilter(hash, bitsPerKey, k, keys))
  {
    var filter, zeros := BloomFilter(hash, bitsPerKey, k, keys), Zeros(FilterBytes(|keys|, bitsPerKey));
    var a := filter[..|filter| - 1];
    var p := Probe(hash(key), Delta(hash(key)), j) % (8 * |a|);
    assert a == MarkedAll(hash, zeros, keys, |keys|, k);
    MarkedAllBits(hash, zeros, keys, |keys|, k, p);
    ZeroBits(p % 8);
  }

  /** The loops that fill a filter. */
  method CreateBloomFilter(hash: HashFunction, bitsPerKey: nat, k: Byte, keys: seq<Key>, dst: seq<Byte>) returns (r: seq<Byte>)
    ensures r == dst + BloomFilter(hash, bitsPerKey, k, keys)
  {
    var bytes := Zeros(FilterBytes(|keys|, bitsPerKey));
    var bits := 8 * |bytes|;
    ghost var zeros := bytes;
    for i := 0 to |keys|
      invariant |bytes| == |zeros| && Same(bytes, MarkedAll(hash, zeros, keys, i, k))
    {
      ghost var before := bytes;
      var h := hash(keys[i]);
      var delta := Delta(h);
      ghost var h0 := h;
      for j := 0 to k
        invariant |bytes| == |zeros| && h == Probe(h0, delta, j) && Same(bytes, Marked(before, h0, j))
      {
        bytes := WithBit(bytes, h % bits);
        h := NextHash(h, delta);
      }
    }
    r := dst + (bytes + [k]);
  }

  method KeyMayMatchBloom(hash: HashFunction, key: Key, filter: seq<Byte>) returns (r: bool)
    ensures r == BloomMayMatch(hash, key, filter)
  {
    if |filter| < 2 {
      return false;
    }
    var a, k := filter[..|filter| - 1], filter[|filter| - 1];
    if k > 30 {
      return true;
    }
    var h := hash(key);
    var delta := Delta(h);
    ghost var h0 := h;
    for j := 0 to k
      invariant h == Probe(h0, delta, j)
      invariant forall i :: 0 <= i < j ==> BitAt(a, Probe(h0, delta, i) % (8 * |a|))
    {
      if !BitAt(a, h % (8 * |a|)) {
        return false;
      }
      h := NextHash(h, delta);
    }
    r := true;
  }

  // ---------------------------------------------------------------------------------------------
  // The filter block
  // ---------------------------------------------------------------------------------------------

  datatype Policy<!K> = Policy(create: seq<K> -> seq<Byte>, mayMatch: (K, seq<Byte>) -> bool)

  /** No false negatives. */
  ghost predicate Lawful<K(!new)>(policy: Policy<K>) {
    forall keys: seq<K>, k: K :: k in keys ==> policy.mayMatch(k, policy.create(keys))
  }

  function Bloom(hash: HashFunction, bitsPerKey: nat, k: Byte): Policy<Key> {
    Policy(keys => BloomFilter(hash, bitsPerKey, k, keys), (key, filter) => BloomMayMatch(hash, key, filter))
  }

  lemma BloomIsLawful(hash: HashFunction, bitsPerKey: nat, k: Byte)
    ensures Lawful(Bloom(hash, bitsPerKey, k))
  {
    forall keys: seq<Key>, key: Key | key in keys
      ensures Bloom(hash, bitsPerKey, k).mayMatch(key, Bloom(hash, bitsPerKey, k).create(keys))
    {
      var i :| 0 <= i < |keys| && keys[i] == key;
      BloomNoFalseNegatives(hash, bitsPerKey, k, keys, i);
    }
  }

  function Piece<K>(policy: Policy<K>, keys: seq<K>): seq<Byte> {
    if keys == [] then [] else policy.create(keys)
  }

  /** The filters of these groups of keys, one behind the other. */
  function Result<K>(policy: Policy<K>, groups: seq<seq<K>>): seq<Byte> {
    if groups == [] then [] else Result(policy, groups[..|groups| - 1]) + Piece(policy, groups[|groups| - 1])
  }

  /** Where each of them starts. */
  function Starts<K>(policy: Policy<K>, groups: seq<seq<K>>): seq<nat> {
    if groups == [] then [] else Starts(policy, groups[..|groups| - 1]) + [|Result(policy, groups[..|groups| - 1])|]
  }

  const BASE_LG: Byte := 11

  function FilterBlock<K>(policy: Policy<K>, groups: seq<seq<K>>): seq<Byte> {
    Result(policy, groups) + Words(Starts(policy, groups)) + Word32(|Result(policy, groups)|) + [BASE_LG]
  }

  /** The filter between the offsets at `p` and behind it. */
  predicate Asks<K>(policy: Policy<K>, contents: seq<Byte>, at: nat, p: nat, key: K)
    requires p + 8 <= |contents| && at <= |contents|
  {
    var start, limit := ReadWord(contents, p), ReadWord(contents, p + 4);
    if start <= limit <= at then policy.mayMatch(key, contents[start..limit]) else start != limit
  }

  /** What the block says about a key of the table block at `offset`; anything unexpected is a possible match. */
  predicate KeyMayMatch<K>(policy: Policy<K>, contents: seq<Byte>, offset: nat, key: K) {
    var n := |contents|;
    if n < 5 then true
    else
      var at := ReadWord(contents, n - 5);
      if at > n - 5 then true
      else
        var index := offset / Power(contents[n - 1]);
        index >= (n - 5 - at) / 4 || Asks(policy, contents, at, at + 4 * index, key)
  }

  /** Group `i` is where its offset and the next one say. */
  lemma {:induction false} PieceAt<K>(policy: Policy<K>, groups: seq<seq<K>>, i: nat)
    requires i < |groups|
    ensures |Starts(policy, groups)| == |groups|
    ensures var starts := Starts(policy, groups) + [|Result(policy, groups)|];
            starts[i] <= starts[i + 1] <= |Result(policy, groups)| && Result(policy, groups)[starts[i]..starts[i + 1]] == Piece(policy, groups[i])
    decreases |groups|
  {
    var n := |groups| - 1;
    StartsLength(policy, groups[..n]);
    if i < n {
      PieceAt(policy, groups[..n], i);
      var starts := Starts(policy, groups[..n]) + [|Result(policy, groups[..n])|];
      SlicePrefix(Result(policy, groups[..n]), Piece(policy, groups[n]), starts[i], starts[i + 1]);
    }
  }

  lemma {:induction false} StartsLength<K>(policy: Policy<K>, groups: seq<seq<K>>)
    ensures |Starts(policy, groups)| == |groups|
    decreases |groups|
  {
    if groups != [] {
      StartsLength(policy, groups[..|groups| - 1]);
    }
  }

  lemma TwoKilobytes()
    ensures Power(BASE_LG) == 2048
  {
    assert Power(5) == 32;
  }

  lemma AsksFilter<K>(policy: Policy<K>, contents: seq<Byte>, at: nat, p: nat, key: K, start: nat, limit: nat)
    requires p + 8 <= |contents| && start <= limit <= at <= |contents| && at < 0x1_0000_0000
    requires contents[p..p + 4] == Word32(start) && contents[p + 4..p + 8] == Word32(limit)
    ensures Asks(policy, contents, at, p, key) == policy.mayMatch(key, contents[start..limit])
  {
    WordReads(contents, p, start);
    WordReads(contents, p + 4, limit);
  }

  lemma FindsFilter<K>(policy: Policy<K>, contents: seq<Byte>, offset: nat, key: K, at: nat, count: nat, i: nat, p: nat)
    requires |contents| == at + 4 * count + 5 && contents[|contents| - 1] == BASE_LG && at < 0x1_0000_0000
    requires contents[|contents| - 5..|contents| - 1] == Word32(at) && i == offset / 2048 && p == at + 4 * i
    ensures i < count ==> KeyMayMatch(policy, contents, offset, key) == Asks(policy, contents, at, p, key)
    ensures i >= count ==> KeyMayMatch(policy, contents, offset, key)
  {
    TwoKilobytes();
    WordReads(contents, |contents| - 5, at);
  }

  lemma BlockEnd(result: seq<Byte>, words: seq<Byte>, word: seq<Byte>)
    requires |word| == 4
    ensures var contents := result + words + word + [BASE_LG];
            && contents[|contents| - 5..|contents| - 1] == word && contents[|contents| - 1] == BASE_LG
  {
  }

  lemma BlockStart(result: seq<Byte>, rest: seq<Byte>, lo: nat, hi: nat)
    requires lo <= hi <= |result|
    ensures (result + rest)[lo..hi] == result[lo..hi]
  {
  }

  lemma BlockMiddle(result: seq<Byte>, words: seq<Byte>, end: seq<Byte>, lo: nat, hi: nat)
    requires lo <= hi <= |words|
    ensures (result + words + end)[|result| + lo..|result| + hi] == words[lo..hi]
  {
  }

  /** The offsets of filter `i` and of the one behind it. */
  lemma OffsetsInBlock(result: seq<Byte>, starts: seq<nat>, i: nat, all: seq<nat>)
    requires i < |starts| && all == starts + [|result|]
    ensures |Words(all)| == 4 * |all|
    ensures var contents, p := result + Words(all) + [BASE_LG], |result| + 4 * i;
            contents[p..p + 4] == Word32(all[i]) && contents[p + 4..p + 8] == Word32(all[i + 1])
  {
    WordsAt(all, i);
    WordsAt(all, i + 1);
    BlockMiddle(result, Words(all), [BASE_LG], 4 * i, 4 * i + 4);
    BlockMiddle(result, Words(all), [BASE_LG], 4 * i + 4, 4 * i + 8);
  }

  lemma Together(result: seq<Byte>, words: seq<Byte>, word: seq<Byte>)
    ensures result + (words + word) + [BASE_LG] == result + words + word + [BASE_LG]
  {
    ConcatAssociates(result, words, word);
    assert result + (words + word) == result + words + word;
  }

  lemma FiltersEnd(result: seq<Byte>, starts: seq<nat>, contents: seq<Byte>)
    requires contents == result + Words(starts) + Word32(|result|) + [BASE_LG]
    ensures |contents| == |result| + 4 * |starts| + 5
    ensures contents[|contents| - 5..|contents| - 1] == Word32(|result|) && contents[|contents| - 1] == BASE_LG
  {
    WordsAt(starts, 0);
    BlockEnd(result, Words(starts), Word32(|result|));
  }

  lemma FiltersWhole(result: seq<Byte>, starts: seq<nat>, contents: seq<Byte>, all: seq<nat>)
    requires contents == result + Words(starts) + Word32(|result|) + [BASE_LG] && all == starts + [|result|]
    ensures contents == result + Words(all) + [BASE_LG]
  {
    WordsAppend(starts, |result|);
    Together(result, Words(starts), Word32(|result|));
  }

  lemma AsksPiece<K>(policy: Policy<K>, contents: seq<Byte>, result: seq<Byte>, starts: seq<nat>, all: seq<nat>, i: nat, p: nat, key: K, piece: seq<Byte>)
    requires i < |starts| && all == starts + [|result|] && contents == result + Words(all) + [BASE_LG] && |result| < 0x1_0000_0000
    requires all[i] <= all[i + 1] <= |result| && result[all[i]..all[i + 1]] == piece && p == |result| + 4 * i
    ensures p + 8 <= |contents| && Asks(policy, contents, |result|, p, key) == policy.mayMatch(key, piece)
  {
    OffsetsInBlock(result, starts, i, all);
    AsksFilter(policy, contents, |result|, p, key, all[i], all[i + 1]);
    assert contents == result + (Words(all) + [BASE_LG]);
    BlockStart(result, Words(all) + [BASE_LG], all[i], all[i + 1]);
  }

  /** The filter that is asked about a key of a table block is the one made of the keys of its two kilobytes. */
  lemma KeyMayMatchIs<K>(policy: Policy<K>, groups: seq<seq<K>>, offset: nat, key: K)
    requires |Result(policy, groups)| < 0x1_0000_0000
    ensures KeyMayMatch(policy, FilterBlock(policy, groups), offset, key) <==>
            (offset / 2048 < |groups| ==> policy.mayMatch(key, Piece(policy, groups[offset / 2048])))
  {
    var i := offset / 2048;
    StartsLength(policy, groups);
    if i < |groups| {
      PieceAt(policy, groups, i);
      FilterAsked(policy, FilterBlock(policy, groups), Result(policy, groups), Starts(policy, groups), offset, i, key, Piece(policy, groups[i]));
    } else {
      NoFilterAsked(policy, FilterBlock(policy, groups), Result(policy, groups), Starts(policy, groups), offset, key);
    }
  }

  lemma FilterAsked<K>(policy: Policy<K>, contents: seq<Byte>, result: seq<Byte>, starts: seq<nat>, offset: nat, i: nat, key: K, piece: seq<Byte>)
    requires contents == result + Words(starts) + Word32(|result|) + [BASE_LG] && |result| < 0x1_0000_0000
    requires i == offset / 2048 < |starts|
    requires var all := starts + [|result|]; all[i] <= all[i + 1] <= |result| && result[all[i]..all[i + 1]] == piece
    ensures KeyMayMatch(policy, contents, offset, key) == policy.mayMatch(key, piece)
  {
    var p := |result| + 4 * i;
    FilterFound(policy, contents, result, starts, offset, i, key, p);
    PieceAsked(policy, contents, result, starts, i, p, key, piece);
  }

  lemma FilterFound<K>(policy: Policy<K>, contents: seq<Byte>, result: seq<Byte>, starts: seq<nat>, offset: nat, i: nat, key: K, p: nat)
    requires contents == result + Words(starts) + Word32(|result|) + [BASE_LG] && |result| < 0x1_0000_0000
    requires i == offset / 2048 < |starts| && p == |result| + 4 * i
    ensures p + 8 <= |contents| && KeyMayMatch(policy, contents, offset, key) == Asks(policy, contents, |result|, p, key)
  {
    var at, count := |result|, |starts|;
    FiltersEnd(result, starts, contents);
    FindsFilter(policy, contents, offset, key, at, count, i, p);
  }

  lemma PieceAsked<K>(policy: Policy<K>, contents: seq<Byte>, result: seq<Byte>, starts: seq<nat>, i: nat, p: nat, key: K, piece: seq<Byte>)
    requires contents == result + Words(starts) + Word32(|result|) + [BASE_LG] && |result| < 0x1_0000_0000
    requires i < |starts| && p == |result| + 4 * i
    requires var all := starts + [|result|]; all[i] <= all[i + 1] <= |result| && result[all[i]..all[i + 1]] == piece
    ensures p + 8 <= |contents| && Asks(policy, contents, |result|, p, key) == policy.mayMatch(key, piece)
  {
    var all := starts + [|result|];
    FiltersWhole(result, starts, contents, all);
    AsksPiece(policy, contents, result, starts, all, i, p, key, piece);
  }

  lemma NoFilterAsked<K>(policy: Policy<K>, contents: seq<Byte>, result: seq<Byte>, starts: seq<nat>, offset: nat, key: K)
    requires contents == result + Words(starts) + Word32(|result|) + [BASE_LG] && |result| < 0x1_0000_0000
    requires offset / 2048 >= |starts|
    ensures KeyMayMatch(policy, contents, offset, key)
  {
    var at, count := |result|, |starts|;
    FiltersEnd(result, starts, contents);
    FindsFilter(policy, contents, offset, key, at, count, offset / 2048, at + 4 * (offset / 2048));
  }

  /** A filter block never denies a key that was added for the two kilobytes the offset lies in. */
  lemma NoFalseNegatives<K(!new)>(policy: Policy<K>, groups: seq<seq<K>>, offset: nat, key: K)
    requires Lawful(policy) && |Result(policy, groups)| < 0x1_0000_0000
    requires offset / 2048 < |groups| ==> key in groups[offset / 2048]
    ensures KeyMayMatch(policy, FilterBlock(policy, groups), offset, key)
  {
    KeyMayMatchIs(policy, groups, offset, key);
  }

  class FilterBlockBuilder<K> {
    const policy: Policy<K>
    var keys: seq<K>
    var result: seq<Byte>
    var offsets: seq<nat>
    /** The keys of the filters generated so far. */
    ghost var groups: seq<seq<K>>

    ghost predicate Valid()
      reads this
    {
      result == Result(policy, groups) && offsets == Starts(policy, groups) && |offsets| == |groups|
    }

    constructor (policy: Policy<K>)
      ensures Valid() && this.policy == policy && keys == [] && groups == []
    {
      this.policy := policy;
      keys, result, offsets, groups := [], [], [], [];
    }

    /** Closes filters until the next one is that of the block's offset: the first holds the pending keys, the others none. */
    method StartBlock(offset: nat)
      requires Valid() && |groups| <= offset / 2048
      modifies this
      ensures Valid() && |groups| == offset / 2048
      ensures if offset / 2048 == |old(groups)| then groups == old(groups) && keys == old(keys)
              else keys == [] && groups == old(groups) + [old(keys)] + seq(offset / 2048 - |old(groups)| - 1, _ => [])
    {
      var index := offset / 2048;
      if index > |offsets| {
        GenerateFilter();
      }
      assert index > |old(groups)| ==> groups == old(groups) + [old(keys)] + [];
      while index > |offsets|
        invariant Valid() && |groups| <= index
        invariant index == |old(groups)| ==> groups == old(groups) && keys == old(keys)
        invariant index > |old(groups)| ==> keys == [] && |groups| > |old(groups)|
        invariant index > |old(groups)| ==> groups == old(groups) + [old(keys)] + seq(|groups| - |old(groups)| - 1, _ => [])
        decreases index - |offsets|
      {
        GenerateFilter();
      }
    }

    method AddKey(key: K)
      requires Valid()
      modifies this`keys
      ensures Valid() && keys == old(keys) + [key]
    {
      keys := keys + [key];
    }

    method GenerateFilter()
      requires Valid()
      modifies this
      ensures Valid() && keys == [] && groups == old(groups) + [old(keys)]
    {
      assert (groups + [keys])[..|groups|] == groups;
      offsets := offsets + [|result|];
      groups := groups + [keys];
      if keys != [] {
        result := result + policy.create(keys);
      }
      keys := [];
    }

    method Finish() returns (contents: seq<Byte>)
      requires Valid()
      modifies this
      ensures Valid() && contents == FilterBlock(policy, groups)
      ensures groups == if old(keys) == [] then old(groups) else old(groups) + [old(keys)]
    {
      if keys != [] {
        GenerateFilter();
      }
      contents := result;
      for i := 0 to |offsets|
        invariant contents == result + Words(offsets[..i])
      {
        assert offsets[..i + 1][..i] == offsets[..i];
        contents := contents + Word32(offsets[i]);
      }
      assert offsets[..|offsets|] == offsets;
      contents := contents + Word32(|result|) + [BASE_LG];
    }
  }
}
