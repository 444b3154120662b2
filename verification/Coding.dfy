/** Bytes, fixed-width integers, varints and length-prefixed strings. */
module Coding {
  import opened Values

  type Byte = n: nat | n < 256

  type Word = n: nat | n < 0x1_0000_0000

  function EncodeFixed32(w: Word): (b: seq<Byte>)
    ensures |b| == 4 && DecodeFixed32(b) == w
  {
    var w1 := w / 256;
    var w2 := w1 / 256;
    [w % 256, w1 % 256, w2 % 256, w2 / 256]
  }

  function DecodeFixed32(b: seq<Byte>): Word
    requires |b| == 4
  {
    var b0, b1, b2, b3 := b[0] as int, b[1] as int, b[2] as int, b[3] as int;
    b0 + 256 * (b1 + 256 * (b2 + 256 * b3))
  }

  /** Four bytes, the least significant first, and no other word has them. */
  lemma Fixed32Bytes(b: seq<Byte>)
    requires |b| == 4
    ensures DecodeFixed32(b) == b[0] as int + 0x100 * b[1] as int + 0x1_0000 * b[2] as int + 0x100_0000 * b[3] as int
    ensures EncodeFixed32(DecodeFixed32(b)) == b
  {
    var b0, b1, b2, b3 := b[0] as int, b[1] as int, b[2] as int, b[3] as int;
    var w := DecodeFixed32(b);
    assert w % 256 == b0 && w / 256 == b1 + 256 * (b2 + 256 * b3);
    assert w / 256 % 256 == b1 && w / 256 / 256 == b2 + 256 * b3;
  }

  // ---------------------------------------------------------------------------------------------
  // Varints
  // ---------------------------------------------------------------------------------------------

  /** Seven bits at a time, the least significant first; the top bit of a byte says that more follow. */
  function Varint(v: nat): (b: seq<Byte>)
    ensures |b| >= 1
  {
    if v < 128 then [v] else [v % 128 + 128] + Varint(v / 128)
  }

  /** What digits of seven bits are worth, the least significant first. */
  function Worth(b: seq<Byte>): nat {
    if b == [] then 0 else b[0] % 128 + 128 * Worth(b[1..])
  }

  /** The top bit says that more bytes follow; the digits are those of the number, and the last is not a needless zero. */
  lemma {:induction false} VarintBytes(v: nat)
    ensures var b := Varint(v);
            && (forall i :: 0 <= i < |b| - 1 ==> b[i] >= 128) && b[|b| - 1] < 128
            && Worth(b) == v && (|b| > 1 ==> b[|b| - 1] > 0)
    decreases v
  {
    if v >= 128 {
      VarintBytes(v / 128);
      var b, tail := Varint(v), Varint(v / 128);
      assert b[1..] == tail;
      forall i | 0 <= i < |b| - 1 ensures b[i] >= 128 {
        assert i > 0 ==> b[i] == tail[i - 1];
      }
      assert v / 128 < 128 ==> tail == [v / 128];
    } else {
      assert Worth(Varint(v)[1..]) == 0;
    }
  }

  method EncodeVarint32(v: Word) returns (b: seq<Byte>)
    ensures b == Varint(v)
  {
    var v1 := v / 128;
    var v2 := v1 / 128;
    var v3 := v2 / 128;
    var v4 := v3 / 128;
    assert v3 < 128 ==> Varint(v3) == [v3];
    assert v2 >= 128 ==> Varint(v2) == [v2 % 128 + 128] + Varint(v3);
    assert v1 >= 128 ==> Varint(v1) == [v1 % 128 + 128] + Varint(v2);
    if v < 0x80 {
      b := [v];
    } else if v < 0x4000 {
      b := [v % 128 + 128, v1];
    } else if v < 0x20_0000 {
      b := [v % 128 + 128, v1 % 128 + 128, v2];
    } else if v < 0x1000_0000 {
      b := [v % 128 + 128, v1 % 128 + 128, v2 % 128 + 128, v3];
    } else {
      b := [v % 128 + 128, v1 % 128 + 128, v2 % 128 + 128, v3 % 128 + 128, v4];
    }
  }

  method EncodeVarint64(v: nat) returns (b: seq<Byte>)
    ensures b == Varint(v)
  {
    b := [];
    var w := v;
    while w >= 128
      invariant Varint(v) == b + Varint(w)
    {
      assert b + ([w % 128 + 128] + Varint(w / 128)) == b + [w % 128 + 128] + Varint(w / 128);
      b := b + [w % 128 + 128];
      w := w / 128;
    }
    b := b + [w];
  }

  /** Byte `k` and those behind it; of the fifth byte only four bits fit in 32. */
  function ParseVarint(input: seq<Byte>, k: nat): Parsed<nat>
    requires k <= 5
    decreases 5 - k
  {
    if k == 5 || input == [] then Failed
    else
      var low := if k == 4 then input[0] % 16 else input[0] % 128;
      if input[0] < 128 then Parsed(low, input[1..]) else Shifted(ParseVarint(input[1..], k + 1), low)
  }

  datatype Parsed<T> = Failed | Parsed(value: T, rest: seq<Byte>)

  function Shifted(p: Parsed<nat>, low: nat): Parsed<nat> {
    if p.Failed? then Failed else Parsed(low + 128 * p.value, p.rest)
  }

  /** What the bits of byte `k` are worth. */
  function Weight(k: nat): nat
    requires k <= 4
  {
    if k == 0 then 1 else if k == 1 then 0x80 else if k == 2 then 0x4000 else if k == 3 then 0x20_0000 else 0x1000_0000
  }

  /** The value of the first `k` bytes and of the rest together. */
  function Joined(sum: nat, k: nat, p: Parsed<nat>): Parsed<nat>
    requires k <= 5
  {
    if p.Failed? || k == 5 then Failed else Parsed(sum + Weight(k) * p.value, p.rest)
  }

  lemma FifthByte(sum: nat, b: int)
    requires sum < 0x1000_0000 && 0 <= b < 128
    ensures (sum + b * 0x1000_0000) % 0x1_0000_0000 == sum + 0x1000_0000 * (b % 16)
  {
    assert b == 16 * (b / 16) + b % 16;
    assert sum + b * 0x1000_0000 == 0x1_0000_0000 * (b / 16) + (sum + 0x1000_0000 * (b % 16));
  }

  /** The bits of byte `k` go in, and what does not fit in 32 goes. */
  function WithByte(sum: nat, byte: Byte, k: nat): nat
    requires k <= 4
  {
    (sum + byte % 128 * Weight(k)) % 0x1_0000_0000
  }

  lemma JoinLast(input: seq<Byte>, k: nat, sum: nat)
    requires k < 5 && input != [] && input[0] < 128 && sum < Weight(k)
    ensures Joined(sum, k, ParseVarint(input, k)) == Parsed(WithByte(sum, input[0], k), input[1..])
  {
    if k == 4 {
      FifthByte(sum, input[0]);
    } else {
      assert k == 0 || k == 1 || k == 2 || k == 3;
    }
  }

  lemma JoinMore(input: seq<Byte>, k: nat, sum: nat, sum': nat)
    requires k < 5 && input != [] && input[0] >= 128 && sum < Weight(k)
    requires sum' == WithByte(sum, input[0], k)
    ensures Same(Joined(sum, k, ParseVarint(input, k)), Joined(sum', k + 1, ParseVarint(input[1..], k + 1)))
    ensures k < 4 ==> sum' < Weight(k + 1)
  {
    if k < 4 {
      var p := ParseVarint(input[1..], k + 1);
      Weighted(k, sum, input[0] % 128, if p.Parsed? then p.value else 0);
    }
  }

  lemma Weighted(k: nat, sum: nat, b: int, v: nat)
    requires k < 4 && sum < Weight(k) && 0 <= b < 128
    ensures Weight(k) * (b + 128 * v) == b * Weight(k) + Weight(k + 1) * v
    ensures (sum + b * Weight(k)) % 0x1_0000_0000 == sum + b * Weight(k) < Weight(k + 1)
  {
    if k == 0 {
    } else if k == 1 {
    } else if k == 2 {
    } else {
    }
  }

  /** The fast path for one byte, then the loop. */
  method GetVarint32(input: seq<Byte>) returns (r: Parsed<nat>)
    ensures r == ParseVarint(input, 0)
  {
    if input != [] && input[0] < 128 {
      return Parsed(input[0], input[1..]);
    }
    var rest, k: nat, sum: nat := input, 0, 0;
    while k < 5 && rest != []
      invariant k <= 5 && (k < 5 ==> sum < Weight(k))
      invariant Same(ParseVarint(input, 0), Joined(sum, k, ParseVarint(rest, k)))
    {
      var byte := rest[0];
      var sum' := WithByte(sum, byte, k);
      if byte < 128 {
        JoinLast(rest, k, sum);
        return Parsed(sum', rest[1..]);
      }
      JoinMore(rest, k, sum, sum');
      sum, rest := sum', rest[1..];
      k := k + 1;
    }
    r := Failed;
  }

  /** Values that byte `k` and those behind it can hold. */
  function Limit(k: nat): nat
    requires k <= 4
  {
    if k == 0 then 0x1_0000_0000 else if k == 1 then 0x200_0000 else if k == 2 then 0x4_0000 else if k == 3 then 0x800 else 16
  }

  /** A varint that fits reads back, whatever follows it. */
  lemma {:induction false} VarintParses(v: nat, rest: seq<Byte>, k: nat)
    requires k <= 4 && v < Limit(k)
    ensures ParseVarint(Varint(v) + rest, k) == Parsed(v, rest)
    decreases 5 - k
  {
    var input := Varint(v) + rest;
    if v < 128 {
      assert input[0] == v && input[1..] == rest;
    } else {
      assert input[0] == v % 128 + 128 && input[1..] == Varint(v / 128) + rest;
      assert k == 0 || k == 1 || k == 2 || k == 3;
      VarintParses(v / 128, rest, k + 1);
    }
  }

  // ---------------------------------------------------------------------------------------------
  // Length-prefixed strings
  // ---------------------------------------------------------------------------------------------

  function Prefixed(s: seq<Byte>): seq<Byte> {
    Varint(|s|) + s
  }

  function ParsePrefixed(input: seq<Byte>): Parsed<seq<Byte>> {
    var n := ParseVarint(input, 0);
    if n.Failed? || |n.rest| < n.value then Failed else Parsed(n.rest[..n.value], n.rest[n.value..])
  }

  /** A string is found only if its whole length is there. */
  lemma PrefixedRefused(length: nat, rest: seq<Byte>)
    requires |rest| < length < 0x1_0000_0000
    ensures ParsePrefixed(Varint(length) + rest).Failed?
  {
    VarintParses(length, rest, 0);
  }

  lemma PrefixedRoundTrip(s: seq<Byte>, rest: seq<Byte>)
    requires |s| < 0x1_0000_0000
    ensures ParsePrefixed(Prefixed(s) + rest) == Parsed(s, rest)
  {
    assert Prefixed(s) + rest == Varint(|s|) + (s + rest);
    VarintParses(|s|, s + rest, 0);
    assert (s + rest)[..|s|] == s && (s + rest)[|s|..] == rest;
  }

  lemma {:induction false} VarintShorter(input: seq<Byte>, k: nat)
    requires k <= 5
    ensures var p := ParseVarint(input, k); p.Parsed? ==> |p.rest| < |input|
    decreases 5 - k
  {
    if k < 5 && input != [] {
      VarintShorter(input[1..], k + 1);
    }
  }

  lemma PrefixedShorter(input: seq<Byte>)
    ensures var p := ParsePrefixed(input); p.Parsed? ==> |p.rest| < |input|
  {
    VarintShorter(input, 0);
  }

  // ---------------------------------------------------------------------------------------------
  // Records one behind the other
  // ---------------------------------------------------------------------------------------------

  function EncodeAll<T>(encode: T -> seq<Byte>, xs: seq<T>): seq<Byte> {
    if xs == [] then [] else encode(xs[0]) + EncodeAll(encode, xs[1..])
  }

  /** Parses records until the input is used up or one cannot be parsed, and adds them to `seen`. */
  function ParseAll<T>(parse: seq<Byte> -> Parsed<T>, input: seq<Byte>, seen: seq<T>): (seq<T>, seq<Byte>)
    decreases |input|
  {
    if input == [] then (seen, [])
    else
      var r := parse(input);
      if r.Failed? || |r.rest| >= |input| then (seen, input) else ParseAll(parse, r.rest, seen + [r.value])
  }

  ghost predicate Undoes<T(!new)>(encode: T -> seq<Byte>, parse: seq<Byte> -> Parsed<T>, x: T, rest: seq<Byte>) {
    encode(x) != [] && parse(encode(x) + rest) == Parsed(x, rest)
  }

  /** If `parse` undoes `encode` whatever follows a record, records behind each other are all parsed, up to what is none. */
  lemma {:induction false} ParseAllThenRest<T(!new)>(encode: T -> seq<Byte>, parse: seq<Byte> -> Parsed<T>, xs: seq<T>, rest: seq<Byte>,
                                                     seen: seq<T>)
    requires forall i, more :: 0 <= i < |xs| ==> Undoes(encode, parse, xs[i], more)
    requires rest == [] || parse(rest).Failed?
    ensures Same(ParseAll(parse, EncodeAll(encode, xs) + rest, seen), (seen + xs, rest))
    decreases |xs|
  {
    if xs == [] {
      assert seen + xs == seen && [] + rest == rest;
    } else {
      var more := EncodeAll(encode, xs[1..]) + rest;
      assert Undoes(encode, parse, xs[0], more);
      ConcatAssociates(encode(xs[0]), EncodeAll(encode, xs[1..]), rest);
      assert |encode(xs[0]) + more| > |more|;
      ParseAllThenRest(encode, parse, xs[1..], rest, seen + [xs[0]]);
      assert seen + [xs[0]] + xs[1..] == seen + xs;
    }
  }

  lemma ParseAllEncoded<T(!new)>(encode: T -> seq<Byte>, parse: seq<Byte> -> Parsed<T>, xs: seq<T>, seen: seq<T>)
    requires forall i, rest :: 0 <= i < |xs| ==> Undoes(encode, parse, xs[i], rest)
    ensures Same(ParseAll(parse, EncodeAll(encode, xs), seen), (seen + xs, []))
  {
    ParseAllThenRest(encode, parse, xs, [], seen);
    assert EncodeAll(encode, xs) + [] == EncodeAll(encode, xs);
  }

  /** How many whole records the first `k` bytes hold, and what is left of them behind these. */
  lemma {:induction false} CutRecords<T>(encode: T -> seq<Byte>, xs: seq<T>, k: nat) returns (n: nat, rest: seq<Byte>)
    requires k <= |EncodeAll(encode, xs)|
    ensures n <= |xs| && EncodeAll(encode, xs)[..k] == EncodeAll(encode, xs[..n]) + rest
    ensures rest == [] || (n < |xs| && |rest| < |encode(xs[n])| && rest == encode(xs[n])[..|rest|])
    decreases |xs|
  {
    if xs == [] || k < |encode(xs[0])| {
      n, rest := 0, EncodeAll(encode, xs)[..k];
      assert [] + rest == rest;
    } else {
      var first, m := encode(xs[0]), k - |encode(xs[0])|;
      n, rest := CutRecords(encode, xs[1..], m);
      assert xs[..n + 1][1..] == xs[1..][..n];
      assert EncodeAll(encode, xs)[..k] == first + EncodeAll(encode, xs[1..])[..m];
      ConcatAssociates(first, EncodeAll(encode, xs[1..][..n]), rest);
      n := n + 1;
    }
  }

  lemma {:induction false} EncodeAllConcat<T>(encode: T -> seq<Byte>, a: seq<T>, b: seq<T>)
    ensures Same(EncodeAll(encode, a + b), EncodeAll(encode, a) + EncodeAll(encode, b))
    decreases |a|
  {
    if a == [] {
      assert a + b == b;
      assert [] + EncodeAll(encode, b) == EncodeAll(encode, b);
    } else {
      EncodeAllConcat(encode, a[1..], b);
      assert (a + b)[1..] == a[1..] + b;
      ConcatAssociates(encode(a[0]), EncodeAll(encode, a[1..]), EncodeAll(encode, b));
    }
  }

  lemma EncodeOne<T>(encode: T -> seq<Byte>, x: T)
    ensures Same(EncodeAll(encode, [x]), encode(x))
  {
    assert [x][1..] == [];
    assert encode(x) + [] == encode(x);
  }

  // ---------------------------------------------------------------------------------------------
  // Arrays of fixed 32-bit words
  // ---------------------------------------------------------------------------------------------

  /** Offsets are stored in 32 bits. */
  function Word32(n: nat): (w: seq<Byte>)
    ensures |w| == 4
  {
    EncodeFixed32(n % 0x1_0000_0000)
  }

  function ReadWord(contents: seq<Byte>, p: nat): nat
    requires p + 4 <= |contents|
  {
    DecodeFixed32(contents[p..p + 4])
  }

  lemma WordReads(contents: seq<Byte>, p: nat, n: nat)
    requires p + 4 <= |contents| && contents[p..p + 4] == Word32(n) && n < 0x1_0000_0000
    ensures ReadWord(contents, p) == n
  {
  }

  function Words(offsets: seq<nat>): seq<Byte> {
    if offsets == [] then [] else Words(offsets[..|offsets| - 1]) + Word32(offsets[|offsets| - 1])
  }

  lemma {:induction false} WordsAt(offsets: seq<nat>, i: nat)
    ensures |Words(offsets)| == 4 * |offsets|
    ensures i < |offsets| ==> Words(offsets)[4 * i..4 * i + 4] == Word32(offsets[i])
    decreases |offsets|
  {
    if offsets != [] {
      var n := |offsets| - 1;
      WordsAt(offsets[..n], i);
      if i < n {
        SlicePrefix(Words(offsets[..n]), Word32(offsets[n]), 4 * i, 4 * i + 4);
      }
    }
  }

  lemma SlicePrefix(a: seq<Byte>, b: seq<Byte>, lo: nat, hi: nat)
    requires lo <= hi <= |a|
    ensures (a + b)[lo..hi] == a[lo..hi]
  {
  }

  lemma WordsAppend(starts: seq<nat>, n: nat)
    ensures Words(starts + [n]) == Words(starts) + Word32(n)
  {
    assert (starts + [n])[..|starts|] == starts;
  }
}
