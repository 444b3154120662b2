/** Write batches: the byte form in which groups of updates are logged. */
module WriteBatches {
  import opened Values
  import opened Coding

  datatype Op = Put(key: seq<Byte>, value: seq<Byte>) | Delete(key: seq<Byte>)

  const HEADER := 12

  /** Lengths are stored in 32 bits. */
  predicate Storable(op: Op) {
    |op.key| < 0x1_0000_0000 && (op.Put? ==> |op.value| < 0x1_0000_0000)
  }

  function EncodeOp(op: Op): (b: seq<Byte>)
    ensures |b| >= 1
  {
    match op
    case Put(key, value) => [1] + Prefixed(key) + Prefixed(value)
    case Delete(key) => [0] + Prefixed(key)
  }

  function EncodeOps(ops: seq<Op>): seq<Byte> {
    EncodeAll(EncodeOp, ops)
  }

  /** A put is the byte 1, the key and the value; a deletion is the byte 0 and the key. */
  lemma OpBytes(key: seq<Byte>, value: seq<Byte>)
    requires |key| < 128 && |value| < 128
    ensures EncodeOp(Put(key, value)) == [1, |key|] + key + [|value|] + value
    ensures EncodeOp(Delete(key)) == [0, |key|] + key
  {
    assert Varint(|key|) == [|key|] && Varint(|value|) == [|value|];
  }

  // ---------------------------------------------------------------------------------------------
  // Reading a batch
  // ---------------------------------------------------------------------------------------------

  datatype Status = Ok | Corruption(message: string)

  /** The first record of `input`. */
  function ParseOp(input: seq<Byte>): Parsed<Op> {
    if input == [] then Failed
    else if input[0] == 1 then
      var key := ParsePrefixed(input[1..]);
      if key.Failed? then Failed
      else
        var value := ParsePrefixed(key.rest);
        if value.Failed? then Failed else Parsed(Put(key.value, value.value), value.rest)
    else if input[0] == 0 then
      var key := ParsePrefixed(input[1..]);
      if key.Failed? then Failed else Parsed(Delete(key.value), key.rest)
    else Failed
  }

  function Message(tag: Byte): string {
    if tag == 1 then "bad WriteBatch Put" else if tag == 0 then "bad WriteBatch Delete" else "unknown WriteBatch tag"
  }

  /** How iterating ends that has called the handler with `seen` and is left with `input`. */
  function Ended(seen: seq<Op>, input: seq<Byte>, count: nat): Status {
    if input != [] then Corruption(Message(input[0]))
    else if |seen| == count then Ok
    else Corruption("WriteBatch has wrong count")
  }

  /** Other records than these two kinds are refused, and so are puts and deletions that are cut short. */
  lemma OpRefused(input: seq<Byte>)
    ensures input == [] || input[0] > 1 ==> ParseOp(input).Failed?
    ensures input != [] && ParsePrefixed(input[1..]).Failed? ==> ParseOp(input).Failed?
    ensures input != [] && input[0] == 1 && ParsePrefixed(input[1..]).Parsed? && ParsePrefixed(ParsePrefixed(input[1..]).rest).Failed? ==>
              ParseOp(input).Failed?
  {
  }

  lemma OpParses(op: Op, rest: seq<Byte>)
    requires Storable(op)
    ensures ParseOp(EncodeOp(op) + rest) == Parsed(op, rest)
  {
    match op
    case Put(key, value) =>
      PrefixedRoundTrip(key, Prefixed(value) + rest);
      PrefixedRoundTrip(value, rest);
      TagAndTwo(1, Prefixed(key), Prefixed(value), rest);
    case Delete(key) =>
      PrefixedRoundTrip(key, rest);
      TagAndOne(0, Prefixed(key), rest);
  }

  lemma TagAndOne(tag: Byte, a: seq<Byte>, rest: seq<Byte>)
    ensures ([tag] + a + rest)[0] == tag
    ensures Same(([tag] + a + rest)[1..], a + rest)
  {
    assert ([tag] + a + rest)[1..] == a + rest;
  }

  lemma TagAndTwo(tag: Byte, a: seq<Byte>, b: seq<Byte>, rest: seq<Byte>)
    ensures ([tag] + a + b + rest)[0] == tag
    ensures Same(([tag] + a + b + rest)[1..], a + (b + rest))
  {
    assert ([tag] + a + b + rest)[1..] == a + (b + rest);
  }

  lemma OpUndone(op: Op, rest: seq<Byte>)
    requires Storable(op)
    ensures Undoes(EncodeOp, ParseOp, op, rest)
  {
    OpParses(op, rest);
  }

  /** Iterating over encoded updates gives them back. */
  lemma OpsParse(ops: seq<Op>)
    requires forall i :: 0 <= i < |ops| ==> Storable(ops[i])
    ensures ParseAll(ParseOp, EncodeOps(ops), []) == (ops, [])
  {
    forall i, rest | 0 <= i < |ops| ensures Undoes(EncodeOp, ParseOp, ops[i], rest) {
      OpUndone(ops[i], rest);
    }
    ParseAllEncoded(EncodeOp, ParseOp, ops, []);
    assert [] + ops == ops;
  }

  // ---------------------------------------------------------------------------------------------
  // The batch
  // ---------------------------------------------------------------------------------------------

  function EncodeFixed64(n: nat): (b: seq<Byte>)
    requires n < 0x1_0000_0000_0000_0000
    ensures |b| == 8 && DecodeFixed64(b) == n
  {
    EncodeFixed32(n % 0x1_0000_0000) + EncodeFixed32(n / 0x1_0000_0000)
  }

  function DecodeFixed64(b: seq<Byte>): nat
    requires |b| == 8
  {
    DecodeFixed32(b[..4]) + 0x1_0000_0000 * DecodeFixed32(b[4..])
  }

  lemma Fixed64Bytes(b: seq<Byte>)
    requires |b| == 8
    ensures DecodeFixed64(b) == b[0] as int + 0x100 * b[1] as int + 0x1_0000 * b[2] as int + 0x100_0000 * b[3] as int +
                                0x1_0000_0000 * b[4] as int + 0x100_0000_0000 * b[5] as int + 0x1_0000_0000_0000 * b[6] as int +
                                0x100_0000_0000_0000 * b[7] as int
  {
    Fixed32Bytes(b[..4]);
    Fixed32Bytes(b[4..]);
  }

  lemma Patched(rep: seq<Byte>, fixed: seq<Byte>, records: seq<Byte>)
    requires |rep| >= 12 && |fixed| == 4
    ensures var rep' := rep[..8] + fixed + rep[12..] + records;
            Same(rep'[..8], rep[..8]) && Same(rep'[8..12], fixed) && Same(rep'[12..], rep[12..] + records)
  {
    var rep' := rep[..8] + fixed + rep[12..] + records;
    assert rep'[..8] == rep[..8] && rep'[8..12] == fixed && rep'[12..] == rep[12..] + records;
  }

  lemma EmptyRep()
    ensures var rep: seq<Byte> := seq(12, _ => 0); Same(rep[8..12], EncodeFixed32(0)) && Same(rep[12..], EncodeOps([]))
  {
    var rep: seq<Byte> := seq(12, _ => 0);
    assert rep[8..12] == EncodeFixed32(0) && rep[12..] == [];
  }

  class WriteBatch {
    var rep: seq<Byte>
    /** The updates, in order. */
    ghost var ops: seq<Op>

    ghost predicate Valid()
      reads this
    {
      && |rep| >= HEADER && |ops| <= 0x7fff_ffff
      && Same(rep[8..12], EncodeFixed32(|ops|)) && Same(rep[12..], EncodeOps(ops))
      && forall i :: 0 <= i < |ops| ==> Storable(ops[i])
    }

    constructor ()
      ensures Valid() && ops == []
    {
      ops := [];
      rep := seq(12, _ => 0);
      EmptyRep();
    }

    method Clear()
      modifies this
      ensures Valid() && ops == []
    {
      ops := [];
      rep := seq(12, _ => 0);
      EmptyRep();
    }

    function Count(): (n: nat)
      reads this
      requires Valid()
      ensures n == |ops|
    {
      DecodeFixed32(rep[8..12])
    }

    function Sequence(): nat
      reads this
      requires Valid()
    {
      DecodeFixed64(rep[..8])
    }

    /** The number of updates is in bytes 8 to 11, and the updates follow. */
    lemma CountBytes()
      requires Valid()
      ensures |ops| == rep[8] as int + 0x100 * rep[9] as int + 0x1_0000 * rep[10] as int + 0x100_0000 * rep[11] as int
      ensures rep[12..] == EncodeOps(ops)
    {
      Fixed32Bytes(rep[8..12]);
    }

    method SetSequence(n: nat)
      requires Valid() && n < 0x1_0000_0000_0000_0000
      modifies this
      ensures Valid() && ops == old(ops) && Sequence() == n && |rep| == |old(rep)|
    {
      var fixed := EncodeFixed64(n);
      assert (fixed + rep[8..])[..8] == fixed && (fixed + rep[8..])[8..12] == rep[8..12] && (fixed + rep[8..])[12..] == rep[12..];
      rep := fixed + rep[8..];
    }

    /** Adds encoded records and their number; the sequence number stays. */
    method Extend(records: seq<Byte>, ghost more: seq<Op>, n: nat)
      requires Valid() && n == |more| && records == EncodeOps(more)
      requires |ops| + n <= 0x7fff_ffff && forall i :: 0 <= i < |more| ==> Storable(more[i])
      modifies this
      ensures Valid() && ops == old(ops) + more && Sequence() == old(Sequence())
    {
      var fixed := EncodeFixed32(Count() + n);
      Patched(rep, fixed, records);
      EncodeAllConcat(EncodeOp, ops, more);
      rep := rep[..8] + fixed + rep[12..] + records;
      ops := ops + more;
    }

    method Put(key: seq<Byte>, value: seq<Byte>)
      requires Valid() && |ops| < 0x7fff_ffff && Storable(Op.Put(key, value))
      modifies this
      ensures Valid() && ops == old(ops) + [Op.Put(key, value)]
    {
      EncodeOne(EncodeOp, Op.Put(key, value));
      Extend([1] + Prefixed(key) + Prefixed(value), [Op.Put(key, value)], 1);
    }

    method Delete(key: seq<Byte>)
      requires Valid() && |ops| < 0x7fff_ffff && Storable(Op.Delete(key))
      modifies this
      ensures Valid() && ops == old(ops) + [Op.Delete(key)]
    {
      EncodeOne(EncodeOp, Op.Delete(key));
      Extend([0] + Prefixed(key), [Op.Delete(key)], 1);
    }

    /** The appended batch keeps its own sequence number to itself: only its updates are taken over. */
    method Append(source: WriteBatch)
      requires Valid() && source.Valid() && |ops| + |source.ops| <= 0x7fff_ffff
      modifies this
      ensures Valid() && ops == old(ops) + old(source.ops) && Sequence() == old(Sequence())
    {
      Extend(source.rep[12..], source.ops, source.Count());
    }

    /** What a handler is told: exactly the updates, in order. */
    method Iterate() returns (handled: seq<Op>, status: Status)
      requires Valid()
      ensures handled == ops && status == Ok
    {
      handled, status := IterateBytes(rep);
      OpsParse(ops);
    }
  }

  /** Iterating over any bytes, as found in a log. */
  method IterateBytes(rep: seq<Byte>) returns (handled: seq<Op>, status: Status)
    ensures |rep| < HEADER ==> handled == [] && status == Corruption("malformed WriteBatch (too small)")
    ensures |rep| >= HEADER ==>
              var parsed := ParseAll(ParseOp, rep[12..], []);
              && handled == parsed.0
              && (parsed.1 != [] ==> status == Corruption(if parsed.1[0] == 1 then "bad WriteBatch Put"
                                                          else if parsed.1[0] == 0 then "bad WriteBatch Delete"
                                                          else "unknown WriteBatch tag"))
              && (parsed.1 == [] ==>
                    status == if |handled| == rep[8] as int + 0x100 * rep[9] as int + 0x1_0000 * rep[10] as int + 0x100_0000 * rep[11] as int
                              then Ok else Corruption("WriteBatch has wrong count"))
              && status == Ended(parsed.0, parsed.1, DecodeFixed32(rep[8..12]))
  {
    handled := [];
    if |rep| < HEADER {
      return handled, Corruption("malformed WriteBatch (too small)");
    }
    Fixed32Bytes(rep[8..12]);
    var input := rep[12..];
    ghost var goal := ParseAll(ParseOp, input, []);
    while input != []
      invariant Same(goal, ParseAll(ParseOp, input, handled))
      decreases |input|
    {
      var op := ParseOp(input);
      if op.Failed? {
        return handled, Corruption(Message(input[0]));
      }
      ParseOpShorter(input);
      handled := handled + [op.value];
      input := op.rest;
    }
    status := if |handled| == DecodeFixed32(rep[8..12]) then Ok else Corruption("WriteBatch has wrong count");
  }

  lemma ParseOpShorter(input: seq<Byte>)
    ensures var p := ParseOp(input); p.Parsed? ==> |p.rest| < |input|
  {
    if input != [] {
      PrefixedShorter(input[1..]);
      var key := ParsePrefixed(input[1..]);
      if key.Parsed? {
        PrefixedShorter(key.rest);
      }
    }
  }
}
