/** Version edits as bytes: what a manifest record holds, and what reading it back gives. */
module VersionEditCodec {
  import opened Values
  import opened Coding
  import Versions

  // ---------------------------------------------------------------------------------------------
  // 64-bit varints
  // ---------------------------------------------------------------------------------------------

  /** Byte `k` and those behind it; of the tenth byte only one bit fits in 64. */
  function ParseVarint64(input: seq<Byte>, k: nat): (r: Parsed<nat>)
    requires k <= 10
    ensures r.Parsed? ==> |r.rest| < |input|
    decreases 10 - k
  {
    if k == 10 || input == [] then Failed
    else
      var low := if k == 9 then input[0] % 2 else input[0] % 128;
      if input[0] < 128 then Parsed(low, input[1..]) else Shifted(ParseVarint64(input[1..], k + 1), low)
  }

  /** What the bits of byte `k` are worth. */
  function Weight64(k: nat): nat
    requires k <= 9
  {
    if k == 0 then 1 else if k == 1 then 0x80 else if k == 2 then 0x4000 else if k == 3 then 0x20_0000
    else if k == 4 then 0x1000_0000 else if k == 5 then 0x8_0000_0000 else if k == 6 then 0x400_0000_0000
    else if k == 7 then 0x2_0000_0000_0000 else if k == 8 then 0x100_0000_0000_0000 else 0x8000_0000_0000_0000
  }

  /** Values that byte `k` and those behind it can hold. */
  function Limit64(k: nat): nat
    requires k <= 9
  {
    if k == 0 then 0x1_0000_0000_0000_0000 else if k == 1 then 0x200_0000_0000_0000 else if k == 2 then 0x4_0000_0000_0000
    else if k == 3 then 0x800_0000_0000 else if k == 4 then 0x10_0000_0000 else if k == 5 then 0x2000_0000
    else if k == 6 then 0x40_0000 else if k == 7 then 0x8000 else if k == 8 then 0x100 else 2
  }

  lemma NextLimit(k: nat, v: nat)
    requires k < 9 && v < Limit64(k)
    ensures v / 128 < Limit64(k + 1)
  {
    assert k == 0 || k == 1 || k == 2 || k == 3 || k == 4 || k == 5 || k == 6 || k == 7 || k == 8;
  }

  lemma LastLimit(v: nat)
    requires v < Limit64(9)
    ensures v < 128
  {
  }

  lemma OneByte64(v: nat, rest: seq<Byte>, k: nat)
    requires k <= 9 && v < 128 && (k == 9 ==> v < 2)
    ensures ParseVarint64([v] + rest, k) == Parsed(v, rest)
  {
    assert ([v] + rest)[1..] == rest;
  }

  lemma MoreBytes64(low: nat, high: nat, tail: seq<Byte>, rest: seq<Byte>, k: nat)
    requires k < 9 && low < 128 && ParseVarint64(tail + rest, k + 1) == Parsed(high, rest)
    ensures ParseVarint64([low + 128] + tail + rest, k) == Parsed(low + 128 * high, rest)
  {
    var input := [low + 128] + tail + rest;
    assert input[1..] == tail + rest;
  }

  lemma {:induction false} Varint64Parses(v: nat, rest: seq<Byte>, k: nat)
    requires k <= 9 && v < Limit64(k)
    ensures ParseVarint64(Varint(v) + rest, k) == Parsed(v, rest)
    decreases 10 - k
  {
    if v < 128 {
      OneByte64(v, rest, k);
    } else if k == 9 {
      LastLimit(v);
    } else {
      var low, high := v % 128, v / 128;
      NextLimit(k, v);
      Varint64Parses(high, rest, k + 1);
      MoreBytes64(low, high, Varint(high), rest, k);
    }
  }

  /** The value of the first `k` bytes and of the rest together. */
  function Joined64(sum: nat, k: nat, p: Parsed<nat>): Parsed<nat>
    requires k <= 10
  {
    if p.Failed? || k == 10 then Failed else Parsed(sum + Weight64(k) * p.value, p.rest)
  }

  lemma TenthByte(sum: nat, b: int)
    requires sum < 0x8000_0000_0000_0000 && 0 <= b < 128
    ensures (sum + b * 0x8000_0000_0000_0000) % 0x1_0000_0000_0000_0000 == sum + 0x8000_0000_0000_0000 * (b % 2)
  {
    assert b == 2 * (b / 2) + b % 2;
    assert sum + b * 0x8000_0000_0000_0000 == 0x1_0000_0000_0000_0000 * (b / 2) + (sum + 0x8000_0000_0000_0000 * (b % 2));
  }

  lemma NextWeight(k: nat)
    requires k < 9
    ensures Weight64(k + 1) == 128 * Weight64(k) && Weight64(k + 1) <= 0x8000_0000_0000_0000
  {
    assert k == 0 || k == 1 || k == 2 || k == 3 || k == 4 || k == 5 || k == 6 || k == 7 || k == 8;
  }

  lemma Small(n: nat)
    requires n < 0x1_0000_0000_0000_0000
    ensures n % 0x1_0000_0000_0000_0000 == n
  {
  }

  lemma Fits(sum: nat, k: nat, b: int)
    requires k < 9 && sum < Weight64(k) && 0 <= b < 128
    ensures (sum + b * Weight64(k)) % 0x1_0000_0000_0000_0000 == sum + b * Weight64(k) < Weight64(k + 1)
  {
    if k == 0 {
    } else if k == 1 {
    } else if k == 2 {
    } else if k == 3 {
    } else if k == 4 {
    } else if k == 5 {
    } else if k == 6 {
    } else if k == 7 {
    } else {
    }
    Small(sum + b * Weight64(k));
  }

  lemma Spread(w: nat, b: int, v: nat)
    ensures w * (b + 128 * v) == b * w + 128 * w * v
  {
  }

  /** The bits of byte `k` go in, and what does not fit in 64 goes. */
  function WithByte64(sum: nat, byte: Byte, k: nat): nat
    requires k <= 9
  {
    (sum + byte % 128 * Weight64(k)) % 0x1_0000_0000_0000_0000
  }

  lemma JoinLast64(input: seq<Byte>, k: nat, sum: nat)
    requires k < 10 && input != [] && input[0] < 128 && sum < Weight64(k)
    ensures Joined64(sum, k, ParseVarint64(input, k)) ==
            Parsed(WithByte64(sum, input[0], k), input[1..])
  {
    LastByte(sum, k, input[0]);
  }

  lemma LastByte(sum: nat, k: nat, b: int)
    requires k < 10 && sum < Weight64(k) && 0 <= b < 128
    ensures (sum + b % 128 * Weight64(k)) % 0x1_0000_0000_0000_0000 == sum + Weight64(k) * (if k == 9 then b % 2 else b % 128)
  {
    if k == 9 {
      TenthByte(sum, b);
    } else {
      NextWeight(k);
      Fits(sum, k, b);
    }
  }

  lemma JoinMore64(input: seq<Byte>, k: nat, sum: nat, sum': nat)
    requires k < 10 && input != [] && input[0] >= 128 && sum < Weight64(k)
    requires sum' == WithByte64(sum, input[0], k)
    ensures Same(Joined64(sum, k, ParseVarint64(input, k)), Joined64(sum', k + 1, ParseVarint64(input[1..], k + 1)))
    ensures k < 9 ==> sum' < Weight64(k + 1)
  {
    if k < 9 {
      var p := ParseVarint64(input[1..], k + 1);
      NextWeight(k);
      Fits(sum, k, input[0] % 128);
      Spread(Weight64(k), input[0] % 128, if p.Parsed? then p.value else 0);
    }
  }

  method GetVarint64(input: seq<Byte>) returns (r: Parsed<nat>)
    ensures r == ParseVarint64(input, 0)
  {
    var rest, k: nat, sum: nat := input, 0, 0;
    while k < 10 && rest != []
      invariant k <= 10 && (k < 10 ==> sum < Weight64(k))
      invariant Same(ParseVarint64(input, 0), Joined64(sum, k, ParseVarint64(rest, k)))
    {
      var byte := rest[0];
      var sum' := WithByte64(sum, byte, k);
      if byte < 128 {
        JoinLast64(rest, k, sum);
        return Parsed(sum', rest[1..]);
      }
      JoinMore64(rest, k, sum, sum');
      sum, rest := sum', rest[1..];
      k := k + 1;
    }
    r := Failed;
  }

  // ---------------------------------------------------------------------------------------------
  // Fields
  // ---------------------------------------------------------------------------------------------

  datatype DeletedFile = DeletedFile(level: nat, number: nat)

  datatype NewFile = NewFile(level: nat, number: nat, size: nat, smallest: seq<Byte>, largest: seq<Byte>)

  datatype Pointer = Pointer(level: nat, key: seq<Byte>)

  datatype Field =
    | Comparator(name: seq<Byte>)
    | LogNumber(n: nat)
    | PrevLogNumber(n: nat)
    | NextFileNumber(n: nat)
    | LastSequence(n: nat)
    | CompactPointer(pointer: Pointer)
    | Deleted(file: DeletedFile)
    | Added(newFile: NewFile)

  predicate Fits64(n: nat) {
    n < 0x1_0000_0000_0000_0000
  }

  predicate Fits32(s: seq<Byte>) {
    |s| < 0x1_0000_0000
  }

  /** What has to hold of a field so that it can be read back: widths as stored, and levels that exist. */
  predicate Encodable(f: Field) {
    match f
    case Comparator(name) => Fits32(name)
    case LogNumber(n) => Fits64(n)
    case PrevLogNumber(n) => Fits64(n)
    case NextFileNumber(n) => Fits64(n)
    case LastSequence(n) => Fits64(n)
    case CompactPointer(p) => p.level < Versions.NUM_LEVELS && Fits32(p.key)
    case Deleted(d) => d.level < Versions.NUM_LEVELS && Fits64(d.number)
    case Added(a) => a.level < Versions.NUM_LEVELS && Fits64(a.number) && Fits64(a.size) && Fits32(a.smallest) && Fits32(a.largest)
  }

  function TagOf(f: Field): Byte {
    match f
    case Comparator(_) => 1
    case LogNumber(_) => 2
    case NextFileNumber(_) => 3
    case LastSequence(_) => 4
    case CompactPointer(_) => 5
    case Deleted(_) => 6
    case Added(_) => 7
    case PrevLogNumber(_) => 9
  }

  function Body(f: Field): seq<Byte> {
    match f
    case Comparator(name) => Prefixed(name)
    case LogNumber(n) => Varint(n)
    case NextFileNumber(n) => Varint(n)
    case LastSequence(n) => Varint(n)
    case PrevLogNumber(n) => Varint(n)
    case CompactPointer(p) => Varint(p.level) + Prefixed(p.key)
    case Deleted(d) => Varint(d.level) + Varint(d.number)
    case Added(a) => Varint(a.level) + Varint(a.number) + Varint(a.size) + Prefixed(a.smallest) + Prefixed(a.largest)
  }

  function EncodeField(f: Field): seq<Byte> {
    Varint(TagOf(f)) + Body(f)
  }

  /** GetLevel: a 32-bit varint that is one of the levels. */
  function ParseLevel(input: seq<Byte>): Parsed<nat> {
    var level := ParseVarint(input, 0);
    if level.Failed? || level.value >= Versions.NUM_LEVELS then Failed else level
  }

  function ParseNumber(tag: nat, input: seq<Byte>): Parsed<Field>
    requires tag in {2, 3, 4, 9}
  {
    var n := ParseVarint64(input, 0);
    if n.Failed? then Failed
    else Parsed(NumberField(tag, n.value), n.rest)
  }

  function ParsePointer(input: seq<Byte>): Parsed<Field> {
    var level := ParseLevel(input);
    if level.Failed? then Failed
    else
      var key := ParsePrefixed(level.rest);
      if key.Failed? then Failed else Parsed(CompactPointer(Pointer(level.value, key.value)), key.rest)
  }

  function ParseDeleted(input: seq<Byte>): Parsed<Field> {
    var level := ParseLevel(input);
    if level.Failed? then Failed
    else
      var number := ParseVarint64(level.rest, 0);
      if number.Failed? then Failed else Parsed(Deleted(DeletedFile(level.value, number.value)), number.rest)
  }

  function ParseAdded(input: seq<Byte>): Parsed<Field> {
    var level := ParseLevel(input);
    if level.Failed? then Failed
    else
      var number := ParseVarint64(level.rest, 0);
      if number.Failed? then Failed
      else
        var size := ParseVarint64(number.rest, 0);
        if size.Failed? then Failed
        else
          var smallest := ParsePrefixed(size.rest);
          if smallest.Failed? then Failed
          else
            var largest := ParsePrefixed(smallest.rest);
            if largest.Failed? then Failed
            else Parsed(Added(NewFile(level.value, number.value, size.value, smallest.value, largest.value)), largest.rest)
  }

  function ParseBody(tag: nat, input: seq<Byte>): Parsed<Field> {
    if tag == 1 then
      var name := ParsePrefixed(input);
      if name.Failed? then Failed else Parsed(Comparator(name.value), name.rest)
    else if tag in {2, 3, 4, 9} then ParseNumber(tag, input)
    else if tag == 5 then ParsePointer(input)
    else if tag == 6 then ParseDeleted(input)
    else if tag == 7 then ParseAdded(input)
    else Failed
  }

  function ParseField(input: seq<Byte>): Parsed<Field> {
    var tag := ParseVarint(input, 0);
    if tag.Failed? then Failed else ParseBody(tag.value, tag.rest)
  }

  // The bytes of each field where every number takes one byte: its tag, then its parts in this order.

  lemma NameBytes(a: seq<Byte>)
    requires |a| < 128
    ensures EncodeField(Comparator(a)) == [1, |a|] + a
  {
    OneByte(|a|);
  }

  lemma PointerBytes(level: nat, a: seq<Byte>)
    requires level < 128 && |a| < 128
    ensures EncodeField(CompactPointer(Pointer(level, a))) == [5, level, |a|] + a
  {
    OneByte(level);
    OneByte(|a|);
  }

  lemma DeletedBytes(level: nat, n: nat)
    requires level < 128 && n < 128
    ensures EncodeField(Deleted(DeletedFile(level, n))) == [6, level, n]
  {
    OneByte(level);
    OneByte(n);
  }

  lemma CounterBytes(n: nat)
    requires n < 128
    ensures EncodeField(LogNumber(n)) == [2, n] && EncodeField(PrevLogNumber(n)) == [9, n]
    ensures EncodeField(NextFileNumber(n)) == [3, n] && EncodeField(LastSequence(n)) == [4, n]
  {
    OneByte(n);
  }

  lemma AddedBytes(n: nat, level: nat, size: nat, a: seq<Byte>, b: seq<Byte>)
    requires n < 128 && level < 128 && size < 128 && |a| < 128 && |b| < 128
    ensures EncodeField(Added(NewFile(level, n, size, a, b))) == [7, level, n, size, |a|] + a + [|b|] + b
  {
    OneByte(level);
    OneByte(n);
    OneByte(size);
    OneByte(|a|);
    OneByte(|b|);
    assert [level] + [n] + [size] + ([|a|] + a) + ([|b|] + b) == [level, n, size, |a|] + a + [|b|] + b;
    assert [7] + ([level, n, size, |a|] + a + [|b|] + b) == [7, level, n, size, |a|] + a + [|b|] + b;
  }

  lemma OneByte(n: nat)
    requires n < 128
    ensures Varint(n) == [n]
  {
  }

  /** There are levels 0 to 6. */
  lemma LevelRefused(level: nat, rest: seq<Byte>)
    requires level < 0x1_0000_0000
    ensures ParseLevel(Varint(level) + rest) == if level <= 6 then Parsed(level, rest) else Failed
  {
    VarintParses(level, rest, 0);
  }

  /** Tags are 1 to 7 and 9. */
  lemma TagRefused(tag: nat, rest: seq<Byte>)
    requires tag < 0x1_0000_0000 && (tag == 0 || tag == 8 || tag > 9)
    ensures ParseField(Varint(tag) + rest).Failed? && Complaint(Varint(tag) + rest) == "unknown tag"
  {
    VarintParses(tag, rest, 0);
  }

  /** What is said about the field that cannot be read. */
  function Complaint(input: seq<Byte>): string {
    var tag := ParseVarint(input, 0);
    if tag.Failed? then "invalid tag"
    else if tag.value == 1 then "comparator name"
    else if tag.value == 2 then "log number"
    else if tag.value == 9 then "previous log number"
    else if tag.value == 3 then "next file number"
    else if tag.value == 4 then "last sequence number"
    else if tag.value == 5 then "compaction pointer"
    else if tag.value == 6 then "deleted file"
    else if tag.value == 7 then "new-file entry"
    else "unknown tag"
  }

  // ---------------------------------------------------------------------------------------------
  // A field reads back
  // ---------------------------------------------------------------------------------------------

  lemma LevelParses(level: nat, rest: seq<Byte>)
    requires level < Versions.NUM_LEVELS
    ensures ParseLevel(Varint(level) + rest) == Parsed(level, rest)
  {
    VarintParses(level, rest, 0);
  }

  lemma PointerParses(p: Pointer, rest: seq<Byte>)
    requires Encodable(CompactPointer(p))
    ensures ParseBody(5, Body(CompactPointer(p)) + rest) == Parsed(CompactPointer(p), rest)
  {
    LevelParses(p.level, Prefixed(p.key) + rest);
    PrefixedRoundTrip(p.key, rest);
    assert Body(CompactPointer(p)) + rest == Varint(p.level) + (Prefixed(p.key) + rest);
  }

  lemma DeletedParses(d: DeletedFile, rest: seq<Byte>)
    requires Encodable(Deleted(d))
    ensures ParseBody(6, Body(Deleted(d)) + rest) == Parsed(Deleted(d), rest)
  {
    LevelParses(d.level, Varint(d.number) + rest);
    Varint64Parses(d.number, rest, 0);
    assert Body(Deleted(d)) + rest == Varint(d.level) + (Varint(d.number) + rest);
  }

  lemma FiveParts(a: seq<Byte>, b: seq<Byte>, c: seq<Byte>, d: seq<Byte>, e: seq<Byte>, rest: seq<Byte>)
    ensures a + b + c + d + e + rest == a + (b + (c + (d + (e + rest))))
  {
  }

  lemma AddedParses(a: NewFile, rest: seq<Byte>)
    requires Encodable(Added(a))
    ensures ParseBody(7, Body(Added(a)) + rest) == Parsed(Added(a), rest)
  {
    var input := Body(Added(a)) + rest;
    NewFileParses(a, rest);
    TagSeven(input);
  }

  lemma TagSeven(input: seq<Byte>)
    ensures ParseBody(7, input) == ParseAdded(input)
  {
  }

  lemma NewFileParses(a: NewFile, rest: seq<Byte>)
    requires Encodable(Added(a))
    ensures ParseAdded(Body(Added(a)) + rest) == Parsed(Added(a), rest)
  {
    var largest := Prefixed(a.largest) + rest;
    var smallest := Prefixed(a.smallest) + largest;
    var size := Varint(a.size) + smallest;
    var number := Varint(a.number) + size;
    LevelParses(a.level, number);
    Varint64Parses(a.number, size, 0);
    Varint64Parses(a.size, smallest, 0);
    PrefixedRoundTrip(a.smallest, largest);
    PrefixedRoundTrip(a.largest, rest);
    FiveParts(Varint(a.level), Varint(a.number), Varint(a.size), Prefixed(a.smallest), Prefixed(a.largest), rest);
  }

  lemma NameParses(name: seq<Byte>, rest: seq<Byte>)
    requires Fits32(name)
    ensures ParseBody(1, Prefixed(name) + rest) == Parsed(Comparator(name), rest)
  {
    PrefixedRoundTrip(name, rest);
  }

  lemma NumberParses(tag: nat, n: nat, rest: seq<Byte>)
    requires tag in {2, 3, 4, 9} && Fits64(n)
    ensures ParseBody(tag, Varint(n) + rest) == Parsed(NumberField(tag, n), rest)
  {
    Varint64Parses(n, rest, 0);
  }

  lemma BodyParses(f: Field, rest: seq<Byte>)
    requires Encodable(f)
    ensures ParseBody(TagOf(f), Body(f) + rest) == Parsed(f, rest)
  {
    match f
    case Comparator(name) => NameParses(name, rest);
    case LogNumber(n) => NumberParses(2, n, rest);
    case NextFileNumber(n) => NumberParses(3, n, rest);
    case LastSequence(n) => NumberParses(4, n, rest);
    case PrevLogNumber(n) => NumberParses(9, n, rest);
    case CompactPointer(p) => PointerParses(p, rest);
    case Deleted(d) => DeletedParses(d, rest);
    case Added(a) => AddedParses(a, rest);
  }

  lemma FieldParses(f: Field, rest: seq<Byte>)
    requires Encodable(f)
    ensures Undoes(EncodeField, ParseField, f, rest)
  {
    VarintParses(TagOf(f), Body(f) + rest, 0);
    assert EncodeField(f) + rest == Varint(TagOf(f)) + (Body(f) + rest);
    BodyParses(f, rest);
  }

  // ---------------------------------------------------------------------------------------------
  // Edits
  // ---------------------------------------------------------------------------------------------

  /** `deleted` is a std::set of pairs: strictly ascending. */
  datatype Edit = Edit(
    comparator: Maybe<seq<Byte>>,
    logNumber: Maybe<nat>,
    prevLogNumber: Maybe<nat>,
    nextFile: Maybe<nat>,
    lastSequence: Maybe<nat>,
    pointers: seq<Pointer>,
    deleted: seq<DeletedFile>,
    added: seq<NewFile>
  )

  predicate Before(a: DeletedFile, b: DeletedFile) {
    a.level < b.level || (a.level == b.level && a.number < b.number)
  }

  predicate Ascending(s: seq<DeletedFile>) {
    forall i, j :: 0 <= i < j < |s| ==> Before(s[i], s[j])
  }

  function Include(s: seq<DeletedFile>, d: DeletedFile): seq<DeletedFile> {
    if s == [] || Before(s[|s| - 1], d) then s + [d]
    else if s[|s| - 1] == d then s
    else Include(s[..|s| - 1], d) + [s[|s| - 1]]
  }

  function Names(m: Maybe<seq<Byte>>): seq<Field> {
    if m.Just? then [Comparator(m.value)] else []
  }

  /** One of the four counters, if it is set; `tag` says which. */
  function Counter(m: Maybe<nat>, tag: nat): seq<Field> {
    if m.Just? then [NumberField(tag, m.value)] else []
  }

  function NumberField(tag: nat, n: nat): Field {
    if tag == 2 then LogNumber(n) else if tag == 3 then NextFileNumber(n) else if tag == 4 then LastSequence(n) else PrevLogNumber(n)
  }

  function Counters(e: Edit): seq<Field> {
    Names(e.comparator) + Counter(e.logNumber, 2) + Counter(e.prevLogNumber, 9) + Counter(e.nextFile, 3) + Counter(e.lastSequence, 4)
  }

  function Each<T>(xs: seq<T>, field: T -> Field): seq<Field> {
    seq(|xs|, i requires 0 <= i < |xs| => field(xs[i]))
  }

  /** The fields of an edit in the order in which they are written. */
  function Fields(e: Edit): seq<Field> {
    Counters(e) + Each(e.pointers, p => CompactPointer(p)) + Each(e.deleted, d => Deleted(d)) + Each(e.added, a => Added(a))
  }

  function Encode(e: Edit): seq<Byte> {
    EncodeAll(EncodeField, Fields(e))
  }

  /** What reading one field does to the edit. */
  function Take(e: Edit, f: Field): Edit {
    match f
    case Comparator(name) => e.(comparator := Just(name))
    case LogNumber(n) => e.(logNumber := Just(n))
    case PrevLogNumber(n) => e.(prevLogNumber := Just(n))
    case NextFileNumber(n) => e.(nextFile := Just(n))
    case LastSequence(n) => e.(lastSequence := Just(n))
    case CompactPointer(p) => e.(pointers := e.pointers + [p])
    case Deleted(d) => e.(deleted := Include(e.deleted, d))
    case Added(a) => e.(added := e.added + [a])
  }

  function TakeAll(e: Edit, fs: seq<Field>): Edit {
    if fs == [] then e else Take(TakeAll(e, fs[..|fs| - 1]), fs[|fs| - 1])
  }

  /** Clear leaves the compaction pointers as they are. */
  function Cleared(e: Edit): Edit {
    Edit(Nothing, Nothing, Nothing, Nothing, Nothing, e.pointers, [], [])
  }

  datatype Status = Ok | Corruption(message: string)

  /** Reading `input` into an edit that holds `e`. */
  function Decode(e: Edit, input: seq<Byte>): (Edit, Status) {
    var parsed := ParseAll(ParseField, input, []);
    (TakeAll(Cleared(e), parsed.0), if parsed.1 == [] then Ok else Corruption(Complaint(parsed.1)))
  }

  predicate EditEncodable(e: Edit) {
    Ascending(e.deleted) && forall f :: f in Fields(e) ==> Encodable(f)
  }

  lemma {:induction false} TakeConcat(e: Edit, a: seq<Field>, b: seq<Field>)
    ensures TakeAll(e, a + b) == TakeAll(TakeAll(e, a), b)
    decreases |b|
  {
    if b == [] {
      assert a + b == a;
    } else {
      assert (a + b)[..|a + b| - 1] == a + b[..|b| - 1];
      TakeConcat(e, a, b[..|b| - 1]);
    }
  }

  lemma TakeOne(e: Edit, f: Field)
    ensures TakeAll(e, [f]) == Take(e, f)
  {
    assert [f][..0] == [];
  }

  lemma {:induction false} TakePointers(e: Edit, ps: seq<Pointer>)
    ensures TakeAll(e, Each(ps, p => CompactPointer(p))) == e.(pointers := e.pointers + ps)
    decreases |ps|
  {
    if ps == [] {
      assert e.pointers + ps == e.pointers;
    } else {
      var n := |ps| - 1;
      TakePointers(e, ps[..n]);
      assert Each(ps, p => CompactPointer(p))[..n] == Each(ps[..n], p => CompactPointer(p));
      assert e.pointers + ps[..n] + [ps[n]] == e.pointers + ps;
    }
  }

  lemma {:induction false} TakeAdded(e: Edit, files: seq<NewFile>)
    ensures TakeAll(e, Each(files, a => Added(a))) == e.(added := e.added + files)
    decreases |files|
  {
    if files == [] {
      assert e.added + files == e.added;
    } else {
      var n := |files| - 1;
      TakeAdded(e, files[..n]);
      assert Each(files, a => Added(a))[..n] == Each(files[..n], a => Added(a));
      assert e.added + files[..n] + [files[n]] == e.added + files;
    }
  }

  /** A set that is written in its own order is read back as it was. */
  lemma {:induction false} TakeDeleted(e: Edit, files: seq<DeletedFile>)
    requires e.deleted == [] && Ascending(files)
    ensures TakeAll(e, Each(files, d => Deleted(d))) == e.(deleted := files)
    decreases |files|
  {
    if files != [] {
      var n := |files| - 1;
      TakeDeleted(e, files[..n]);
      assert Each(files, d => Deleted(d))[..n] == Each(files[..n], d => Deleted(d));
      assert n > 0 ==> Before(files[n - 1], files[n]);
      assert files[..n] + [files[n]] == files;
    }
  }

  lemma TakeCounter(before: Edit, done: seq<Field>, e: Edit, m: Maybe<nat>, tag: nat)
    requires TakeAll(before, done) == e
    ensures TakeAll(before, done + Counter(m, tag)) == if m.Just? then Take(e, NumberField(tag, m.value)) else e
  {
    TakeConcat(before, done, Counter(m, tag));
    if m.Just? {
      TakeOne(e, NumberField(tag, m.value));
    }
  }

  lemma TakeName(before: Edit, m: Maybe<seq<Byte>>)
    ensures TakeAll(before, Names(m)) == if m.Just? then before.(comparator := m) else before
  {
    if m.Just? {
      TakeOne(before, Comparator(m.value));
    }
  }

  lemma TakeCounters(before: Edit, e: Edit)
    requires before == Cleared(before)
    ensures TakeAll(before, Counters(e)) ==
            Edit(e.comparator, e.logNumber, e.prevLogNumber, e.nextFile, e.lastSequence, before.pointers, [], [])
  {
    var e1 := before.(comparator := e.comparator);
    var e2 := e1.(logNumber := e.logNumber);
    var e3 := e2.(prevLogNumber := e.prevLogNumber);
    var e4 := e3.(nextFile := e.nextFile);
    var done := Names(e.comparator);
    TakeName(before, e.comparator);
    TakeCounter(before, done, e1, e.logNumber, 2);
    done := done + Counter(e.logNumber, 2);
    TakeCounter(before, done, e2, e.prevLogNumber, 9);
    done := done + Counter(e.prevLogNumber, 9);
    TakeCounter(before, done, e3, e.nextFile, 3);
    done := done + Counter(e.nextFile, 3);
    TakeCounter(before, done, e4, e.lastSequence, 4);
  }

  lemma TakeParts(e: Edit, a: seq<Field>, b: seq<Field>, c: seq<Field>, d: seq<Field>)
    ensures TakeAll(e, a + b + c + d) == TakeAll(TakeAll(TakeAll(TakeAll(e, a), b), c), d)
  {
    TakeConcat(e, a, b);
    TakeConcat(e, a + b, c);
    TakeConcat(e, a + b + c, d);
  }

  lemma TakeFields(before: Edit, e: Edit)
    requires before == Cleared(before) && Ascending(e.deleted)
    ensures TakeAll(before, Fields(e)) == e.(pointers := before.pointers + e.pointers)
  {
    var ps, ds, adds := Each(e.pointers, p => CompactPointer(p)), Each(e.deleted, d => Deleted(d)), Each(e.added, a => Added(a));
    TakeCounters(before, e);
    var e1 := TakeAll(before, Counters(e));
    TakePointers(e1, e.pointers);
    var e2 := e1.(pointers := e1.pointers + e.pointers);
    TakeDeleted(e2, e.deleted);
    var e3 := e2.(deleted := e.deleted);
    TakeAdded(e3, e.added);
    TakeParts(before, Counters(e), ps, ds, adds);
    assert [] + e.added == e.added;
  }

  /** Decoding undoes encoding, but for the compaction pointers, which are added to those the edit has already. */
  lemma DecodeEncoded(before: Edit, e: Edit)
    requires EditEncodable(e)
    ensures Decode(before, Encode(e)) == (e.(pointers := before.pointers + e.pointers), Ok)
  {
    var fs := Fields(e);
    forall i, rest | 0 <= i < |fs| ensures Undoes(EncodeField, ParseField, fs[i], rest) {
      FieldParses(fs[i], rest);
    }
    ParseAllEncoded(EncodeField, ParseField, fs, []);
    assert [] + fs == fs;
    TakeFields(Cleared(before), e);
  }

  /** So an edit reads back as it was exactly if it is read into one that has no compaction pointers. */
  lemma RoundTripIff(before: Edit, e: Edit)
    requires EditEncodable(e)
    ensures Decode(before, Encode(e)) == (e, Ok) <==> before.pointers == []
  {
    DecodeEncoded(before, e);
    if before.pointers == [] {
      assert [] + e.pointers == e.pointers;
    } else {
      assert |before.pointers + e.pointers| != |e.pointers|;
    }
  }

  /** Different edits have different bytes. */
  lemma EncodeInjective(a: Edit, b: Edit)
    requires EditEncodable(a) && EditEncodable(b) && Encode(a) == Encode(b)
    ensures a == b
  {
    var unset := Edit(Nothing, Nothing, Nothing, Nothing, Nothing, [], [], []);
    RoundTripIff(unset, a);
    RoundTripIff(unset, b);
  }

  // ---------------------------------------------------------------------------------------------
  // The class
  // ---------------------------------------------------------------------------------------------

  class VersionEdit {
    var edit: Edit

    constructor ()
      ensures edit == Edit(Nothing, Nothing, Nothing, Nothing, Nothing, [], [], [])
    {
      edit := Edit(Nothing, Nothing, Nothing, Nothing, Nothing, [], [], []);
    }

    method Clear()
      modifies this
      ensures edit == Cleared(old(edit))
    {
      edit := edit.(comparator := Nothing, logNumber := Nothing, prevLogNumber := Nothing, nextFile := Nothing,
                    lastSequence := Nothing, deleted := [], added := []);
    }

    /** The counters that are set, then the pointers, the deleted files in their order, and the new files. */
    method EncodeTo() returns (dst: seq<Byte>)
      ensures dst == Encode(edit)
    {
      ghost var cs := Counters(edit);
      ghost var ps, ds, adds := Each(edit.pointers, p => CompactPointer(p)), Each(edit.deleted, d => Deleted(d)), Each(edit.added, a => Added(a));
      dst := EncodeCounters();
      var more := EncodeEach(edit.pointers, p => CompactPointer(p));
      EncodeAllConcat(EncodeField, cs, ps);
      dst := dst + more;
      more := EncodeEach(edit.deleted, d => Deleted(d));
      EncodeAllConcat(EncodeField, cs + ps, ds);
      dst := dst + more;
      more := EncodeEach(edit.added, a => Added(a));
      EncodeAllConcat(EncodeField, cs + ps + ds, adds);
      dst := dst + more;
    }

    method EncodeCounters() returns (dst: seq<Byte>)
      ensures dst == EncodeAll(EncodeField, Counters(edit))
    {
      dst := [];
      ghost var done := Names(edit.comparator);
      if edit.comparator.Just? {
        EncodeOne(EncodeField, Comparator(edit.comparator.value));
        dst := PutField(Comparator(edit.comparator.value));
      }
      dst := EncodeCounter(dst, done, edit.logNumber, 2);
      done := done + Counter(edit.logNumber, 2);
      dst := EncodeCounter(dst, done, edit.prevLogNumber, 9);
      done := done + Counter(edit.prevLogNumber, 9);
      dst := EncodeCounter(dst, done, edit.nextFile, 3);
      done := done + Counter(edit.nextFile, 3);
      dst := EncodeCounter(dst, done, edit.lastSequence, 4);
    }

    /** The loop over the fields; each goes to its place as it is read. */
    method DecodeFrom(src: seq<Byte>) returns (status: Status)
      modifies this
      ensures (edit, status) == Decode(old(edit), src)
    {
      Clear();
      var input := src;
      ghost var seen: seq<Field> := [];
      while input != []
        invariant Same(ParseAll(ParseField, src, []), ParseAll(ParseField, input, seen))
        invariant edit == TakeAll(Cleared(old(edit)), seen)
        decreases |input|
      {
        var field := ParseField(input);
        if field.Failed? {
          return Corruption(Complaint(input));
        }
        FieldShorter(input);
        assert (seen + [field.value])[..|seen|] == seen;
        edit := Take(edit, field.value);
        seen := seen + [field.value];
        input := field.rest;
      }
      status := Ok;
    }
  }

  /** The tag and, for counters, file numbers and sizes, their varints. */
  method PutField(f: Field) returns (b: seq<Byte>)
    ensures b == EncodeField(f)
  {
    var tag := EncodeVarint32(TagOf(f));
    var body;
    match f {
      case Comparator(name) => body := Prefixed(name);
      case LogNumber(n) => body := EncodeVarint64(n);
      case NextFileNumber(n) => body := EncodeVarint64(n);
      case LastSequence(n) => body := EncodeVarint64(n);
      case PrevLogNumber(n) => body := EncodeVarint64(n);
      case CompactPointer(p) => body := Varint(p.level) + Prefixed(p.key);
      case Deleted(d) =>
        var number := EncodeVarint64(d.number);
        body := Varint(d.level) + number;
      case Added(a) =>
        var number := EncodeVarint64(a.number);
        var size := EncodeVarint64(a.size);
        body := Varint(a.level) + number + size + Prefixed(a.smallest) + Prefixed(a.largest);
    }
    b := tag + body;
  }

  method EncodeCounter(before: seq<Byte>, ghost done: seq<Field>, m: Maybe<nat>, tag: nat) returns (dst: seq<Byte>)
    requires before == EncodeAll(EncodeField, done)
    ensures dst == EncodeAll(EncodeField, done + Counter(m, tag))
  {
    dst := before;
    EncodeAllConcat(EncodeField, done, Counter(m, tag));
    if m.Just? {
      EncodeOne(EncodeField, NumberField(tag, m.value));
      var field := PutField(NumberField(tag, m.value));
      dst := before + field;
    } else {
      assert before + [] == before;
    }
  }

  lemma EachNext<T>(xs: seq<T>, field: T -> Field, i: nat)
    requires i < |xs|
    ensures EncodeAll(EncodeField, Each(xs[..i + 1], field)) == EncodeAll(EncodeField, Each(xs[..i], field)) + EncodeField(field(xs[i]))
  {
    assert Each(xs[..i + 1], field) == Each(xs[..i], field) + [field(xs[i])];
    EncodeAllConcat(EncodeField, Each(xs[..i], field), [field(xs[i])]);
    EncodeOne(EncodeField, field(xs[i]));
  }

  method EncodeEach<T>(xs: seq<T>, field: T -> Field) returns (dst: seq<Byte>)
    ensures dst == EncodeAll(EncodeField, Each(xs, field))
  {
    dst := [];
    for i := 0 to |xs|
      invariant Same(dst, EncodeAll(EncodeField, Each(xs[..i], field)))
    {
      EachNext(xs, field, i);
      var next := PutField(field(xs[i]));
      dst := dst + next;
    }
    assert xs[..|xs|] == xs;
  }

  lemma AddedShorter(input: seq<Byte>)
    ensures var p := ParseAdded(input); p.Parsed? ==> |p.rest| < |input|
  {
    VarintShorter(input, 0);
    var level := ParseLevel(input);
    if level.Parsed? {
      var number := ParseVarint64(level.rest, 0);
      if number.Parsed? {
        var size := ParseVarint64(number.rest, 0);
        if size.Parsed? {
          PrefixedShorter(size.rest);
          var smallest := ParsePrefixed(size.rest);
          if smallest.Parsed? {
            PrefixedShorter(smallest.rest);
          }
        }
      }
    }
  }

  lemma BodyShorter(tag: nat, input: seq<Byte>)
    ensures var p := ParseBody(tag, input); p.Parsed? ==> |p.rest| < |input|
  {
    PrefixedShorter(input);
    VarintShorter(input, 0);
    AddedShorter(input);
    var level := ParseLevel(input);
    if level.Parsed? {
      PrefixedShorter(level.rest);
    }
  }

  lemma FieldShorter(input: seq<Byte>)
    ensures var p := ParseField(input); p.Parsed? ==> |p.rest| < |input|
  {
    VarintShorter(input, 0);
    var tag := ParseVarint(input, 0);
    if tag.Parsed? {
      BodyShorter(tag.value, tag.rest);
    }
  }
}
