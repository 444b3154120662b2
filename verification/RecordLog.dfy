/** The record log: its format, and the writer that appends records block by block. */
module RecordLog {
  import opened Values
  import opened Coding

  const BLOCK := 32768
  const HEADER := 7

  // ---------------------------------------------------------------------------------------------
  // Masked checksums
  // ---------------------------------------------------------------------------------------------

  const MASK_DELTA: Word := 0xa282_ead8

  /** Rotation to the right by 15 bits: the two halves of the word change places. */
  function RotateRight15(w: Word): Word {
    var high, low := w / 0x8000, w % 0x8000;
    high + 0x2_0000 * low
  }

  function RotateLeft15(w: Word): Word {
    var high, low := w / 0x2_0000, w % 0x2_0000;
    high + 0x8000 * low
  }

  function Mask(crc: Word): Word {
    (RotateRight15(crc) + MASK_DELTA) % 0x1_0000_0000
  }

  function Unmask(masked: Word): Word {
    RotateLeft15((masked - MASK_DELTA) % 0x1_0000_0000)
  }

  lemma RotateBack(w: Word)
    ensures RotateLeft15(RotateRight15(w)) == w
  {
    var high, low := w / 0x8000, w % 0x8000;
    var r := high + 0x2_0000 * low;
    assert r / 0x2_0000 == low && r % 0x2_0000 == high;
  }

  lemma AddSubtract(w: Word, d: Word)
    ensures ((w + d) % 0x1_0000_0000 - d) % 0x1_0000_0000 == w
  {
    var sum := w + d;
    assert sum % 0x1_0000_0000 == if sum < 0x1_0000_0000 then sum else sum - 0x1_0000_0000;
  }

  lemma UnmaskMask(crc: Word)
    ensures Unmask(Mask(crc)) == crc
  {
    AddSubtract(RotateRight15(crc), MASK_DELTA);
    RotateBack(crc);
  }

  /** Less the constant, a masked checksum has the upper 17 bits below and the lower 15 above. */
  lemma MaskedHalves(crc: Word)
    ensures var r := (Mask(crc) - 0xa282_ead8) % 0x1_0000_0000; r % 0x2_0000 == crc / 0x8000 && r / 0x2_0000 == crc % 0x8000
  {
    AddSubtract(RotateRight15(crc), MASK_DELTA);
    Halves(crc / 0x8000, crc % 0x8000);
  }

  lemma Halves(high: nat, low: nat)
    requires high < 0x2_0000
    ensures (high + 0x2_0000 * low) % 0x2_0000 == high && (high + 0x2_0000 * low) / 0x2_0000 == low
  {
  }

  /** The checksum of a string with known checksum, extended by more data. */
  type Crc = (Word, seq<Byte>) -> Word

  ghost predicate Lawful(crc: Crc) {
    forall a, b {:trigger crc(crc(0, a), b)} :: crc(crc(0, a), b) == crc(0, a + b)
  }

  // ---------------------------------------------------------------------------------------------
  // The format
  // ---------------------------------------------------------------------------------------------

  const ZERO: Byte := 0
  const FULL: Byte := 1
  const FIRST: Byte := 2
  const MIDDLE: Byte := 3
  const LAST: Byte := 4

  /** Bytes from `o` to the end of its block. */
  function Room(o: nat): (r: nat)
    ensures 1 <= r <= BLOCK
  {
    BLOCK - o % 32768
  }

  /** Too little room for a header is filled with zeros. */
  function Pad(o: nat): (p: nat)
    ensures p < HEADER && HEADER <= Room(o + p)
  {
    if Room(o) < HEADER then Room(o) else 0
  }

  function Zeros(n: nat): (z: seq<Byte>)
    ensures |z| == n
  {
    seq(n, _ => 0)
  }

  function TypeOf(begin: bool, end: bool): Byte {
    if begin && end then FULL else if begin then FIRST else if end then LAST else MIDDLE
  }

  function Header(crc: Crc, t: Byte, payload: seq<Byte>): (h: seq<Byte>)
    requires |payload| < 0x1_0000
    ensures |h| == HEADER
  {
    EncodeFixed32(Mask(crc(0, [t] + payload))) + [|payload| % 0x100, |payload| / 0x100, t]
  }

  /** How much of `data` fits behind a header that starts at `o`. */
  function Fit(o: nat, data: seq<Byte>): (n: nat)
    requires HEADER <= Room(o)
    ensures n <= |data| && n + HEADER <= Room(o)
    ensures n < |data| ==> n + HEADER == Room(o)
  {
    if |data| < Room(o) - HEADER then |data| else Room(o) - HEADER
  }

  function Padded(file: seq<Byte>): (r: seq<Byte>)
    ensures |r| == |file| + Pad(|file|)
  {
    file + Zeros(Pad(|file|))
  }

  /** The file with one more physical record. */
  function WithPhysical(crc: Crc, file: seq<Byte>, t: Byte, payload: seq<Byte>): (r: seq<Byte>)
    requires |payload| < 0x1_0000
    ensures |r| == |file| + HEADER + |payload|
  {
    file + Header(crc, t, payload) + payload
  }

  /** The file with the first fragment of what is left of a record. */
  function WithPiece(crc: Crc, file: seq<Byte>, data: seq<Byte>, begin: bool): (r: seq<Byte>)
    ensures |r| == |file| + Pad(|file|) + HEADER + Fit(|file| + Pad(|file|), data)
  {
    var n := Fit(|file| + Pad(|file|), data);
    WithPhysical(crc, Padded(file), TypeOf(begin, n == |data|), data[..n])
  }

  /** The file with all fragments of what is left of a record. */
  function WithData(crc: Crc, file: seq<Byte>, data: seq<Byte>, begin: bool): seq<Byte>
    decreases |data|, if Fit(|file| + Pad(|file|), data) == 0 then 1 else 0
  {
    var n := Fit(|file| + Pad(|file|), data);
    var file' := WithPiece(crc, file, data, begin);
    if n == |data| then file' else WithData(crc, file', data[n..], false)
  }

  /** A fragment that does not end its record fills its block; before a fragment there are at most six zeros to fill one. */
  lemma PieceFillsBlock(crc: Crc, file: seq<Byte>, data: seq<Byte>, begin: bool)
    ensures Fit(|file| + Pad(|file|), data) < |data| ==> |WithPiece(crc, file, data, begin)| % 32768 == 0
    ensures file <= WithPiece(crc, file, data, begin)
    ensures forall i :: |file| <= i < |file| + Pad(|file|) ==> WithPiece(crc, file, data, begin)[i] == 0
    ensures Pad(|file|) <= 6 && (Pad(|file|) > 0 ==> (|file| + Pad(|file|)) % 32768 == 0)
  {
    var o := |file| + Pad(|file|);
    var n := Fit(o, data);
    if n < |data| {
      assert n + HEADER == Room(o);
      BlockEnds(o);
    }
    if Pad(|file|) > 0 {
      BlockEnds(|file|);
    }
  }

  lemma BlockEnds(o: nat)
    ensures (o + Room(o)) % 32768 == 0
  {
    assert o == 32768 * (o / 32768) + o % 32768;
    assert o + Room(o) == 32768 * (o / 32768 + 1);
  }

  function WithRecord(crc: Crc, file: seq<Byte>, record: seq<Byte>): seq<Byte> {
    WithData(crc, file, record, true)
  }

  /** The log of `records`. */
  function Log(crc: Crc, records: seq<seq<Byte>>): seq<Byte> {
    LogTo(crc, records, |records|)
  }

  /** The log of the first `k` records. */
  function LogTo(crc: Crc, records: seq<seq<Byte>>, k: nat): seq<Byte>
    requires k <= |records|
    decreases k
  {
    if k == 0 then [] else WithRecord(crc, LogTo(crc, records, k - 1), records[k - 1])
  }

  // ---------------------------------------------------------------------------------------------
  // The writer
  // ---------------------------------------------------------------------------------------------

  /** The offset kept for a file of length `n`; at the end of a block it may still be that of the full block. */
  predicate OffsetFor(n: nat, offset: nat) {
    offset == n % 32768 || (offset == BLOCK && n % 32768 == 0)
  }

  lemma OffsetAdvances(n: nat, offset: nat, k: nat)
    requires OffsetFor(n, offset) && 0 < k && offset + k <= BLOCK
    ensures OffsetFor(n + k, offset + k)
  {
    var q := n / 32768;
    assert n + k == 32768 * q + (offset + k);
    assert offset + k == BLOCK ==> n + k == 32768 * (q + 1);
  }

  lemma LastPiece(crc: Crc, file: seq<Byte>, data: seq<Byte>, begin: bool)
    requires Fit(|file| + Pad(|file|), data) == |data|
    ensures Same(WithData(crc, file, data, begin), WithPiece(crc, file, data, begin))
  {
  }

  lemma OnePiece(crc: Crc, file: seq<Byte>, data: seq<Byte>, begin: bool)
    requires Fit(|file| + Pad(|file|), data) < |data|
    ensures Same(WithData(crc, file, data, begin),
                 WithData(crc, WithPiece(crc, file, data, begin), data[Fit(|file| + Pad(|file|), data)..], false))
  {
  }

  /** Only a piece that fills up a block can carry no data, and the next one starts a block. */
  lemma NextFits(o: nat, o': nat, data: seq<Byte>)
    requires Fit(o + Pad(o), data) == 0 < |data| && o' == o + Pad(o) + HEADER
    ensures Fit(o' + Pad(o'), data) > 0
  {
    assert o' % 32768 == 0;
  }

  /** The checksum of the type, extended by the payload, is that of both. */
  lemma SameHeader(crc: Crc, t: Byte, payload: seq<Byte>)
    requires Lawful(crc) && |payload| < 0x1_0000
    ensures Same(EncodeFixed32(Mask(crc(crc(0, [t]), payload))) + [|payload| % 0x100, |payload| / 0x100, t], Header(crc, t, payload))
  {
  }

  class Writer {
    const crc: Crc
    const typeCrc: seq<Word>
    var dest: seq<Byte>
    var blockOffset: nat

    ghost predicate Valid()
      reads this
    {
      && Lawful(crc) && OffsetFor(|dest|, blockOffset)
      && |typeCrc| == 5 && forall t: Byte :: t < 5 ==> typeCrc[t] == crc(0, [t])
    }

    /** Opens a file that already holds `dest`; a new file is the case of no bytes. */
    constructor (crc: Crc, dest: seq<Byte>)
      requires Lawful(crc)
      ensures Valid() && this.crc == crc && this.dest == dest
    {
      this.crc := crc;
      this.dest := dest;
      blockOffset := |dest| % 32768;
      typeCrc := seq(5, i requires 0 <= i < 5 => crc(0, [i]));
    }

    /** Fragments a record so that no fragment crosses a block; an empty record still takes one fragment. */
    method AddRecord(record: seq<Byte>)
      requires Valid()
      modifies this
      ensures Valid() && dest == WithRecord(crc, old(dest), record)
    {
      var left := record;
      var begin := true;
      ghost var goal := WithRecord(crc, dest, record);
      while true
        invariant Valid()
        invariant Same(goal, WithData(crc, dest, left, begin))
        decreases |left|, if Fit(|dest| + Pad(|dest|), left) == 0 then 1 else 0
      {
        var length := EmitPiece(left, begin);
        if length == |left| {
          return;
        }
        left := left[length..];
        begin := false;
      }
    }

    /** One turn of the loop: the next fragment, as long as the block allows. */
    method EmitPiece(left: seq<Byte>, begin: bool) returns (length: nat)
      requires Valid()
      modifies this
      ensures Valid() && length == Fit(|old(dest)| + Pad(|old(dest)|), left)
      ensures length == |left| ==> Same(WithData(crc, old(dest), left, begin), dest)
      ensures length < |left| ==> Same(WithData(crc, old(dest), left, begin), WithData(crc, dest, left[length..], false))
      ensures length == 0 < |left| ==> Fit(|dest| + Pad(|dest|), left) > 0
    {
      ghost var before := dest;
      SwitchBlock();
      var avail := BLOCK - blockOffset - HEADER;
      length := if |left| < avail then |left| else avail;
      var end := |left| == length;
      EmitPhysicalRecord(TypeOf(begin, end), left[..length]);
      assert Same(dest, WithPiece(crc, before, left, begin));
      if end {
        LastPiece(crc, before, left, begin);
      } else {
        OnePiece(crc, before, left, begin);
        if length == 0 {
          NextFits(|before|, |dest|, left);
        }
      }
    }

    /** Fills a block that has no room for a header. */
    method SwitchBlock()
      requires Valid()
      modifies this
      ensures Valid() && Same(dest, Padded(old(dest)))
      ensures BLOCK - blockOffset == Room(|dest|)
    {
      var leftover := BLOCK - blockOffset;
      assert leftover == Room(|dest|) || leftover == 0;
      assert dest + Zeros(0) == dest;
      if leftover < HEADER {
        if leftover > 0 {
          dest := dest + Zeros(leftover);
        }
        blockOffset := 0;
      }
    }

    method EmitPhysicalRecord(t: Byte, payload: seq<Byte>)
      requires Valid() && t < 5 && blockOffset + HEADER + |payload| <= BLOCK
      modifies this
      ensures Valid() && Same(dest, WithPhysical(crc, old(dest), t, payload))
    {
      var sum := crc(typeCrc[t], payload);
      var header := EncodeFixed32(Mask(sum)) + [|payload| % 0x100, |payload| / 0x100, t];
      SameHeader(crc, t, payload);
      OffsetAdvances(|dest|, blockOffset, HEADER + |payload|);
      dest := dest + header;
      dest := dest + payload;
      blockOffset := blockOffset + HEADER + |payload|;
    }
  }
}
