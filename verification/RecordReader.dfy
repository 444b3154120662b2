/** Reading a record log: what a reader gets from any file, and from any prefix of what a writer wrote. */
module RecordReader {
  import opened Values
  import opened Coding
  import opened RecordLog

  // ---------------------------------------------------------------------------------------------
  // What a reader finds at a position of a file
  // ---------------------------------------------------------------------------------------------

  datatype Report = Report(bytes: nat, reason: string)

  datatype Fragment =
    | EndOfFile
    | Bad(next: nat, reports: seq<Report>)
    | Fragment(kind: Byte, payload: seq<Byte>, next: nat)

  /** How far the block that holds position `p` reaches in the file. */
  function BlockEnd(file: seq<Byte>, p: nat): (e: nat)
    requires p <= |file|
    ensures p <= e <= |file| && e <= p + Room(p)
    ensures e == |file| || e == p + Room(p)
  {
    if p + Room(p) <= |file| then p + Room(p) else |file|
  }

  function LengthIn(buffer: seq<Byte>): nat
    requires HEADER <= |buffer|
  {
    buffer[4] as int + 0x100 * buffer[5] as int
  }

  predicate ChecksumHolds(crc: Crc, buffer: seq<Byte>)
    requires HEADER <= |buffer| && HEADER + LengthIn(buffer) <= |buffer|
  {
    Unmask(DecodeFixed32(buffer[..4])) == crc(0, buffer[6..HEADER + LengthIn(buffer)])
  }

  /** The reader tells its caller of the end of the file and of a bad record by two more type numbers, so a stored record
      with one of them is taken for that. */
  const EOF_TYPE: Byte := 5
  const BAD_TYPE: Byte := 6

  function Typed(kind: Byte, payload: seq<Byte>, next: nat): Fragment {
    if kind == EOF_TYPE then EndOfFile
    else if kind == BAD_TYPE then Bad(next, [])
    else Fragment(kind, payload, next)
  }

  /** The physical record that starts the buffer; `end` is the position of the end of the buffer. */
  function Parse(crc: Crc, checksum: bool, buffer: seq<Byte>, short: bool, end: nat): (f: Fragment)
    requires HEADER <= |buffer| <= end
    ensures !f.EndOfFile? ==> end - |buffer| < f.next <= end
  {
    var length := LengthIn(buffer);
    if HEADER + length > |buffer| then
      if short then EndOfFile else Bad(end, [Report(|buffer|, "bad record length")])
    else if buffer[6] == ZERO && length == 0 then
      Bad(end, [])
    else if checksum && !ChecksumHolds(crc, buffer) then
      Bad(end, [Report(|buffer|, "checksum mismatch")])
    else
      Typed(buffer[6], buffer[HEADER..HEADER + length], end - |buffer| + HEADER + length)
  }

  /** The physical record at `p`, behind any trailer. The file is known to end where a block is short. */
  function NextFragment(crc: Crc, checksum: bool, file: seq<Byte>, p: nat): (f: Fragment)
    requires p <= |file|
    ensures !f.EndOfFile? ==> p < f.next <= |file|
    decreases |file| - p
  {
    var e := BlockEnd(file, p);
    var short := e < p + Room(p);
    if e - p >= HEADER then Parse(crc, checksum, file[p..e], short, e)
    else if short then EndOfFile
    else NextFragment(crc, checksum, file, e)
  }

  datatype Reading =
    | Finished(reports: seq<Report>)
    | Got(record: seq<Byte>, next: nat, reports: seq<Report>)

  /** What ReadRecord makes of one physical record, given what it has collected. */
  datatype Reaction = Stop(record: seq<Byte>, reports: seq<Report>) | Go(inside: bool, scratch: seq<Byte>, reports: seq<Report>)

  function Unended(inside: bool, scratch: seq<Byte>, reason: string): seq<Report> {
    if inside && scratch != [] then [Report(|scratch|, reason)] else []
  }

  function React(f: Fragment, inside: bool, scratch: seq<Byte>): (r: Reaction)
    requires !f.EndOfFile?
    ensures r.Stop? ==> f.Fragment?
  {
    if f.Bad? then
      if inside then Go(false, [], [Report(|scratch|, "error in middle of record")]) else Go(false, scratch, [])
    else if f.kind == FULL then
      Stop(f.payload, Unended(inside, scratch, "partial record without end(1)"))
    else if f.kind == FIRST then
      Go(true, f.payload, Unended(inside, scratch, "partial record without end(2)"))
    else if f.kind == MIDDLE then
      if inside then Go(true, scratch + f.payload, [])
      else Go(false, scratch, [Report(|f.payload|, "missing start of fragmented record(1)")])
    else if f.kind == LAST then
      if inside then Stop(scratch + f.payload, [])
      else Go(false, scratch, [Report(|f.payload|, "missing start of fragmented record(2)")])
    else
      Go(false, [], [Report(|f.payload| + if inside then |scratch| else 0, "unknown record type")])
  }

  function Dropped(f: Fragment): seq<Report> {
    if f.Bad? then f.reports else []
  }

  /** The logical record whose remaining fragments start at `p`; what is dropped on the way is added to `reports`. */
  function NextRecord(crc: Crc, checksum: bool, file: seq<Byte>, p: nat, inside: bool, scratch: seq<Byte>, reports: seq<Report>)
    : (r: Reading)
    requires p <= |file|
    ensures r.Got? ==> p < r.next <= |file|
    decreases |file| - p
  {
    var f := NextFragment(crc, checksum, file, p);
    if f.EndOfFile? then
      Finished(reports)
    else
      var a := React(f, inside, scratch);
      var reports' := reports + Dropped(f) + a.reports;
      if a.Stop? then Got(a.record, f.next, reports')
      else NextRecord(crc, checksum, file, f.next, a.inside, a.scratch, reports')
  }

  /** Everything a reader gets from `p` to the end of the file, added to what it has. */
  function ReadAll(crc: Crc, checksum: bool, file: seq<Byte>, p: nat, records: seq<seq<Byte>>, reports: seq<Report>)
    : (seq<seq<Byte>>, seq<Report>)
    requires p <= |file|
    decreases |file| - p
  {
    match NextRecord(crc, checksum, file, p, false, [], reports)
    case Finished(reports') => (records, reports')
    case Got(record, next, reports') => ReadAll(crc, checksum, file, next, records + [record], reports')
  }

  // ---------------------------------------------------------------------------------------------
  // The reader
  // ---------------------------------------------------------------------------------------------

  lemma SameBlock(p: nat, q: nat)
    requires p <= q < p + Room(p)
    ensures q + Room(q) == p + Room(p)
  {
    var start := p - p % 32768;
    assert start % 32768 == 0 && start <= q < start + BLOCK;
    assert q % 32768 == q - start;
  }

  lemma InBuffer(crc: Crc, checksum: bool, file: seq<Byte>, p: nat, e: nat, buffer: seq<Byte>, short: bool)
    requires p <= |file| && e == BlockEnd(file, p) && e - p >= HEADER && Same(buffer, file[p..e]) && short == (e < p + Room(p))
    ensures Same(NextFragment(crc, checksum, file, p), Parse(crc, checksum, buffer, short, e))
  {
  }

  /** What one physical record does to the record being put together. */
  lemma RecordStep(crc: Crc, checksum: bool, file: seq<Byte>, p: nat, inside: bool, scratch: seq<Byte>, reports: seq<Report>, f: Fragment)
    requires p <= |file| && Same(f, NextFragment(crc, checksum, file, p))
    ensures f.EndOfFile? ==> Same(NextRecord(crc, checksum, file, p, inside, scratch, reports), Finished(reports))
    ensures !f.EndOfFile? ==>
              var a := React(f, inside, scratch);
              if a.Stop? then
                Same(NextRecord(crc, checksum, file, p, inside, scratch, reports), Got(a.record, f.next, reports + Dropped(f) + a.reports))
              else
                Same(NextRecord(crc, checksum, file, p, inside, scratch, reports),
                     NextRecord(crc, checksum, file, f.next, a.inside, a.scratch, reports + Dropped(f) + a.reports))
  {
  }

  datatype Turn = End | Whole(record: seq<Byte>) | Part(inside: bool, scratch: seq<Byte>)

  lemma Cleared(file: seq<Byte>, p: nat)
    requires p <= |file|
    ensures Same([], file[p..p])
  {
    assert file[p..p] == [];
  }

  class Reader {
    const crc: Crc
    const checksum: bool
    const file: seq<Byte>
    /** How much of the file has been read into the buffer. */
    var consumed: nat
    var buffer: seq<Byte>
    var eof: bool
    var reports: seq<Report>

    ghost predicate Valid()
      reads this
    {
      && |buffer| <= consumed <= |file| && Same(buffer, file[consumed - |buffer|..consumed])
      && (if eof then consumed == |file| else consumed % 32768 == 0)
      && (buffer != [] ==> consumed == BlockEnd(file, Position()))
      && (buffer != [] && eof ==> consumed < Position() + Room(Position()))
      && (buffer != [] && !eof ==> consumed == Position() + Room(Position()))
    }

    ghost function Position(): nat
      reads this
      requires |buffer| <= consumed
    {
      consumed - |buffer|
    }

    constructor (crc: Crc, file: seq<Byte>, checksum: bool)
      ensures Valid() && Position() == 0 && reports == []
      ensures this.crc == crc && this.checksum == checksum && this.file == file
    {
      this.crc := crc;
      this.checksum := checksum;
      this.file := file;
      consumed, buffer, eof, reports := 0, [], false, [];
    }

    method ReadPhysicalRecord() returns (f: Fragment)
      requires Valid()
      modifies this
      ensures Valid() && Same(f, NextFragment(crc, checksum, file, old(Position())))
      ensures !f.EndOfFile? ==> Position() == f.next
      ensures Same(reports, old(reports) + Dropped(f))
    {
      ghost var goal := NextFragment(crc, checksum, file, Position());
      assert reports + [] == reports;
      while |buffer| < HEADER
        invariant Valid() && reports == old(reports)
        invariant Same(goal, NextFragment(crc, checksum, file, Position()))
        decreases |file| - consumed, !eof
      {
        if eof {
          Cleared(file, consumed);
          buffer := [];
          return EndOfFile;
        }
        ReadBlock();
      }
      InBuffer(crc, checksum, file, Position(), consumed, buffer, eof);
      f := ParseRecord();
    }

    /** Drops a trailer and reads the next block; a short read is the end of the file. */
    method ReadBlock()
      requires Valid() && !eof && |buffer| < HEADER
      modifies this
      ensures Valid() && reports == old(reports) && old(consumed) <= consumed && (consumed == old(consumed) ==> eof)
      ensures Same(NextFragment(crc, checksum, file, Position()), NextFragment(crc, checksum, file, old(Position())))
    {
      var n := if |file| - consumed < BLOCK then |file| - consumed else BLOCK;
      buffer := file[consumed..consumed + n];
      consumed := consumed + n;
      if |buffer| < BLOCK {
        eof := true;
      }
    }

    method ParseRecord() returns (f: Fragment)
      requires Valid() && |buffer| >= HEADER
      modifies this
      ensures Valid() && Same(f, Parse(crc, checksum, old(buffer), old(eof), old(consumed)))
      ensures !f.EndOfFile? ==> Position() == f.next
      ensures Same(reports, old(reports) + Dropped(f))
    {
      Cleared(file, consumed);
      assert reports + [] == reports;
      var header := buffer;
      var length := header[4] as int + 0x100 * header[5] as int;
      var kind := header[6];
      if HEADER + length > |buffer| {
        var dropped := |buffer|;
        buffer := [];
        if !eof {
          f := Bad(consumed, [Report(dropped, "bad record length")]);
          reports := reports + f.reports;
          return;
        }
        return EndOfFile;
      }
      if kind == ZERO && length == 0 {
        buffer := [];
        return Bad(consumed, []);
      }
      if checksum {
        var expected := Unmask(DecodeFixed32(header[..4]));
        var actual := crc(0, header[6..HEADER + length]);
        if actual != expected {
          f := Bad(consumed, [Report(|buffer|, "checksum mismatch")]);
          buffer := [];
          reports := reports + f.reports;
          return;
        }
      }
      RemovePrefix(HEADER + length);
      f := Typed(kind, header[HEADER..HEADER + length], consumed - |buffer|);
    }

    /** Puts a logical record together; what is dropped on the way is reported. */
    method ReadRecord() returns (ok: bool, record: seq<Byte>)
      requires Valid()
      modifies this
      ensures Valid()
      ensures NextRecord(crc, checksum, file, old(Position()), false, [], old(reports)) ==
              if ok then Got(record, Position(), reports) else Finished(reports)
    {
      var scratch, inside := [], false;
      ghost var goal := NextRecord(crc, checksum, file, Position(), false, [], reports);
      while true
        invariant Valid()
        invariant Same(goal, NextRecord(crc, checksum, file, Position(), inside, scratch, reports))
        decreases |file| - Position()
      {
        var turn := ReadTurn(goal, inside, scratch);
        match turn {
          case End => return false, [];
          case Whole(all) => return true, all;
          case Part(i, s) => inside, scratch := i, s;
        }
      }
    }

    /** One turn of the loop. */
    method ReadTurn(ghost goal: Reading, inside: bool, scratch: seq<Byte>) returns (turn: Turn)
      requires Valid() && Same(goal, NextRecord(crc, checksum, file, Position(), inside, scratch, reports))
      modifies this
      ensures Valid()
      ensures turn.End? ==> Same(goal, Finished(reports))
      ensures turn.Whole? ==> Same(goal, Got(turn.record, Position(), reports))
      ensures turn.Part? ==>
                old(Position()) < Position() &&
                Same(goal, NextRecord(crc, checksum, file, Position(), turn.inside, turn.scratch, reports))
    {
      ghost var p, before := Position(), reports;
      var f := ReadPhysicalRecord();
      RecordStep(crc, checksum, file, p, inside, scratch, before, f);
      if f.EndOfFile? {
        assert before + [] == before;
        return End;
      }
      var reaction := React(f, inside, scratch);
      reports := reports + reaction.reports;
      turn := if reaction.Stop? then Whole(reaction.record) else Part(reaction.inside, reaction.scratch);
    }

    method RemovePrefix(n: nat)
      requires Valid() && n <= |buffer|
      modifies this`buffer
      ensures Valid() && buffer == old(buffer)[n..]
    {
      ghost var p := Position();
      assert file[p..consumed][n..] == file[p + n..consumed];
      buffer := buffer[n..];
      if buffer != [] {
        SameBlock(p, p + n);
      }
    }
  }
}
