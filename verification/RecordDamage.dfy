/** What a reader makes of any bytes, damaged or not: nothing is delivered whose checksum fails, and nothing is lost unseen. */
module RecordDamage {
  import opened Coding
  import opened RecordLog
  import opened RecordReader

  // ---------------------------------------------------------------------------------------------
  // One physical record, byte by byte
  // ---------------------------------------------------------------------------------------------

  /** A fragment as it lies in the file. */
  datatype Piece = Piece(start: nat, kind: Byte, payload: seq<Byte>, next: nat)

  /** Four bytes of checksum, two of length, one of type, then the payload, all in one block of 32 KB. */
  ghost predicate Genuine(crc: Crc, checksum: bool, file: seq<Byte>, p: Piece) {
    && p.start + 7 <= p.next <= |file| && p.start / 32768 == (p.next - 1) / 32768
    && file[p.start + 4] as int + 0x100 * file[p.start + 5] as int == p.next - p.start - 7
    && p.kind == file[p.start + 6] && p.payload == file[p.start + 7..p.next]
    && (checksum ==> Unmask(DecodeFixed32(file[p.start..p.start + 4])) == crc(0, file[p.start + 6..p.next]))
  }

  /** Nothing but the trailer of a block lies in between. */
  predicate Behind(p: nat, q: nat) {
    q == p || (p < q < p + 7 && q % 32768 == 0)
  }

  function Least(a: nat, b: nat): nat {
    if a < b then a else b
  }

  /** Where a header fits into its block and the file: what there is, in terms of the bytes alone. */
  lemma PhysicalCases(crc: Crc, checksum: bool, file: seq<Byte>, q: nat)
    requires q % 32768 <= 32761 && q + 7 <= |file|
    ensures var blockEnd := q - q % 32768 + 32768;
            var e, next := Least(blockEnd, |file|), q + 7 + file[q + 4] as int + 0x100 * file[q + 5] as int;
            var f := NextFragment(crc, checksum, file, q);
            && (next > e && |file| < blockEnd ==> f == EndOfFile)
            && (next > e && |file| >= blockEnd ==> f == Bad(e, [Report(e - q, "bad record length")]))
            && (next == q + 7 <= e && file[q + 6] == 0 ==> f == Bad(e, []))
            && (next <= e && (file[q + 6] != 0 || next > q + 7) ==>
                  if checksum && Unmask(DecodeFixed32(file[q..q + 4])) != crc(0, file[q + 6..next])
                  then f == Bad(e, [Report(e - q, "checksum mismatch")])
                  else if file[q + 6] == 5 then f == EndOfFile
                  else if file[q + 6] == 6 then f == Bad(next, [])
                  else f == Fragment(file[q + 6], file[q + 7..next], next))
  {
    var e := BlockEnd(file, q);
    var buffer := file[q..e];
    assert q - q % 32768 + 32768 == q + Room(q);
    assert forall k :: 0 <= k < |buffer| ==> buffer[k] == file[q + k];
    assert buffer[..4] == file[q..q + 4];
    var next := q + 7 + LengthIn(buffer);
    if next <= e {
      assert buffer[6..next - q] == file[q + 6..next] && buffer[7..next - q] == file[q + 7..next];
    }
  }

  /** Too little room for a header is skipped, and too little file is the end. */
  lemma TrailerCases(crc: Crc, checksum: bool, file: seq<Byte>, p: nat)
    requires p <= |file|
    ensures p % 32768 > 32761 && p - p % 32768 + 32768 <= |file| ==>
              NextFragment(crc, checksum, file, p) == NextFragment(crc, checksum, file, p - p % 32768 + 32768)
    ensures p + 7 > |file| && |file| < p - p % 32768 + 32768 ==> NextFragment(crc, checksum, file, p) == EndOfFile
  {
    assert p - p % 32768 + 32768 == p + Room(p);
  }

  /** A fragment is delivered only if the bytes at its place say so, checksum included. */
  lemma {:induction false} FragmentIsGenuine(crc: Crc, checksum: bool, file: seq<Byte>, p: nat) returns (piece: Piece)
    requires p <= |file| && NextFragment(crc, checksum, file, p).Fragment?
    ensures var f := NextFragment(crc, checksum, file, p);
            f == Fragment(piece.kind, piece.payload, piece.next) && Behind(p, piece.start) && Genuine(crc, checksum, file, piece)
    decreases |file| - p
  {
    if p % 32768 <= 32761 {
      piece := HereIsGenuine(crc, checksum, file, p);
    } else {
      TrailerCases(crc, checksum, file, p);
      TrailerEnds(crc, checksum, file, p);
      piece := FragmentIsGenuine(crc, checksum, file, p - p % 32768 + 32768);
      NextBlock(p);
      assert piece.start == p - p % 32768 + 32768;
    }
  }

  lemma HereIsGenuine(crc: Crc, checksum: bool, file: seq<Byte>, p: nat) returns (piece: Piece)
    requires p <= |file| && p % 32768 <= 32761 && NextFragment(crc, checksum, file, p).Fragment?
    ensures var f := NextFragment(crc, checksum, file, p);
            f == Fragment(piece.kind, piece.payload, piece.next) && piece.start == p && Genuine(crc, checksum, file, piece)
  {
    var f := NextFragment(crc, checksum, file, p);
    ShortOfHeader(crc, checksum, file, p);
    PhysicalCases(crc, checksum, file, p);
    piece := Piece(p, f.kind, f.payload, f.next);
    InOneBlock(p, f.next, p - p % 32768 + 32768);
  }

  lemma TrailerEnds(crc: Crc, checksum: bool, file: seq<Byte>, p: nat)
    requires p <= |file| && p % 32768 > 32761 && !NextFragment(crc, checksum, file, p).EndOfFile?
    ensures p < p - p % 32768 + 32768 <= |file|
  {
    TrailerCases(crc, checksum, file, p);
    assert p - p % 32768 + 32768 == p + Room(p);
  }

  lemma ShortOfHeader(crc: Crc, checksum: bool, file: seq<Byte>, p: nat)
    requires p <= |file| && p % 32768 <= 32761 && !NextFragment(crc, checksum, file, p).EndOfFile?
    ensures p + 7 <= |file|
  {
    TrailerCases(crc, checksum, file, p);
  }

  lemma NextBlock(p: nat)
    ensures (p - p % 32768 + 32768) % 32768 == 0
  {
    assert p == 32768 * (p / 32768) + p % 32768;
    assert p - p % 32768 + 32768 == 32768 * (p / 32768 + 1);
  }

  lemma InOneBlock(p: nat, next: nat, blockEnd: nat)
    requires blockEnd == p - p % 32768 + 32768 && p < next <= blockEnd
    ensures p / 32768 == (next - 1) / 32768
  {
    var b := p / 32768;
    assert p == 32768 * b + p % 32768;
    assert 32768 * b <= next - 1 < 32768 * b + 32768;
  }

  // ---------------------------------------------------------------------------------------------
  // One record
  // ---------------------------------------------------------------------------------------------

  function Joined(pieces: seq<Piece>): seq<Byte> {
    if pieces == [] then [] else Joined(pieces[..|pieces| - 1]) + pieces[|pieces| - 1].payload
  }

  /** Genuine pieces, one right behind the other. */
  ghost predicate Chain(crc: Crc, checksum: bool, file: seq<Byte>, pieces: seq<Piece>) {
    pieces == [] ||
    var init, last := pieces[..|pieces| - 1], pieces[|pieces| - 1];
    && Chain(crc, checksum, file, init) && Genuine(crc, checksum, file, last)
    && (init != [] ==> Behind(init[|init| - 1].next, last.start))
  }

  /** A first fragment and middle ones. */
  predicate Begun(pieces: seq<Piece>) {
    pieces != [] && pieces[0].kind == 2 && forall k :: 1 <= k < |pieces| ==> pieces[k].kind == 3
  }

  /** One full fragment, or a first one, middle ones and a last one. */
  predicate Spelled(pieces: seq<Piece>) {
    || (|pieces| == 1 && pieces[0].kind == 1)
    || (|pieces| >= 2 && Begun(pieces[..|pieces| - 1]) && pieces[|pieces| - 1].kind == 4)
  }

  lemma ChainGrows(crc: Crc, checksum: bool, file: seq<Byte>, pieces: seq<Piece>, piece: Piece)
    requires Chain(crc, checksum, file, pieces) && Genuine(crc, checksum, file, piece)
    requires pieces != [] ==> Behind(pieces[|pieces| - 1].next, piece.start)
    ensures Chain(crc, checksum, file, pieces + [piece]) && Joined(pieces + [piece]) == Joined(pieces) + piece.payload
  {
    assert (pieces + [piece])[..|pieces|] == pieces;
  }

  lemma OnePiece(piece: Piece)
    ensures Joined([piece]) == piece.payload
  {
    assert [piece][..0] == [];
    assert Joined([]) + piece.payload == piece.payload;
  }

  /** The record put together so far is a chain of pieces that ends at `p`. */
  ghost predicate Collected(crc: Crc, checksum: bool, file: seq<Byte>, p: nat, inside: bool, scratch: seq<Byte>, pieces: seq<Piece>) {
    inside ==>
      Chain(crc, checksum, file, pieces) && Begun(pieces) && Joined(pieces) == scratch && pieces[|pieces| - 1].next == p
  }

  /** The record is spelled out by a chain of pieces that ends at `next`. */
  ghost predicate SpellsOut(crc: Crc, checksum: bool, file: seq<Byte>, pieces: seq<Piece>, record: seq<Byte>, next: nat) {
    Chain(crc, checksum, file, pieces) && Spelled(pieces) && Joined(pieces) == record && pieces[|pieces| - 1].next == next
  }

  /** What one fragment makes of it. */
  lemma CollectsOn(crc: Crc, checksum: bool, file: seq<Byte>, p: nat, inside: bool, scratch: seq<Byte>, pieces: seq<Piece>)
    returns (more: seq<Piece>)
    requires p <= |file| && Collected(crc, checksum, file, p, inside, scratch, pieces)
    requires !NextFragment(crc, checksum, file, p).EndOfFile?
    ensures var f := NextFragment(crc, checksum, file, p);
            var a := React(f, inside, scratch);
            if a.Stop? then SpellsOut(crc, checksum, file, more, a.record, f.next)
            else Collected(crc, checksum, file, f.next, a.inside, a.scratch, more)
  {
    var f := NextFragment(crc, checksum, file, p);
    var a := React(f, inside, scratch);
    more := [];
    if f.Fragment? {
      var piece := FragmentIsGenuine(crc, checksum, file, p);
      if f.kind == FULL || f.kind == FIRST {
        more := [piece];
        OnePiece(piece);
      } else if inside && (f.kind == MIDDLE || f.kind == LAST) {
        more := pieces + [piece];
        ChainGrows(crc, checksum, file, pieces, piece);
        assert more[..|more| - 1] == pieces;
      }
    }
  }

  /** Every record the reader returns is spelled out in the file by adjacent fragments whose checksums hold. */
  lemma {:induction false} RecordIsGenuine(crc: Crc, checksum: bool, file: seq<Byte>, p: nat, inside: bool, scratch: seq<Byte>,
                                           reports: seq<Report>, pieces: seq<Piece>) returns (all: seq<Piece>)
    requires p <= |file| && Collected(crc, checksum, file, p, inside, scratch, pieces)
    requires NextRecord(crc, checksum, file, p, inside, scratch, reports).Got?
    ensures var r := NextRecord(crc, checksum, file, p, inside, scratch, reports);
            SpellsOut(crc, checksum, file, all, r.record, r.next)
    decreases |file| - p
  {
    var f := NextFragment(crc, checksum, file, p);
    RecordStep(crc, checksum, file, p, inside, scratch, reports, f);
    all := CollectsOn(crc, checksum, file, p, inside, scratch, pieces);
    var a := React(f, inside, scratch);
    if !a.Stop? {
      all := RecordIsGenuine(crc, checksum, file, f.next, a.inside, a.scratch, reports + Dropped(f) + a.reports, all);
    }
  }

  /** So it is for all records read from a file. */
  ghost predicate Delivered(crc: Crc, checksum: bool, file: seq<Byte>, record: seq<Byte>) {
    exists pieces, next :: SpellsOut(crc, checksum, file, pieces, record, next)
  }

  lemma {:induction false} AllAreGenuine(crc: Crc, checksum: bool, file: seq<Byte>, p: nat, records: seq<seq<Byte>>, reports: seq<Report>)
    requires p <= |file| && forall r :: r in records ==> Delivered(crc, checksum, file, r)
    ensures forall r :: r in ReadAll(crc, checksum, file, p, records, reports).0 ==> Delivered(crc, checksum, file, r)
    decreases |file| - p
  {
    var r := NextRecord(crc, checksum, file, p, false, [], reports);
    if r.Got? {
      var pieces := RecordIsGenuine(crc, checksum, file, p, false, [], reports, []);
      assert Delivered(crc, checksum, file, r.record);
      AllAreGenuine(crc, checksum, file, r.next, records + [r.record], r.reports);
    }
  }

  // ---------------------------------------------------------------------------------------------
  // Nothing is lost unseen
  // ---------------------------------------------------------------------------------------------

  function Bytes(reports: seq<Report>): nat {
    if reports == [] then 0 else Bytes(reports[..|reports| - 1]) + reports[|reports| - 1].bytes
  }

  lemma {:induction false} BytesConcat(a: seq<Report>, b: seq<Report>)
    ensures Bytes(a + b) == Bytes(a) + Bytes(b)
    decreases |b|
  {
    if b == [] {
      assert a + b == a;
    } else {
      BytesConcat(a, b[..|b| - 1]);
      assert (a + b)[..|a + b| - 1] == a + b[..|b| - 1];
    }
  }

  /** The payload of a fragment, or what is reported of a bad one. */
  function Held(f: Fragment): nat {
    if f.Fragment? then |f.payload| else if f.Bad? then Bytes(f.reports) else 0
  }

  /** What the fragments between two places hold. */
  function HeldBetween(crc: Crc, checksum: bool, file: seq<Byte>, p: nat, e: nat): nat
    requires p <= |file|
    decreases |file| - p
  {
    var f := NextFragment(crc, checksum, file, p);
    if p >= e || f.EndOfFile? then 0 else Held(f) + HeldBetween(crc, checksum, file, f.next, e)
  }

  lemma ReactionAccounts(f: Fragment, inside: bool, scratch: seq<Byte>)
    requires !f.EndOfFile? && (inside || scratch == [])
    ensures var a := React(f, inside, scratch);
            && (a.Go? ==> a.inside || a.scratch == [])
            && Bytes(a.reports) + (if a.Stop? then |a.record| else |a.scratch|) == |scratch| + if f.Fragment? then |f.payload| else 0
  {
    var a := React(f, inside, scratch);
    if a.reports != [] {
      assert a.reports == [a.reports[0]] && a.reports[..0] == [];
    }
  }

  /** Up to the next record: what the fragments held is in that record, in the reports, or was there before. */
  lemma {:induction false} NothingVanishes(crc: Crc, checksum: bool, file: seq<Byte>, p: nat, inside: bool, scratch: seq<Byte>,
                                           reports: seq<Report>) returns (unfinished: nat)
    requires p <= |file| && (inside || scratch == [])
    ensures match NextRecord(crc, checksum, file, p, inside, scratch, reports)
            case Got(record, next, reports') =>
              |record| + Bytes(reports') == |scratch| + Bytes(reports) + HeldBetween(crc, checksum, file, p, next)
            case Finished(reports') =>
              unfinished + Bytes(reports') == |scratch| + Bytes(reports) + HeldBetween(crc, checksum, file, p, |file| + 1)
    decreases |file| - p
  {
    var f := NextFragment(crc, checksum, file, p);
    unfinished := |scratch|;
    if !f.EndOfFile? {
      ReactionAccounts(f, inside, scratch);
      var a := React(f, inside, scratch);
      BytesConcat(reports, Dropped(f));
      BytesConcat(reports + Dropped(f), a.reports);
      if a.Go? {
        unfinished := NothingVanishes(crc, checksum, file, f.next, a.inside, a.scratch, reports + Dropped(f) + a.reports);
      } else {
        assert HeldBetween(crc, checksum, file, f.next, f.next) == 0;
      }
    }
  }

  function Total(records: seq<seq<Byte>>): nat {
    if records == [] then 0 else Total(records[..|records| - 1]) + |records[|records| - 1]|
  }

  lemma {:induction false} HeldSplits(crc: Crc, checksum: bool, file: seq<Byte>, p: nat, inside: bool, scratch: seq<Byte>,
                                      reports: seq<Report>, e: nat)
    requires p <= |file| && e > |file|
    ensures var r := NextRecord(crc, checksum, file, p, inside, scratch, reports);
            r.Got? ==> HeldBetween(crc, checksum, file, p, e) == HeldBetween(crc, checksum, file, p, r.next) + HeldBetween(crc, checksum, file, r.next, e)
    decreases |file| - p
  {
    var f := NextFragment(crc, checksum, file, p);
    if !f.EndOfFile? {
      var a := React(f, inside, scratch);
      if a.Go? {
        HeldSplits(crc, checksum, file, f.next, a.inside, a.scratch, reports + Dropped(f) + a.reports, e);
      } else {
        assert HeldBetween(crc, checksum, file, f.next, f.next) == 0;
      }
    }
  }

  /** Over a whole file: what its fragments hold is delivered or reported, but for a record left unfinished at the end. */
  lemma {:induction false} AllAccountedFor(crc: Crc, checksum: bool, file: seq<Byte>, p: nat, records: seq<seq<Byte>>, reports: seq<Report>)
    returns (unfinished: nat)
    requires p <= |file|
    ensures var (all, reported) := ReadAll(crc, checksum, file, p, records, reports);
            Total(all) + Bytes(reported) + unfinished == Total(records) + Bytes(reports) + HeldBetween(crc, checksum, file, p, |file| + 1)
    decreases |file| - p
  {
    unfinished := NothingVanishes(crc, checksum, file, p, false, [], reports);
    var r := NextRecord(crc, checksum, file, p, false, [], reports);
    if r.Got? {
      HeldSplits(crc, checksum, file, p, false, [], reports, |file| + 1);
      assert (records + [r.record])[..|records|] == records;
      unfinished := AllAccountedFor(crc, checksum, file, r.next, records + [r.record], r.reports);
    }
  }
}
