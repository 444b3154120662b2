/** What was written to a log is what is read from it, and from any prefix of it the records that are complete. */
module LogRoundTrip {
  import opened Values
  import opened Coding
  import opened RecordLog
  import opened RecordReader

  // ---------------------------------------------------------------------------------------------
  // One physical record
  // ---------------------------------------------------------------------------------------------

  lemma PaddingSkipped(crc: Crc, checksum: bool, file: seq<Byte>, p: nat)
    requires p + Pad(p) <= |file|
    ensures NextFragment(crc, checksum, file, p) == NextFragment(crc, checksum, file, p + Pad(p))
  {
  }

  /** A buffer that starts with a header and its payload parses to them. */
  lemma ParsesBack(crc: Crc, checksum: bool, t: Byte, payload: seq<Byte>, buffer: seq<Byte>, short: bool, end: nat)
    requires |payload| < 0x1_0000 && 1 <= t <= 4 && |buffer| <= end
    requires Header(crc, t, payload) + payload <= buffer
    ensures Parse(crc, checksum, buffer, short, end) == Fragment(t, payload, end - |buffer| + HEADER + |payload|)
  {
    var h := Header(crc, t, payload);
    var sum := EncodeFixed32(Mask(crc(0, [t] + payload)));
    assert h == sum + [|payload| % 0x100, |payload| / 0x100, t];
    assert forall i :: 0 <= i < HEADER ==> buffer[i] == h[i];
    assert buffer[4] == |payload| % 0x100 && buffer[5] == |payload| / 0x100 && buffer[6] == t;
    assert LengthIn(buffer) == |payload|;
    assert buffer[..4] == sum;
    assert buffer[HEADER..HEADER + |payload|] == payload;
    assert buffer[6..HEADER + |payload|] == [t] + payload;
    UnmaskMask(crc(0, [t] + payload));
  }

  lemma PhysicalRead(crc: Crc, checksum: bool, base: seq<Byte>, t: Byte, payload: seq<Byte>, file: seq<Byte>)
    requires 1 <= t <= 4 && HEADER + |payload| <= Room(|base|)
    requires WithPhysical(crc, base, t, payload) <= file
    ensures NextFragment(crc, checksum, file, |base|) == Fragment(t, payload, |base| + HEADER + |payload|)
  {
    var p, e := |base|, BlockEnd(file, |base|);
    var whole := WithPhysical(crc, base, t, payload);
    assert whole[p..] == Header(crc, t, payload) + payload;
    assert file[..|whole|] == whole;
    assert file[p..e][..|whole| - p] == whole[p..];
    ParsesBack(crc, checksum, t, payload, file[p..e], e < p + Room(p), e);
  }

  /** Cut anywhere inside, a physical record is the end of the file. */
  lemma PhysicalCut(crc: Crc, checksum: bool, base: seq<Byte>, t: Byte, payload: seq<Byte>, file: seq<Byte>)
    requires HEADER + |payload| <= Room(|base|)
    requires |base| <= |file| < |base| + HEADER + |payload| && file <= WithPhysical(crc, base, t, payload)
    ensures NextFragment(crc, checksum, file, |base|) == EndOfFile
  {
    var p := |base|;
    if |file| - p >= HEADER {
      var h := Header(crc, t, payload);
      var whole := WithPhysical(crc, base, t, payload);
      assert whole[p..] == h + payload;
      assert forall i :: 0 <= i < HEADER ==> file[p + i] == whole[p + i] == h[i];
      assert LengthIn(file[p..]) == |payload|;
      assert file[p..|file|] == file[p..];
    }
  }

  // ---------------------------------------------------------------------------------------------
  // One record
  // ---------------------------------------------------------------------------------------------

  lemma PieceRead(crc: Crc, checksum: bool, start: seq<Byte>, data: seq<Byte>, begin: bool, n: nat, file: seq<Byte>)
    requires n == Fit(|start| + Pad(|start|), data) && WithPiece(crc, start, data, begin) <= file
    ensures Same(NextFragment(crc, checksum, file, |start|),
                 Fragment(TypeOf(begin, n == |data|), data[..n], |start| + Pad(|start|) + HEADER + n))
  {
    PaddingSkipped(crc, checksum, file, |start|);
    PhysicalRead(crc, checksum, Padded(start), TypeOf(begin, n == |data|), data[..n], file);
  }

  lemma PieceCut(crc: Crc, checksum: bool, start: seq<Byte>, data: seq<Byte>, begin: bool, file: seq<Byte>)
    requires start <= file <= WithPiece(crc, start, data, begin) && file != WithPiece(crc, start, data, begin)
    ensures NextFragment(crc, checksum, file, |start|) == EndOfFile
  {
    var n := Fit(|start| + Pad(|start|), data);
    if |file| >= |start| + Pad(|start|) {
      PaddingSkipped(crc, checksum, file, |start|);
      CutInside(crc, checksum, Padded(start), TypeOf(begin, n == |data|), data[..n], WithPiece(crc, start, data, begin), file);
    }
  }

  lemma CutInside(crc: Crc, checksum: bool, base: seq<Byte>, t: Byte, payload: seq<Byte>, whole: seq<Byte>, file: seq<Byte>)
    requires HEADER + |payload| <= Room(|base|) && whole == WithPhysical(crc, base, t, payload)
    requires file <= whole && file != whole && |base| <= |file|
    ensures NextFragment(crc, checksum, file, |base|) == EndOfFile
  {
    PhysicalCut(crc, checksum, base, t, payload, file);
  }

  lemma PrefixTrans(a: seq<Byte>, b: seq<Byte>, c: seq<Byte>)
    requires a <= b <= c
    ensures a <= c
  {
  }

  lemma PieceExtends(crc: Crc, start: seq<Byte>, data: seq<Byte>, begin: bool)
    ensures start <= WithPiece(crc, start, data, begin)
  {
  }

  lemma {:induction false} DataExtends(crc: Crc, start: seq<Byte>, data: seq<Byte>, begin: bool)
    ensures WithPiece(crc, start, data, begin) <= WithData(crc, start, data, begin)
    ensures start <= WithData(crc, start, data, begin)
    decreases |data|, if Fit(|start| + Pad(|start|), data) == 0 then 1 else 0
  {
    var n := Fit(|start| + Pad(|start|), data);
    PieceExtends(crc, start, data, begin);
    if n < |data| {
      if n == 0 {
        NextFits(|start|, |WithPiece(crc, start, data, begin)|, data);
      }
      DataExtends(crc, WithPiece(crc, start, data, begin), data[n..], false);
    }
    PrefixTrans(start, WithPiece(crc, start, data, begin), WithData(crc, start, data, begin));
  }

  /** The reader is at the start of a record, or inside one with what it has collected. */
  predicate Ready(begin: bool, inside: bool, scratch: seq<Byte>) {
    if begin then !inside && scratch == [] else inside
  }

  /** What one well-placed fragment does to the reader. */
  lemma FragmentStep(crc: Crc, checksum: bool, file: seq<Byte>, p: nat, begin: bool, end: bool, payload: seq<Byte>, next: nat,
                     inside: bool, scratch: seq<Byte>, reports: seq<Report>)
    requires p <= |file| && NextFragment(crc, checksum, file, p) == Fragment(TypeOf(begin, end), payload, next)
    requires Ready(begin, inside, scratch) && next <= |file|
    ensures end ==> NextRecord(crc, checksum, file, p, inside, scratch, reports) == Got(scratch + payload, next, reports)
    ensures !end ==> Same(NextRecord(crc, checksum, file, p, inside, scratch, reports),
                          NextRecord(crc, checksum, file, next, true, scratch + payload, reports))
  {
    assert reports + [] + [] == reports;
    assert [] + payload == payload;
  }

  lemma PieceStep(crc: Crc, checksum: bool, start: seq<Byte>, data: seq<Byte>, begin: bool, n: nat, next: seq<Byte>,
                  file: seq<Byte>, inside: bool, scratch: seq<Byte>, reports: seq<Report>)
    requires n == Fit(|start| + Pad(|start|), data) && next == WithPiece(crc, start, data, begin)
    requires next <= file && |start| <= |file| && Ready(begin, inside, scratch)
    ensures n == |data| ==> NextRecord(crc, checksum, file, |start|, inside, scratch, reports) == Got(scratch + data, |next|, reports)
    ensures n < |data| ==> Same(NextRecord(crc, checksum, file, |start|, inside, scratch, reports),
                                NextRecord(crc, checksum, file, |next|, true, scratch + data[..n], reports))
  {
    PieceRead(crc, checksum, start, data, begin, n, file);
    FragmentStep(crc, checksum, file, |start|, begin, n == |data|, data[..n], |next|, inside, scratch, reports);
  }

  /** A record that is completely there is read back, and nothing is reported. */
  lemma {:induction false} DataRead(crc: Crc, checksum: bool, start: seq<Byte>, data: seq<Byte>, begin: bool, whole: seq<Byte>,
                                    file: seq<Byte>, inside: bool, scratch: seq<Byte>, reports: seq<Report>)
    requires whole == WithData(crc, start, data, begin) && whole <= file && |start| <= |file| && Ready(begin, inside, scratch)
    ensures NextRecord(crc, checksum, file, |start|, inside, scratch, reports) == Got(scratch + data, |whole|, reports)
    decreases |data|, if Fit(|start| + Pad(|start|), data) == 0 then 1 else 0
  {
    var n := Fit(|start| + Pad(|start|), data);
    var next := WithPiece(crc, start, data, begin);
    DataExtends(crc, start, data, begin);
    PrefixTrans(next, whole, file);
    PieceStep(crc, checksum, start, data, begin, n, next, file, inside, scratch, reports);
    if n == |data| {
      LastPiece(crc, start, data, begin);
    } else {
      OnePiece(crc, start, data, begin);
      if n == 0 {
        NextFits(|start|, |next|, data);
      }
      DataRead(crc, checksum, next, data[n..], false, whole, file, true, scratch + data[..n], reports);
      SplitData(scratch, data, n);
    }
  }

  lemma SplitData(scratch: seq<Byte>, data: seq<Byte>, n: nat)
    requires n <= |data|
    ensures scratch + data[..n] + data[n..] == scratch + data
  {
  }

  /** A record cut anywhere is the end of the file, and nothing is reported. */
  lemma {:induction false} DataCut(crc: Crc, checksum: bool, start: seq<Byte>, data: seq<Byte>, begin: bool, whole: seq<Byte>,
                                   file: seq<Byte>, inside: bool, scratch: seq<Byte>, reports: seq<Report>)
    requires whole == WithData(crc, start, data, begin) && start <= file <= whole && |file| < |whole|
    requires Ready(begin, inside, scratch)
    ensures NextRecord(crc, checksum, file, |start|, inside, scratch, reports) == Finished(reports)
    decreases |data|, if Fit(|start| + Pad(|start|), data) == 0 then 1 else 0
  {
    var n := Fit(|start| + Pad(|start|), data);
    var next := WithPiece(crc, start, data, begin);
    DataExtends(crc, start, data, begin);
    PrefixesCompare(next, file, whole);
    if |file| < |next| {
      PieceCut(crc, checksum, start, data, begin, file);
    } else {
      PieceStep(crc, checksum, start, data, begin, n, next, file, inside, scratch, reports);
      assert n == |data| ==> whole == next by {
        if n == |data| {
          LastPiece(crc, start, data, begin);
        }
      }
      OnePiece(crc, start, data, begin);
      if n == 0 {
        NextFits(|start|, |next|, data);
      }
      DataCut(crc, checksum, next, data[n..], false, whole, file, true, scratch + data[..n], reports);
    }
  }

  lemma PrefixesCompare(a: seq<Byte>, b: seq<Byte>, whole: seq<Byte>)
    requires a <= whole && b <= whole
    ensures if |a| <= |b| then a <= b else b <= a
  {
  }

  // ---------------------------------------------------------------------------------------------
  // Whole logs
  // ---------------------------------------------------------------------------------------------

  type Records = seq<seq<Byte>>

  lemma {:induction false} LogExtends(crc: Crc, records: Records, i: nat, k: nat)
    requires i <= k <= |records|
    ensures LogTo(crc, records, i) <= LogTo(crc, records, k)
    decreases k
  {
    if i != k {
      LogExtends(crc, records, i, k - 1);
      DataExtends(crc, LogTo(crc, records, k - 1), records[k - 1], true);
      PrefixTrans(LogTo(crc, records, i), LogTo(crc, records, k - 1), LogTo(crc, records, k));
    }
  }

  /** How many of the first `k` records are complete in the first `n` bytes of the log. */
  function Complete(crc: Crc, records: Records, n: nat, k: nat): (r: nat)
    requires k <= |records|
    ensures r <= k && |LogTo(crc, records, r)| <= n
    ensures r < k ==> n < |LogTo(crc, records, r + 1)|
    decreases k
  {
    if |LogTo(crc, records, k)| <= n || k == 0 then k else Complete(crc, records, n, k - 1)
  }

  /** Record `i` is read back where it is complete. */
  lemma RecordThere(crc: Crc, checksum: bool, records: Records, file: seq<Byte>, i: nat)
    requires i < |records| && file <= Log(crc, records) && |LogTo(crc, records, i + 1)| <= |file|
    ensures |LogTo(crc, records, i)| <= |file|
    ensures NextRecord(crc, checksum, file, |LogTo(crc, records, i)|, false, [], []) ==
            Got(records[i], |LogTo(crc, records, i + 1)|, [])
  {
    var start, whole := LogTo(crc, records, i), LogTo(crc, records, i + 1);
    DataExtends(crc, start, records[i], true);
    LogExtends(crc, records, i + 1, |records|);
    PrefixesCompare(whole, file, Log(crc, records));
    DataRead(crc, checksum, start, records[i], true, whole, file, false, [], []);
    assert [] + records[i] == records[i];
  }

  lemma RecordCut(crc: Crc, checksum: bool, records: Records, file: seq<Byte>, i: nat)
    requires i < |records| && file <= Log(crc, records)
    requires |LogTo(crc, records, i)| <= |file| < |LogTo(crc, records, i + 1)|
    ensures NextRecord(crc, checksum, file, |LogTo(crc, records, i)|, false, [], []) == Finished([])
  {
    var start, whole := LogTo(crc, records, i), LogTo(crc, records, i + 1);
    LogExtends(crc, records, i, |records|);
    LogExtends(crc, records, i + 1, |records|);
    PrefixesCompare(start, file, Log(crc, records));
    PrefixesCompare(whole, file, Log(crc, records));
    DataCut(crc, checksum, start, records[i], true, whole, file, false, [], []);
  }

  lemma LogGrows(crc: Crc, records: Records, i: nat, k: nat)
    requires i <= k <= |records|
    ensures |LogTo(crc, records, i)| <= |LogTo(crc, records, k)|
  {
    LogExtends(crc, records, i, k);
  }

  /** With the records `done` in hand a reader at `p` ends up with `all`, and reports nothing. */
  ghost predicate Yields(crc: Crc, checksum: bool, file: seq<Byte>, p: nat, done: Maybe<Records>, all: Records)
    requires p <= |file|
  {
    match done
    case Nothing => true
    case Just(d) => forall mark {:trigger Open(d, mark)} :: Open(d, mark) ==> Same(ReadAll(crc, checksum, file, p, d, []), (all, []))
  }

  /** `ends` are the positions between the records that are read. */
  ghost predicate Hop(crc: Crc, checksum: bool, file: seq<Byte>, records: Records, ends: seq<nat>, j: nat) {
    && j < |records| && j + 1 < |ends| && ends[j] <= |file|
    && Same(NextRecord(crc, checksum, file, ends[j], false, [], []), Got(records[j], ends[j + 1], []))
  }

  /** From the end of record `i` on, with the records before it in hand, the reader gets the first `k`. */
  lemma {:induction false} ReadsFrom(crc: Crc, checksum: bool, records: Records, file: seq<Byte>, ends: seq<nat>, i: nat, k: nat, done: Records)
    requires i <= k <= |records| && |ends| == k + 1
    requires (forall j :: 0 <= j <= k ==> ends[j] <= |file|) && forall j :: 0 <= j < k ==> Hop(crc, checksum, file, records, ends, j)
    requires Same(NextRecord(crc, checksum, file, ends[k], false, [], []), Finished([]))
    requires Same(done, records[..i])
    ensures Yields(crc, checksum, file, ends[i], Just(done), records[..k])
    decreases k - i
  {
    if i != k {
      assert done + [records[i]] == records[..i + 1];
      ReadsFrom(crc, checksum, records, file, ends, i + 1, k, done + [records[i]]);
      assert Hop(crc, checksum, file, records, ends, i);
      OneMoreRead(crc, checksum, file, ends[i], done, records[i], ends[i + 1], records[..k]);
    }
  }

  lemma OneMoreRead(crc: Crc, checksum: bool, file: seq<Byte>, p: nat, done: Records, record: seq<Byte>, next: nat, all: Records)
    requires p <= |file| && next <= |file| && Same(NextRecord(crc, checksum, file, p, false, [], []), Got(record, next, []))
    requires Yields(crc, checksum, file, next, Just(done + [record]), all)
    ensures Yields(crc, checksum, file, p, Just(done), all)
  {
    assert Open(done + [record], 0);
  }

  function Ends(crc: Crc, records: Records, k: nat): (ends: seq<nat>)
    requires k <= |records|
    ensures |ends| == k + 1
    ensures forall j :: 0 <= j <= k ==> ends[j] == |LogTo(crc, records, j)|
  {
    seq(k + 1, j requires 0 <= j <= k => |LogTo(crc, records, j)|)
  }

  lemma ReadsComplete(crc: Crc, checksum: bool, records: Records, file: seq<Byte>, k: nat)
    requires k <= |records| && file <= Log(crc, records) && |LogTo(crc, records, k)| <= |file|
    requires if k < |records| then |file| < |LogTo(crc, records, k + 1)| else |file| == |LogTo(crc, records, k)|
    ensures Yields(crc, checksum, file, 0, Just([]), records[..k])
  {
    var ends := Ends(crc, records, k);
    forall j | 0 <= j <= k ensures ends[j] <= |file| {
      LogGrows(crc, records, j, k);
    }
    forall j | 0 <= j < k ensures Hop(crc, checksum, file, records, ends, j) {
      LogGrows(crc, records, j + 1, k);
      RecordThere(crc, checksum, records, file, j);
    }
    if k < |records| {
      RecordCut(crc, checksum, records, file, k);
    } else {
      EndReached(crc, checksum, file);
    }
    assert records[..0] == [];
    ReadsFrom(crc, checksum, records, file, ends, 0, k, []);
  }

  lemma EndReached(crc: Crc, checksum: bool, file: seq<Byte>)
    ensures NextFragment(crc, checksum, file, |file|) == EndOfFile
  {
  }

  /** From any prefix of a log a reader gets exactly the records that are complete in it, and reports no corruption. */
  lemma TruncatedLog(crc: Crc, checksum: bool, records: Records, file: seq<Byte>)
    requires file <= Log(crc, records)
    ensures ReadAll(crc, checksum, file, 0, [], []) == (records[..Complete(crc, records, |file|, |records|)], [])
  {
    ReadsComplete(crc, checksum, records, file, Complete(crc, records, |file|, |records|));
    assert Open<Records>([], 0);
  }

  /** The whole log gives all records back. */
  lemma RoundTrip(crc: Crc, checksum: bool, records: Records)
    ensures ReadAll(crc, checksum, Log(crc, records), 0, [], []) == (records, [])
  {
    assert records[..|records|] == records;
    ReadsComplete(crc, checksum, records, Log(crc, records), |records|);
    assert Open<Records>([], 0);
  }

  // ---------------------------------------------------------------------------------------------
  // Using a writer and a reader
  // ---------------------------------------------------------------------------------------------

  function Flatten(sessions: seq<Records>): Records {
    if sessions == [] then [] else Flatten(sessions[..|sessions| - 1]) + sessions[|sessions| - 1]
  }

  /** The file is written in several sessions, each of which opens it anew at its length. */
  method WriteSessions(crc: Crc, sessions: seq<Records>) returns (file: seq<Byte>)
    requires Lawful(crc)
    ensures file == Log(crc, Flatten(sessions))
  {
    file := [];
    for i := 0 to |sessions|
      invariant Same(file, Log(crc, Flatten(sessions[..i])))
    {
      ghost var done := Flatten(sessions[..i]);
      assert Flatten(sessions[..i + 1]) == done + sessions[i] by {
        assert sessions[..i + 1][..i] == sessions[..i];
      }
      file := WriteSession(crc, file, done, sessions[i]);
    }
    assert sessions[..|sessions|] == sessions;
  }

  method WriteSession(crc: Crc, file: seq<Byte>, ghost done: Records, records: Records) returns (file': seq<Byte>)
    requires Lawful(crc) && Same(file, Log(crc, done))
    ensures file' == Log(crc, done + records)
  {
    var writer := new Writer(crc, file);
    ghost var all, k: nat := done + records, |done|;
    SessionStarts(crc, done, records, all, k, writer.dest);
    for j := 0 to |records|
      invariant fresh(writer) && writer.Valid() && writer.crc == crc
      invariant k == |done| + j && IsLog(crc, all, k, Just(writer.dest))
    {
      AddToSession(crc, writer, all, k, records[j]);
      k := k + 1;
    }
    file' := writer.dest;
    SessionEnds(crc, done, records, all, k, file');
  }

  method AddToSession(crc: Crc, writer: Writer, ghost all: Records, ghost k: nat, record: seq<Byte>)
    requires writer.Valid() && writer.crc == crc && k < |all| && all[k] == record && IsLog(crc, all, k, Just(writer.dest))
    modifies writer
    ensures writer.Valid() && IsLog(crc, all, k + 1, Just(writer.dest))
  {
    ghost var before := writer.dest;
    writer.AddRecord(record);
    SessionContinues(crc, all, k, record, before, writer.dest);
  }

  /** `file` is the log of the first `k` of the records. */
  ghost predicate IsLog(crc: Crc, all: Records, k: nat, file: Maybe<seq<Byte>>) {
    match file
    case Nothing => true
    case Just(f) => forall mark {:trigger Open(f, mark)} :: Open(f, mark) ==> k <= |all| && Same(f, LogTo(crc, all, k))
  }

  lemma SessionStarts(crc: Crc, done: Records, records: Records, all: Records, k: nat, file: seq<Byte>)
    requires Same(file, Log(crc, done)) && Same(all, done + records) && k == |done|
    ensures IsLog(crc, all, k, Just(file))
  {
    SamePrefix(crc, done, records, |done|);
  }

  lemma SessionEnds(crc: Crc, done: Records, records: Records, all: Records, k: nat, file: seq<Byte>)
    requires Same(all, done + records) && k == |all| && IsLog(crc, all, k, Just(file))
    ensures file == Log(crc, done + records)
  {
    assert Open(file, 0);
  }

  lemma SessionContinues(crc: Crc, all: Records, k: nat, record: seq<Byte>, file: seq<Byte>, file': seq<Byte>)
    requires k < |all| && all[k] == record && IsLog(crc, all, k, Just(file)) && Same(file', WithRecord(crc, file, record))
    ensures IsLog(crc, all, k + 1, Just(file'))
  {
    assert Open(file, 0);
  }

  lemma {:induction false} SamePrefix(crc: Crc, done: Records, records: Records, k: nat)
    requires k <= |done|
    ensures Same(LogTo(crc, done, k), LogTo(crc, done + records, k))
    decreases k
  {
    if k != 0 {
      SamePrefix(crc, done, records, k - 1);
    }
  }

  /** Reads until there is no record left. */
  method ReadLog(crc: Crc, file: seq<Byte>, checksum: bool) returns (records: Records, reports: seq<Report>)
    ensures (records, reports) == ReadAll(crc, checksum, file, 0, [], [])
  {
    var reader := new Reader(crc, file, checksum);
    records := [];
    var ok := true;
    while ok
      invariant fresh(reader) && reader.Valid() && reader.crc == crc && reader.checksum == checksum && reader.file == file
      invariant var all := ReadAll(crc, checksum, file, 0, [], []);
                if ok then ReadAll(crc, checksum, file, reader.Position(), records, reader.reports) == all
                else (records, reader.reports) == all
      decreases ok, |file| - reader.Position()
    {
      var record;
      ok, record := reader.ReadRecord();
      if ok {
        records := records + [record];
      }
    }
    reports := reader.reports;
  }
}
