/** Replaying the bytes of a log file: any prefix of what was logged gives back exactly the groups that are complete in it. */
module LogRecovery {
  import opened Values
  import opened Coding
  import opened RecordLog
  import opened RecordReader
  import opened LogRoundTrip
  import opened WriteBatches
  import GroupCommit

  type Numbered = GroupCommit.Numbered

  /** What has been replayed, in order, and the largest sequence number seen; or recovery has been given up. */
  datatype Replayed = Replayed(entries: seq<Numbered>, last: nat) | Refused

  const WRAP := 0x1_0000_0000_0000_0000

  // ---------------------------------------------------------------------------------------------
  // Replaying records
  // ---------------------------------------------------------------------------------------------

  /** The sequence number of the last update of a batch, in 64 bits. */
  function LastOf(rep: seq<Byte>): nat
    requires |rep| >= 12
  {
    LastFrom(DecodeFixed64(rep[..8]), DecodeFixed32(rep[8..12]))
  }

  function LastFrom(first: nat, count: nat): nat {
    (first + count + WRAP - 1) % WRAP
  }

  /** One record: a batch that does not parse leaves what was read of it behind, and ends a paranoid recovery. */
  function Replay(paranoid: bool, r: Replayed, record: seq<Byte>): Replayed {
    if r.Refused? then Refused
    else if |record| < 12 then (if paranoid then Refused else r)
    else
      var parsed := ParseAll(ParseOp, record[12..], []);
      if paranoid && Ended(parsed.0, parsed.1, DecodeFixed32(record[8..12])) != Ok then Refused
      else
        Replayed(r.entries + GroupCommit.Number(parsed.0, DecodeFixed64(record[..8])),
                 if LastOf(record) > r.last then LastOf(record) else r.last)
  }

  function ReplayAll(paranoid: bool, r: Replayed, records: Records): Replayed {
    if records == [] then r
    else Replay(paranoid, ReplayAll(paranoid, r, records[..|records| - 1]), records[|records| - 1])
  }

  /** What recovery makes of a log file from position `p` on; a paranoid one gives up at the first report. */
  function Recover(crc: Crc, paranoid: bool, file: seq<Byte>, p: nat, reports: seq<Report>, r: Replayed): Replayed
    requires p <= |file|
    decreases |file| - p
  {
    match NextRecord(crc, true, file, p, false, [], reports)
    case Finished(reports') => if paranoid && reports' != [] then Refused else r
    case Got(record, next, reports') =>
      if paranoid && reports' != [] then Refused
      else
        var r' := Replay(paranoid, r, record);
        if r'.Refused? then Refused else Recover(crc, paranoid, file, next, reports', r')
  }

  /** DBImpl::RecoverLogFile, as far as it concerns what is replayed. */
  method RecoverLogFile(crc: Crc, paranoid: bool, file: seq<Byte>, last: nat) returns (r: Replayed)
    ensures r == Recover(crc, paranoid, file, 0, [], Replayed([], last))
  {
    var reader := new Reader(crc, file, true);
    ghost var goal := Recover(crc, paranoid, file, 0, [], Replayed([], last));
    r := Replayed([], last);
    while true
      invariant fresh(reader) && reader.Valid() && reader.crc == crc && reader.checksum && reader.file == file
      invariant r.Replayed? && reader.Position() <= |file|
      invariant Same(goal, Recover(crc, paranoid, file, reader.Position(), reader.reports, r))
      decreases |file| - reader.Position()
    {
      var ok, record := reader.ReadRecord();
      if paranoid && reader.reports != [] {
        return Refused;
      }
      if !ok {
        return;
      }
      var r' := ReplayRecord(paranoid, r, record);
      if r'.Refused? {
        return Refused;
      }
      r := r';
    }
  }

  /** The body of the loop: the batch is iterated over, and its updates are numbered. */
  method ReplayRecord(paranoid: bool, r: Replayed, record: seq<Byte>) returns (r': Replayed)
    requires r.Replayed?
    ensures r' == Replay(paranoid, r, record)
  {
    if |record| < 12 {
      return if paranoid then Refused else r;
    }
    var handled, status := IterateBytes(record);
    if paranoid && status != Ok {
      return Refused;
    }
    r' := Replayed(r.entries + GroupCommit.Number(handled, DecodeFixed64(record[..8])),
                   if LastOf(record) > r.last then LastOf(record) else r.last);
  }

  // ---------------------------------------------------------------------------------------------
  // Recovery replays what a reader gets
  // ---------------------------------------------------------------------------------------------

  lemma {:induction false} ReportsGrow(crc: Crc, file: seq<Byte>, p: nat, inside: bool, scratch: seq<Byte>, reports: seq<Report>)
    requires p <= |file|
    ensures reports <= NextRecord(crc, true, file, p, inside, scratch, reports).reports
    decreases |file| - p
  {
    var f := NextFragment(crc, true, file, p);
    if !f.EndOfFile? {
      var a := React(f, inside, scratch);
      if a.Go? {
        ReportsGrow(crc, file, f.next, a.inside, a.scratch, reports + Dropped(f) + a.reports);
      }
    }
  }

  lemma {:induction false} AllReportsGrow(crc: Crc, file: seq<Byte>, p: nat, records: Records, reports: seq<Report>)
    requires p <= |file|
    ensures reports <= ReadAll(crc, true, file, p, records, reports).1
    decreases |file| - p
  {
    ReportsGrow(crc, file, p, false, [], reports);
    match NextRecord(crc, true, file, p, false, [], reports)
    case Finished(_) =>
    case Got(record, next, reports') => AllReportsGrow(crc, file, next, records + [record], reports');
  }

  lemma ReplayOneMore(paranoid: bool, r: Replayed, records: Records, record: seq<Byte>)
    ensures ReplayAll(paranoid, r, records + [record]) == Replay(paranoid, ReplayAll(paranoid, r, records), record)
  {
    assert (records + [record])[..|records|] == records;
  }

  /** Once given up, recovery does not start again. */
  lemma {:induction false} StaysRefused(crc: Crc, paranoid: bool, file: seq<Byte>, p: nat, r: Replayed, records: Records, reports: seq<Report>)
    requires p <= |file| && ReplayAll(paranoid, r, records).Refused?
    ensures ReplayAll(paranoid, r, ReadAll(crc, true, file, p, records, reports).0).Refused?
    decreases |file| - p
  {
    match NextRecord(crc, true, file, p, false, [], reports)
    case Finished(_) =>
    case Got(record, next, reports') =>
      ReplayOneMore(paranoid, r, records, record);
      StaysRefused(crc, paranoid, file, next, r, records + [record], reports');
  }

  /** On any file: recovery replays exactly the records a reader gets, unless it is paranoid and something is reported. */
  lemma {:induction false} RecoversWhatIsRead(crc: Crc, paranoid: bool, file: seq<Byte>, p: nat, r: Replayed, records: Records,
                                              reports: seq<Report>)
    requires p <= |file| && ReplayAll(paranoid, r, records).Replayed?
    ensures Recover(crc, paranoid, file, p, reports, ReplayAll(paranoid, r, records)) ==
            if paranoid && ReadAll(crc, true, file, p, records, reports).1 != [] then Refused
            else ReplayAll(paranoid, r, ReadAll(crc, true, file, p, records, reports).0)
    decreases |file| - p
  {
    match NextRecord(crc, true, file, p, false, [], reports)
    case Finished(_) =>
    case Got(record, next, reports') =>
      AllReportsGrow(crc, file, next, records + [record], reports');
      ReplayOneMore(paranoid, r, records, record);
      if ReplayAll(paranoid, r, records + [record]).Refused? {
        StaysRefused(crc, paranoid, file, next, r, records + [record], reports');
      } else {
        RecoversWhatIsRead(crc, paranoid, file, next, r, records + [record], reports');
      }
  }

  // ---------------------------------------------------------------------------------------------
  // Logged groups
  // ---------------------------------------------------------------------------------------------

  /** `rep` is a batch with these updates, numbered from `first` on; compare WriteBatch.Valid. */
  ghost predicate IsBatch(rep: seq<Byte>, first: nat, ops: seq<Op>) {
    && |rep| >= 12 && DecodeFixed64(rep[..8]) == first && DecodeFixed32(rep[8..12]) == |ops| && rep[12..] == EncodeOps(ops)
    && 1 <= first && first + |ops| <= WRAP && forall i :: 0 <= i < |ops| ==> Storable(ops[i])
  }

  /** Record `i` of the log is the batch of group `i`. */
  ghost predicate AreBatches(records: Records, groups: seq<GroupCommit.LogRecord>) {
    |records| == |groups| && forall i :: 0 <= i < |groups| ==> IsBatch(records[i], groups[i].first, groups[i].ops)
  }

  /** A batch whose sequence number has been set is what a leader hands to the log. */
  lemma WrittenBatch(b: WriteBatch)
    requires b.Valid() && 1 <= b.Sequence() && b.Sequence() + |b.ops| <= WRAP
    ensures IsBatch(b.rep, b.Sequence(), b.ops)
  {
  }

  /** The updates of the first `k` groups, one group after the other. */
  function Numbers(groups: seq<GroupCommit.LogRecord>, k: nat): seq<Numbered>
    requires k <= |groups|
  {
    if k == 0 then [] else Numbers(groups, k - 1) + GroupCommit.Number(groups[k - 1].ops, groups[k - 1].first)
  }

  /** The largest number used by the first `k` groups, or by what was there before. */
  function LastNumber(groups: seq<GroupCommit.LogRecord>, k: nat, last: nat): nat
    requires k <= |groups|
  {
    if k == 0 then last
    else
      var before, own := LastNumber(groups, k - 1, last), groups[k - 1].first + |groups[k - 1].ops|;
      if own > before + 1 then own - 1 else before
  }

  lemma LastIsFrom(first: nat, count: nat)
    requires 1 <= first && first + count <= WRAP
    ensures LastFrom(first, count) == first + count - 1
  {
  }

  lemma BatchReplays(paranoid: bool, r: Replayed, rep: seq<Byte>, first: nat, ops: seq<Op>)
    requires IsBatch(rep, first, ops) && r.Replayed?
    ensures Replay(paranoid, r, rep) ==
            Replayed(r.entries + GroupCommit.Number(ops, first), if first + |ops| > r.last + 1 then first + |ops| - 1 else r.last)
  {
    OpsParse(ops);
    LastIsFrom(first, |ops|);
    assert rep[12..] == EncodeOps(ops) && LastOf(rep) == LastFrom(first, |ops|);
  }

  lemma {:induction false} BatchesReplay(paranoid: bool, records: Records, groups: seq<GroupCommit.LogRecord>, k: nat, last: nat)
    requires AreBatches(records, groups) && k <= |groups|
    ensures ReplayAll(paranoid, Replayed([], last), records[..k]) == Replayed(Numbers(groups, k), LastNumber(groups, k, last))
    decreases k
  {
    if k == 0 {
      assert records[..0] == [];
    } else {
      BatchesReplay(paranoid, records, groups, k - 1, last);
      assert records[..k][..k - 1] == records[..k - 1];
      BatchReplays(paranoid, Replayed(Numbers(groups, k - 1), LastNumber(groups, k - 1, last)), records[k - 1],
                   groups[k - 1].first, groups[k - 1].ops);
    }
  }

  /** From any prefix of the bytes of a log, recovery, paranoid or not, replays every group that is complete in it, as a whole
      and in order, and nothing else. */
  lemma RecoversCompleteGroups(crc: Crc, paranoid: bool, records: Records, groups: seq<GroupCommit.LogRecord>, file: seq<Byte>, last: nat)
    requires AreBatches(records, groups) && file <= Log(crc, records)
    ensures var k := Complete(crc, records, |file|, |records|);
            Recover(crc, paranoid, file, 0, [], Replayed([], last)) == Replayed(Numbers(groups, k), LastNumber(groups, k, last))
  {
    var k := Complete(crc, records, |file|, |records|);
    TruncatedLog(crc, true, records, file);
    RecoversWhatIsRead(crc, paranoid, file, 0, Replayed([], last), [], []);
    BatchesReplay(paranoid, records, groups, k, last);
  }

  // ---------------------------------------------------------------------------------------------
  // Group commit and recovery together
  // ---------------------------------------------------------------------------------------------

  lemma {:induction false} NumberSlice(ops: seq<Op>, first: nat, k: nat, n: nat)
    requires k + n <= |ops|
    ensures |GroupCommit.Number(ops, first)| == |ops|
    ensures GroupCommit.Number(ops, first)[k..k + n] == GroupCommit.Number(ops[k..k + n], first + k)
  {
    NumberAt(ops, first);
    NumberAt(ops[k..k + n], first + k);
  }

  lemma {:induction false} NumberAt(ops: seq<Op>, first: nat)
    ensures |GroupCommit.Number(ops, first)| == |ops|
    ensures forall i :: 0 <= i < |ops| ==> GroupCommit.Number(ops, first)[i] == GroupCommit.Numbered(first + i, ops[i])
    decreases |ops|
  {
    if ops != [] {
      NumberAt(ops[..|ops| - 1], first);
    }
  }

  lemma StillThere(before: seq<Numbered>, more: seq<Numbered>, o: nat, n: nat)
    requires o + n <= |before|
    ensures (before + more)[o..o + n] == before[o..o + n]
  {
  }

  lemma {:induction false} GroupIsReplayed(groups: seq<GroupCommit.LogRecord>, i: nat, k: nat) returns (o: nat)
    requires i < k <= |groups|
    ensures var own := GroupCommit.Number(groups[i].ops, groups[i].first);
            o + |own| <= |Numbers(groups, k)| && Numbers(groups, k)[o..o + |own|] == own
    decreases k
  {
    if i == k - 1 {
      o := |Numbers(groups, k - 1)|;
    } else {
      o := GroupIsReplayed(groups, i, k - 1);
      StillThere(Numbers(groups, k - 1), GroupCommit.Number(groups[k - 1].ops, groups[k - 1].first), o,
                 |GroupCommit.Number(groups[i].ops, groups[i].first)|);
    }
  }

  /** A writer that was told of success: if the log record that holds its updates is complete in what is left of the log file,
      recovery brings all of them back, under the numbers they had, side by side. */
  lemma AcknowledgedIsRecovered(s: GroupCommit.State, i: nat, crc: Crc, paranoid: bool, records: Records, file: seq<Byte>, last: nat)
    returns (o: nat)
    requires GroupCommit.SpansInv(s) && i < |s.spans| && s.spans[i].ok && s.spans[i].writer.batch.Payload?
    requires AreBatches(records, s.log) && file <= Log(crc, records)
    requires s.spans[i].record < Complete(crc, records, |file|, |records|)
    ensures var r := Recover(crc, paranoid, file, 0, [], Replayed([], last));
            var own := GroupCommit.Number(s.spans[i].writer.batch.ops, s.spans[i].first);
            r.Replayed? && o + |own| <= |r.entries| && r.entries[o..o + |own|] == own
  {
    var span, k := s.spans[i], Complete(crc, records, |file|, |records|);
    RecoversCompleteGroups(crc, paranoid, records, s.log, file, last);
    SpanAccounted(s, i);
    o := SpanIsReplayed(s.log, span, k);
  }

  lemma SpanAccounted(s: GroupCommit.State, i: nat)
    requires GroupCommit.SpansInv(s) && i < |s.spans|
    ensures GroupCommit.Accounted(s.log, s.spans[i])
  {
  }

  lemma SpanIsReplayed(log: seq<GroupCommit.LogRecord>, span: GroupCommit.Span, k: nat) returns (o: nat)
    requires GroupCommit.Accounted(log, span) && span.ok && span.writer.batch.Payload? && span.record < k <= |log|
    ensures var own := GroupCommit.Number(span.writer.batch.ops, span.first);
            o + |own| <= |Numbers(log, k)| && Numbers(log, k)[o..o + |own|] == own
  {
    var record, n := log[span.record], |span.ops|;
    var d: nat := span.first - record.first;
    assert GroupCommit.Holds(record, span);
    assert record.ops[d..][..n] == record.ops[d..d + n];
    NumberSlice(record.ops, record.first, d, n);
    NumberAt(span.ops, span.first);
    var start := GroupIsReplayed(log, span.record, k);
    o := start + d;
    SliceOfSlice(Numbers(log, k), start, GroupCommit.Number(record.ops, record.first), d, n, o);
  }

  lemma SliceOfSlice(whole: seq<Numbered>, start: nat, part: seq<Numbered>, d: nat, n: nat, o: nat)
    requires start + |part| <= |whole| && whole[start..start + |part|] == part && d + n <= |part| && o == start + d
    ensures whole[o..o + n] == part[d..d + n]
  {
  }

  /** A file cut short inside a record loses that record alone. */
  lemma TornTail(crc: Crc, records: Records, k: nat, n: nat)
    requires k < |records| && |LogTo(crc, records, k)| <= n < |LogTo(crc, records, k + 1)|
    ensures Complete(crc, records, n, |records|) == k
  {
    var c := Complete(crc, records, n, |records|);
    var ends := Ends(crc, records, |records|);
    forall i, j | 0 <= i <= j < |ends| ensures ends[i] <= ends[j] {
      LogRoundTrip.LogGrows(crc, records, i, j);
    }
    OnlyOneFits(ends, c, k, n);
  }

  lemma OnlyOneFits(ends: seq<nat>, c: nat, k: nat, n: nat)
    requires forall i, j :: 0 <= i <= j < |ends| ==> ends[i] <= ends[j]
    requires c < |ends| && ends[c] <= n && (c + 1 < |ends| ==> n < ends[c + 1])
    requires k + 1 < |ends| && ends[k] <= n < ends[k + 1]
    ensures c == k
  {
  }
}
