/** Recovery from damaged logs: what a paranoid one puts up with, and what any other replays. */
module LogDamage {
  import opened Coding
  import opened RecordLog
  import opened RecordReader
  import opened RecordDamage
  import opened LogRoundTrip
  import opened WriteBatches
  import opened LogRecovery
  import GroupCommit

  /** The updates of a record before the first that cannot be read. */
  function Updates(record: seq<Byte>): seq<Op> {
    if |record| < 12 then [] else ParseAll(ParseOp, record[12..], []).0
  }

  /** The number in the first eight bytes. */
  function FirstNumber(record: seq<Byte>): nat
    requires |record| >= 12
  {
    record[0] as int + 0x100 * record[1] as int + 0x1_0000 * record[2] as int + 0x100_0000 * record[3] as int +
    0x1_0000_0000 * record[4] as int + 0x100_0000_0000 * record[5] as int + 0x1_0000_0000_0000 * record[6] as int +
    0x100_0000_0000_0000 * record[7] as int
  }

  function StatedCount(record: seq<Byte>): nat
    requires |record| >= 12
  {
    record[8] as int + 0x100 * record[9] as int + 0x1_0000 * record[10] as int + 0x100_0000 * record[11] as int
  }

  /** All of it can be read, and there are as many updates as it says. */
  predicate WholeBatch(record: seq<Byte>) {
    |record| >= 12 && ParseAll(ParseOp, record[12..], []).1 == [] && |Updates(record)| == StatedCount(record)
  }

  /** What one record adds. */
  function Added(record: seq<Byte>): seq<Numbered> {
    if |record| < 12 then [] else GroupCommit.Number(Updates(record), FirstNumber(record))
  }

  /** The updates of all records, each under the number its batch gives it. */
  function Replayable(records: Records): seq<Numbered> {
    if records == [] then []
    else
      Replayable(records[..|records| - 1]) + Added(records[|records| - 1])
  }

  lemma NumbersInBatch(record: seq<Byte>)
    requires |record| >= 12
    ensures DecodeFixed64(record[..8]) == FirstNumber(record) && DecodeFixed32(record[8..12]) == StatedCount(record)
  {
    Fixed32Bytes(record[8..12]);
    Fixed64Bytes(record[..8]);
  }

  /** One record: refused exactly if recovery is paranoid and the record is not a whole batch. */
  lemma ReplayCases(paranoid: bool, r: Replayed, record: seq<Byte>)
    requires r.Replayed?
    ensures Replay(paranoid, r, record).Refused? <==> paranoid && !WholeBatch(record)
    ensures Replay(paranoid, r, record).Replayed? ==> Replay(paranoid, r, record).entries == r.entries + Added(record)
  {
    if |record| >= 12 {
      NumbersInBatch(record);
    } else {
      assert r.entries + [] == r.entries;
    }
  }

  predicate AllWhole(records: Records) {
    records == [] || (AllWhole(records[..|records| - 1]) && WholeBatch(records[|records| - 1]))
  }

  lemma {:induction false} AllWholeIs(records: Records)
    ensures AllWhole(records) <==> forall r :: r in records ==> WholeBatch(r)
    decreases |records|
  {
    if records != [] {
      AllWholeIs(records[..|records| - 1]);
      assert records == records[..|records| - 1] + [records[|records| - 1]];
    }
  }

  lemma {:induction false} ReplayAllCases(paranoid: bool, last: nat, records: Records)
    ensures var r := ReplayAll(paranoid, Replayed([], last), records);
            && (r.Refused? <==> paranoid && !AllWhole(records))
            && (r.Replayed? ==> r.entries == Replayable(records))
    decreases |records|
  {
    if records != [] {
      var n := |records| - 1;
      ReplayAllCases(paranoid, last, records[..n]);
      var r := ReplayAll(paranoid, Replayed([], last), records[..n]);
      if r.Replayed? {
        ReplayCases(paranoid, r, records[n]);
      }
    }
  }

  /** On any bytes: recovery replays the updates of the records read, in order, under their numbers; a paranoid one does so only
      if nothing was reported and every record is a whole batch, and gives up otherwise. */
  lemma RecoveryIs(crc: Crc, paranoid: bool, file: seq<Byte>, last: nat)
    ensures var (records, reports) := ReadAll(crc, true, file, 0, [], []);
            var r := Recover(crc, paranoid, file, 0, [], Replayed([], last));
            && (r.Replayed? <==> !paranoid || (reports == [] && forall record :: record in records ==> WholeBatch(record)))
            && (r.Replayed? ==> r.entries == Replayable(records))
  {
    var records := ReadAll(crc, true, file, 0, [], []).0;
    RecoversWhatIsRead(crc, paranoid, file, 0, Replayed([], last), [], []);
    ReplayAllCases(paranoid, last, records);
    AllWholeIs(records);
  }

  lemma LastStep(paranoid: bool, r: Replayed, record: seq<Byte>)
    requires r.Replayed? && Replay(paranoid, r, record).Replayed?
    ensures Replay(paranoid, r, record).last == if |record| >= 12 && LastOf(record) > r.last then LastOf(record) else r.last
  {
  }

  function Larger(a: nat, b: nat): nat {
    if b > a then b else a
  }

  function LastOfRecord(record: seq<Byte>): seq<nat> {
    if |record| < 12 then [] else [LastOf(record)]
  }

  /** The numbers of the last updates of these records, as their batches state them. */
  function LastNumbers(records: Records): seq<nat> {
    if records == [] then []
    else
      LastNumbers(records[..|records| - 1]) + LastOfRecord(records[|records| - 1])
  }

  function Largest(numbers: seq<nat>, start: nat): nat {
    if numbers == [] then start else Larger(Largest(numbers[..|numbers| - 1], start), numbers[|numbers| - 1])
  }

  lemma {:induction false} LargestBounds(numbers: seq<nat>, start: nat)
    ensures var m := Largest(numbers, start);
            m >= start && (m == start || m in numbers) && forall n :: n in numbers ==> n <= m
    decreases |numbers|
  {
    if numbers != [] {
      LargestBounds(numbers[..|numbers| - 1], start);
      assert numbers == numbers[..|numbers| - 1] + [numbers[|numbers| - 1]];
    }
  }

  /** Recovery ends with the largest number it has seen, or what it started with. */
  lemma {:induction false} LastIsLargest(paranoid: bool, last: nat, records: Records)
    requires ReplayAll(paranoid, Replayed([], last), records).Replayed?
    ensures ReplayAll(paranoid, Replayed([], last), records).last == Largest(LastNumbers(records), last)
    decreases |records|
  {
    if records != [] {
      var n := |records| - 1;
      LastIsLargest(paranoid, last, records[..n]);
      LastStep(paranoid, ReplayAll(paranoid, Replayed([], last), records[..n]), records[n]);
      LargestOneMore(LastNumbers(records[..n]), LastOfRecord(records[n]), last);
    }
  }

  lemma LargestOneMore(numbers: seq<nat>, more: seq<nat>, start: nat)
    requires |more| <= 1
    ensures Largest(numbers + more, start) == if more == [] then Largest(numbers, start) else Larger(Largest(numbers, start), more[0])
  {
    assert numbers + [] == numbers;
    if more != [] {
      assert (numbers + more)[..|numbers|] == numbers;
    }
  }

  /** What a paranoid recovery accepts has lost nothing but a record left unfinished at its end: every byte that any fragment
      holds is in one of the records replayed. */
  lemma ParanoidLosesNothing(crc: Crc, file: seq<Byte>, last: nat) returns (unfinished: nat)
    requires Recover(crc, true, file, 0, [], Replayed([], last)).Replayed?
    ensures Total(ReadAll(crc, true, file, 0, [], []).0) + unfinished == HeldBetween(crc, true, file, 0, |file| + 1)
    ensures forall r :: r in ReadAll(crc, true, file, 0, [], []).0 ==> WholeBatch(r) && Delivered(crc, true, file, r)
  {
    RecoveryIs(crc, true, file, last);
    unfinished := AllAccountedFor(crc, true, file, 0, [], []);
    AllAreGenuine(crc, true, file, 0, [], []);
  }
}
