/** The logs of the store, as bytes: what recovery replays from a log file is what the store machine replays from its groups. */
module StoreLogs {
  import opened InternalKeys
  import opened Coding
  import opened RecordLog
  import opened LogRoundTrip
  import opened LogRecovery
  import WriteBatches
  import GroupCommit
  import Store

  /** How the bytes of keys and values are understood: the store only looks at them through the comparator. */
  datatype Reader = Reader(key: seq<Byte> -> UserKey, value: seq<Byte> -> Bytes)

  function AsUpdate(reader: Reader, op: WriteBatches.Op): Store.Update {
    if op.Put? then Store.Put(reader.key(op.key), reader.value(op.value)) else Store.Delete(reader.key(op.key))
  }

  function AsEntry(reader: Reader, n: Numbered): Entry
    requires n.seqno <= MAX_SEQUENCE
  {
    if n.op.Put? then Entry(reader.key(n.op.key), n.seqno, Value, reader.value(n.op.value))
    else Entry(reader.key(n.op.key), n.seqno, Deletion, "")
  }

  function AsUpdates(reader: Reader, ops: seq<WriteBatches.Op>): seq<Store.Update> {
    seq(|ops|, i requires 0 <= i < |ops| => AsUpdate(reader, ops[i]))
  }

  ghost predicate InRange(groups: seq<GroupCommit.LogRecord>) {
    forall i :: 0 <= i < |groups| ==> groups[i].first + |groups[i].ops| <= MAX_SEQUENCE + 1
  }

  /** The groups as the store machine logs them. */
  function AsGroups(reader: Reader, groups: seq<GroupCommit.LogRecord>, k: nat): seq<Store.Group>
    requires k <= |groups| && InRange(groups)
  {
    if k == 0 then []
    else AsGroups(reader, groups, k - 1) + [Store.Assign(AsUpdates(reader, groups[k - 1].ops), groups[k - 1].first)]
  }

  ghost predicate SameEntries(reader: Reader, replayed: seq<Numbered>, es: seq<Entry>) {
    && |replayed| == |es|
    && forall i :: 0 <= i < |es| ==> replayed[i].seqno <= MAX_SEQUENCE && es[i] == AsEntry(reader, replayed[i])
  }

  lemma GroupEntries(reader: Reader, ops: seq<WriteBatches.Op>, first: nat)
    requires first + |ops| <= MAX_SEQUENCE + 1
    ensures SameEntries(reader, GroupCommit.Number(ops, first), Store.Assign(AsUpdates(reader, ops), first))
  {
    NumberAt(ops, first);
  }

  lemma EntriesConcat(reader: Reader, a: seq<Numbered>, es: seq<Entry>, b: seq<Numbered>, fs: seq<Entry>)
    requires SameEntries(reader, a, es) && SameEntries(reader, b, fs)
    ensures SameEntries(reader, a + b, es + fs)
  {
  }

  /** Replaying groups entry by entry and replaying them as the store machine does is the same. */
  lemma {:induction false} SameReplay(reader: Reader, groups: seq<GroupCommit.LogRecord>, k: nat)
    requires k <= |groups| && InRange(groups)
    ensures SameEntries(reader, Numbers(groups, k), Store.FlatRecords(AsGroups(reader, groups, k)))
    decreases k
  {
    if k != 0 {
      var g, most := groups[k - 1], AsGroups(reader, groups, k - 1);
      SameReplay(reader, groups, k - 1);
      GroupEntries(reader, g.ops, g.first);
      EntriesConcat(reader, Numbers(groups, k - 1), Store.FlatRecords(most),
                    GroupCommit.Number(g.ops, g.first), Store.Assign(AsUpdates(reader, g.ops), g.first));
      assert AsGroups(reader, groups, k)[..k - 1] == most by {
        GroupsLength(reader, groups, k - 1);
      }
      GroupsLength(reader, groups, k);
    }
  }

  lemma {:induction false} GroupsLength(reader: Reader, groups: seq<GroupCommit.LogRecord>, k: nat)
    requires k <= |groups| && InRange(groups)
    ensures |AsGroups(reader, groups, k)| == k
    decreases k
  {
    if k != 0 {
      GroupsLength(reader, groups, k - 1);
    }
  }

  /** A log file cut anywhere inside group `k` replays to exactly the entries of the groups before it: the last group is there
      as a whole or not at all. */
  lemma TornLogReplays(reader: Reader, crc: Crc, paranoid: bool, records: Records, groups: seq<GroupCommit.LogRecord>,
                       file: seq<Byte>, k: nat, last: nat)
    requires AreBatches(records, groups) && InRange(groups) && file <= Log(crc, records)
    requires k <= |records| && |LogTo(crc, records, k)| <= |file| && (k < |records| ==> |file| < |LogTo(crc, records, k + 1)|)
    ensures var r := Recover(crc, paranoid, file, 0, [], Replayed([], last));
            r.Replayed? && SameEntries(reader, r.entries, Store.FlatRecords(AsGroups(reader, groups, k)))
  {
    if k < |records| {
      TornTail(crc, records, k, |file|);
    } else {
      WholeFile(crc, records, |file|);
    }
    RecoversCompleteGroups(crc, paranoid, records, groups, file, last);
    SameReplay(reader, groups, k);
  }

  lemma WholeFile(crc: Crc, records: Records, n: nat)
    requires |LogTo(crc, records, |records|)| <= n
    ensures Complete(crc, records, n, |records|) == |records|
  {
  }
}
