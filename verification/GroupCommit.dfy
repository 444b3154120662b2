/** Group commit: writers queue up, the first one logs and applies a group for several of them. */
module GroupCommit {
  import opened Values
  import opened WriteBatches

  /** A null batch asks for a new memtable only. */
  datatype Payload = NoPayload | Payload(ops: seq<Op>)

  /** One call of Write. */
  datatype Writer = Writer(id: nat, batch: Payload, sync: bool) {
    function Ops(): seq<Op> {
      if batch.Payload? then batch.ops else []
    }

    function Size(): nat {
      if batch.Payload? then HEADER + |EncodeOps(batch.ops)| else 0
    }
  }

  // ---------------------------------------------------------------------------------------------
  // BuildBatchGroup
  // ---------------------------------------------------------------------------------------------

  /** The updates of the first `k` writers, one after the other. */
  function OpsOf(queue: seq<Writer>, k: nat): seq<Op>
    requires k <= |queue|
    decreases k
  {
    if k == 0 then [] else OpsOf(queue, k - 1) + queue[k - 1].Ops()
  }

  function SizeOf(queue: seq<Writer>, k: nat): nat
    requires k <= |queue|
    decreases k
  {
    if k == 0 then 0 else SizeOf(queue, k - 1) + queue[k - 1].Size()
  }

  /** A small first write limits how far its group may grow. */
  function MaxSize(first: nat): nat {
    if first <= 0x2_0000 then first + 0x2_0000 else 0x10_0000
  }

  /** Request `k` may not join the group of the `k` requests before it. */
  predicate Stops(queue: seq<Writer>, k: nat)
    requires 0 < k < |queue|
  {
    || (queue[k].sync && !queue[0].sync)
    || (queue[k].batch.Payload? && SizeOf(queue, k + 1) > MaxSize(queue[0].Size()))
  }

  /** `members` is how far the group reaches: up to the first request that may not join. */
  predicate GroupOf(queue: seq<Writer>, members: nat) {
    && 1 <= members <= |queue|
    && (forall k :: 1 <= k < members ==> !Stops(queue, k))
    && (members < |queue| ==> Stops(queue, members))
  }

  /** No request behind the first asks for a sync that the first does not ask for. */
  predicate NoStrangeSync(queue: seq<Writer>, k: nat)
    requires k <= |queue|
  {
    forall m :: 1 <= m < k && queue[m].sync ==> queue[0].sync
  }

  lemma {:induction false} SizeGrows(queue: seq<Writer>, j: nat, k: nat)
    requires j <= k <= |queue|
    ensures SizeOf(queue, j) <= SizeOf(queue, k)
    decreases k
  {
    if j < k {
      SizeGrows(queue, j, k - 1);
    }
  }

  /** As many requests as fit are in the group: up to 128 KB more than a leader of up to 128 KB, and up to 1 MB with a larger
      one. */
  lemma TakesWhatFits(queue: seq<Writer>, members: nat, k: nat)
    requires GroupOf(queue, members) && 1 <= k <= |queue| && NoStrangeSync(queue, k)
    ensures SizeOf(queue, k) <= (if queue[0].Size() <= 131072 then queue[0].Size() + 131072 else 1048576) ==> members >= k
  {
    if members < k {
      SizeGrows(queue, members + 1, k);
    }
  }

  /** And no more than that: a member with updates still fits. */
  lemma TakesNoMore(queue: seq<Writer>, members: nat, k: nat)
    requires GroupOf(queue, members) && 2 <= k <= members && queue[k - 1].batch.Payload?
    ensures SizeOf(queue, k) <= if queue[0].Size() <= 131072 then queue[0].Size() + 131072 else 1048576
    ensures queue[k - 1].sync ==> queue[0].sync
  {
    assert !Stops(queue, k - 1);
  }

  lemma OneMoreMember(queue: seq<Writer>, k: nat, group: seq<Op>)
    requires k < |queue| && Same(group, OpsOf(queue, k))
    ensures SizeOf(queue, k + 1) == SizeOf(queue, k) + queue[k].Size()
    ensures Same(if queue[k].batch.Payload? then group + queue[k].batch.ops else group, OpsOf(queue, k + 1))
  {
    assert group + [] == group;
  }

  method BuildBatchGroup(queue: seq<Writer>) returns (members: nat, group: seq<Op>)
    requires queue != [] && queue[0].batch.Payload?
    ensures GroupOf(queue, members) && group == OpsOf(queue, members)
  {
    var first := queue[0];
    var size := first.Size();
    var maxSize := 0x10_0000;
    if size <= 0x2_0000 {
      maxSize := size + 0x2_0000;
    }
    group, members := first.batch.ops, 1;
    OneMoreMember(queue, 0, []);
    assert [] + group == group;
    while members < |queue|
      invariant 1 <= members <= |queue|
      invariant size == SizeOf(queue, members) && Same(group, OpsOf(queue, members))
      invariant forall k :: 1 <= k < members ==> !Stops(queue, k)
    {
      var w := queue[members];
      OneMoreMember(queue, members, group);
      if w.sync && !first.sync {
        break;
      }
      if w.batch.Payload? {
        size := size + w.Size();
        if size > maxSize {
          break;
        }
        group := group + w.batch.ops;
      }
      members := members + 1;
    }
  }

  /** A sync writer is never covered by a leader that does not sync. */
  lemma SyncNotCovered(queue: seq<Writer>, members: nat, k: nat)
    requires GroupOf(queue, members) && k < members && queue[k].sync
    ensures queue[0].sync
  {
    assert k > 0 ==> !Stops(queue, k);
  }

  // ---------------------------------------------------------------------------------------------
  // The state machine
  // ---------------------------------------------------------------------------------------------

  datatype Stage = Built | Logged | Synced | Inserted | GaveUp

  datatype Phase =
    | Waiting
    | MakingRoom
    | Logging(members: nat, group: seq<Op>, stage: Stage)
    | Finished(ok: bool)

  datatype LogRecord = LogRecord(first: nat, ops: seq<Op>, synced: bool)

  datatype Numbered = Numbered(seqno: nat, op: Op)

  /** What became of a writer that has left the queue: its sequence numbers, and the log record that holds its updates. */
  datatype Span = Span(writer: Writer, first: nat, ops: seq<Op>, ok: bool, record: nat)

  datatype State = State(
    phases: map<Writer, Phase>,
    arrived: seq<Writer>,      // in the order in which they queued up
    queue: seq<Writer>,
    last: nat,
    log: seq<LogRecord>,
    mem: seq<Numbered>,
    broken: bool,              // a sync has failed
    spans: seq<Span>           // of the writers that have left the queue
  )

  datatype Action =
    | Arrive(w: Writer)
    | Lead(w: Writer)
    | RoomFails(w: Writer)
    | RoomForNothing(w: Writer)
    | Build(w: Writer, members: nat)
    | AddRecord(w: Writer)
    | AddRecordFails(w: Writer)
    | Sync(w: Writer)
    | SyncFails(w: Writer)
    | Insert(w: Writer)
    | Complete(w: Writer)

  function Number(ops: seq<Op>, first: nat): seq<Numbered> {
    if ops == [] then [] else Number(ops[..|ops| - 1], first) + [Numbered(first + |ops| - 1, ops[|ops| - 1])]
  }

  /** The spans of the first `k` writers as a group that starts at `first`. */
  function SpansOf(queue: seq<Writer>, k: nat, first: nat, ok: bool, record: nat): (r: seq<Span>)
    requires k <= |queue|
    ensures |r| == k
    decreases k
  {
    if k == 0 then []
    else
      SpansOf(queue, k - 1, first, ok, record) +
      [Span(queue[k - 1], first + |OpsOf(queue, k - 1)|, queue[k - 1].Ops(), ok, record)]
  }

  predicate InStage(s: State, w: Writer, stage: Stage) {
    w in s.phases && s.phases[w].Logging? && s.phases[w].stage == stage
  }

  predicate Making(s: State, w: Writer) {
    w in s.phases && s.phases[w].MakingRoom? && s.queue != []
  }

  predicate MayComplete(s: State, w: Writer) {
    (InStage(s, w, Inserted) || InStage(s, w, GaveUp)) && s.phases[w].members <= |s.queue|
  }

  ghost predicate Enabled(s: State, a: Action) {
    match a
    case Arrive(w) => w !in s.arrived
    case Lead(w) => s.queue != [] && s.queue[0] == w && w in s.phases && s.phases[w].Waiting?
    case RoomFails(w) => Making(s, w)
    case RoomForNothing(w) => Making(s, w) && w.batch.NoPayload? && !s.broken
    case Build(w, members) => Making(s, w) && w.batch.Payload? && !s.broken && GroupOf(s.queue, members)
    case AddRecord(w) => InStage(s, w, Built)
    case AddRecordFails(w) => InStage(s, w, Built)
    case Sync(w) => InStage(s, w, Logged) && w.sync && s.log != []
    case SyncFails(w) => InStage(s, w, Logged) && w.sync
    case Insert(w) => InStage(s, w, if w.sync then Synced else Logged)
    case Complete(w) => MayComplete(s, w)
  }

  function Advance(s: State, w: Writer, stage: Stage): State
    requires w in s.phases && s.phases[w].Logging?
  {
    s.(phases := s.phases[w := s.phases[w].(stage := stage)])
  }

  /** The head leaves the queue alone, without a group. */
  function Leave(s: State, w: Writer, ok: bool): State
    requires s.queue != []
  {
    s.(phases := s.phases[w := Finished(ok)], queue := s.queue[1..], spans := s.spans + [Span(w, s.last + 1, [], ok, 0)])
  }

  function Marked(phases: map<Writer, Phase>, group: seq<Writer>, ok: bool): map<Writer, Phase> {
    map w | w in phases :: if w in group then Finished(ok) else phases[w]
  }

  /** The spans with which a group completes. */
  function News(s: State, w: Writer): seq<Span>
    requires MayComplete(s, w)
  {
    SpansOf(s.queue, s.phases[w].members, s.last + 1, s.phases[w].stage == Inserted, LastRecord(s))
  }

  function LastRecord(s: State): nat {
    if |s.log| > 0 then |s.log| - 1 else 0
  }

  /** All members of the group leave the queue with the leader's status. */
  function Completed(s: State, w: Writer): State
    requires MayComplete(s, w)
  {
    var p := s.phases[w];
    s.(last := s.last + |p.group|, queue := s.queue[p.members..], spans := s.spans + News(s, w),
       phases := Marked(s.phases, s.queue[..p.members], p.stage == Inserted))
  }

  ghost function Next(s: State, a: Action): State
    requires Enabled(s, a)
  {
    match a
    case Arrive(w) => s.(phases := s.phases[w := Waiting], arrived := s.arrived + [w], queue := s.queue + [w])
    case Lead(w) => s.(phases := s.phases[w := MakingRoom])
    case RoomFails(w) => Leave(s, w, false)
    case RoomForNothing(w) => Leave(s, w, true)
    case Build(w, members) => s.(phases := s.phases[w := Logging(members, OpsOf(s.queue, members), Built)])
    case AddRecord(w) => Advance(s, w, Logged).(log := s.log + [LogRecord(s.last + 1, s.phases[w].group, false)])
    case AddRecordFails(w) => Advance(s, w, GaveUp)
    case Sync(w) => Advance(s, w, Synced).(log := s.log[|s.log| - 1 := s.log[|s.log| - 1].(synced := true)])
    case SyncFails(w) => Advance(s, w, GaveUp).(broken := true)
    case Insert(w) => Advance(s, w, Inserted).(mem := s.mem + Number(s.phases[w].group, s.last + 1))
    case Complete(w) => Completed(s, w)
  }

  // ---------------------------------------------------------------------------------------------
  // The invariant
  // ---------------------------------------------------------------------------------------------

  /** The updates of the writers that succeeded, one writer after the other. */
  function Applied(spans: seq<Span>): seq<Numbered> {
    if spans == [] then []
    else
      var n := |spans| - 1;
      Applied(spans[..n]) + if spans[n].ok then Number(spans[n].ops, spans[n].first) else []
  }

  /** Sequence numbers are handed out without gap or overlap, in the order of the queue. */
  ghost predicate Contiguous(spans: seq<Span>, next: nat) {
    forall i :: 0 <= i < |spans| ==> Joins(spans, i, next)
  }

  predicate Joins(spans: seq<Span>, i: nat, next: nat)
    requires i < |spans|
  {
    spans[i].first + |spans[i].ops| == if i + 1 < |spans| then spans[i + 1].first else next
  }

  /** No writer is lost or duplicated, and they leave the queue in the order in which they came. */
  ghost predicate Order(s: State) {
    && |s.arrived| == |s.spans| + |s.queue|
    && (forall i :: 0 <= i < |s.spans| ==> s.spans[i].writer == s.arrived[i])
    && (forall i :: 0 <= i < |s.queue| ==> s.queue[i] == s.arrived[|s.spans| + i])
    && (forall i, j :: 0 <= i < j < |s.arrived| ==> s.arrived[i] != s.arrived[j])
    && (forall i :: 0 <= i < |s.arrived| ==> s.arrived[i] in s.phases)
  }

  /** At most one writer leads, and it is the first of the queue. */
  ghost predicate OneLeader(s: State) {
    && (forall i :: 1 <= i < |s.queue| ==> s.queue[i] in s.phases && s.phases[s.queue[i]].Waiting?)
    && (forall w :: w in s.phases && (s.phases[w].MakingRoom? || s.phases[w].Logging?) ==> s.queue != [] && w == s.queue[0])
    && (forall i :: 0 <= i < |s.spans| ==> s.spans[i].writer in s.phases && s.phases[s.spans[i].writer] == Finished(s.spans[i].ok))
  }

  ghost predicate Numbering(s: State) {
    Contiguous(s.spans, s.last + 1) && if s.spans == [] then s.last == 0 else s.spans[0].first == 1
  }

  /** Somebody is logging a group. */
  predicate Busy(s: State) {
    s.queue != [] && s.queue[0] in s.phases && s.phases[s.queue[0]].Logging?
  }

  ghost predicate GroupInv(s: State) {
    Busy(s) ==>
      var w := s.queue[0];
      var p := s.phases[w];
      && 1 <= p.members <= |s.queue| && w.batch.Payload?
      && (forall k :: 0 <= k < p.members ==> s.queue[k].sync ==> w.sync)
      && Same(p.group, OpsOf(s.queue, p.members))
      && (p.stage in {Logged, Synced, Inserted} ==>
            s.log != [] && Same(s.log[|s.log| - 1], LogRecord(s.last + 1, p.group, p.stage != Logged && w.sync)))
  }

  /** The updates of the writers that succeeded, in order, and those of the group that has just been inserted. */
  ghost predicate MemInv(s: State) {
    if Busy(s) && s.phases[s.queue[0]].stage == Inserted
    then Same(s.mem, Applied(s.spans) + Number(s.phases[s.queue[0]].group, s.last + 1))
    else Same(s.mem, Applied(s.spans))
  }

  /** The log record holds the updates of the writer. */
  ghost predicate Holds(record: LogRecord, span: Span) {
    && record.first <= span.first && span.first - record.first + |span.ops| <= |record.ops|
    && Same(record.ops[span.first - record.first..][..|span.ops|], span.ops)
  }

  ghost predicate Accounted(log: seq<LogRecord>, span: Span) {
    && (Same(span.ops, span.writer.Ops()) || (!span.ok && span.ops == []))
    && (span.ok && span.writer.batch.Payload? ==>
          span.record < |log| && Holds(log[span.record], span) && (span.writer.sync ==> log[span.record].synced))
  }

  ghost predicate SpansInv(s: State) {
    forall i :: 0 <= i < |s.spans| ==> Accounted(s.log, s.spans[i])
  }

  ghost predicate Inv(s: State) {
    Order(s) && OneLeader(s) && Numbering(s) && GroupInv(s) && MemInv(s) && SpansInv(s)
  }

  // ---------------------------------------------------------------------------------------------
  // Arriving
  // ---------------------------------------------------------------------------------------------

  /** A newcomer is nobody who has been seen before. */
  lemma Newcomer(s: State, w: Writer)
    requires Order(s) && w !in s.arrived
    ensures forall i :: 0 <= i < |s.queue| ==> s.queue[i] != w
    ensures forall i :: 0 <= i < |s.spans| ==> s.spans[i].writer != w
  {
  }

  lemma ArriveOrder(s: State, w: Writer)
    requires Order(s) && OneLeader(s) && Enabled(s, Arrive(w))
    ensures Order(Next(s, Arrive(w))) && OneLeader(Next(s, Arrive(w)))
  {
    Newcomer(s, w);
  }

  lemma {:induction false} SameOps(queue: seq<Writer>, longer: seq<Writer>, k: nat)
    requires k <= |queue| && queue <= longer
    ensures Same(OpsOf(queue, k), OpsOf(longer, k))
    decreases k
  {
    if k > 0 {
      SameOps(queue, longer, k - 1);
    }
  }

  /** The group being logged is not touched. */
  lemma ArriveGroup(s: State, w: Writer)
    requires Order(s) && GroupInv(s) && MemInv(s) && Enabled(s, Arrive(w))
    ensures GroupInv(Next(s, Arrive(w))) && MemInv(Next(s, Arrive(w)))
  {
    var s' := Next(s, Arrive(w));
    Newcomer(s, w);
    if Busy(s') {
      assert s.queue != [] && s'.queue[0] == s.queue[0];
      var p := s.phases[s.queue[0]];
      SameOps(s.queue, s'.queue, p.members);
    }
  }

  lemma ArriveKeeps(s: State, w: Writer)
    requires Inv(s) && Enabled(s, Arrive(w))
    ensures Inv(Next(s, Arrive(w)))
  {
    ArriveOrder(s, w);
    ArriveGroup(s, w);
  }

  // ---------------------------------------------------------------------------------------------
  // Leading and logging
  // ---------------------------------------------------------------------------------------------

  /** Only the phase of the first writer, the log, the memtable and the error flag differ. */
  ghost predicate HeadMoves(s: State, s': State, p: Phase) {
    && s.queue != [] && s'.phases == s.phases[s.queue[0] := p] && !p.Finished?
    && s'.arrived == s.arrived && s'.queue == s.queue && s'.last == s.last && s'.spans == s.spans
  }

  lemma HeadMovesKeeps(s: State, s': State, p: Phase)
    requires Order(s) && OneLeader(s) && Numbering(s) && HeadMoves(s, s', p)
    ensures Order(s') && OneLeader(s') && Numbering(s')
  {
    assert s.queue[0] == s.arrived[|s.spans|];
  }

  /** Log records stay, and stay synced. */
  ghost predicate LogGrows(log: seq<LogRecord>, log': seq<LogRecord>) {
    |log| <= |log'| && forall i :: 0 <= i < |log| ==> log'[i] == log[i] || log'[i] == log[i].(synced := true)
  }

  lemma SpansStay(s: State, s': State)
    requires SpansInv(s) && s'.spans == s.spans && LogGrows(s.log, s'.log)
    ensures SpansInv(s')
  {
    forall i | 0 <= i < |s.spans| ensures Accounted(s'.log, s'.spans[i]) {
      assert Accounted(s.log, s.spans[i]);
    }
  }

  lemma LeaderIsFirst(s: State, w: Writer)
    requires OneLeader(s) && w in s.phases && (s.phases[w].MakingRoom? || s.phases[w].Logging?)
    ensures s.queue != [] && w == s.queue[0]
  {
  }

  lemma LeadKeeps(s: State, w: Writer)
    requires Inv(s) && Enabled(s, Lead(w))
    ensures Inv(Next(s, Lead(w)))
  {
    HeadMovesKeeps(s, Next(s, Lead(w)), MakingRoom);
    SpansStay(s, Next(s, Lead(w)));
  }

  lemma BuildKeeps(s: State, w: Writer, members: nat)
    requires Inv(s) && Enabled(s, Build(w, members))
    ensures Inv(Next(s, Build(w, members)))
  {
    var s' := Next(s, Build(w, members));
    LeaderIsFirst(s, w);
    HeadMovesKeeps(s, s', s'.phases[w]);
    SpansStay(s, s');
    forall k | 0 <= k < members && s.queue[k].sync ensures w.sync {
      SyncNotCovered(s.queue, members, k);
    }
  }

  /** Steps of the group being logged. */
  lemma StageKeeps(s: State, a: Action)
    requires Inv(s) && Enabled(s, a) && (a.AddRecord? || a.AddRecordFails? || a.Sync? || a.SyncFails? || a.Insert?)
    ensures Inv(Next(s, a))
  {
    var s' := Next(s, a);
    LeaderIsFirst(s, a.w);
    HeadMovesKeeps(s, s', s'.phases[a.w]);
    SpansStay(s, s');
    StageGroup(s, a);
  }

  lemma StageGroup(s: State, a: Action)
    requires OneLeader(s) && GroupInv(s) && MemInv(s) && Enabled(s, a)
    requires a.AddRecord? || a.AddRecordFails? || a.Sync? || a.SyncFails? || a.Insert?
    ensures GroupInv(Next(s, a)) && MemInv(Next(s, a))
  {
    LeaderIsFirst(s, a.w);
  }

  // ---------------------------------------------------------------------------------------------
  // Leaving the queue
  // ---------------------------------------------------------------------------------------------

  lemma {:induction false} OpsOfPrefix(queue: seq<Writer>, n: nat, k: nat)
    requires n <= k <= |queue|
    ensures OpsOf(queue, n) <= OpsOf(queue, k)
    decreases k - n
  {
    if n < k {
      OpsOfPrefix(queue, n, k - 1);
      PrefixOfMore(OpsOf(queue, n), OpsOf(queue, k - 1), queue[k - 1].Ops());
    }
  }

  lemma PrefixOfMore<T>(a: seq<T>, b: seq<T>, c: seq<T>)
    requires a <= b
    ensures a <= b + c
  {
  }

  /** The spans of a group, one by one. */
  lemma {:induction false} SpansOfAt(queue: seq<Writer>, k: nat, first: nat, ok: bool, record: nat, i: nat)
    requires i < k <= |queue|
    ensures Same(SpansOf(queue, k, first, ok, record)[i], Span(queue[i], first + |OpsOf(queue, i)|, queue[i].Ops(), ok, record))
    decreases k
  {
    if i < k - 1 {
      SpansOfAt(queue, k - 1, first, ok, record, i);
    }
  }

  lemma {:induction false} NumberConcat(a: seq<Op>, b: seq<Op>, first: nat)
    ensures Same(Number(a + b, first), Number(a, first) + Number(b, first + |a|))
    decreases |b|
  {
    if b == [] {
      assert a + b == a && Number(a, first) + [] == Number(a, first);
    } else {
      var n := |b| - 1;
      NumberConcat(a, b[..n], first);
      assert (a + b)[..|a + b| - 1] == a + b[..n];
      ConcatAssociates(Number(a, first), Number(b[..n], first + |a|), [Numbered(first + |a| + n, b[n])]);
    }
  }

  /** The updates of the members, numbered one after the other, are those of the group. */
  lemma {:induction false} SpansOfApplied(queue: seq<Writer>, k: nat, first: nat, record: nat)
    requires k <= |queue|
    ensures Same(Applied(SpansOf(queue, k, first, true, record)), Number(OpsOf(queue, k), first))
    decreases k
  {
    if k > 0 {
      SpansOfApplied(queue, k - 1, first, record);
      var before, ops := SpansOf(queue, k - 1, first, true, record), OpsOf(queue, k - 1);
      var span := Span(queue[k - 1], first + |ops|, queue[k - 1].Ops(), true, record);
      assert Same(SpansOf(queue, k, first, true, record), before + [span]);
      assert Same(OpsOf(queue, k), ops + span.ops);
      OneMore(before, span, ops, first);
    }
  }

  lemma OneMore(spans: seq<Span>, span: Span, ops: seq<Op>, first: nat)
    requires Same(Applied(spans), Number(ops, first)) && span.ok && span.first == first + |ops|
    ensures Same(Applied(spans + [span]), Number(ops + span.ops, first))
  {
    AppliedStep(spans, span);
    NumberConcat(ops, span.ops, first);
  }

  lemma {:induction false} FailedNotApplied(queue: seq<Writer>, k: nat, first: nat, record: nat)
    requires k <= |queue|
    ensures Applied(SpansOf(queue, k, first, false, record)) == []
    decreases k
  {
    if k > 0 {
      FailedNotApplied(queue, k - 1, first, record);
      AppliedStep(SpansOf(queue, k - 1, first, false, record),
                  Span(queue[k - 1], first + |OpsOf(queue, k - 1)|, queue[k - 1].Ops(), false, record));
    }
  }

  lemma AppliedStep(spans: seq<Span>, span: Span)
    ensures Same(Applied(spans + [span]), if span.ok then Applied(spans) + Number(span.ops, span.first) else Applied(spans))
  {
    assert (spans + [span])[..|spans|] == spans;
    assert Applied(spans) + [] == Applied(spans);
  }

  lemma {:induction false} AppliedConcat(a: seq<Span>, b: seq<Span>)
    ensures Same(Applied(a + b), Applied(a) + Applied(b))
    decreases |b|
  {
    if b == [] {
      assert a + b == a && Applied(a) + [] == Applied(a);
    } else {
      var n := |b| - 1;
      AppliedConcat(a, b[..n]);
      assert (a + b)[..|a + b| - 1] == a + b[..n];
      ConcatAssociates(Applied(a), Applied(b[..n]), if b[n].ok then Number(b[n].ops, b[n].first) else []);
    }
  }

  ghost predicate Settled(phases: map<Writer, Phase>, phases': map<Writer, Phase>, group: seq<Writer>, ok: bool) {
    && (forall w :: w in phases <==> w in phases')
    && (forall w :: w in phases ==> phases'[w] == if w in group then Finished(ok) else phases[w])
  }

  /** The first writers of the queue have left it, all with the same result. */
  ghost predicate Pops(s: State, s': State, k: nat, news: seq<Span>, ok: bool) {
    && 1 <= k == |news| <= |s.queue| && Same(s'.queue, s.queue[k..]) && Same(s'.spans, s.spans + news)
    && s'.arrived == s.arrived && s'.log == s.log
    && (forall i :: 0 <= i < k ==> news[i].writer == s.queue[i] && news[i].ok == ok)
    && Settled(s.phases, s'.phases, s.queue[..k], ok)
  }

  lemma PopsOrder(s: State, s': State, k: nat, news: seq<Span>, ok: bool)
    requires Order(s) && OneLeader(s) && Pops(s, s', k, news, ok)
    ensures Order(s')
  {
    forall i | 0 <= i < |s'.spans| ensures s'.spans[i].writer == s'.arrived[i] {
      if i >= |s.spans| {
        assert s'.spans[i] == news[i - |s.spans|];
        assert s.queue[i - |s.spans|] == s.arrived[i];
      }
    }
    forall i | 0 <= i < |s'.queue| ensures s'.queue[i] == s'.arrived[|s'.spans| + i] {
      assert s'.queue[i] == s.queue[k + i];
    }
  }

  lemma PopsLeader(s: State, s': State, k: nat, news: seq<Span>, ok: bool)
    requires Order(s) && OneLeader(s) && Pops(s, s', k, news, ok)
    ensures OneLeader(s') && !Busy(s')
  {
    forall i | 0 <= i < |s'.queue| ensures s'.queue[i] in s'.phases && s'.phases[s'.queue[i]].Waiting? {
      StillQueued(s, k, i);
      assert s'.queue[i] == s.queue[k + i];
    }
    assert s.queue[0] in s.queue[..k] by {
      assert s.queue[..k][0] == s.queue[0];
    }
    forall i | 0 <= i < |s'.spans|
      ensures s'.spans[i].writer in s'.phases && s'.phases[s'.spans[i].writer] == Finished(s'.spans[i].ok)
    {
      if i < |s.spans| {
        LeftBefore(s, k, i);
        assert s'.spans[i] == s.spans[i];
      } else {
        var j := i - |s.spans|;
        assert s'.spans[i] == news[j];
        assert s.queue[..k][j] == s.queue[j] == s.arrived[i];
      }
    }
  }

  lemma StillQueued(s: State, k: nat, i: nat)
    requires Order(s) && k + i < |s.queue|
    ensures s.queue[k + i] !in s.queue[..k]
  {
    forall j | 0 <= j < k ensures s.queue[j] != s.queue[k + i] {
      assert s.arrived[|s.spans| + j] != s.arrived[|s.spans| + (k + i)];
    }
  }

  lemma LeftBefore(s: State, k: nat, i: nat)
    requires Order(s) && k <= |s.queue| && i < |s.spans|
    ensures s.spans[i].writer !in s.queue[..k]
  {
    forall j | 0 <= j < k ensures s.queue[j] != s.spans[i].writer {
      assert s.arrived[i] != s.arrived[|s.spans| + j];
    }
  }

  lemma ContiguousConcat(a: seq<Span>, mid: nat, b: seq<Span>, last: nat)
    requires Contiguous(a, mid) && Contiguous(b, last) && b != [] && b[0].first == mid
    ensures Contiguous(a + b, last)
  {
    var all := a + b;
    forall i | 0 <= i < |all| ensures Joins(all, i, last) {
      if i < |a| {
        assert Joins(a, i, mid);
        assert i + 1 == |a| ==> all[i + 1] == b[0];
      } else {
        assert Joins(b, i - |a|, last);
      }
    }
  }

  lemma NumberingGrows(s: State, s': State, news: seq<Span>)
    requires Numbering(s) && Same(s'.spans, s.spans + news) && Contiguous(news, s'.last + 1) && news != [] && news[0].first == s.last + 1
    ensures Numbering(s')
  {
    ContiguousConcat(s.spans, s.last + 1, news, s'.last + 1);
  }

  lemma SpansGrow(s: State, s': State, news: seq<Span>)
    requires SpansInv(s) && s'.log == s.log && Same(s'.spans, s.spans + news)
    requires forall i :: 0 <= i < |news| ==> Accounted(s.log, news[i])
    ensures SpansInv(s')
  {
    forall i | 0 <= i < |s'.spans| ensures Accounted(s'.log, s'.spans[i]) {
      if i < |s.spans| {
        assert s'.spans[i] == s.spans[i];
      } else {
        assert s'.spans[i] == news[i - |s.spans|];
      }
    }
  }

  lemma MemAfter(mem: seq<Numbered>, spans: seq<Span>, news: seq<Span>, group: seq<Op>, first: nat, ok: bool)
    requires if ok then Same(mem, Applied(spans) + Number(group, first)) else Same(mem, Applied(spans))
    requires Same(Applied(news), if ok then Number(group, first) else [])
    ensures Same(mem, Applied(spans + news))
  {
    AppliedConcat(spans, news);
    assert Applied(spans) + [] == Applied(spans);
  }

  lemma LeavePops(s: State, w: Writer, ok: bool)
    requires OneLeader(s) && Making(s, w)
    ensures Pops(s, Leave(s, w, ok), 1, [Span(w, s.last + 1, [], ok, 0)], ok)
  {
    LeaderIsFirst(s, w);
    assert s.queue[..1] == [w];
  }

  lemma LeaveMem(s: State, w: Writer, ok: bool)
    requires OneLeader(s) && MemInv(s) && Making(s, w) && !Busy(Leave(s, w, ok))
    ensures MemInv(Leave(s, w, ok))
  {
    var news := [Span(w, s.last + 1, [], ok, 0)];
    LeaderIsFirst(s, w);
    assert news[..0] == [] && Applied(news) == [];
    MemAfter(s.mem, s.spans, news, [], 0, false);
  }

  lemma LeaveKeeps(s: State, w: Writer, ok: bool)
    requires Inv(s) && Making(s, w) && (ok ==> w.batch.NoPayload?)
    ensures Inv(Leave(s, w, ok))
  {
    var s' := Leave(s, w, ok);
    var news := [Span(w, s.last + 1, [], ok, 0)];
    LeavePops(s, w, ok);
    PopsOrder(s, s', 1, news, ok);
    PopsLeader(s, s', 1, news, ok);
    LeaveMem(s, w, ok);
    NumberingGrows(s, s', news);
    assert Accounted(s.log, news[0]);
    SpansGrow(s, s', news);
  }

  // ---------------------------------------------------------------------------------------------
  // Completing a group
  // ---------------------------------------------------------------------------------------------

  lemma SpansOfShape(queue: seq<Writer>, k: nat, first: nat, ok: bool, record: nat)
    requires k <= |queue|
    ensures forall i :: 0 <= i < k ==>
              SpansOf(queue, k, first, ok, record)[i].writer == queue[i] && SpansOf(queue, k, first, ok, record)[i].ok == ok
  {
    forall i | 0 <= i < k
      ensures SpansOf(queue, k, first, ok, record)[i].writer == queue[i] && SpansOf(queue, k, first, ok, record)[i].ok == ok
    {
      SpansOfAt(queue, k, first, ok, record, i);
    }
  }

  lemma SpansOfContiguous(queue: seq<Writer>, k: nat, first: nat, ok: bool, record: nat, spans: seq<Span>, next: nat)
    requires 0 < k <= |queue| && Same(spans, SpansOf(queue, k, first, ok, record)) && next == first + |OpsOf(queue, k)|
    ensures spans[0].first == first && Contiguous(spans, next)
  {
    SpansOfAt(queue, k, first, ok, record, 0);
    forall i | 0 <= i < |spans| ensures Joins(spans, i, next) {
      SpansOfAt(queue, k, first, ok, record, i);
      assert OpsOf(queue, i + 1) == OpsOf(queue, i) + queue[i].Ops();
      if i + 1 < k {
        SpansOfAt(queue, k, first, ok, record, i + 1);
      }
    }
  }

  /** The spans of a group that has been logged are held by its record. */
  lemma MemberHeld(log: seq<LogRecord>, queue: seq<Writer>, k: nat, first: nat, i: nat)
    requires i < k <= |queue| && log != [] && log[|log| - 1].first == first && Same(log[|log| - 1].ops, OpsOf(queue, k))
    requires queue[i].sync ==> log[|log| - 1].synced
    ensures Accounted(log, SpansOf(queue, k, first, true, |log| - 1)[i])
  {
    var a, b := OpsOf(queue, i), queue[i].Ops();
    SpansOfAt(queue, k, first, true, |log| - 1, i);
    assert Same(OpsOf(queue, i + 1), a + b);
    OpsOfPrefix(queue, i + 1, k);
    HeldMiddle(log[|log| - 1], Span(queue[i], first + |a|, b, true, |log| - 1), a);
  }

  lemma HeldMiddle(record: LogRecord, span: Span, a: seq<Op>)
    requires span.first == record.first + |a| && a + span.ops <= record.ops
    ensures Holds(record, span)
  {
    assert record.ops[..|a + span.ops|] == a + span.ops;
    assert record.ops[|a|..][..|span.ops|] == (a + span.ops)[|a|..];
    assert (a + span.ops)[|a|..] == span.ops;
  }

  lemma MarkedIs(phases: map<Writer, Phase>, group: seq<Writer>, ok: bool)
    ensures Settled(phases, Marked(phases, group, ok), group, ok)
  {
  }

  lemma CompletePops(s: State, w: Writer)
    requires OneLeader(s) && MayComplete(s, w) && 1 <= s.phases[w].members
    ensures Pops(s, Completed(s, w), s.phases[w].members, News(s, w), s.phases[w].stage == Inserted)
  {
    var p := s.phases[w];
    SpansOfShape(s.queue, p.members, s.last + 1, p.stage == Inserted, LastRecord(s));
    MarkedIs(s.phases, s.queue[..p.members], p.stage == Inserted);
  }

  lemma CompleteNumbering(s: State, w: Writer)
    requires OneLeader(s) && GroupInv(s) && Numbering(s) && MayComplete(s, w)
    ensures Numbering(Completed(s, w))
  {
    LeaderIsFirst(s, w);
    var p := s.phases[w];
    SpansOfContiguous(s.queue, p.members, s.last + 1, p.stage == Inserted, LastRecord(s), News(s, w), s.last + |p.group| + 1);
    NumberingGrows(s, Completed(s, w), News(s, w));
  }

  lemma GroupApplied(mem: seq<Numbered>, spans: seq<Span>, queue: seq<Writer>, k: nat, group: seq<Op>, first: nat, ok: bool, record: nat)
    requires k <= |queue| && Same(group, OpsOf(queue, k))
    requires if ok then Same(mem, Applied(spans) + Number(group, first)) else Same(mem, Applied(spans))
    ensures Same(mem, Applied(spans + SpansOf(queue, k, first, ok, record)))
  {
    if ok {
      SpansOfApplied(queue, k, first, record);
    } else {
      FailedNotApplied(queue, k, first, record);
    }
    MemAfter(mem, spans, SpansOf(queue, k, first, ok, record), group, first, ok);
  }

  lemma CompleteMem(s: State, w: Writer)
    requires OneLeader(s) && GroupInv(s) && MemInv(s) && MayComplete(s, w) && !Busy(Completed(s, w))
    ensures MemInv(Completed(s, w))
  {
    LeaderIsFirst(s, w);
    var p := s.phases[w];
    GroupApplied(s.mem, s.spans, s.queue, p.members, p.group, s.last + 1, p.stage == Inserted, LastRecord(s));
  }

  lemma CompleteSpans(s: State, w: Writer)
    requires OneLeader(s) && GroupInv(s) && SpansInv(s) && MayComplete(s, w)
    ensures SpansInv(Completed(s, w))
  {
    LeaderIsFirst(s, w);
    var p := s.phases[w];
    forall i | 0 <= i < p.members ensures Accounted(s.log, News(s, w)[i]) {
      if p.stage == Inserted {
        MemberHeld(s.log, s.queue, p.members, s.last + 1, i);
      } else {
        SpansOfAt(s.queue, p.members, s.last + 1, false, LastRecord(s), i);
      }
    }
    SpansGrow(s, Completed(s, w), News(s, w));
  }

  lemma CompleteKeeps(s: State, w: Writer)
    requires Inv(s) && MayComplete(s, w)
    ensures Inv(Completed(s, w))
  {
    LeaderIsFirst(s, w);
    var p := s.phases[w];
    CompletePops(s, w);
    PopsOrder(s, Completed(s, w), p.members, News(s, w), p.stage == Inserted);
    PopsLeader(s, Completed(s, w), p.members, News(s, w), p.stage == Inserted);
    CompleteNumbering(s, w);
    CompleteMem(s, w);
    CompleteSpans(s, w);
  }

  // ---------------------------------------------------------------------------------------------
  // Runs
  // ---------------------------------------------------------------------------------------------

  lemma StepKeeps(s: State, a: Action)
    requires Inv(s) && Enabled(s, a)
    ensures Inv(Next(s, a))
  {
    match a
    case Arrive(w) => ArriveKeeps(s, w);
    case Lead(w) => LeadKeeps(s, w);
    case RoomFails(w) => LeaveKeeps(s, w, false);
    case RoomForNothing(w) => LeaveKeeps(s, w, true);
    case Build(w, members) => BuildKeeps(s, w, members);
    case Complete(w) => CompleteKeeps(s, w);
    case _ => StageKeeps(s, a);
  }

  function Start(): State {
    State(map[], [], [], 0, [], [], false, [])
  }

  ghost predicate StepAt(states: seq<State>, actions: seq<Action>, i: nat) {
    i < |actions| && |states| == |actions| + 1 && Enabled(states[i], actions[i]) && states[i + 1] == Next(states[i], actions[i])
  }

  ghost predicate IsRun(states: seq<State>, actions: seq<Action>) {
    && |states| == |actions| + 1 && states[0] == Start()
    && forall i :: 0 <= i < |actions| ==> StepAt(states, actions, i)
  }

  /** In every state of every run: one leader, first come first served, nothing lost, and everything numbered without gaps. */
  lemma {:induction false} RunKeeps(states: seq<State>, actions: seq<Action>, i: nat)
    requires IsRun(states, actions) && i < |states|
    ensures Inv(states[i])
    decreases i
  {
    if i > 0 {
      RunKeeps(states, actions, i - 1);
      assert StepAt(states, actions, i - 1);
      StepKeeps(states[i - 1], actions[i - 1]);
    }
  }

  /** Two writers never lead at the same time. */
  lemma NeverTwoLeaders(s: State, a: Writer, b: Writer)
    requires Inv(s) && a in s.phases && b in s.phases
    requires s.phases[a].MakingRoom? || s.phases[a].Logging?
    requires s.phases[b].MakingRoom? || s.phases[b].Logging?
    ensures a == b
  {
    LeaderIsFirst(s, a);
    LeaderIsFirst(s, b);
  }

  ghost predicate Rising(mem: seq<Numbered>, below: nat) {
    && (forall i, j :: 0 <= i < j < |mem| ==> mem[i].seqno < mem[j].seqno)
    && (forall i :: 0 <= i < |mem| ==> mem[i].seqno < below)
  }

  lemma {:induction false} RisingConcat(a: seq<Numbered>, ops: seq<Op>, first: nat)
    requires Rising(a, first)
    ensures Rising(a + Number(ops, first), first + |ops|)
    decreases |ops|
  {
    if ops == [] {
      assert a + [] == a;
    } else {
      var n := |ops| - 1;
      RisingConcat(a, ops[..n], first);
      ConcatAssociates(a, Number(ops[..n], first), [Numbered(first + n, ops[n])]);
    }
  }

  lemma {:induction false} AppliedRises(spans: seq<Span>, next: nat)
    requires Contiguous(spans, next)
    ensures Rising(Applied(spans), next)
    decreases |spans|
  {
    if spans != [] {
      var n := |spans| - 1;
      assert Joins(spans, n, next);
      PrefixContiguous(spans, spans[..n], spans[n].first, next);
      AppliedRises(spans[..n], spans[n].first);
      RisingConcat(Applied(spans[..n]), spans[n].ops, spans[n].first);
      assert Applied(spans[..n]) + [] == Applied(spans[..n]);
    }
  }

  lemma PrefixContiguous(spans: seq<Span>, most: seq<Span>, mid: nat, next: nat)
    requires Contiguous(spans, next) && spans != [] && most == spans[..|spans| - 1] && mid == spans[|spans| - 1].first
    ensures Contiguous(most, mid)
  {
    forall i | 0 <= i < |most| ensures Joins(most, i, mid) {
      assert Joins(spans, i, next);
    }
  }

  /** Nothing is applied twice: sequence numbers rise strictly through the memtable. */
  lemma AppliedOnce(s: State, i: nat, j: nat)
    requires Inv(s) && i < j < |s.mem|
    ensures s.mem[i].seqno < s.mem[j].seqno
  {
    AppliedRises(s.spans, s.last + 1);
    if Busy(s) && s.phases[s.queue[0]].stage == Inserted {
      RisingConcat(Applied(s.spans), s.phases[s.queue[0]].group, s.last + 1);
    }
  }

  lemma {:induction false} SpanApplied(spans: seq<Span>, i: nat) returns (o: nat)
    requires i < |spans| && spans[i].ok
    ensures o + |Number(spans[i].ops, spans[i].first)| <= |Applied(spans)|
    ensures Applied(spans)[o..][..|Number(spans[i].ops, spans[i].first)|] == Number(spans[i].ops, spans[i].first)
    decreases |spans|
  {
    var n := |spans| - 1;
    if i == n {
      o := |Applied(spans[..n])|;
    } else {
      o := SpanApplied(spans[..n], i);
      assert Applied(spans[..n]) <= Applied(spans);
    }
  }

  /** A write that succeeded is in the memtable as a whole, under consecutive sequence numbers, and in a log record, synced
      if it asked for that. */
  lemma AcknowledgedIsApplied(s: State, i: nat) returns (o: nat)
    requires Inv(s) && i < |s.spans| && s.phases[s.spans[i].writer] == Finished(true) && s.spans[i].writer.batch.Payload?
    ensures var span, writes := s.spans[i], Number(s.spans[i].writer.batch.ops, s.spans[i].first);
            && o + |writes| <= |s.mem| && s.mem[o..][..|writes|] == writes
            && span.record < |s.log| && Holds(s.log[span.record], span) && (span.writer.sync ==> s.log[span.record].synced)
  {
    assert Accounted(s.log, s.spans[i]);
    o := SpanApplied(s.spans, i);
    assert Applied(s.spans) <= s.mem;
  }

  // ---------------------------------------------------------------------------------------------
  // After a failed sync
  // ---------------------------------------------------------------------------------------------

  /** Nobody is logging any more, but for the leader whose sync has failed. */
  ghost predicate Stopped(s: State) {
    s.broken ==> (Busy(s) ==> s.phases[s.queue[0]].stage == GaveUp)
  }

  /** Nothing new is in the log or in memory, and those who have left the queue since were told of failure. */
  ghost predicate OnlyFailures(s: State, t: State) {
    && t.broken && t.log == s.log && t.mem == s.mem && s.spans <= t.spans
    && forall k :: |s.spans| <= k < |t.spans| ==> !t.spans[k].ok
  }

  lemma {:induction false} FailedSpans(queue: seq<Writer>, k: nat, first: nat, record: nat, i: nat)
    requires k <= |queue| && i < k
    ensures !SpansOf(queue, k, first, false, record)[i].ok
    decreases k
  {
    if i < k - 1 {
      FailedSpans(queue, k - 1, first, record, i);
    }
  }

  /** Whoever comes first when a group has left is still waiting. */
  lemma CompleteStopped(s: State, w: Writer)
    requires OneLeader(s) && GroupInv(s) && MayComplete(s, w)
    ensures !Busy(Completed(s, w))
  {
    var p, t := s.phases[w], Completed(s, w);
    if t.queue != [] {
      assert t.queue[0] == s.queue[p.members];
    }
  }

  lemma StoppedStep(s: State, a: Action)
    requires Inv(s) && Stopped(s) && Enabled(s, a)
    ensures Stopped(Next(s, a))
  {
    match a
    case Complete(w) => CompleteStopped(s, w);
    case Arrive(w) => Newcomer(s, w);
    case _ =>
  }

  lemma BrokenComplete(s: State, w: Writer)
    requires OneLeader(s) && Stopped(s) && s.broken && MayComplete(s, w)
    ensures OnlyFailures(s, Completed(s, w))
  {
    forall i | 0 <= i < |News(s, w)| ensures !News(s, w)[i].ok {
      FailedSpans(s.queue, s.phases[w].members, s.last + 1, LastRecord(s), i);
    }
  }

  lemma BrokenStep(s: State, a: Action)
    requires OneLeader(s) && Stopped(s) && s.broken && Enabled(s, a)
    ensures OnlyFailures(s, Next(s, a))
  {
    if a.Complete? {
      BrokenComplete(s, a.w);
    }
  }

  lemma {:induction false} RunStopped(states: seq<State>, actions: seq<Action>, i: nat)
    requires IsRun(states, actions) && i < |states|
    ensures Stopped(states[i])
    decreases i
  {
    if i > 0 {
      RunStopped(states, actions, i - 1);
      RunKeeps(states, actions, i - 1);
      assert StepAt(states, actions, i - 1);
      StoppedStep(states[i - 1], actions[i - 1]);
    }
  }

  /** After a failed sync no write succeeds any more, because nobody knows whether its record will be in the log. */
  lemma {:induction false} NothingAfterFailedSync(states: seq<State>, actions: seq<Action>, w: Writer, i: nat, j: nat)
    requires IsRun(states, actions) && i < j < |states| && i < |actions| && actions[i] == SyncFails(w)
    ensures OnlyFailures(states[i], states[j])
    decreases j
  {
    assert StepAt(states, actions, j - 1);
    if i + 1 < j {
      NothingAfterFailedSync(states, actions, w, i, j - 1);
      RunKeeps(states, actions, j - 1);
      RunStopped(states, actions, j - 1);
      BrokenStep(states[j - 1], actions[j - 1]);
      MoreFailures(states[i], states[j - 1], states[j]);
    }
  }

  lemma MoreFailures(s: State, t: State, u: State)
    requires OnlyFailures(s, t) && OnlyFailures(t, u)
    ensures OnlyFailures(s, u)
  {
    forall k | |s.spans| <= k < |u.spans| ensures !u.spans[k].ok {
      if k < |t.spans| {
        assert u.spans[k] == t.spans[k];
      }
    }
  }
}
