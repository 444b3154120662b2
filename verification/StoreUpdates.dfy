/** What a write does: the last update of a key in it is what is read from then on, and other keys read as before. */
module StoreUpdates {
  import opened InternalKeys
  import opened DropRules
  import opened Store
  import opened StoreInvariant
  import opened StoreRuns
  import opened StoreReads

  // ---------------------------------------------------------------------------------------------
  // The entries of a write
  // ---------------------------------------------------------------------------------------------

  lemma AssignedUpdate(ops: seq<Update>, first: nat, i: nat)
    requires first + |ops| <= MAX_SEQUENCE + 1 && i < |ops|
    ensures var e := Assign(ops, first)[i];
            && e.user == ops[i].key && e.seqno == first + i
            && (ops[i].Put? ==> e.kind == Value && e.value == ops[i].value) && (ops[i].Delete? ==> e.kind == Deletion)
  {
  }

  /** No update behind `i` has its key. */
  predicate LastOfKey(ops: seq<Update>, i: nat) {
    i < |ops| && forall j :: i < j < |ops| ==> ops[j].key != ops[i].key
  }

  lemma LastUpdateIsNewest(hist: set<Entry>, ops: seq<Update>, last: Seqno, i: nat)
    requires UpTo(hist, last) && last + |ops| < MAX_SEQUENCE && LastOfKey(ops, i)
    ensures var group := Assign(ops, last + 1);
            Newest(hist + Elems(group), ops[i].key, last + |ops|, Hit(group[i]))
  {
    var group := Assign(ops, last + 1);
    AssignedUpdate(ops, last + 1, i);
    assert group[i] in Elems(group);
    forall e | e in hist + Elems(group) && Visible(e, ops[i].key, last + |ops|) ensures e.seqno <= group[i].seqno {
      if e in Elems(group) {
        var j :| 0 <= j < |group| && group[j] == e;
        AssignedUpdate(ops, last + 1, j);
      }
    }
  }

  lemma OtherKeysStay(hist: set<Entry>, ops: seq<Update>, last: Seqno, u: UserKey, h: Hit)
    requires UpTo(hist, last) && last + |ops| < MAX_SEQUENCE && (forall j :: 0 <= j < |ops| ==> ops[j].key != u)
    requires Newest(hist, u, last, h)
    ensures Newest(hist + Elems(Assign(ops, last + 1)), u, last + |ops|, h)
  {
    var group := Assign(ops, last + 1);
    forall e | e in Elems(group) ensures e.user != u {
      var j :| 0 <= j < |group| && group[j] == e;
      AssignedUpdate(ops, last + 1, j);
    }
  }

  // ---------------------------------------------------------------------------------------------
  // From the beginning of a write to its end
  // ---------------------------------------------------------------------------------------------

  predicate EndsWrite(a: Action) {
    a.Publish? || a.Crash?
  }

  lemma StillUnderWay(s: Db, a: Action)
    requires Enabled(s, a) && s.inflight.Writing? && !EndsWrite(a)
    ensures Next(s, a).inflight.Writing? && Next(s, a).inflight.batch == s.inflight.batch
    ensures Next(s, a).last == s.last && Next(s, a).hist == s.hist
  {
  }

  /** Until it is published, or the store crashes, the group in flight is that of the write. */
  lemma {:induction false} GroupOfWrite(states: seq<Db>, actions: seq<Action>, i: nat, j: nat, ops: seq<Update>)
    requires Steps(LevelSteps, states, actions) && i < j < |states| && i < |actions| && actions[i] == BeginWrite(ops)
    requires forall k :: i < k < j && k < |actions| ==> !EndsWrite(actions[k])
    ensures states[i].last + |ops| < MAX_SEQUENCE && states[j].last == states[i].last && states[j].hist == states[i].hist
    ensures states[j].inflight.Writing? && states[j].inflight.batch == Assign(ops, states[i].last + 1)
    decreases j
  {
    StepsLength(LevelSteps, states, actions);
    StepOf(LevelSteps, states, actions, j - 1);
    if i + 1 < j {
      GroupOfWrite(states, actions, i, j - 1, ops);
      StillUnderWay(states[j - 1], actions[j - 1]);
    }
  }

  /** The history after a write holds what it held, and the write. */
  lemma WriteIsHistory(states: seq<Db>, actions: seq<Action>, i: nat, j: nat, ops: seq<Update>)
    requires IsRun(LevelSteps, states, actions) && i < j < |actions| && actions[i] == BeginWrite(ops) && actions[j] == Publish
    requires forall k :: i < k < j ==> !EndsWrite(actions[k])
    ensures j + 1 < |states| && states[i].last + |ops| < MAX_SEQUENCE && states[j + 1].last == states[i].last + |ops|
    ensures states[j + 1].hist == states[i].hist + Elems(Assign(ops, states[i].last + 1)) && UpTo(states[i].hist, states[i].last)
  {
    StepsLength(LevelSteps, states, actions);
    GroupOfWrite(states, actions, i, j, ops);
    StepOf(LevelSteps, states, actions, j);
    RunKeeps(states, actions, i);
  }

  lemma CarefulIsLevel(states: seq<Db>, actions: seq<Action>)
    requires IsRun(CarefulSteps, states, actions)
    ensures IsRun(LevelSteps, states, actions)
  {
    StepsLength(CarefulSteps, states, actions);
    forall k | 0 <= k < |actions| ensures LevelStepAt(states, actions, k) {
      assert CarefulStepAt(states, actions, k);
    }
  }

  lemma LatestReads(states: seq<Db>, actions: seq<Action>, i: nat, u: UserKey)
    requires IsRun(CarefulSteps, states, actions) && i < |states|
    ensures SameAnswer(Readable(states[i]), states[i].hist, u, states[i].last)
  {
    RunReads(states, actions, i);
    ReadsHistory(states[i], u, states[i].last);
  }

  lemma SameFound(A: set<Entry>, B: set<Entry>, u: UserKey, s: Seqno, g: Hit, h: Hit)
    requires SameAnswer(A, B, u, s) && Newest(A, u, s, g) && Newest(B, u, s, h)
    ensures AnswerOf(g) == AnswerOf(h)
  {
  }

  /** What a read of the key of `op` is told. */
  function AnswerTo(op: Update): Answer {
    if op.Put? then Found(op.value) else NotFound
  }

  /** Once a write is published, a read of a key it has updated gives its last update. */
  lemma WriteIsRead(states: seq<Db>, actions: seq<Action>, i: nat, j: nat, ops: seq<Update>, k: nat, h: Hit)
    requires IsRun(CarefulSteps, states, actions) && i < j < |actions| && actions[i] == BeginWrite(ops) && actions[j] == Publish
    requires (forall m :: i < m < j ==> !EndsWrite(actions[m])) && LastOfKey(ops, k)
    requires j + 1 < |states| && Newest(Readable(states[j + 1]), ops[k].key, states[j + 1].last, h)
    ensures AnswerOf(h) == AnswerTo(ops[k])
  {
    CarefulIsLevel(states, actions);
    WriteIsHistory(states, actions, i, j, ops);
    LastUpdateIsNewest(states[i].hist, ops, states[i].last, k);
    AssignedUpdate(ops, states[i].last + 1, k);
    LatestReads(states, actions, j + 1, ops[k].key);
    SameFound(Readable(states[j + 1]), states[j + 1].hist, ops[k].key, states[j + 1].last, h, Hit(Assign(ops, states[i].last + 1)[k]));
  }

  /** And a read of any other key what it gave when the write began. */
  lemma OthersReadAsBefore(states: seq<Db>, actions: seq<Action>, i: nat, j: nat, ops: seq<Update>, u: UserKey, g: Hit, h: Hit)
    requires IsRun(CarefulSteps, states, actions) && i < j < |actions| && actions[i] == BeginWrite(ops) && actions[j] == Publish
    requires (forall m :: i < m < j ==> !EndsWrite(actions[m])) && (forall k :: 0 <= k < |ops| ==> ops[k].key != u)
    requires i < |states| && Newest(Readable(states[i]), u, states[i].last, g)
    requires j + 1 < |states| && Newest(Readable(states[j + 1]), u, states[j + 1].last, h)
    ensures AnswerOf(g) == AnswerOf(h)
  {
    CarefulIsLevel(states, actions);
    WriteIsHistory(states, actions, i, j, ops);
    LatestReads(states, actions, i, u);
    LatestReads(states, actions, j + 1, u);
    var n := NewestExists(states[i].hist, u, states[i].last);
    OtherKeysStay(states[i].hist, ops, states[i].last, u, n);
    SameFound(Readable(states[i]), states[i].hist, u, states[i].last, g, n);
    SameFound(Readable(states[j + 1]), states[j + 1].hist, u, states[j + 1].last, h, n);
  }
}
