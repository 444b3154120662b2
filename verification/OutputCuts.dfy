/** Where a compaction ends one output file and starts the next. */
module OutputCuts {
  import opened InternalKeys

  function Concat(outputs: seq<seq<Entry>>): seq<Entry> {
    if outputs == [] then [] else Concat(outputs[..|outputs| - 1]) + outputs[|outputs| - 1]
  }

  /** The finished outputs and the one being built. */
  datatype Outputs = Outputs(finished: seq<seq<Entry>>, builder: seq<Entry>) {
    ghost predicate Valid() {
      forall o :: o in finished ==> o != []
    }

    function All(): seq<Entry> {
      Concat(finished) + builder
    }

    function Runs(): seq<seq<Entry>> {
      finished + [builder]
    }

    function Finish(): (r: Outputs)
      ensures r.All() == All() && r.builder == []
      ensures Valid() ==> r.Valid()
    {
      if builder == [] then this
      else
        assert (finished + [builder])[..|finished|] == finished;
        Outputs(finished + [builder], [])
    }

    function Add(e: Entry): (r: Outputs)
      ensures r.All() == All() + [e] && r.finished == finished
    {
      Outputs(finished, builder + [e])
    }
  }

  /** What the loop goes through: the merged input, which of it is dropped, and the answers of ShouldStopBefore and of the
      output-size test. */
  datatype Course = Course(input: seq<Entry>, dropped: seq<bool>, stopBefore: seq<bool>, full: seq<bool>) {
    ghost predicate Valid() {
      && |dropped| == |stopBefore| == |full| == |input|
      && forall i, j :: 0 <= i < j < |input| ==> input[i] != input[j]
    }

    /** Two entries that are kept, with none kept in between. */
    predicate Neighbours(i: nat, j: nat)
      requires i < j < |dropped|
    {
      !dropped[i] && !dropped[j] && forall k :: i < k < j ==> dropped[k]
    }

    /** The output was not full with entry `i`, and none of the entries behind it up to `j` had to start a new one. */
    predicate Uncut(i: nat, j: nat)
      requires i <= j < |stopBefore| && |full| == |stopBefore|
    {
      !full[i] && forall k :: i < k <= j ==> !stopBefore[k]
    }

    /** `i` is the last of the first `n` entries that is kept. */
    predicate LastKept(i: nat, n: nat)
      requires i < n <= |dropped|
    {
      !dropped[i] && forall k :: i < k < n ==> dropped[k]
    }
  }

  /** Both entries are in one output. */
  ghost predicate Together(outputs: seq<seq<Entry>>, a: Entry, b: Entry) {
    exists o :: o in outputs && a in o && b in o
  }

  /** Neighbours among the first `n` entries are in one output exactly if it is not cut between them. */
  ghost predicate CutRight(c: Course, outputs: seq<seq<Entry>>, n: nat)
    requires c.Valid() && n <= |c.input|
  {
    forall i, j {:trigger c.Neighbours(i, j)} :: 0 <= i < j < n && c.Neighbours(i, j) ==>
      (Together(outputs, c.input[i], c.input[j]) <==> c.Uncut(i, j))
  }

  /** The last entry kept of the first `n` is in the builder, unless the output has been cut behind it by entry `m`. */
  ghost predicate LastOpen(c: Course, builder: seq<Entry>, n: nat, m: nat)
    requires c.Valid() && n <= m + 1 <= |c.input|
  {
    forall i {:trigger c.LastKept(i, n)} :: 0 <= i < n && c.LastKept(i, n) ==>
      (if c.Uncut(i, m) then c.input[i] in builder else builder == [])
  }

  /** Only entries among the first `n` are in the outputs. */
  ghost predicate Among(c: Course, state: Outputs, n: nat)
    requires n <= |c.input|
  {
    forall o, e :: o in state.Runs() && e in o ==> e in c.input[..n]
  }

  ghost predicate Cutting(c: Course, state: Outputs, n: nat)
    requires c.Valid() && n <= |c.input|
  {
    CutRight(c, state.Runs(), n) && Among(c, state, n) && (n > 0 ==> LastOpen(c, state.builder, n, n - 1))
  }

  lemma SameTogether(state: Outputs, a: Entry, b: Entry)
    ensures Together(state.Finish().Runs(), a, b) <==> Together(state.Runs(), a, b)
  {
    var r, s := state.Runs(), state.Finish().Runs();
    if o :| o in r && a in o && b in o {
      assert o in state.finished || o == state.builder;
      assert o in s;
    }
    if o :| o in s && a in o && b in o {
      assert o in state.finished || o == state.builder;
      assert o in r;
    }
  }

  lemma AddedTogether(state: Outputs, e: Entry, a: Entry, b: Entry)
    requires a != e && forall o :: o in state.Runs() ==> e !in o
    ensures b != e ==> (Together(state.Add(e).Runs(), a, b) <==> Together(state.Runs(), a, b))
    ensures Together(state.Add(e).Runs(), a, e) <==> a in state.builder
  {
    var r, s := state.Runs(), state.Add(e).Runs();
    var open, grown := state.builder, state.builder + [e];
    assert r[|state.finished|] == open && s[|state.finished|] == grown;
    assert forall o :: o in state.finished ==> o in r && o in s;
    if o :| o in r && a in o && b in o {
      assert a in (if o == open then grown else o) && b in (if o == open then grown else o);
    }
    if o :| o in s && a in o && b in o {
      if b != e {
        assert o in state.finished || o == grown;
        assert a in (if o == grown then open else o) && b in (if o == grown then open else o);
      }
    }
    if o :| o in s && a in o && e in o {
      assert o in state.finished || o == grown;
    }
    if a in open {
      assert a in grown && e in grown;
    }
  }

  /** Ending the output changes nothing for the pairs there are. */
  lemma FinishKeepsCuts(c: Course, state: Outputs, n: nat)
    requires c.Valid() && n <= |c.input| && CutRight(c, state.Runs(), n) && Among(c, state, n)
    ensures CutRight(c, state.Finish().Runs(), n) && Among(c, state.Finish(), n)
  {
    forall i, j | 0 <= i < j < n && c.Neighbours(i, j)
      ensures Together(state.Finish().Runs(), c.input[i], c.input[j]) <==> c.Uncut(i, j)
    {
      SameTogether(state, c.input[i], c.input[j]);
    }
    forall o, e | o in state.Finish().Runs() && e in o ensures e in c.input[..n] {
      assert o in state.finished || o == state.builder;
      assert o in state.Runs();
    }
  }

  lemma StopKeeps(c: Course, state: Outputs, n: nat) returns (r: Outputs)
    requires c.Valid() && n < |c.input| && Cutting(c, state, n)
    ensures r == if c.stopBefore[n] then state.Finish() else state
    ensures CutRight(c, r.Runs(), n) && Among(c, r, n) && LastOpen(c, r.builder, n, n)
  {
    r := state;
    if c.stopBefore[n] {
      r := state.Finish();
      FinishKeepsCuts(c, state, n);
    } else {
      forall i | 0 <= i < n && c.LastKept(i, n) ensures if c.Uncut(i, n) then c.input[i] in r.builder else r.builder == [] {
        assert c.Uncut(i, n) <==> c.Uncut(i, n - 1);
      }
    }
  }

  lemma DropKeeps(c: Course, state: Outputs, n: nat)
    requires c.Valid() && n < |c.input| && c.dropped[n]
    requires CutRight(c, state.Runs(), n) && Among(c, state, n) && LastOpen(c, state.builder, n, n)
    ensures Cutting(c, state, n + 1)
  {
    forall i | 0 <= i < n + 1 && c.LastKept(i, n + 1) ensures if c.Uncut(i, n) then c.input[i] in state.builder else state.builder == [] {
      assert c.LastKept(i, n);
    }
    assert forall e :: e in c.input[..n] ==> e in c.input[..n + 1];
  }

  lemma AddKeeps(c: Course, state: Outputs, n: nat)
    requires c.Valid() && n < |c.input| && !c.dropped[n]
    requires CutRight(c, state.Runs(), n) && Among(c, state, n) && LastOpen(c, state.builder, n, n)
    ensures CutRight(c, state.Add(c.input[n]).Runs(), n + 1) && Among(c, state.Add(c.input[n]), n + 1)
  {
    var e, more := c.input[n], state.Add(c.input[n]);
    forall o | o in state.Runs() ensures e !in o {
      assert e !in c.input[..n];
    }
    forall i, j | 0 <= i < j < n + 1 && c.Neighbours(i, j) ensures Together(more.Runs(), c.input[i], c.input[j]) <==> c.Uncut(i, j) {
      AddedTogether(state, e, c.input[i], c.input[j]);
      if j == n {
        assert c.LastKept(i, n);
      } else {
        assert c.input[j] != e;
      }
    }
    forall o, x | o in more.Runs() && x in o ensures x in c.input[..n + 1] {
      assert o in state.finished || o == state.builder + [e];
      if x != e {
        assert (if o in state.finished then o else state.builder) in state.Runs();
        assert x in c.input[..n];
      } else {
        assert c.input[..n + 1][n] == e;
      }
    }
  }

  /** An entry that is kept goes behind the others; a full output ends with it. */
  lemma KeepKeeps(c: Course, state: Outputs, n: nat)
    requires c.Valid() && n < |c.input| && !c.dropped[n]
    requires CutRight(c, state.Runs(), n) && Among(c, state, n) && LastOpen(c, state.builder, n, n)
    ensures var more := state.Add(c.input[n]);
            Cutting(c, if c.full[n] then more.Finish() else more, n + 1)
  {
    var more := state.Add(c.input[n]);
    AddKeeps(c, state, n);
    assert more.builder[|state.builder|] == c.input[n];
    if c.full[n] {
      FinishKeepsCuts(c, more, n + 1);
    }
  }

  /** The outputs after one more entry. */
  function AfterEntry(state: Outputs, e: Entry, stop: bool, drop: bool, full: bool): Outputs {
    var s := if stop then state.Finish() else state;
    if drop then s else if full then s.Add(e).Finish() else s.Add(e)
  }

  lemma EntryAdded(state: Outputs, e: Entry, stop: bool, drop: bool, full: bool)
    ensures var r := AfterEntry(state, e, stop, drop, full);
            && (state.Valid() ==> r.Valid())
            && r.All() == state.All() + if drop then [] else [e]
  {
  }

  lemma EntryKeeps(c: Course, state: Outputs, n: nat)
    requires c.Valid() && n < |c.input| && Cutting(c, state, n)
    ensures Cutting(c, AfterEntry(state, c.input[n], c.stopBefore[n], c.dropped[n], c.full[n]), n + 1)
  {
    var s := StopKeeps(c, state, n);
    if c.dropped[n] {
      DropKeeps(c, s, n);
    } else {
      KeepKeeps(c, s, n);
    }
  }

  /** When all is done, the last output is finished too. */
  lemma AllCut(c: Course, state: Outputs)
    requires c.Valid() && Cutting(c, state, |c.input|)
    ensures CutRight(c, state.Finish().finished, |c.input|)
  {
    FinishKeepsCuts(c, state, |c.input|);
    var s := state.Finish();
    forall i, j | 0 <= i < j < |c.input| && c.Neighbours(i, j)
      ensures Together(s.finished, c.input[i], c.input[j]) <==> c.Uncut(i, j)
    {
      if o :| o in s.Runs() && c.input[i] in o && c.input[j] in o {
        assert o in s.finished;
      }
      assert forall o :: o in s.finished ==> o in s.Runs();
    }
  }
}
