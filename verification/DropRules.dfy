/** Which entries a compaction drops, and exactly when readers cannot tell. */
module DropRules {
  import opened Values
  import opened InternalKeys
  import opened OutputCuts
  import opened OutputLimits
  import opened Versions

  // ---------------------------------------------------------------------------------------------
  // IsBaseLevelForKey
  // ---------------------------------------------------------------------------------------------

  /** No file below the output level spans `u`. */
  predicate BaseLevel(v: Version, level: nat, u: UserKey) {
    forall l, i :: level + 2 <= l < |v| && 0 <= i < |v[l]| ==> !v[l][i].Spans(u)
  }

  /** The part of a running compaction that remembers how far each deeper level has been passed. */
  class LevelPointers {
    const version: Version
    const level: nat
    var ptrs: seq<nat>
    /** The largest user key asked about so far. */
    ghost var asked: int
    ghost var started: bool

    ghost predicate Valid()
      reads this
    {
      && SortedLevels(version) && |ptrs| == NUM_LEVELS
      && (forall l :: 0 <= l < NUM_LEVELS ==> ptrs[l] <= |version[l]|)
      && (forall l, k :: 0 <= l < NUM_LEVELS && 0 <= k < ptrs[l] ==> started && version[l][k].Largest().user < asked)
    }

    constructor (version: Version, level: nat)
      requires SortedLevels(version)
      ensures Valid() && !started && this.version == version && this.level == level
    {
      this.version := version;
      this.level := level;
      ptrs := seq(NUM_LEVELS, _ => 0);
      asked, started := 0, false;
    }

    /** The pointers only move forward, yet on nondecreasing keys the answer is the stateless one. */
    method IsBaseLevelForKey(u: UserKey) returns (base: bool)
      requires Valid() && (started ==> asked <= u)
      modifies this
      ensures Valid() && started && asked == u
      ensures base <==> BaseLevel(version, level, u)
    {
      asked, started := u, true;
      var lvl := level + 2;
      while lvl < NUM_LEVELS
        invariant level + 2 <= lvl
        invariant Valid() && started && asked == u
        invariant forall l, i :: level + 2 <= l < lvl && l < NUM_LEVELS && 0 <= i < |version[l]| ==> !version[l][i].Spans(u)
      {
        var spans := Advance(lvl, u);
        if spans {
          return false;
        }
        lvl := lvl + 1;
      }
      base := true;
    }

    /** One level of the loop: skip files that end before `u`. */
    method Advance(lvl: nat, u: UserKey) returns (spans: bool)
      requires Valid() && started && asked == u && 2 <= lvl < NUM_LEVELS
      modifies this`ptrs
      ensures Valid()
      ensures spans <==> exists i :: 0 <= i < |version[lvl]| && version[lvl][i].Spans(u)
    {
      var files := version[lvl];
      while ptrs[lvl] < |files|
        invariant Valid()
        decreases |files| - ptrs[lvl]
      {
        var f := files[ptrs[lvl]];
        if u <= f.Largest().user {
          if f.Smallest().user <= u {
            assert files[ptrs[lvl]].Spans(u);
            return true;
          }
          break;
        }
        ptrs := ptrs[lvl := ptrs[lvl] + 1];
      }
      spans := false;
      NotSpanned(files, ptrs[lvl], u);
    }
  }

  lemma NotSpanned(files: seq<File>, p: nat, u: UserKey)
    requires SortedDisjoint(files) && p <= |files|
    requires forall k :: 0 <= k < p ==> files[k].Largest().user < u
    requires p < |files| ==> u < files[p].Smallest().user
    ensures forall i :: 0 <= i < |files| ==> !files[i].Spans(u)
  {
    forall i | 0 <= i < |files| ensures !files[i].Spans(u) {
      if i > p {
        assert Precedes(files[p], files[i]);
        FileRange(files[p], files[p].entries[0]);
      }
    }
  }

  // ---------------------------------------------------------------------------------------------
  // The drop rules of DoCompactionWork
  // ---------------------------------------------------------------------------------------------

  /** Rule (A): an entry before it for the same user key is already visible to every snapshot. */
  predicate Shadowed(input: seq<Entry>, i: nat, snap: Seqno)
    requires i < |input|
  {
    i > 0 && input[i - 1].user == input[i].user && input[i - 1].seqno <= snap
  }

  /** Rule (B): a deletion marker every snapshot sees, with nothing below that it could hide. */
  predicate Obsolete(v: Version, level: nat, e: Entry, snap: Seqno) {
    e.kind.Deletion? && e.seqno <= snap && BaseLevel(v, level, e.user)
  }

  predicate Dropped(v: Version, level: nat, input: seq<Entry>, i: nat, snap: Seqno)
    requires i < |input|
  {
    Shadowed(input, i, snap) || Obsolete(v, level, input[i], snap)
  }

  /** What is left of the merged input. */
  function Kept(v: Version, level: nat, input: seq<Entry>, snap: Seqno): seq<Entry> {
    if input == [] then []
    else
      var n := |input| - 1;
      Kept(v, level, input[..n], snap) + if Dropped(v, level, input, n, snap) then [] else [input[n]]
  }

  /** The variables with which DoCompactionWork decides entry by entry, and the input it has seen. */
  class DropDecision {
    const pointers: LevelPointers
    const snap: Seqno
    var currentUserKey: UserKey
    var hasCurrentUserKey: bool
    var lastSequenceForKey: Seqno
    ghost var seen: seq<Entry>

    ghost predicate Valid()
      reads this, pointers
    {
      && pointers.Valid() && snap < MAX_SEQUENCE
      && (pointers.started ==> seen != [] && pointers.asked <= seen[|seen| - 1].user)
      && (hasCurrentUserKey <==> seen != [])
      && (seen != [] ==> currentUserKey == seen[|seen| - 1].user && lastSequenceForKey == seen[|seen| - 1].seqno)
    }

    constructor (v: Version, level: nat, snap: Seqno)
      requires SortedLevels(v) && snap < MAX_SEQUENCE
      ensures Valid() && fresh(pointers) && seen == []
      ensures this.snap == snap && pointers.version == v && pointers.level == level
    {
      var p := new LevelPointers(v, level);
      pointers := p;
      this.snap := snap;
      currentUserKey, hasCurrentUserKey := 0, false;
      lastSequenceForKey := MAX_SEQUENCE;
      seen := [];
    }

    method Drop(key: Entry) returns (drop: bool)
      requires Valid() && (seen != [] ==> Less(seen[|seen| - 1].Key(), key.Key()))
      modifies this, pointers
      ensures Valid() && seen == old(seen) + [key]
      ensures drop == Dropped(pointers.version, pointers.level, seen, |seen| - 1, snap)
    {
      drop := false;
      if !hasCurrentUserKey || key.user != currentUserKey {
        currentUserKey, hasCurrentUserKey := key.user, true;
        lastSequenceForKey := MAX_SEQUENCE;
      }
      if lastSequenceForKey <= snap {
        drop := true;
      } else if key.kind.Deletion? && key.seqno <= snap {
        drop := pointers.IsBaseLevelForKey(key.user);
      }
      lastSequenceForKey := key.seqno;
      seen := seen + [key];
    }
  }

  /** The entries at `i` and `j` are kept, and none in between. */
  ghost predicate Neighbours(v: Version, level: nat, input: seq<Entry>, snap: Seqno, i: nat, j: nat)
    requires i < j < |input|
  {
    && !Dropped(v, level, input, i, snap) && !Dropped(v, level, input, j, snap)
    && forall k :: i < k < j ==> Dropped(v, level, input, k, snap)
  }

  /** Two kept entries, one behind the other, are in one output exactly if the output was not full with the first, and none of the
      entries from there to the second was to start a new one. */
  ghost predicate CutWhereDue(v: Version, level: nat, input: seq<Entry>, snap: Seqno, stops: seq<bool>, full: seq<bool>,
                              outputs: seq<seq<Entry>>)
    requires |stops| == |full| == |input|
  {
    forall i, j :: 0 <= i < j < |input| && Neighbours(v, level, input, snap, i, j) ==>
      (Together(outputs, input[i], input[j]) <==> !full[i] && forall k :: i < k <= j ==> !stops[k])
  }

  /** The loop of DoCompactionWork over the merged input. `full` are the answers of the output-size test, `stops` says before which
      entries too much of the grandparents would be overlapped. */
  method DoCompactionWork(v: Version, level: nat, input: seq<Entry>, snap: Seqno, grandparents: seq<File>, limit: nat, full: seq<bool>)
    returns (outputs: seq<seq<Entry>>, ghost stops: seq<bool>)
    requires SortedLevels(v) && Sorted(input) && snap < MAX_SEQUENCE
    requires |full| == |input| && SortedDisjoint(grandparents)
    ensures |stops| == |input| && StopsWhereFull(grandparents, limit, input, stops)
    ensures Concat(outputs) == Kept(v, level, input, snap)
    ensures forall o :: o in outputs ==> o != []
    ensures CutWhereDue(v, level, input, snap, stops, full, outputs)
  {
    var state := Outputs([], []);
    var decision := new DropDecision(v, level, snap);
    var compaction := new Grandparents(grandparents, limit);
    stops := StopsOf(grandparents, limit, input, |input|);
    NothingCollected(v, level, input, snap, stops, full);
    for i := 0 to |input|
      invariant fresh(compaction) && compaction.Valid() && compaction.files == grandparents && compaction.limit == limit
      invariant AskedUpTo(compaction, input, stops, i)
      invariant fresh(decision) && fresh(decision.pointers) && decision.Valid() && Same(decision.seen, input[..i])
      invariant decision.snap == snap && decision.pointers.version == v && decision.pointers.level == level
      invariant Collected(v, level, input, snap, stops, full, state, i)
    {
      ghost var before := state;
      var stop := Ask(compaction, input, i, stops);
      if stop {
        state := state.Finish();
      }
      var drop := Decide(decision, input, i);
      if !drop {
        state := state.Add(input[i]);
        if full[i] {
          state := state.Finish();
        }
      }
      NextCollected(v, level, input, snap, stops, full, before, i);
    }
    AllCollected(v, level, input, snap, stops, full, state);
    outputs := state.Finish().finished;
  }

  /** The outputs hold what is kept of the first `n` entries, and they are cut where they should be. */
  ghost predicate Collected(v: Version, level: nat, input: seq<Entry>, snap: Seqno, stops: seq<bool>, full: seq<bool>, state: Outputs, n: nat)
    requires n <= |input| == |stops| == |full| && Sorted(input)
  {
    match Just(state)
    case Nothing => true
    case Just(s) =>
      forall mark {:trigger Open(s, mark)} :: Open(s, mark) ==>
        && s.Valid() && s.All() == Kept(v, level, input[..n], snap)
        && Cutting(CourseOf(v, level, input, snap, stops, full), s, n)
  }

  lemma NothingCollected(v: Version, level: nat, input: seq<Entry>, snap: Seqno, stops: seq<bool>, full: seq<bool>)
    requires |input| == |stops| == |full| && Sorted(input)
    ensures Collected(v, level, input, snap, stops, full, Outputs([], []), 0)
  {
    assert Outputs([], []).All() == [];
  }

  lemma NextCollected(v: Version, level: nat, input: seq<Entry>, snap: Seqno, stops: seq<bool>, full: seq<bool>, state: Outputs, n: nat)
    requires n < |input| == |stops| == |full| && Sorted(input)
    requires Collected(v, level, input, snap, stops, full, state, n)
    ensures Collected(v, level, input, snap, stops, full,
                      AfterEntry(state, input[n], stops[n], Dropped(v, level, input, n, snap), full[n]), n + 1)
  {
    assert Open(state, 0);
    KeptStep(v, level, input, n, snap);
    EntryAdded(state, input[n], stops[n], Dropped(v, level, input, n, snap), full[n]);
    EntryKeeps(CourseOf(v, level, input, snap, stops, full), state, n);
  }

  lemma AllCollected(v: Version, level: nat, input: seq<Entry>, snap: Seqno, stops: seq<bool>, full: seq<bool>, state: Outputs)
    requires |input| == |stops| == |full| && Sorted(input)
    requires Collected(v, level, input, snap, stops, full, state, |input|)
    ensures var outputs := state.Finish().finished;
            && Concat(outputs) == Kept(v, level, input, snap) && (forall o :: o in outputs ==> o != [])
            && CutWhereDue(v, level, input, snap, stops, full, outputs)
  {
    assert Open(state, 0);
    assert input[..|input|] == input;
    assert Concat(state.Finish().finished) + [] == Concat(state.Finish().finished);
    AllCut(CourseOf(v, level, input, snap, stops, full), state);
    CutsAre(v, level, input, snap, stops, full, state.Finish().finished);
  }

  ghost function CourseOf(v: Version, level: nat, input: seq<Entry>, snap: Seqno, stopBefore: seq<bool>, full: seq<bool>): (c: Course)
    requires Sorted(input) && |stopBefore| == |full| == |input|
    ensures c.Valid() && c.input == input && c.stopBefore == stopBefore && c.full == full
    ensures forall i :: 0 <= i < |input| ==> c.dropped[i] == Dropped(v, level, input, i, snap)
  {
    var c := Course(input, seq(|input|, i requires 0 <= i < |input| => Dropped(v, level, input, i, snap)), stopBefore, full);
    assert forall i, j :: 0 <= i < j < |input| ==> Less(input[i].Key(), input[j].Key());
    c
  }

  lemma CutsAre(v: Version, level: nat, input: seq<Entry>, snap: Seqno, stopBefore: seq<bool>, full: seq<bool>,
                outputs: seq<seq<Entry>>)
    requires Sorted(input) && |stopBefore| == |full| == |input|
    requires CutRight(CourseOf(v, level, input, snap, stopBefore, full), outputs, |input|)
    ensures CutWhereDue(v, level, input, snap, stopBefore, full, outputs)
  {
    var c := CourseOf(v, level, input, snap, stopBefore, full);
    forall i, j | 0 <= i < j < |input| && Neighbours(v, level, input, snap, i, j)
      ensures Together(outputs, input[i], input[j]) <==> !full[i] && forall k :: i < k <= j ==> !stopBefore[k]
    {
      assert c.Neighbours(i, j);
    }
  }

  method Decide(decision: DropDecision, input: seq<Entry>, i: nat) returns (drop: bool)
    requires decision.Valid() && Sorted(input) && i < |input| && Same(decision.seen, input[..i])
    modifies decision, decision.pointers
    ensures decision.Valid() && Same(decision.seen, input[..i + 1])
    ensures drop == Dropped(decision.pointers.version, decision.pointers.level, input, i, decision.snap)
  {
    assert input[..i + 1] == input[..i] + [input[i]];
    drop := decision.Drop(input[i]);
  }

  lemma KeptStep(v: Version, level: nat, input: seq<Entry>, i: nat, snap: Seqno)
    requires i < |input|
    ensures Kept(v, level, input[..i + 1], snap) ==
            Kept(v, level, input[..i], snap) + if Dropped(v, level, input, i, snap) then [] else [input[i]]
  {
    assert input[..i + 1][..i] == input[..i];
  }

  // ---------------------------------------------------------------------------------------------
  // What is kept, as a set
  // ---------------------------------------------------------------------------------------------

  /** A newer entry of the same user key is visible to every snapshot. */
  ghost predicate Hidden(I: set<Entry>, e: Entry, snap: Seqno) {
    exists x :: x in I && x.user == e.user && e.seqno < x.seqno <= snap
  }

  ghost predicate Survives(v: Version, level: nat, I: set<Entry>, e: Entry, snap: Seqno) {
    e in I && !Hidden(I, e, snap) && !Obsolete(v, level, e, snap)
  }

  /** One entry per sequence number and key: sorting by tag is sorting by sequence number. */
  ghost predicate DistinctSeqnos(es: seq<Entry>) {
    forall i, j :: 0 <= i < j < |es| && es[i].user == es[j].user ==> es[i].seqno != es[j].seqno
  }

  lemma ShadowedIsHidden(input: seq<Entry>, i: nat, snap: Seqno)
    requires Sorted(input) && DistinctSeqnos(input) && i < |input|
    ensures Shadowed(input, i, snap) <==> Hidden(Elems(input), input[i], snap)
  {
    if Shadowed(input, i, snap) {
      assert Less(input[i - 1].Key(), input[i].Key());
      assert input[i - 1] in Elems(input);
    }
    if Hidden(Elems(input), input[i], snap) {
      var x :| x in Elems(input) && x.user == input[i].user && input[i].seqno < x.seqno <= snap;
      var j :| 0 <= j < |input| && input[j] == x;
      assert i < j ==> Less(input[i].Key(), input[j].Key());
      assert j < i - 1 ==> Less(input[j].Key(), input[i - 1].Key());
      assert Less(input[i - 1].Key(), input[i].Key());
    }
  }

  lemma {:induction false} KeptIndices(v: Version, level: nat, input: seq<Entry>, snap: Seqno, e: Entry)
    ensures e in Kept(v, level, input, snap) <==> exists i :: 0 <= i < |input| && input[i] == e && !Dropped(v, level, input, i, snap)
    decreases |input|
  {
    if input != [] {
      var n := |input| - 1;
      KeptIndices(v, level, input[..n], snap, e);
      assert forall i :: 0 <= i < n ==> Dropped(v, level, input[..n], i, snap) == Dropped(v, level, input, i, snap);
    }
  }

  /** The loop keeps exactly the survivors. */
  lemma KeptSurvive(v: Version, level: nat, input: seq<Entry>, snap: Seqno, e: Entry)
    requires Sorted(input) && DistinctSeqnos(input)
    ensures e in Kept(v, level, input, snap) <==> Survives(v, level, Elems(input), e, snap)
  {
    KeptIndices(v, level, input, snap, e);
    forall i | 0 <= i < |input| && input[i] == e
      ensures Dropped(v, level, input, i, snap) <==> !Survives(v, level, Elems(input), e, snap)
    {
      ShadowedIsHidden(input, i, snap);
    }
  }

  /** What is kept is still sorted, so every output is a valid run. */
  lemma {:induction false} KeptSorted(v: Version, level: nat, input: seq<Entry>, snap: Seqno)
    requires Sorted(input)
    ensures Sorted(Kept(v, level, input, snap))
    decreases |input|
  {
    if input != [] {
      var n := |input| - 1;
      KeptSorted(v, level, input[..n], snap);
      var k := Kept(v, level, input[..n], snap);
      forall i | 0 <= i < |k| ensures Less(k[i].Key(), input[n].Key()) {
        assert k[i] in k;
        KeptIndices(v, level, input[..n], snap, k[i]);
      }
    }
  }

  // ---------------------------------------------------------------------------------------------
  // When readers cannot tell
  // ---------------------------------------------------------------------------------------------

  /** At the oldest snapshot the key reads as deleted, the marker is dropped, and outside the
      compaction an older value of the key is waiting to be seen again. */
  ghost predicate Resurrects(v: Version, level: nat, R: set<Entry>, I: set<Entry>, snap: Seqno, u: UserKey) {
    exists m, prior ::
      && m in I && Newest(R + I, u, snap, Hit(m))
      && Obsolete(v, level, m, snap)
      && Newest(R, u, m.seqno, Hit(prior)) && prior.kind.Value?
  }

  ghost predicate SameAnswer(A: set<Entry>, B: set<Entry>, u: UserKey, s: Seqno) {
    forall h, g :: Newest(A, u, s, h) && Newest(B, u, s, g) ==> AnswerOf(h) == AnswerOf(g)
  }

  ghost predicate KeepsSurvivors(v: Version, level: nat, I: set<Entry>, K: set<Entry>, snap: Seqno) {
    forall e :: e in K <==> Survives(v, level, I, e, snap)
  }

  lemma KeepsAnswer(v: Version, level: nat, R: set<Entry>, I: set<Entry>, K: set<Entry>, snap: Seqno, u: UserKey, s: Seqno)
    requires UniqueSeqnos(R + I) && KeepsSurvivors(v, level, I, K, snap)
    requires snap <= s && !Resurrects(v, level, R, I, snap, u)
    ensures SameAnswer(R + I, R + K, u, s)
  {
    forall h, g | Newest(R + I, u, s, h) && Newest(R + K, u, s, g)
      ensures AnswerOf(h) == AnswerOf(g)
    {
      if h.Hit? && h.entry !in R + K {
        // the newest entry was dropped, so it is a marker no newer than the oldest snapshot
        var m := h.entry;
        assert !Hidden(I, m, snap);
        assert Obsolete(v, level, m, snap);
        assert Newest(R + I, u, snap, Hit(m));
        if g.Hit? {
          var e := g.entry;
          assert e in K ==> Hidden(I, e, snap);
          assert Newest(R, u, m.seqno, g);
        }
      }
    }
  }

  lemma ResurrectionChangesAnswer(v: Version, level: nat, R: set<Entry>, I: set<Entry>, K: set<Entry>, snap: Seqno, u: UserKey)
    requires UniqueSeqnos(R + I) && KeepsSurvivors(v, level, I, K, snap)
    requires Resurrects(v, level, R, I, snap, u)
    ensures !SameAnswer(R + I, R + K, u, snap)
  {
    var m, prior :| m in I && Newest(R + I, u, snap, Hit(m)) && Obsolete(v, level, m, snap) &&
                  Newest(R, u, m.seqno, Hit(prior)) && prior.kind.Value?;
    OlderShows(v, level, R, I, K, snap, m, prior);
    assert m.user == u;
    DifferentAnswers(R + I, R + K, u, snap, Hit(m), Hit(prior));
  }

  lemma DifferentAnswers(A: set<Entry>, B: set<Entry>, u: UserKey, s: Seqno, h: Hit, g: Hit)
    requires Newest(A, u, s, h) && Newest(B, u, s, g) && AnswerOf(h) != AnswerOf(g)
    ensures !SameAnswer(A, B, u, s)
  {
  }

  /** With the marker gone, the newest older entry outside the compaction is what is read. */
  lemma OlderShows(v: Version, level: nat, R: set<Entry>, I: set<Entry>, K: set<Entry>, snap: Seqno, m: Entry, prior: Entry)
    requires UniqueSeqnos(R + I) && KeepsSurvivors(v, level, I, K, snap)
    requires m in I && Newest(R + I, m.user, snap, Hit(m)) && Obsolete(v, level, m, snap)
    requires Newest(R, m.user, m.seqno, Hit(prior)) && prior.kind.Value?
    ensures Newest(R + K, m.user, snap, Hit(prior))
  {
    forall e | e in R + K && Visible(e, m.user, snap) ensures e.seqno <= prior.seqno {
      assert e in K && e != m ==> Hidden(I, e, snap);
    }
  }

  /** For one user key, reads at every live snapshot are unchanged if and only if no older value
      outside the compaction is uncovered by a dropped marker. */
  lemma DropsAreUnobservableIff(v: Version, level: nat, R: set<Entry>, I: set<Entry>, K: set<Entry>, snap: Seqno, u: UserKey)
    requires UniqueSeqnos(R + I) && KeepsSurvivors(v, level, I, K, snap)
    ensures (forall s: Seqno :: snap <= s ==> SameAnswer(R + I, R + K, u, s)) <==> !Resurrects(v, level, R, I, snap, u)
  {
    if Resurrects(v, level, R, I, snap, u) {
      ResurrectionChangesAnswer(v, level, R, I, K, snap, u);
    } else {
      forall s: Seqno | snap <= s ensures SameAnswer(R + I, R + K, u, s) {
        KeepsAnswer(v, level, R, I, K, snap, u, s);
      }
    }
  }
}
