/** The list of snapshots: which of them are still on it, and at which sequence number they read. */
module StoreSnapshots {
  import opened Values
  import opened InternalKeys
  import opened Store
  import opened StoreRuns

  // ---------------------------------------------------------------------------------------------
  // One step
  // ---------------------------------------------------------------------------------------------

  /** Where the snapshot at place `k` of the list is after the action: only its own release and a crash take it off. */
  function PlaceAfter(a: Action, k: nat): Maybe<nat> {
    match a
    case ReleaseSnapshot(i) => if k < i then Just(k) else if k == i then Nothing else Just(k - 1)
    case Crash(_, _, _, _, _, _) => Nothing
    case _ => Just(k)
  }

  /** A snapshot reads at the same sequence number as long as it is there. */
  lemma SnapshotStays(s: Db, a: Action, k: nat)
    requires Enabled(s, a) && k < |s.snapshots| && PlaceAfter(a, k).Just?
    ensures var place := PlaceAfter(a, k).value;
            place < |Next(s, a).snapshots| && Next(s, a).snapshots[place] == s.snapshots[k]
  {
    match a
    case ReleaseSnapshot(i) =>
      assert k < i ==> Next(s, a).snapshots[k] == s.snapshots[k];
      assert k > i ==> Next(s, a).snapshots[k - 1] == s.snapshots[k];
    case _ =>
  }

  /** And nothing else is on the list afterwards: a new snapshot comes last, at the last published sequence number. */
  lemma NoOtherSnapshots(s: Db, a: Action, place: nat) returns (from: Maybe<nat>)
    requires Enabled(s, a) && place < |Next(s, a).snapshots|
    ensures from.Just? ==> from.value < |s.snapshots| && PlaceAfter(a, from.value) == Just(place)
    ensures from.Nothing? ==> a.TakeSnapshot? && place == |s.snapshots| && Next(s, a).snapshots[place] == s.last
    ensures !a.Crash?
  {
    match a
    case TakeSnapshot => from := if place == |s.snapshots| then Nothing else Just(place);
    case ReleaseSnapshot(i) => from := Just(if place < i then place else place + 1);
    case Crash(_, _, _, _, _, _) => assert false;
    case _ => from := Just(place);
  }

  // ---------------------------------------------------------------------------------------------
  // Runs
  // ---------------------------------------------------------------------------------------------

  /** Where the snapshot at place `k` in state `i` is in state `j`, unless it has been released or lost in a crash. */
  function PlaceIn(actions: seq<Action>, i: nat, j: nat, k: nat): Maybe<nat>
    requires i <= j <= |actions|
    decreases j
  {
    if i == j then Just(k)
    else
      match PlaceIn(actions, i, j - 1, k)
      case Nothing => Nothing
      case Just(place) => PlaceAfter(actions[j - 1], place)
  }

  ghost predicate OnList(snapshots: seq<Seqno>, place: nat, snapshot: Seqno) {
    place < |snapshots| && snapshots[place] == snapshot
  }

  lemma StepOnList(states: seq<Db>, actions: seq<Action>, j: nat, k: nat, snapshot: Seqno)
    requires StepAt(states, actions, j) && OnList(states[j].snapshots, k, snapshot) && PlaceAfter(actions[j], k).Just?
    ensures OnList(states[j + 1].snapshots, PlaceAfter(actions[j], k).value, snapshot)
  {
    SnapshotStays(states[j], actions[j], k);
  }

  /** In any run, a snapshot stays on the list until it is itself released or the store crashes. */
  lemma {:induction false} HeldSnapshotStays(states: seq<Db>, actions: seq<Action>, i: nat, j: nat, k: nat, snapshot: Seqno)
    requires Steps(AnySteps, states, actions) && i <= j < |states|
    requires OnList(states[i].snapshots, k, snapshot) && PlaceIn(actions, i, j, k).Just?
    ensures OnList(states[j].snapshots, PlaceIn(actions, i, j, k).value, snapshot)
    decreases j
  {
    if i < j {
      StepsLength(AnySteps, states, actions);
      HeldSnapshotStays(states, actions, i, j - 1, k, snapshot);
      StepOf(AnySteps, states, actions, j - 1);
      StepOnList(states, actions, j - 1, PlaceIn(actions, i, j - 1, k).value, snapshot);
    }
  }

  /** What is taken goes to the end of the list. */
  lemma TakenIsListed(states: seq<Db>, actions: seq<Action>, i: nat)
    requires StepAt(states, actions, i) && actions[i].TakeSnapshot?
    ensures OnList(states[i + 1].snapshots, |states[i].snapshots|, states[i].last)
  {
  }

  lemma AnyStepsOf(kind: Runs, states: seq<Db>, actions: seq<Action>)
    requires Steps(kind, states, actions)
    ensures Steps(AnySteps, states, actions)
  {
    StepsLength(kind, states, actions);
    forall i | 0 <= i < |actions| ensures StepAt(states, actions, i) {
      StepOf(kind, states, actions, i);
    }
  }
}
