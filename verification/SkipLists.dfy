/** The skip list under a memtable: one writer that links a node level by level, and readers that search meanwhile. */
module SkipLists {

  /** Keys are touched only through the comparator. No two nodes have equal keys, so a key names its node. */
  type Key = int

  const MAX_HEIGHT := 12

  datatype Ptr = Null | Head | Node(key: Key)

  predicate Before(p: Ptr, k: Key) {
    p.Head? || (p.Node? && p.key < k)
  }

  /** The links of one level: where the next pointer of each node leads. */
  type Links = map<Ptr, Ptr>

  ghost predicate OnLevel(keys: set<Key>, p: Ptr) {
    p.Head? || (p.Node? && p.key in keys)
  }

  /** `q` is the first node of `keys` behind `p`. */
  ghost predicate IsNext(keys: set<Key>, p: Ptr, q: Ptr) {
    match q
    case Null => forall k :: k in keys ==> !Before(p, k)
    case Head => false
    case Node(m) => m in keys && Before(p, m) && forall k :: k in keys && Before(p, k) ==> m <= k
  }

  /** `p` is the last node of `keys` before `key`. */
  ghost predicate IsPrev(keys: set<Key>, p: Ptr, key: Key) {
    OnLevel(keys, p) && Before(p, key) && forall k :: k in keys && k < key ==> !Before(p, k)
  }

  /** `q` is the first node at or after `key`. */
  ghost predicate IsFirst(keys: set<Key>, key: Key, q: Ptr) {
    match q
    case Null => forall k :: k in keys ==> k < key
    case Head => false
    case Node(m) => m in keys && key <= m && forall k :: k in keys && key <= k ==> m <= k
  }

  /** Following the links of a level visits exactly `keys`, in increasing order. */
  ghost predicate Chained(links: Links, keys: set<Key>) {
    forall p :: OnLevel(keys, p) ==> p in links && IsNext(keys, p, links[p])
  }

  datatype Memory = Memory(levels: seq<Links>, maxHeight: nat)

  /** Every level is a sorted list, and a sublist of the level below. */
  ghost predicate Linked(m: Memory, keys: seq<set<Key>>) {
    && |m.levels| == |keys| == MAX_HEIGHT && 1 <= m.maxHeight <= MAX_HEIGHT
    && (forall i :: 0 <= i < MAX_HEIGHT ==> Chained(m.levels[i], keys[i]))
    && (forall i, j :: 0 <= i <= j < MAX_HEIGHT ==> keys[j] <= keys[i])
    && (forall i :: m.maxHeight <= i < MAX_HEIGHT ==> keys[i] == {})
  }

  // ---------------------------------------------------------------------------------------------
  // The stores of Insert
  // ---------------------------------------------------------------------------------------------

  /** x->next[i] = prev->next[i] */
  function Prepare(m: Memory, i: nat, prev: Ptr, key: Key): Memory
    requires i < |m.levels| && prev in m.levels[i]
  {
    m.(levels := m.levels[i := m.levels[i][Node(key) := m.levels[i][prev]]])
  }

  /** prev->next[i] = x */
  function Publish(m: Memory, i: nat, prev: Ptr, key: Key): Memory
    requires i < |m.levels|
  {
    m.(levels := m.levels[i := m.levels[i][prev := Node(key)]])
  }

  lemma ChainedPrepared(links: Links, keys: set<Key>, prev: Ptr, key: Key)
    requires Chained(links, keys) && IsPrev(keys, prev, key) && key !in keys
    ensures Chained(links[Node(key) := links[prev]], keys)
  {
  }

  lemma ChainedPublished(links: Links, keys: set<Key>, prev: Ptr, key: Key)
    requires Chained(links, keys) && IsPrev(keys, prev, key) && key !in keys
    requires Node(key) in links && links[Node(key)] == links[prev]
    ensures Chained(links[prev := Node(key)], keys + {key})
  {
    var links', keys' := links[prev := Node(key)], keys + {key};
    forall p | OnLevel(keys', p) ensures p in links' && IsNext(keys', p, links'[p]) {
      if p != prev && p != Node(key) {
        assert IsNext(keys, p, links[p]);
      } else {
        assert IsNext(keys, prev, links[prev]);
      }
    }
  }

  // ---------------------------------------------------------------------------------------------
  // The state machine
  // ---------------------------------------------------------------------------------------------

  datatype Writer =
    | Idle
    | Found(key: Key, height: nat, prev: seq<Ptr>)
    | Linking(key: Key, height: nat, prev: seq<Ptr>, i: nat, prepared: bool)

  datatype Reader =
    | Searching(target: Key, x: Ptr, level: nat)
    | Returned(target: Key, result: Ptr)

  /** `keys` says which keys have been published at each level. */
  datatype State = State(memory: Memory, keys: seq<set<Key>>, writer: Writer, readers: map<nat, Reader>)

  datatype Action =
    | BeginInsert(key: Key, height: nat, prev: seq<Ptr>)
    | RaiseHeight
    | StoreNext
    | StorePrev
    | EndInsert
    | BeginSearch(id: nat, target: Key)
    | SearchStep(id: nat)

  /** What FindGreaterOrEqual leaves in prev, with head_ above the current height. */
  ghost predicate Prevs(keys: seq<set<Key>>, prev: seq<Ptr>, key: Key, from: nat, height: nat) {
    |prev| == height <= |keys| && forall i :: from <= i < height ==> IsPrev(keys[i], prev[i], key)
  }

  ghost predicate Enabled(s: State, a: Action) {
    match a
    case BeginInsert(key, height, prev) =>
      s.writer.Idle? && 1 <= height <= MAX_HEIGHT <= |s.keys| && key !in s.keys[0] && Prevs(s.keys, prev, key, 0, height)
    case RaiseHeight => s.writer.Found?
    case StoreNext => s.writer.Linking? && !s.writer.prepared && s.writer.i < s.writer.height && Reaches(s.memory, s.writer)
    case StorePrev => s.writer.Linking? && s.writer.prepared && Reaches(s.memory, s.writer) && s.writer.i < |s.keys|
    case EndInsert => s.writer.Linking? && !s.writer.prepared && s.writer.i == s.writer.height
    case BeginSearch(id, target) => id !in s.readers && s.memory.maxHeight >= 1
    case SearchStep(id) => id in s.readers && s.readers[id].Searching? && Reads(s.memory, s.readers[id])
  }

  /** The node whose pointer the writer uses exists at the level it is working on. */
  predicate Reaches(m: Memory, w: Writer)
    requires w.Linking?
  {
    w.i < |w.prev| && w.i < |m.levels| && w.prev[w.i] in m.levels[w.i]
  }

  /** The node whose pointer the reader loads exists at its level. */
  predicate Reads(m: Memory, r: Reader)
    requires r.Searching?
  {
    r.level < |m.levels| && r.x in m.levels[r.level]
  }

  function AfterRead(r: Reader, next: Ptr): Reader
    requires r.Searching?
  {
    if next.Node? && next.key < r.target then r.(x := next)
    else if r.level == 0 then Returned(r.target, next)
    else r.(level := r.level - 1)
  }

  ghost function Next(s: State, a: Action): State
    requires Enabled(s, a)
  {
    match a
    case BeginInsert(key, height, prev) => s.(writer := Found(key, height, prev))
    case RaiseHeight =>
      var w := s.writer;
      s.(memory := s.memory.(maxHeight := if w.height > s.memory.maxHeight then w.height else s.memory.maxHeight),
         writer := Linking(w.key, w.height, w.prev, 0, false))
    case StoreNext =>
      var w := s.writer;
      s.(memory := Prepare(s.memory, w.i, w.prev[w.i], w.key), writer := w.(prepared := true))
    case StorePrev =>
      var w := s.writer;
      s.(memory := Publish(s.memory, w.i, w.prev[w.i], w.key), keys := s.keys[w.i := s.keys[w.i] + {w.key}],
         writer := w.(i := w.i + 1, prepared := false))
    case EndInsert => s.(writer := Idle)
    case BeginSearch(id, target) => s.(readers := s.readers[id := Searching(target, Head, s.memory.maxHeight - 1)])
    case SearchStep(id) =>
      var r := s.readers[id];
      s.(readers := s.readers[id := AfterRead(r, s.memory.levels[r.level][r.x])])
  }

  ghost predicate WriterInv(m: Memory, keys: seq<set<Key>>, w: Writer)
    requires |m.levels| == |keys| == MAX_HEIGHT
  {
    match w
    case Idle => true
    case Found(key, height, prev) => 1 <= height <= MAX_HEIGHT && key !in keys[0] && Prevs(keys, prev, key, 0, height)
    case Linking(key, height, prev, i, prepared) =>
      && i <= height <= m.maxHeight <= MAX_HEIGHT && 1 <= height && Prevs(keys, prev, key, i, height)
      && (forall j :: 0 <= j < i ==> key in keys[j]) && (forall j :: i <= j < MAX_HEIGHT ==> key !in keys[j])
      && (prepared ==> i < height && prev[i] in m.levels[i] && Node(key) in m.levels[i] &&
                       m.levels[i][Node(key)] == m.levels[i][prev[i]])
  }

  /** A reader stands on a node that has been published at its level, before its target. */
  ghost predicate ReaderInv(keys: seq<set<Key>>, r: Reader) {
    r.Searching? ==> r.level < |keys| && OnLevel(keys[r.level], r.x) && Before(r.x, r.target)
  }

  ghost predicate Inv(s: State) {
    && Linked(s.memory, s.keys) && WriterInv(s.memory, s.keys, s.writer)
    && forall id :: id in s.readers ==> ReaderInv(s.keys, s.readers[id])
  }

  lemma ReadersUndisturbed(keys: seq<set<Key>>, keys': seq<set<Key>>, r: Reader)
    requires |keys| == |keys'| && forall i :: 0 <= i < |keys| ==> keys[i] <= keys'[i]
    requires ReaderInv(keys, r)
    ensures ReaderInv(keys', r)
  {
  }

  lemma StoreNextKeeps(s: State)
    requires Inv(s) && Enabled(s, StoreNext)
    ensures Inv(Next(s, StoreNext))
  {
    var w := s.writer;
    ChainedPrepared(s.memory.levels[w.i], s.keys[w.i], w.prev[w.i], w.key);
  }

  lemma StorePrevKeeps(s: State)
    requires Inv(s) && Enabled(s, StorePrev)
    ensures Inv(Next(s, StorePrev))
  {
    var w, s' := s.writer, Next(s, StorePrev);
    ChainedPublished(s.memory.levels[w.i], s.keys[w.i], w.prev[w.i], w.key);
    forall i, j | 0 <= i <= j < MAX_HEIGHT ensures s'.keys[j] <= s'.keys[i] {
      assert s.keys[j] <= s.keys[i];
    }
    forall id | id in s'.readers ensures ReaderInv(s'.keys, s'.readers[id]) {
      ReadersUndisturbed(s.keys, s'.keys, s.readers[id]);
    }
  }

  lemma SearchStepKeeps(s: State, id: nat)
    requires Inv(s) && Enabled(s, SearchStep(id))
    ensures Inv(Next(s, SearchStep(id)))
  {
    var r := s.readers[id];
    assert Chained(s.memory.levels[r.level], s.keys[r.level]);
    if r.level > 0 {
      assert s.keys[r.level] <= s.keys[r.level - 1];
    }
  }

  /** After every single store, and between any two of them, every level is a sorted sublist of the level below. */
  lemma StepKeeps(s: State, a: Action)
    requires Inv(s) && Enabled(s, a)
    ensures Inv(Next(s, a))
    ensures forall i :: 0 <= i < MAX_HEIGHT ==> s.keys[i] <= Next(s, a).keys[i]
  {
    match a
    case StoreNext => StoreNextKeeps(s);
    case StorePrev => StorePrevKeeps(s);
    case SearchStep(id) => SearchStepKeeps(s, id);
    case _ =>
  }

  /** Neither a search nor an insert ever follows a pointer that has not been set. */
  lemma NothingDangles(s: State, id: nat)
    requires Inv(s)
    ensures id in s.readers && s.readers[id].Searching? ==> Enabled(s, SearchStep(id))
    ensures s.writer.Linking? ==> Enabled(s, StoreNext) || Enabled(s, StorePrev) || Enabled(s, EndInsert)
  {
    if id in s.readers && s.readers[id].Searching? {
      assert ReaderInv(s.keys, s.readers[id]);
      assert Chained(s.memory.levels[s.readers[id].level], s.keys[s.readers[id].level]);
    }
    if s.writer.Linking? && s.writer.i < s.writer.height {
      assert Chained(s.memory.levels[s.writer.i], s.keys[s.writer.i]);
    }
  }

  /** A search that returns has found the first node at or after its target in the list as of its last read. */
  lemma SearchFindsFirst(s: State, id: nat)
    requires Inv(s) && Enabled(s, SearchStep(id)) && Next(s, SearchStep(id)).readers[id].Returned?
    ensures IsFirst(s.keys[0], s.readers[id].target, Next(s, SearchStep(id)).readers[id].result)
  {
    var r := s.readers[id];
    assert Chained(s.memory.levels[r.level], s.keys[r.level]);
  }

  // ---------------------------------------------------------------------------------------------
  // Runs
  // ---------------------------------------------------------------------------------------------

  /** A new list: all pointers of the head are null. */
  function Empty(): State {
    State(Memory(seq(MAX_HEIGHT, _ => map[Head := Null]), 1), seq(MAX_HEIGHT, _ => {}), Idle, map[])
  }

  ghost predicate StepAt(states: seq<State>, actions: seq<Action>, i: nat) {
    i < |actions| && |states| == |actions| + 1 && Enabled(states[i], actions[i]) && states[i + 1] == Next(states[i], actions[i])
  }

  ghost predicate IsRun(states: seq<State>, actions: seq<Action>) {
    && |states| == |actions| + 1 && states[0] == Empty()
    && forall i :: 0 <= i < |actions| ==> StepAt(states, actions, i)
  }

  lemma EmptyInv()
    ensures Inv(Empty())
  {
  }

  lemma {:induction false} RunKeeps(states: seq<State>, actions: seq<Action>, j: nat)
    requires IsRun(states, actions) && j < |states|
    ensures Inv(states[j])
    decreases j
  {
    if j > 0 {
      RunKeeps(states, actions, j - 1);
      assert StepAt(states, actions, j - 1);
      StepKeeps(states[j - 1], actions[j - 1]);
    } else {
      EmptyInv();
    }
  }

  lemma {:induction false} RunGrows(states: seq<State>, actions: seq<Action>, i: nat, j: nat)
    requires IsRun(states, actions) && i <= j < |states|
    ensures |states[i].keys| == |states[j].keys| == MAX_HEIGHT && states[i].keys[0] <= states[j].keys[0]
    decreases j
  {
    RunKeeps(states, actions, j);
    if i < j {
      RunGrows(states, actions, i, j - 1);
      RunKeeps(states, actions, j - 1);
      assert StepAt(states, actions, j - 1);
      StepKeeps(states[j - 1], actions[j - 1]);
    }
  }

  /** A search for a key that was in the list before the search returns that key's node, whatever is inserted meanwhile. */
  lemma SearchSeesEarlierInserts(states: seq<State>, actions: seq<Action>, i: nat, j: nat, id: nat)
    requires IsRun(states, actions) && i <= j < |actions| && actions[j] == SearchStep(id)
    requires id in states[j + 1].readers && states[j + 1].readers[id].Returned?
    requires states[i].keys != [] && states[j + 1].readers[id].target in states[i].keys[0]
    ensures states[j + 1].readers[id].result == Node(states[j + 1].readers[id].target)
  {
    RunKeeps(states, actions, j);
    RunGrows(states, actions, i, j);
    assert StepAt(states, actions, j);
    SearchFindsFirst(states[j], id);
  }

  // ---------------------------------------------------------------------------------------------
  // The searches and Insert, run without interruption
  // ---------------------------------------------------------------------------------------------

  ghost function Ahead(keys: set<Key>, x: Ptr): set<Key> {
    set k | k in keys && Before(x, k)
  }

  lemma AheadShrinks(keys: set<Key>, x: Ptr, next: Ptr)
    requires IsNext(keys, x, next) && next.Node?
    ensures |Ahead(keys, next)| < |Ahead(keys, x)|
  {
    var more, less := Ahead(keys, x), Ahead(keys, next);
    assert next.key in more - less;
    assert more == less + (more - less);
  }

  class SkipList {
    var memory: Memory
    ghost var keys: seq<set<Key>>

    ghost predicate Valid()
      reads this
    {
      Linked(memory, keys)
    }

    constructor ()
      ensures Valid() && keys[0] == {}
    {
      memory := Memory(seq(MAX_HEIGHT, _ => map[Head := Null]), 1);
      keys := seq(MAX_HEIGHT, _ => {});
    }

    /** The first node at or after `key`, and on every level the last node before it. */
    method FindGreaterOrEqual(key: Key) returns (next: Ptr, prev: seq<Ptr>)
      requires Valid()
      ensures IsFirst(keys[0], key, next) && Prevs(keys, prev, key, 0, memory.maxHeight)
    {
      var x, level := Head, memory.maxHeight - 1;
      prev := seq(memory.maxHeight, _ => Head);
      while true
        invariant 0 <= level < memory.maxHeight && OnLevel(keys[level], x) && Before(x, key)
        invariant Prevs(keys, prev, key, level + 1, memory.maxHeight)
        decreases level, |Ahead(keys[level], x)|
      {
        assert Chained(memory.levels[level], keys[level]);
        next := memory.levels[level][x];
        if next.Node? && next.key < key {
          AheadShrinks(keys[level], x, next);
          x := next;
        } else {
          prev := prev[level := x];
          if level == 0 {
            return;
          }
          assert keys[level] <= keys[level - 1];
          level := level - 1;
        }
      }
    }

    /** The last node before `key`, or the head. */
    method FindLessThan(key: Key) returns (x: Ptr)
      requires Valid()
      ensures IsPrev(keys[0], x, key)
    {
      x := Head;
      var level := memory.maxHeight - 1;
      while true
        invariant 0 <= level < memory.maxHeight && OnLevel(keys[level], x) && Before(x, key)
        decreases level, |Ahead(keys[level], x)|
      {
        assert Chained(memory.levels[level], keys[level]);
        var next := memory.levels[level][x];
        if next.Null? || next.key >= key {
          if level == 0 {
            return;
          }
          assert keys[level] <= keys[level - 1];
          level := level - 1;
        } else {
          AheadShrinks(keys[level], x, next);
          x := next;
        }
      }
    }

    /** The last node, or the head of an empty list. */
    method FindLast() returns (x: Ptr)
      requires Valid()
      ensures OnLevel(keys[0], x) && forall k :: k in keys[0] ==> !Before(x, k)
    {
      x := Head;
      var level := memory.maxHeight - 1;
      while true
        invariant 0 <= level < memory.maxHeight && OnLevel(keys[level], x)
        decreases level, |Ahead(keys[level], x)|
      {
        assert Chained(memory.levels[level], keys[level]);
        var next := memory.levels[level][x];
        if next.Null? {
          if level == 0 {
            return;
          }
          assert keys[level] <= keys[level - 1];
          level := level - 1;
        } else {
          AheadShrinks(keys[level], x, next);
          x := next;
        }
      }
    }

    method Contains(key: Key) returns (found: bool)
      requires Valid()
      ensures found <==> key in keys[0]
    {
      var x, _ := FindGreaterOrEqual(key);
      found := x.Node? && x.key == key;
    }

    /** Every turn of the linking loop leaves a valid list; `height` is the random height. */
    method Insert(key: Key, height: nat)
      requires Valid() && 1 <= height <= MAX_HEIGHT && key !in keys[0]
      modifies this
      ensures Valid() && keys[0] == old(keys[0]) + {key}
      ensures forall i :: 0 <= i < MAX_HEIGHT ==> keys[i] == if i < height then old(keys[i]) + {key} else old(keys[i])
    {
      var _, prev := FindGreaterOrEqual(key);
      if height > memory.maxHeight {
        prev := prev + seq(height - memory.maxHeight, _ => Head);
        memory := memory.(maxHeight := height);
      }
      prev := prev[..height];
      assert forall i :: 0 <= i < height ==> IsPrev(keys[i], prev[i], key);
      for i := 0 to height
        invariant Valid() && memory.maxHeight >= height && Prevs(keys, prev, key, i, height)
        invariant forall j :: 0 <= j < MAX_HEIGHT ==> keys[j] == if j < i then old(keys[j]) + {key} else old(keys[j])
      {
        assert old(keys[i]) <= old(keys[0]);
        Link(key, i, prev[i]);
      }
    }

    /** The two stores of one turn: the new node is complete before it can be reached. */
    method Link(key: Key, i: nat, prev: Ptr)
      requires Valid() && i < memory.maxHeight && IsPrev(keys[i], prev, key) && key !in keys[i]
      requires forall j :: 0 <= j < i ==> key in keys[j]
      modifies this
      ensures Valid() && keys == old(keys)[i := old(keys)[i] + {key}] && memory.maxHeight == old(memory).maxHeight
    {
      assert Chained(memory.levels[i], keys[i]);
      ChainedPrepared(memory.levels[i], keys[i], prev, key);
      memory := Prepare(memory, i, prev, key);
      ChainedPublished(memory.levels[i], keys[i], prev, key);
      memory := Publish(memory, i, prev, key);
      keys := keys[i := keys[i] + {key}];
      forall a, b | 0 <= a <= b < MAX_HEIGHT ensures keys[b] <= keys[a] {
        assert old(keys)[b] <= old(keys)[a];
      }
    }
  }
}
