/** One shard of the block cache: entries in use by clients, and the others in the order in which they were last used. */
module LruCaches {
  import opened Values
  import opened HandleTables

  /** The part of a handle that never changes. */
  datatype Info = Info(name: Name, value: string, charge: nat)

  type Infos = map<nat, Info>

  /** A handle is alive while somebody refers to it. */
  type Count = n: nat | n >= 1 witness 1

  type Refs = map<nat, Count>

  // ---------------------------------------------------------------------------------------------
  // Lists of handles
  // ---------------------------------------------------------------------------------------------

  ghost predicate NoTwice(list: seq<nat>) {
    list == [] || (list[|list| - 1] !in list[..|list| - 1] && NoTwice(list[..|list| - 1]))
  }

  lemma AppendedNoTwice(list: seq<nat>, id: nat)
    requires NoTwice(list) && id !in list
    ensures NoTwice(list + [id])
  {
    assert (list + [id])[..|list|] == list;
  }

  function Unlinked(list: seq<nat>, id: nat): seq<nat> {
    if list == [] then [] else Unlinked(list[..|list| - 1], id) + if list[|list| - 1] == id then [] else [list[|list| - 1]]
  }

  lemma {:induction false} UnlinkedMembers(list: seq<nat>, id: nat, x: nat)
    ensures x in Unlinked(list, id) <==> x in list && x != id
    decreases |list|
  {
    if list != [] {
      UnlinkedMembers(list[..|list| - 1], id, x);
      assert list == list[..|list| - 1] + [list[|list| - 1]];
    }
  }

  lemma {:induction false} UnlinkedNoTwice(list: seq<nat>, id: nat)
    requires NoTwice(list)
    ensures NoTwice(Unlinked(list, id))
    decreases |list|
  {
    if list != [] {
      var init := list[..|list| - 1];
      UnlinkedNoTwice(init, id);
      UnlinkedMembers(init, id, list[|list| - 1]);
      if list[|list| - 1] != id {
        AppendedNoTwice(Unlinked(init, id), list[|list| - 1]);
      } else {
        assert Unlinked(list, id) == Unlinked(init, id);
      }
    }
  }

  /** A handle that is not on the list leaves it as it is. */
  lemma {:induction false} UnlinkedElsewhere(list: seq<nat>, id: nat)
    requires id !in list
    ensures Same(Unlinked(list, id), list)
    decreases |list|
  {
    if list != [] {
      UnlinkedElsewhere(list[..|list| - 1], id);
      assert list == list[..|list| - 1] + [list[|list| - 1]];
    }
  }

  function ChargeOf(infos: Infos, id: nat): nat {
    if id in infos then infos[id].charge else 0
  }

  function Charge(infos: Infos, list: seq<nat>): nat {
    if list == [] then 0 else Charge(infos, list[..|list| - 1]) + ChargeOf(infos, list[|list| - 1])
  }

  /** A new handle changes nothing for those there are. */
  lemma {:induction false} SameCharge(infos: Infos, infos': Infos, list: seq<nat>)
    requires forall id :: id in list ==> ChargeOf(infos, id) == ChargeOf(infos', id)
    ensures Charge(infos, list) == Charge(infos', list)
    decreases |list|
  {
    if list != [] {
      assert list[|list| - 1] in list;
      SameCharge(infos, infos', list[..|list| - 1]);
    }
  }

  lemma {:induction false} UnlinkedCharge(infos: Infos, list: seq<nat>, id: nat)
    requires NoTwice(list)
    ensures Charge(infos, Unlinked(list, id)) == Charge(infos, list) - if id in list then ChargeOf(infos, id) else 0
    decreases |list|
  {
    if list != [] {
      var init, last := list[..|list| - 1], list[|list| - 1];
      UnlinkedCharge(infos, init, id);
      assert list == init + [last];
      if last == id {
        UnlinkedElsewhere(init, id);
        assert Unlinked(list, id) == init;
      } else {
        AppendedCharge(infos, Unlinked(init, id), last);
      }
    }
  }

  lemma AppendedCharge(infos: Infos, list: seq<nat>, id: nat)
    ensures Charge(infos, list + [id]) == Charge(infos, list) + ChargeOf(infos, id)
  {
    assert (list + [id])[..|list|] == list;
  }

  // ---------------------------------------------------------------------------------------------
  // The invariant
  // ---------------------------------------------------------------------------------------------

  /** The list of entries that may be evicted, oldest first, and the list of entries in use. */
  datatype Lists = Lists(lru: seq<nat>, inUse: seq<nat>) {
    /** Takes a handle off whichever list it is on. */
    function Remove(id: nat): Lists {
      Lists(Unlinked(lru, id), Unlinked(inUse, id))
    }

    function AppendUsed(id: nat): Lists {
      Lists(lru, inUse + [id])
    }

    function AppendIdle(id: nat): Lists {
      Lists(lru + [id], inUse)
    }

    ghost predicate Holds(id: nat) {
      id in lru || id in inUse
    }

    ghost predicate Disjoint() {
      NoTwice(lru) && NoTwice(inUse) && forall id :: id in lru ==> id !in inUse
    }
  }

  // ---------------------------------------------------------------------------------------------
  // The state of a shard
  // ---------------------------------------------------------------------------------------------

  /** Everything but the hash table. `deleted` are the handles whose deleter has run, in order; `clients` says how many
      references clients hold. */
  datatype Shard = Shard(lists: Lists, infos: Infos, refs: Refs, cached: set<nat>, usage: nat, next: nat,
                         deleted: seq<nat>, clients: map<nat, nat>)

  /** Cached entries are on one list or the other, depending on whether a client refers to them. */
  ghost predicate Listed(refs: Refs, cached: set<nat>, lists: Lists) {
    && cached <= refs.Keys
    && (forall id: nat :: id in lists.lru <==> id in cached && refs[id] == 1)
    && (forall id: nat :: id in lists.inUse <==> id in cached && refs[id] >= 2)
  }

  /** No entry is on the lists twice, and their charges add up to the usage. */
  ghost predicate Tidy(infos: Infos, lists: Lists, usage: nat) {
    lists.Disjoint() && usage == Charge(infos, lists.lru) + Charge(infos, lists.inUse)
  }

  /** The table finds exactly the entries in `found`. */
  ghost predicate Found(infos: Infos, found: set<nat>, contents: map<Name, nat>) {
    && (forall id :: id in found ==> id in infos && infos[id].name in contents && contents[infos[id].name] == id)
    && (forall n :: n in contents ==> contents[n] in found && contents[n] in infos && infos[contents[n]].name == n)
  }

  /** Every handle that was handed out is alive until its deleter has run, which happens once. */
  ghost predicate HandedOut(infos: Infos, refs: Refs, deleted: seq<nat>, next: nat) {
    && (forall id: nat :: id in infos <==> id < next)
    && (forall id: nat :: id in refs <==> id < next && id !in deleted)
    && (forall id :: id in deleted ==> id < next) && NoTwice(deleted)
  }

  /** References are those of clients and the one of the cache. */
  ghost predicate AddsUp(refs: Refs, cached: set<nat>, clients: map<nat, nat>) {
    && clients.Keys == refs.Keys
    && forall id :: id in refs ==> refs[id] == clients[id] + if id in cached then 1 else 0
  }

  ghost predicate Parts(s: Shard) {
    && Listed(s.refs, s.cached, s.lists) && Tidy(s.infos, s.lists, s.usage)
    && HandedOut(s.infos, s.refs, s.deleted, s.next) && AddsUp(s.refs, s.cached, s.clients)
  }

  /** The invariant of a shard without its table, kept shut. */
  ghost predicate Sound(s: Maybe<Shard>) {
    match s
    case Nothing => true
    case Just(shard) => forall mark {:trigger Open(shard, mark)} :: Open(shard, mark) ==> Parts(shard)
  }

  // ---------------------------------------------------------------------------------------------
  // What the operations do to it
  // ---------------------------------------------------------------------------------------------

  function RefLists(lists: Lists, refs: Refs, cached: set<nat>, id: nat): Lists {
    if id in refs && refs[id] == 1 && id in cached then lists.Remove(id).AppendUsed(id) else lists
  }

  function UnrefLists(lists: Lists, refs: Refs, cached: set<nat>, id: nat): Lists {
    if id in refs && refs[id] == 2 && id in cached then lists.Remove(id).AppendIdle(id) else lists
  }

  function RefCount(refs: Refs, id: nat): Refs {
    if id in refs then refs[id := refs[id] + 1] else refs
  }

  function UnrefCount(refs: Refs, id: nat): Refs {
    if id !in refs then refs else if refs[id] == 1 then refs - {id} else refs[id := (refs[id] as int) - 1]
  }

  function UnrefDeleted(refs: Refs, deleted: seq<nat>, id: nat): seq<nat> {
    if id in refs && refs[id] == 1 then deleted + [id] else deleted
  }

  function Minus(a: nat, b: nat): nat {
    if b <= a then a - b else 0
  }

  /** A client gets a reference. */
  function Acquired(s: Shard, id: nat): Shard {
    s.(lists := RefLists(s.lists, s.refs, s.cached, id), refs := RefCount(s.refs, id),
       clients := if id in s.clients then s.clients[id := s.clients[id] + 1] else s.clients)
  }

  /** A client gives one back. */
  function Released(s: Shard, id: nat): Shard {
    s.(lists := UnrefLists(s.lists, s.refs, s.cached, id), refs := UnrefCount(s.refs, id),
       deleted := UnrefDeleted(s.refs, s.deleted, id),
       clients := if id in s.refs && s.refs[id] == 1 then s.clients - {id}
                  else if id in s.clients then s.clients[id := Minus(s.clients[id], 1)] else s.clients)
  }

  /** The cache gives up an entry. */
  function Uncached(s: Shard, id: nat): Shard {
    s.(lists := s.lists.Remove(id), cached := s.cached - {id}, usage := Minus(s.usage, ChargeOf(s.infos, id)),
       refs := UnrefCount(s.refs, id), deleted := UnrefDeleted(s.refs, s.deleted, id),
       clients := if id in s.refs && s.refs[id] == 1 then s.clients - {id} else s.clients)
  }

  /** A new entry for one client, which the cache keeps if it keeps any. */
  function Added(s: Shard, info: Info, keeps: bool): Shard {
    var id := s.next;
    var t := s.(infos := s.infos[id := info], next := id + 1, clients := s.clients[id := 1]);
    if keeps then t.(refs := s.refs[id := 2], cached := s.cached + {id}, lists := s.lists.AppendUsed(id), usage := s.usage + info.charge)
    else t.(refs := s.refs[id := 1])
  }

  lemma RemoveMembers(lists: Lists, id: nat)
    ensures forall x: nat :: x in lists.Remove(id).lru <==> x in lists.lru && x != id
    ensures forall x: nat :: x in lists.Remove(id).inUse <==> x in lists.inUse && x != id
  {
    forall x: nat
      ensures x in lists.Remove(id).lru <==> x in lists.lru && x != id
      ensures x in lists.Remove(id).inUse <==> x in lists.inUse && x != id
    {
      UnlinkedMembers(lists.lru, id, x);
      UnlinkedMembers(lists.inUse, id, x);
    }
  }

  lemma RemoveTidy(infos: Infos, lists: Lists, usage: nat, id: nat)
    requires Tidy(infos, lists, usage) && lists.Holds(id)
    ensures ChargeOf(infos, id) <= usage && Tidy(infos, lists.Remove(id), usage - ChargeOf(infos, id))
  {
    UnlinkedNoTwice(lists.lru, id);
    UnlinkedNoTwice(lists.inUse, id);
    RemoveMembers(lists, id);
    UnlinkedCharge(infos, lists.lru, id);
    UnlinkedCharge(infos, lists.inUse, id);
  }

  lemma AppendTidy(infos: Infos, lists: Lists, usage: nat, id: nat)
    requires Tidy(infos, lists, usage) && !lists.Holds(id)
    ensures Tidy(infos, lists.AppendUsed(id), usage + ChargeOf(infos, id))
    ensures Tidy(infos, lists.AppendIdle(id), usage + ChargeOf(infos, id))
  {
    AppendedCharge(infos, lists.lru, id);
    AppendedCharge(infos, lists.inUse, id);
    AppendedNoTwice(lists.lru, id);
    AppendedNoTwice(lists.inUse, id);
  }

  /** Off its list and onto one of them leaves usage as it is. */
  lemma ChangeTidy(infos: Infos, lists: Lists, usage: nat, id: nat)
    requires Tidy(infos, lists, usage) && lists.Holds(id)
    ensures Tidy(infos, lists.Remove(id).AppendUsed(id), usage) && Tidy(infos, lists.Remove(id).AppendIdle(id), usage)
  {
    RemoveTidy(infos, lists, usage, id);
    RemoveMembers(lists, id);
    AppendTidy(infos, lists.Remove(id), usage - ChargeOf(infos, id), id);
  }

  lemma RefListed(refs: Refs, cached: set<nat>, lists: Lists, id: nat)
    requires Listed(refs, cached, lists) && id in refs
    ensures Listed(RefCount(refs, id), cached, RefLists(lists, refs, cached, id))
  {
    RemoveMembers(lists, id);
  }

  lemma UnrefListed(refs: Refs, cached: set<nat>, lists: Lists, id: nat)
    requires Listed(refs, cached, lists) && id in refs && (id in cached ==> refs[id] >= 2)
    ensures Listed(UnrefCount(refs, id), cached, UnrefLists(lists, refs, cached, id))
  {
    RemoveMembers(lists, id);
  }

  lemma UncachedListed(refs: Refs, cached: set<nat>, lists: Lists, id: nat)
    requires Listed(refs, cached, lists) && id in cached
    ensures Listed(UnrefCount(refs, id), cached - {id}, lists.Remove(id))
  {
    RemoveMembers(lists, id);
  }

  lemma UnrefHandedOut(infos: Infos, refs: Refs, deleted: seq<nat>, next: nat, id: nat)
    requires HandedOut(infos, refs, deleted, next) && id in refs
    ensures HandedOut(infos, UnrefCount(refs, id), UnrefDeleted(refs, deleted, id), next)
  {
    AppendedNoTwice(deleted, id);
  }

  lemma AcquiredKeeps(s: Shard, id: nat)
    requires Sound(Just(s)) && id in s.refs && id in s.clients
    ensures Sound(Just(Acquired(s, id)))
  {
    assert Open(s, 0);
    RefListed(s.refs, s.cached, s.lists, id);
    if s.refs[id] == 1 && id in s.cached {
      ChangeTidy(s.infos, s.lists, s.usage, id);
    }
  }

  lemma ReleasedKeeps(s: Shard, id: nat)
    requires Sound(Just(s)) && id in s.refs && id in s.clients && s.clients[id] > 0
    ensures Sound(Just(Released(s, id)))
  {
    assert Open(s, 0);
    UnrefListed(s.refs, s.cached, s.lists, id);
    UnrefHandedOut(s.infos, s.refs, s.deleted, s.next, id);
    if s.refs[id] == 2 && id in s.cached {
      ChangeTidy(s.infos, s.lists, s.usage, id);
    }
  }

  lemma UncachedKeeps(s: Shard, id: nat)
    requires Sound(Just(s)) && id in s.cached
    ensures id in s.refs && id in s.clients && ChargeOf(s.infos, id) <= s.usage && Sound(Just(Uncached(s, id)))
  {
    assert Open(s, 0);
    UncachedListed(s.refs, s.cached, s.lists, id);
    UnrefHandedOut(s.infos, s.refs, s.deleted, s.next, id);
    RemoveTidy(s.infos, s.lists, s.usage, id);
    UncachedAddsUp(s.refs, s.cached, s.clients, id);
  }

  /** The reference of the cache goes, those of clients stay. */
  lemma UncachedAddsUp(refs: Refs, cached: set<nat>, clients: map<nat, nat>, id: nat)
    requires AddsUp(refs, cached, clients) && id in cached && id in refs
    ensures AddsUp(UnrefCount(refs, id), cached - {id}, if refs[id] == 1 then clients - {id} else clients)
  {
  }

  lemma AddedTidy(infos: Infos, lists: Lists, usage: nat, id: nat, info: Info)
    requires Tidy(infos, lists, usage) && id !in infos && !lists.Holds(id)
    ensures Tidy(infos[id := info], lists, usage) && Tidy(infos[id := info], lists.AppendUsed(id), usage + info.charge)
  {
    SameCharge(infos, infos[id := info], lists.lru);
    SameCharge(infos, infos[id := info], lists.inUse);
    AppendTidy(infos[id := info], lists, usage, id);
  }

  lemma AddedHandedOut(infos: Infos, refs: Refs, deleted: seq<nat>, next: nat, info: Info, n: Count)
    requires HandedOut(infos, refs, deleted, next)
    ensures HandedOut(infos[next := info], refs[next := n], deleted, next + 1)
  {
  }

  lemma AddedListed(refs: Refs, cached: set<nat>, lists: Lists, id: nat)
    requires Listed(refs, cached, lists) && id !in refs
    ensures Listed(refs[id := 1], cached, lists) && Listed(refs[id := 2], cached + {id}, lists.AppendUsed(id))
  {
  }

  lemma NextIsNew(s: Shard)
    requires Parts(s)
    ensures s.next !in s.infos && s.next !in s.refs && s.next !in s.cached && !s.lists.Holds(s.next)
  {
  }

  lemma AddedCached(s: Shard, info: Info)
    requires Parts(s) && s.next !in s.infos && s.next !in s.refs && s.next !in s.cached && !s.lists.Holds(s.next)
    ensures Parts(Added(s, info, true))
  {
    AddedTidy(s.infos, s.lists, s.usage, s.next, info);
    AddedHandedOut(s.infos, s.refs, s.deleted, s.next, info, 2);
    AddedListed(s.refs, s.cached, s.lists, s.next);
    AddedAddsUp(s.refs, s.cached, s.clients, s.next);
  }

  lemma AddedUncached(s: Shard, info: Info)
    requires Parts(s) && s.next !in s.infos && s.next !in s.refs && s.next !in s.cached && !s.lists.Holds(s.next)
    ensures Parts(Added(s, info, false))
  {
    AddedTidy(s.infos, s.lists, s.usage, s.next, info);
    AddedHandedOut(s.infos, s.refs, s.deleted, s.next, info, 1);
    AddedListed(s.refs, s.cached, s.lists, s.next);
    AddedAddsUp(s.refs, s.cached, s.clients, s.next);
  }

  lemma AddedKeeps(s: Shard, info: Info, keeps: bool)
    requires Sound(Just(s))
    ensures Sound(Just(Added(s, info, keeps))) && s.next !in s.infos && s.next !in s.cached && s.next !in s.refs
  {
    assert Open(s, 0);
    NextIsNew(s);
    if keeps {
      AddedCached(s, info);
    } else {
      AddedUncached(s, info);
    }
  }

  lemma AddedAddsUp(refs: Refs, cached: set<nat>, clients: map<nat, nat>, id: nat)
    requires AddsUp(refs, cached, clients) && id !in refs && id !in cached
    ensures AddsUp(refs[id := 1], cached, clients[id := 1]) && AddsUp(refs[id := 2], cached + {id}, clients[id := 1])
  {
  }

  // ---------------------------------------------------------------------------------------------
  // The table beside it
  // ---------------------------------------------------------------------------------------------

  lemma FoundWithout(infos: Infos, cached: set<nat>, contents: map<Name, nat>, name: Name)
    requires Found(infos, cached, contents) && name in contents
    ensures contents[name] in cached && Found(infos, cached - {contents[name]}, contents - {name})
  {
  }

  /** A new entry takes the place of the one of its name. */
  lemma FoundWith(infos: Infos, cached: set<nat>, contents: map<Name, nat>, id: nat, info: Info)
    requires Found(infos, cached, contents) && id !in infos && id !in cached
    ensures var gone := if info.name in contents then {contents[info.name]} else {};
            Found(infos[id := info], cached + {id} - gone, contents[info.name := id])
  {
  }

  lemma FoundKeeps(infos: Infos, cached: set<nat>, contents: map<Name, nat>, id: nat, info: Info)
    requires Found(infos, cached, contents) && id !in infos
    ensures Found(infos[id := info], cached, contents)
  {
  }

  // ---------------------------------------------------------------------------------------------
  // Eviction
  // ---------------------------------------------------------------------------------------------

  lemma {:induction false} UnlinkedShorter(list: seq<nat>, id: nat)
    ensures |Unlinked(list, id)| <= |list| && (id in list ==> |Unlinked(list, id)| < |list|)
    decreases |list|
  {
    if list != [] {
      UnlinkedShorter(list[..|list| - 1], id);
      assert list == list[..|list| - 1] + [list[|list| - 1]];
    }
  }

  /** From the oldest entry on, until usage fits or nothing is left to evict. */
  function Evicted(s: Shard, capacity: nat): Shard
    decreases |s.lists.lru|
  {
    if s.usage <= capacity || s.lists.lru == [] then s
    else
      UnlinkedShorter(s.lists.lru, s.lists.lru[0]);
      Evicted(Uncached(s, s.lists.lru[0]), capacity)
  }

  function Pruned(s: Shard): Shard
    decreases |s.lists.lru|
  {
    if s.lists.lru == [] then s
    else
      UnlinkedShorter(s.lists.lru, s.lists.lru[0]);
      Pruned(Uncached(s, s.lists.lru[0]))
  }

  lemma {:induction false} UnlinkedFirst(list: seq<nat>)
    requires NoTwice(list) && list != []
    ensures Same(Unlinked(list, list[0]), list[1..])
    decreases |list|
  {
    var init, last := list[..|list| - 1], list[|list| - 1];
    if |list| == 1 {
      assert Unlinked(list, list[0]) == [] && list[1..] == [];
    } else {
      UnlinkedFirst(init);
      assert init[0] == list[0] && list[0] in init;
      assert list[1..] == init[1..] + [last];
    }
  }

  /** What evicting the oldest entry does. */
  lemma EvictOldest(s: Shard)
    requires Sound(Just(s)) && s.lists.lru != []
    ensures var t := Uncached(s, s.lists.lru[0]);
            && s.lists.lru[0] in s.cached && Sound(Just(t)) && Same(t.lists.lru, s.lists.lru[1..]) && Same(t.deleted, s.deleted + [s.lists.lru[0]])
            && ChargeOf(s.infos, s.lists.lru[0]) <= s.usage && t.usage == s.usage - ChargeOf(s.infos, s.lists.lru[0])
  {
    assert Open(s, 0);
    assert s.lists.lru[0] in s.lists.lru;
    UncachedKeeps(s, s.lists.lru[0]);
    UnlinkedFirst(s.lists.lru);
  }

  /** Eviction takes the shortest run of oldest entries after which usage fits, or all there are; each deleter runs once. */
  lemma {:induction false} EvictsOldest(s: Shard, capacity: nat) returns (k: nat)
    requires Sound(Just(s))
    ensures var t := Evicted(s, capacity);
            && Sound(Just(t)) && k <= |s.lists.lru| && t.lists.lru == s.lists.lru[k..] && t.deleted == s.deleted + s.lists.lru[..k]
            && (t.usage <= capacity || k == |s.lists.lru|)
            && t.usage + Charge(s.infos, s.lists.lru[..k]) == s.usage
            && (k > 0 ==> s.usage - Charge(s.infos, s.lists.lru[..k - 1]) > capacity)
    decreases |s.lists.lru|
  {
    var lru := s.lists.lru;
    if s.usage <= capacity || lru == [] {
      k := 0;
      assert s.deleted + lru[..0] == s.deleted;
    } else {
      EvictOldest(s);
      var t := Uncached(s, lru[0]);
      var j := EvictsOldest(t, capacity);
      k := j + 1;
      OldestFirst(s.infos, lru, t.lists.lru, j);
      Shifted(s.deleted, lru, t.lists.lru, j);
    }
  }

  lemma Shifted(deleted: seq<nat>, lru: seq<nat>, rest: seq<nat>, j: nat)
    requires lru != [] && Same(rest, lru[1..]) && j <= |rest|
    ensures Same(lru[j + 1..], rest[j..]) && Same(deleted + lru[..j + 1], deleted + [lru[0]] + rest[..j])
  {
    assert lru[j + 1..] == rest[j..];
    assert deleted + lru[..j + 1] == deleted + [lru[0]] + rest[..j];
  }

  lemma OldestFirst(infos: Infos, lru: seq<nat>, rest: seq<nat>, j: nat)
    requires lru != [] && Same(rest, lru[1..]) && j <= |rest|
    ensures Charge(infos, lru[..j + 1]) == ChargeOf(infos, lru[0]) + Charge(infos, rest[..j])
    ensures j > 0 ==> Charge(infos, lru[..j]) == ChargeOf(infos, lru[0]) + Charge(infos, rest[..j - 1])
  {
    PrependedCharge(infos, lru[0], rest[..j]);
    assert lru[..j + 1] == [lru[0]] + rest[..j];
    if j > 0 {
      PrependedCharge(infos, lru[0], rest[..j - 1]);
      assert lru[..j] == [lru[0]] + rest[..j - 1];
    }
  }

  lemma {:induction false} PrependedCharge(infos: Infos, id: nat, list: seq<nat>)
    ensures Charge(infos, [id] + list) == ChargeOf(infos, id) + Charge(infos, list)
    decreases |list|
  {
    if list == [] {
      assert [id] + list == [id] && [id][..0] == [];
    } else {
      PrependedCharge(infos, id, list[..|list| - 1]);
      assert ([id] + list)[..|list|] == [id] + list[..|list| - 1];
    }
  }

  // ---------------------------------------------------------------------------------------------
  // The order on the list is that of last use
  // ---------------------------------------------------------------------------------------------

  /** `released` says when clients last gave back each handle. Along the list these times rise, up to `bound`. */
  ghost predicate ByLastUse(list: seq<nat>, released: map<nat, nat>, bound: nat) {
    list == [] ||
    var last := list[|list| - 1];
    last in released && released[last] < bound && ByLastUse(list[..|list| - 1], released, released[last])
  }

  lemma {:induction false} UsedBefore(list: seq<nat>, released: map<nat, nat>, bound: nat, x: nat)
    requires ByLastUse(list, released, bound) && x in list
    ensures x in released && released[x] < bound
    decreases |list|
  {
    var init, last := list[..|list| - 1], list[|list| - 1];
    if x != last {
      assert x in init;
      UsedBefore(init, released, released[last], x);
    }
  }

  /** Whoever stands earlier on the list was used earlier. */
  lemma {:induction false} EarlierUsedEarlier(list: seq<nat>, released: map<nat, nat>, bound: nat, i: nat, j: nat)
    requires ByLastUse(list, released, bound) && i < j < |list|
    ensures list[i] in released && list[j] in released && released[list[i]] < released[list[j]]
    decreases |list|
  {
    var init, last := list[..|list| - 1], list[|list| - 1];
    if j < |list| - 1 {
      EarlierUsedEarlier(init, released, released[last], i, j);
    } else {
      assert init[i] == list[i];
      UsedBefore(init, released, released[last], list[i]);
    }
  }

  lemma {:induction false} HigherBound(list: seq<nat>, released: map<nat, nat>, bound: nat, more: nat)
    requires ByLastUse(list, released, bound) && bound <= more
    ensures ByLastUse(list, released, more)
  {
  }

  lemma {:induction false} UnlinkedByLastUse(list: seq<nat>, released: map<nat, nat>, bound: nat, id: nat)
    requires ByLastUse(list, released, bound)
    ensures ByLastUse(Unlinked(list, id), released, bound)
    decreases |list|
  {
    if list != [] {
      var init, last := list[..|list| - 1], list[|list| - 1];
      UnlinkedByLastUse(init, released, released[last], id);
      if last == id {
        assert Unlinked(list, id) == Unlinked(init, id);
        HigherBound(Unlinked(init, id), released, released[last], bound);
      } else {
        assert (Unlinked(init, id) + [last])[..|Unlinked(init, id)|] == Unlinked(init, id);
      }
    }
  }

  /** Another handle is given back. */
  lemma {:induction false} OthersByLastUse(list: seq<nat>, released: map<nat, nat>, bound: nat, id: nat, time: nat)
    requires ByLastUse(list, released, bound) && id !in list
    ensures ByLastUse(list, released[id := time], bound)
    decreases |list|
  {
    if list != [] {
      var init, last := list[..|list| - 1], list[|list| - 1];
      assert last in list;
      OthersByLastUse(init, released, released[last], id, time);
    }
  }

  lemma ReleasedByLastUse(s: Shard, released: map<nat, nat>, clock: nat, id: nat)
    requires Sound(Just(s)) && ByLastUse(s.lists.lru, released, clock) && id in s.clients && s.clients[id] > 0
    ensures ByLastUse(Released(s, id).lists.lru, released[id := clock], clock + 1)
  {
    assert Open(s, 0);
    var lru := s.lists.lru;
    assert id !in lru;
    OthersByLastUse(lru, released, clock, id, clock);
    HigherBound(lru, released[id := clock], clock, clock + 1);
    UnlinkedElsewhere(lru, id);
    assert (lru + [id])[..|lru|] == lru;
  }

  lemma AcquiredByLastUse(s: Shard, released: map<nat, nat>, clock: nat, id: nat)
    requires ByLastUse(s.lists.lru, released, clock)
    ensures ByLastUse(Acquired(s, id).lists.lru, released, clock)
  {
    UnlinkedByLastUse(s.lists.lru, released, clock, id);
  }

  lemma UncachedByLastUse(s: Shard, released: map<nat, nat>, clock: nat, id: nat)
    requires ByLastUse(s.lists.lru, released, clock)
    ensures ByLastUse(Uncached(s, id).lists.lru, released, clock)
  {
    UnlinkedByLastUse(s.lists.lru, released, clock, id);
  }

  /** Every entry that is evicted was last used before every entry that stays. */
  lemma EvictsLeastRecentlyUsed(s: Shard, capacity: nat, released: map<nat, nat>, clock: nat, x: nat, y: nat)
    requires Sound(Just(s)) && ByLastUse(s.lists.lru, released, clock)
    requires x in s.lists.lru && x !in Evicted(s, capacity).lists.lru && y in Evicted(s, capacity).lists.lru
    ensures x in released && y in released && released[x] < released[y]
  {
    var k := EvictsOldest(s, capacity);
    var lru := s.lists.lru;
    assert lru == lru[..k] + lru[k..];
    var i :| 0 <= i < k && lru[..k][i] == x;
    var j :| 0 <= j < |lru[k..]| && lru[k..][j] == y;
    EarlierUsedEarlier(lru, released, clock, i, k + j);
  }

  // ---------------------------------------------------------------------------------------------
  // The cache
  // ---------------------------------------------------------------------------------------------

  class LruCache {
    const table: HandleTable
    var capacity: nat
    var usage: nat
    var lists: Lists
    var infos: Infos
    var refs: Refs
    var cached: set<nat>
    var next: nat
    ghost var deleted: seq<nat>
    ghost var clients: map<nat, nat>
    /** How often handles have been given back, and when that last was for each. */
    ghost var clock: nat
    ghost var released: map<nat, nat>

    ghost function State(): Shard
      reads this
    {
      Shard(lists, infos, refs, cached, usage, next, deleted, clients)
    }

    /** The table holds exactly the cached entries; they are on the list their references put them on; usage is the sum of
        their charges; a handle is alive exactly until its deleter has run, once; and those that may be evicted are listed in the
        order in which they were last used. */
    ghost predicate Valid()
      reads this, table
    {
      table.Valid() && Sound(Just(State())) && Found(infos, cached, table.contents) && ByLastUse(lists.lru, released, clock)
    }

    constructor (capacity: nat)
      ensures Valid() && fresh(table) && this.capacity == capacity
      ensures State() == Shard(Lists([], []), map[], map[], {}, 0, 0, [], map[])
    {
      table := new HandleTable();
      this.capacity, usage, lists, infos, refs, cached, next := capacity, 0, Lists([], []), map[], map[], {}, 0;
      deleted, clients, clock, released := [], map[], 0, map[];
    }

    /** One more reference; a cached entry nobody used comes into use. */
    method Ref(id: nat)
      requires id in refs
      modifies this`lists, this`refs
      ensures lists == RefLists(old(lists), old(refs), cached, id) && refs == RefCount(old(refs), id)
    {
      if refs[id] == 1 && id in cached {
        lists := lists.Remove(id).AppendUsed(id);
      }
      refs := refs[id := refs[id] + 1];
    }

    /** One reference less. The last one runs the deleter; a cached entry nobody uses any more becomes the newest of those
        that may be evicted. */
    method Unref(id: nat)
      requires id in refs
      modifies this`lists, this`refs, this`deleted
      ensures lists == UnrefLists(old(lists), old(refs), cached, id) && refs == UnrefCount(old(refs), id)
      ensures deleted == UnrefDeleted(old(refs), old(deleted), id)
    {
      var left := (refs[id] as int) - 1;
      if left == 0 {
        refs := refs - {id};
        deleted := deleted + [id];
      } else {
        refs := refs[id := left];
        if id in cached && left == 1 {
          lists := lists.Remove(id).AppendIdle(id);
        }
      }
    }

    method Lookup(name: Name) returns (found: Maybe<nat>)
      requires Valid()
      modifies this
      ensures Valid() && table.contents == old(table.contents) && capacity == old(capacity)
      ensures found == if name in table.contents then Just(table.contents[name]) else Nothing
      ensures State() == if found.Just? then Acquired(old(State()), found.value) else old(State())
      ensures released == old(released) && clock == old(clock) && infos == old(infos)
      ensures found.Just? ==> found.value in old(clients) && clients == old(clients)[found.value := old(clients)[found.value] + 1]
    {
      found := table.Lookup(name);
      if found.Just? {
        ghost var before := State();
        CachedIsAlive(before, found.value);
        AcquiredKeeps(before, found.value);
        AcquiredByLastUse(before, released, clock, found.value);
        Ref(found.value);
        clients := clients[found.value := clients[found.value] + 1];
        assert State() == Acquired(before, found.value);
      }
    }

    /** A client is done with a handle it holds. */
    method Release(id: nat)
      requires Valid() && id in clients && clients[id] > 0
      modifies this
      ensures Valid() && table.contents == old(table.contents) && capacity == old(capacity)
      ensures State() == Released(old(State()), id)
      ensures clock == old(clock) + 1 && released == old(released)[id := old(clock)] && infos == old(infos)
      ensures clients == if id in refs then old(clients)[id := old(clients)[id] - 1] else old(clients) - {id}
    {
      ghost var before := State();
      HeldIsAlive(before, id);
      ReleasedKeeps(before, id);
      ReleasedByLastUse(before, released, clock, id);
      ghost var last := refs[id] == 1;
      Unref(id);
      clients := if last then clients - {id} else clients[id := clients[id] - 1];
      released, clock := released[id := clock], clock + 1;
      assert State() == Released(before, id);
    }

    /** Finishes the removal of an entry that has already been taken out of the table. */
    method FinishErase(gone: Maybe<nat>) returns (erased: bool)
      requires table.Valid() && Sound(Just(State()))
      requires gone.Nothing? ==> Found(infos, cached, table.contents)
      requires gone.Just? ==> gone.value in cached && Found(infos, cached - {gone.value}, table.contents)
      requires ByLastUse(lists.lru, released, clock)
      modifies this
      ensures Valid() && erased == gone.Just? && capacity == old(capacity)
      ensures State() == if gone.Just? then Uncached(old(State()), gone.value) else old(State())
      ensures released == old(released) && clock == old(clock)
    {
      erased := gone.Just?;
      if erased {
        ghost var before := State();
        CachedIsAlive(before, gone.value);
        UncachedKeeps(before, gone.value);
        UncachedByLastUse(before, released, clock, gone.value);
        Uncache(gone.value);
      }
    }

    /** Takes an entry off its list and gives back the reference of the cache. */
    method Uncache(id: nat)
      requires id in cached && id in refs && ChargeOf(infos, id) <= usage
      modifies this`lists, this`cached, this`usage, this`refs, this`deleted, this`clients
      ensures State() == Uncached(old(State()), id)
    {
      ghost var before := State();
      lists := lists.Remove(id);
      cached := cached - {id};
      usage := usage - ChargeOf(infos, id);
      ghost var last := refs[id] == 1;
      Unref(id);
      clients := if last then clients - {id} else clients;
      assert State() == Uncached(before, id);
    }

    method Erase(name: Name)
      requires Valid()
      modifies this, table
      ensures Valid() && table.contents == old(table.contents) - {name} && capacity == old(capacity)
      ensures State() == if name in old(table.contents) then Uncached(old(State()), old(table.contents)[name]) else old(State())
      ensures infos == old(infos) && HeldStay(old(clients), {}, clients, {})
      ensures released == old(released) && clock == old(clock)
    {
      if name in table.contents {
        FoundWithout(infos, cached, table.contents, name);
        UncachedHeld(State(), table.contents[name]);
      }
      var removed := table.Remove(name);
      var _ := FinishErase(removed);
    }

    /** Takes the oldest entry nobody uses out of the cache. */
    method EvictOne()
      requires Valid() && lists.lru != []
      modifies this, table
      ensures Valid() && capacity == old(capacity)
      ensures State() == Uncached(old(State()), old(lists).lru[0])
      ensures infos == old(infos) && HeldStay(old(clients), old(cached), clients, cached)
      ensures deleted == old(deleted) + [old(lists).lru[0]] && lists.lru == old(lists).lru[1..]
      ensures released == old(released) && clock == old(clock)
    {
      var oldest := lists.lru[0];
      OldestIsFound(State(), table.contents);
      EvictOldest(State());
      UncachedOldest(State());
      var name := infos[oldest].name;
      FoundWithout(infos, cached, table.contents, name);
      var removed := table.Remove(name);
      var erased := FinishErase(removed);
      assert erased;
    }

    /** Adds an entry in place of any of the same name, and evicts the oldest until usage fits or nothing can be evicted. */
    method Insert(name: Name, value: string, charge: nat) returns (id: nat)
      requires Valid()
      modifies this, table
      ensures Valid() && capacity == old(capacity) && id == old(next)
      ensures usage <= capacity || lists.lru == []
      ensures State() == Evicted(Replacing(old(State()), old(table.contents), Info(name, value, charge), capacity > 0), capacity)
      ensures infos == old(infos)[id := Info(name, value, charge)] && id in clients && clients[id] == 1
      ensures HeldStay(old(clients), {}, clients, {})
      ensures capacity > 0 ==> name in table.contents && table.contents[name] == id
      ensures released == old(released) && clock == old(clock)
      ensures OldestGone(old(lists).lru, lists.lru, infos, name, released)
    {
      ghost var before, names, info := State(), table.contents, Info(name, value, charge);
      id := Add(Info(name, value, charge));
      EvictDown();
      if capacity > 0 {
        NameFound(infos, cached, table.contents, id);
      }
      OthersEvicted(before, names, info, capacity, released, clock);
    }

    /** Evicts the oldest until usage fits or nothing can be evicted; what clients hold stays. */
    method EvictDown()
      requires Valid()
      modifies this, table
      ensures Valid() && capacity == old(capacity) && State() == Evicted(old(State()), capacity)
      ensures usage <= capacity || lists.lru == []
      ensures infos == old(infos) && released == old(released) && clock == old(clock)
      ensures forall id :: id in old(clients) && old(clients)[id] > 0 ==>
                id in clients && clients[id] == old(clients)[id] && (id in old(cached) ==> id in cached)
    {
      ghost var goal := Evicted(State(), capacity);
      while usage > capacity && lists.lru != []
        invariant Valid() && capacity == old(capacity) && released == old(released) && clock == old(clock) && infos == old(infos)
        invariant Same(goal, Evicted(State(), capacity))
        invariant HeldStay(old(clients), old(cached), clients, cached)
        decreases |lists.lru|
      {
        UnlinkedShorter(lists.lru, lists.lru[0]);
        ghost var held, kept := clients, cached;
        EvictOne();
        HeldLonger(old(clients), old(cached), held, kept, clients, cached);
      }
    }

    method Add(info: Info) returns (id: nat)
      requires Valid()
      modifies this, table
      ensures Valid() && capacity == old(capacity) && id == old(next)
      ensures State() == Replacing(old(State()), old(table.contents), info, capacity > 0)
      ensures infos == old(infos)[id := info] && id in clients && clients[id] == 1 && (capacity > 0 ==> id in cached)
      ensures HeldStay(old(clients), {}, clients, {})
      ensures released == old(released) && clock == old(clock)
    {
      id := next;
      ReplacingGives(State(), table.contents, info, capacity > 0);
      if capacity > 0 {
        AddCached(info);
      } else {
        AddUncached(info);
      }
    }

    method AddCached(info: Info)
      requires Valid() && capacity > 0
      modifies this, table
      ensures Valid() && capacity == old(capacity) && State() == Replacing(old(State()), old(table.contents), info, true)
      ensures released == old(released) && clock == old(clock)
    {
      var id := next;
      AddedKeeps(State(), info, true);
      FoundWith(infos, cached, table.contents, id, info);
      Enter(info);
      var replaced := table.Insert(Slot(info.name, id));
      var _ := FinishErase(replaced);
    }

    /** The new entry, in use by the client who asked for it. */
    method Enter(info: Info)
      modifies this`infos, this`next, this`clients, this`refs, this`cached, this`lists, this`usage
      ensures State() == Added(old(State()), info, true)
    {
      var id := next;
      infos, next := infos[id := info], next + 1;
      clients, refs := clients[id := 1], refs[id := 2];
      cached := cached + {id};
      lists := lists.AppendUsed(id);
      usage := usage + info.charge;
    }

    /** A cache without room hands the entry out, but does not keep it. */
    method AddUncached(info: Info)
      requires Valid()
      modifies this
      ensures Valid() && capacity == old(capacity) && State() == Added(old(State()), info, false)
      ensures released == old(released) && clock == old(clock)
    {
      ghost var before := State();
      var id := next;
      AddedKeeps(before, info, false);
      FoundKeeps(before.infos, before.cached, table.contents, id, info);
      infos, next := infos[id := info], next + 1;
      clients, refs := clients[id := 1], refs[id := 1];
      assert State() == Added(before, info, false);
    }

    /** Evicts everything nobody uses. */
    method Prune()
      requires Valid()
      modifies this, table
      ensures Valid() && capacity == old(capacity) && lists.lru == []
      ensures State() == Pruned(old(State()))
      ensures deleted == old(deleted) + old(lists).lru && infos == old(infos)
      ensures forall id :: id in old(clients) && old(clients)[id] > 0 ==>
                id in clients && clients[id] == old(clients)[id] && (id in old(cached) ==> id in cached)
      ensures released == old(released) && clock == old(clock)
    {
      ghost var goal := Pruned(State());
      while lists.lru != []
        invariant Valid() && capacity == old(capacity) && released == old(released) && clock == old(clock)
        invariant goal == Pruned(State()) && infos == old(infos)
        invariant Same(deleted + lists.lru, old(deleted) + old(lists).lru)
        invariant HeldStay(old(clients), old(cached), clients, cached)
        decreases |lists.lru|
      {
        UnlinkedShorter(lists.lru, lists.lru[0]);
        ghost var held, kept := clients, cached;
        MovesOne(deleted, lists.lru);
        EvictOne();
        HeldLonger(old(clients), old(cached), held, kept, clients, cached);
      }
      assert deleted + [] == deleted;
    }
  }

  /** The new entry is in, and the one it replaces is out. */
  function Replacing(s: Shard, contents: map<Name, nat>, info: Info, keeps: bool): Shard {
    var t := Added(s, info, keeps);
    if keeps && info.name in contents then Uncached(t, contents[info.name]) else t
  }

  lemma NameFound(infos: Infos, cached: set<nat>, contents: map<Name, nat>, id: nat)
    requires Found(infos, cached, contents) && id in cached
    ensures id in infos && infos[id].name in contents && contents[infos[id].name] == id
  {
  }

  /** What clients hold they still hold, and what is cached of it is still cached. */
  ghost predicate HeldStay(clients: map<nat, nat>, cached: set<nat>, clients': map<nat, nat>, cached': set<nat>) {
    forall id :: id in clients && clients[id] > 0 ==> id in clients' && clients'[id] == clients[id] && (id in cached ==> id in cached')
  }

  lemma UncachedHeld(s: Shard, id: nat)
    requires Sound(Just(s)) && id in s.cached
    ensures HeldStay(s.clients, {}, Uncached(s, id).clients, {})
  {
    assert Open(s, 0);
  }

  /** What a client holds is not on the list of entries that may be evicted. */
  lemma UncachedOldest(s: Shard)
    requires Sound(Just(s)) && s.lists.lru != []
    ensures var t := Uncached(s, s.lists.lru[0]);
            t.infos == s.infos && HeldStay(s.clients, s.cached, t.clients, t.cached)
  {
    assert Open(s, 0);
    assert s.lists.lru[0] in s.lists.lru;
  }

  lemma HeldLonger(c0: map<nat, nat>, k0: set<nat>, c1: map<nat, nat>, k1: set<nat>, c2: map<nat, nat>, k2: set<nat>)
    requires HeldStay(c0, k0, c1, k1) && HeldStay(c1, k1, c2, k2)
    ensures HeldStay(c0, k0, c2, k2)
  {
  }

  lemma MovesOne(deleted: seq<nat>, lru: seq<nat>)
    requires lru != []
    ensures Same(deleted + [lru[0]] + lru[1..], deleted + lru)
  {
    assert deleted + [lru[0]] + lru[1..] == deleted + lru;
  }

  lemma ReplacingGives(s: Shard, contents: map<Name, nat>, info: Info, keeps: bool)
    requires Sound(Just(s)) && Found(s.infos, s.cached, contents)
    ensures var t := Replacing(s, contents, info, keeps);
            t.infos == s.infos[s.next := info] && s.next in t.clients && t.clients[s.next] == 1 && (keeps ==> s.next in t.cached)
            && HeldStay(s.clients, {}, t.clients, {})
  {
    assert Open(s, 0);
  }

  lemma StillOnList(s: Shard, contents: map<Name, nat>, info: Info, keeps: bool, x: nat)
    requires Sound(Just(s)) && Found(s.infos, s.cached, contents) && x in s.lists.lru
    ensures x in s.infos && x != s.next
    ensures s.infos[x].name != info.name ==> x in Replacing(s, contents, info, keeps).lists.lru
  {
    assert Open(s, 0);
    if keeps && info.name in contents {
      UnlinkedMembers(s.lists.lru, contents[info.name], x);
    }
  }

  /** Entries of other names are off the list only if they were last used before all that are still there. */
  ghost predicate OldestGone(lru: seq<nat>, lru': seq<nat>, infos: Infos, name: Name, released: map<nat, nat>) {
    forall x, y :: x in lru && x !in lru' && x in infos && infos[x].name != name && y in lru' ==>
      x in released && y in released && released[x] < released[y]
  }

  lemma OtherEvicted(s: Shard, t: Shard, contents: map<Name, nat>, info: Info, capacity: nat, released: map<nat, nat>, clock: nat,
                     x: nat, y: nat)
    requires Sound(Just(s)) && Found(s.infos, s.cached, contents) && ByLastUse(s.lists.lru, released, clock)
    requires t == Replacing(s, contents, info, capacity > 0) && Sound(Just(t))
    requires x in s.lists.lru && x in s.infos && s.infos[x].name != info.name
    requires x !in Evicted(t, capacity).lists.lru && y in Evicted(t, capacity).lists.lru
    ensures x in released && y in released && released[x] < released[y]
  {
    if capacity > 0 && info.name in contents {
      UnlinkedByLastUse(s.lists.lru, released, clock, contents[info.name]);
    }
    StillOnList(s, contents, info, capacity > 0, x);
    EvictsLeastRecentlyUsed(t, capacity, released, clock, x, y);
  }

  /** Beside the entry that is replaced, only those go that were last used before all that stay. */
  lemma OthersEvicted(s: Shard, contents: map<Name, nat>, info: Info, capacity: nat, released: map<nat, nat>, clock: nat)
    requires Sound(Just(s)) && Found(s.infos, s.cached, contents) && ByLastUse(s.lists.lru, released, clock)
    requires Sound(Just(Replacing(s, contents, info, capacity > 0)))
    ensures OldestGone(s.lists.lru, Evicted(Replacing(s, contents, info, capacity > 0), capacity).lists.lru, s.infos[s.next := info],
                       info.name, released)
  {
    var t := Replacing(s, contents, info, capacity > 0);
    var lru := Evicted(t, capacity).lists.lru;
    forall x | x in s.lists.lru ensures x in s.infos && x != s.next {
      StillOnList(s, contents, info, capacity > 0, x);
    }
    forall x, y | x in s.lists.lru && x !in lru && x in s.infos && s.infos[x].name != info.name && y in lru
      ensures x in released && y in released && released[x] < released[y]
    {
      OtherEvicted(s, t, contents, info, capacity, released, clock, x, y);
    }
  }

  lemma CachedIsAlive(s: Shard, id: nat)
    requires Sound(Just(s)) && id in s.cached
    ensures id in s.refs && id in s.clients && ChargeOf(s.infos, id) <= s.usage
  {
    UncachedKeeps(s, id);
  }

  lemma HeldIsAlive(s: Shard, id: nat)
    requires Sound(Just(s)) && id in s.clients && s.clients[id] > 0
    ensures id in s.refs && (s.refs[id] == 1 ==> id !in s.cached)
  {
    assert Open(s, 0);
  }

  lemma OldestIsFound(s: Shard, contents: map<Name, nat>)
    requires Sound(Just(s)) && s.lists.lru != [] && Found(s.infos, s.cached, contents)
    ensures var oldest := s.lists.lru[0];
            oldest in s.cached && oldest in s.infos && s.infos[oldest].name in contents && contents[s.infos[oldest].name] == oldest
  {
    assert Open(s, 0);
    assert s.lists.lru[0] in s.lists.lru;
  }
}
