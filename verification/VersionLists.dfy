/** The versions of a store: the list AddLiveFiles walks, with the reference counts that keep a version on it. */
module VersionLists {
  import opened Versions

  /** Who may hold a reference: the store itself to the current version, readers, a running compaction to the version its
      inputs come from, and a memtable dump to the version it picks its level in. */
  datatype Holder = CurrentVersion | Reader(id: nat) | CompactionInput | DumpBase

  datatype Node = Node(files: Version, refs: nat)

  /** `nodes` is the list; `holders` says who holds the references that are only counted in the nodes. */
  datatype VersionList = VersionList(nodes: map<nat, Node>, next: nat, holders: map<Holder, nat>)

  function Ref(nodes: map<nat, Node>, id: nat): map<nat, Node>
    requires id in nodes
  {
    nodes[id := nodes[id].(refs := nodes[id].refs + 1)]
  }

  /** The last reference takes the version off the list. */
  function Unref(nodes: map<nat, Node>, id: nat): map<nat, Node>
    requires id in nodes
  {
    if nodes[id].refs <= 1 then nodes - {id} else nodes[id := nodes[id].(refs := nodes[id].refs - 1)]
  }

  /** A new reference to the version the store holds as current. */
  function Acquire(l: VersionList, h: Holder): VersionList {
    if CurrentVersion !in l.holders || l.holders[CurrentVersion] !in l.nodes then l
    else
      var id := l.holders[CurrentVersion];
      l.(nodes := Ref(l.nodes, id), holders := l.holders[h := id])
  }

  function Release(l: VersionList, h: Holder): VersionList {
    if h !in l.holders || l.holders[h] !in l.nodes then l
    else l.(nodes := Unref(l.nodes, l.holders[h]), holders := l.holders - {h})
  }

  /** A new current version; the reference to the old one goes. */
  function AppendVersion(l: VersionList, files: Version): VersionList {
    var r := Release(l, CurrentVersion);
    r.(nodes := r.nodes[l.next := Node(files, 1)], next := l.next + 1, holders := r.holders[CurrentVersion := l.next])
  }

  ghost function HoldersOf(holders: map<Holder, nat>, id: nat): set<Holder> {
    set h | h in holders && holders[h] == id
  }

  /** A version is on the list if and only if somebody holds it, and its count is the number of its holders. */
  ghost predicate Counted(l: VersionList) {
    && CurrentVersion in l.holders
    && (forall id :: id in l.nodes ==> id < l.next && l.nodes[id].refs == |HoldersOf(l.holders, id)| > 0)
    && (forall h :: h in l.holders ==> l.holders[h] in l.nodes)
  }

  /** The files of the version `h` holds. */
  function Held(l: VersionList, h: Holder): Version
    requires h in l.holders && l.holders[h] in l.nodes
  {
    l.nodes[l.holders[h]].files
  }

  lemma ListedIffHeld(l: VersionList, id: nat)
    requires Counted(l)
    ensures id in l.nodes <==> exists h :: h in l.holders && l.holders[h] == id
  {
    if id in l.nodes {
      var h :| h in HoldersOf(l.holders, id);
    }
  }

  lemma OneMoreHolder(holders: map<Holder, nat>, h: Holder, id: nat)
    requires h !in holders
    ensures HoldersOf(holders[h := id], id) == HoldersOf(holders, id) + {h}
    ensures forall k :: k != id ==> HoldersOf(holders[h := id], k) == HoldersOf(holders, k)
  {
  }

  lemma OneHolderLess(holders: map<Holder, nat>, h: Holder)
    requires h in holders
    ensures HoldersOf(holders - {h}, holders[h]) == HoldersOf(holders, holders[h]) - {h}
    ensures forall k :: k != holders[h] ==> HoldersOf(holders - {h}, k) == HoldersOf(holders, k)
  {
  }

  lemma AcquireKeeps(l: VersionList, h: Holder)
    requires Counted(l) && h !in l.holders
    ensures Counted(Acquire(l, h)) && Acquire(l, h).holders == l.holders[h := l.holders[CurrentVersion]]
    ensures forall g :: g in l.holders ==> Held(Acquire(l, h), g) == Held(l, g)
    ensures Held(Acquire(l, h), h) == Held(l, CurrentVersion)
    ensures forall id :: id in Acquire(l, h).nodes ==> id in l.nodes && Acquire(l, h).nodes[id].files == l.nodes[id].files
  {
    OneMoreHolder(l.holders, h, l.holders[CurrentVersion]);
  }

  ghost predicate CountedBut(l: VersionList) {
    && (forall id :: id in l.nodes ==> id < l.next && l.nodes[id].refs == |HoldersOf(l.holders, id)| > 0)
    && (forall h :: h in l.holders ==> l.holders[h] in l.nodes)
  }

  lemma ReleaseCounts(l: VersionList, h: Holder)
    requires CountedBut(l) && h in l.holders
    ensures CountedBut(Release(l, h)) && Release(l, h).holders == l.holders - {h}
    ensures forall g :: g in l.holders && g != h ==> Held(Release(l, h), g) == Held(l, g)
    ensures forall id :: id in Release(l, h).nodes ==> id in l.nodes && Release(l, h).nodes[id].files == l.nodes[id].files
  {
    var id := l.holders[h];
    OneHolderLess(l.holders, h);
    var others := HoldersOf(l.holders, id) - {h};
    assert HoldersOf(l.holders, id) == others + {h};
    forall g | g in l.holders && g != h && l.holders[g] == id ensures l.nodes[id].refs > 1 {
      assert g in others && |others| > 0;
    }
  }

  lemma ReleaseKeeps(l: VersionList, h: Holder)
    requires Counted(l) && h in l.holders && h != CurrentVersion
    ensures Counted(Release(l, h)) && Release(l, h).holders == l.holders - {h}
    ensures forall g :: g in l.holders && g != h ==> Held(Release(l, h), g) == Held(l, g)
    ensures forall id :: id in Release(l, h).nodes ==> id in l.nodes && Release(l, h).nodes[id].files == l.nodes[id].files
  {
    ReleaseCounts(l, h);
  }

  lemma AppendKeeps(l: VersionList, files: Version)
    requires Counted(l)
    ensures Counted(AppendVersion(l, files)) && AppendVersion(l, files).holders == l.holders[CurrentVersion := l.next]
    ensures Held(AppendVersion(l, files), CurrentVersion) == files
    ensures forall g :: g in l.holders && g != CurrentVersion ==> Held(AppendVersion(l, files), g) == Held(l, g)
    ensures forall id :: id in AppendVersion(l, files).nodes ==>
              AppendVersion(l, files).nodes[id].files == files || (id in l.nodes && AppendVersion(l, files).nodes[id].files == l.nodes[id].files)
  {
    ReleaseCounts(l, CurrentVersion);
    var r := Release(l, CurrentVersion);
    OneMoreHolder(r.holders, CurrentVersion, l.next);
    assert HoldersOf(r.holders, l.next) == {};
    assert r.holders[CurrentVersion := l.next] == l.holders[CurrentVersion := l.next];
  }

  /** The list of a store that has just been opened. */
  function OneVersion(files: Version): VersionList {
    VersionList(map[0 := Node(files, 1)], 1, map[CurrentVersion := 0])
  }

  lemma OneVersionCounted(files: Version)
    ensures Counted(OneVersion(files)) && Held(OneVersion(files), CurrentVersion) == files
  {
    assert HoldersOf(OneVersion(files).holders, 0) == {CurrentVersion};
  }
}
