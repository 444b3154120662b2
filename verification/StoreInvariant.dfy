/** What every reachable store satisfies, part by part. Each part names only the fields it depends on. */
module StoreInvariant {
  import opened InternalKeys
  import opened Memtables
  import opened Versions
  import opened VersionEdits
  import opened DropRules
  import opened Compactions
  import opened Manifests
  import opened VersionLists
  import opened Store

  // ---------------------------------------------------------------------------------------------
  // Memory
  // ---------------------------------------------------------------------------------------------

  /** The group in flight carries the sequence numbers right behind the published ones. */
  ghost predicate InflightOk(inflight: Inflight, last: Seqno) {
    last < MAX_SEQUENCE &&
    (inflight.Writing? ==>
      && inflight.inserted <= |inflight.batch|
      && (!inflight.logged ==> inflight.inserted == 0)
      && last + |inflight.batch| < MAX_SEQUENCE
      && forall i :: 0 <= i < |inflight.batch| ==> inflight.batch[i].seqno == last + 1 + i)
  }

  ghost predicate MemoryOk(mem: seq<Entry>, imm: seq<Entry>, hasImm: bool) {
    Sorted(mem) && Sorted(imm) && (!hasImm ==> imm == [])
  }

  ghost predicate UpTo(S: set<Entry>, last: Seqno) {
    forall e :: e in S ==> e.seqno <= last
  }

  /** Files are older than the immutable memtable, which is older than the memtable. */
  ghost predicate AgesOk(mem: seq<Entry>, imm: seq<Entry>, version: Version) {
    && Older(AllContents(version), Elems(imm))
    && Older(AllContents(version), Elems(mem))
    && Older(Elems(imm), Elems(mem))
  }

  ghost function Stored(mem: seq<Entry>, imm: seq<Entry>, version: Version): set<Entry> {
    Elems(mem) + (Elems(imm) + AllContents(version))
  }

  ghost predicate HistoryOk(stored: set<Entry>, hist: set<Entry>, last: Seqno) {
    stored <= hist && UniqueSeqnos(hist) && UpTo(hist, last)
  }

  /** From sequence number `from` on, both sets answer every read alike. */
  ghost predicate Agrees(stored: set<Entry>, hist: set<Entry>, from: Seqno) {
    forall u: UserKey, s: Seqno :: from <= s ==> SameAnswer(stored, hist, u, s)
  }

  ghost predicate SnapshotsOk(snapshots: seq<Seqno>, last: Seqno) {
    && (forall i :: 0 <= i < |snapshots| ==> snapshots[i] <= last)
    && (forall i, j :: 0 <= i < j < |snapshots| ==> snapshots[i] <= snapshots[j])
  }

  // ---------------------------------------------------------------------------------------------
  // Versions and the running compaction
  // ---------------------------------------------------------------------------------------------

  ghost predicate VersionOk(v: Version) {
    ValidVersion(v) && NumbersIdentify(v) && KeySorted(v[0])
  }

  function ConcatFiles(files: seq<File>): seq<Entry> {
    if files == [] then [] else ConcatFiles(files[..|files| - 1]) + files[|files| - 1].entries
  }

  ghost predicate RunningOk(running: Running, version: Version, smallest: Seqno) {
    running.Compacting? ==>
      && SortedLevels(running.base)
      && Installable(version, running.c) && BaseStillHolds(running.base, version, running.c)
      && Sorted(running.input) && Elems(running.input) == InputEntries(running.c)
      && running.snap <= smallest && running.snap < MAX_SEQUENCE
      && running.kept == Kept(running.base, running.c.level, running.input, running.snap)
      && running.pos <= |running.kept|
      && ConcatFiles(running.outputs) == running.kept[..running.pos]
      && FreshOutputs(version, running.c, running.outputs)
      && (running.open.Just? ==> UnusedNumber(version, running.outputs, running.open.value))
  }

  ghost predicate UnusedNumber(version: Version, outputs: seq<File>, n: nat) {
    UnusedIn(version, n) && forall f :: f in outputs ==> f.number != n
  }

  ghost predicate UnusedIn(v: Version, n: nat) {
    forall l, f :: 0 <= l < |v| && f in v[l] ==> f.number != n
  }

  // ---------------------------------------------------------------------------------------------
  // Files
  // ---------------------------------------------------------------------------------------------

  /** Every file of the version is on disk with its contents, under a number already handed out. */
  ghost predicate Backed(v: Version, tables: map<nat, seq<Entry>>, nextFile: nat) {
    forall l, f :: 0 <= l < |v| && f in v[l] ==> BackedFile(f, tables, nextFile)
  }

  ghost predicate BackedFile(f: File, tables: map<nat, seq<Entry>>, nextFile: nat) {
    f.number < nextFile && f.number in tables && tables[f.number] == f.entries
  }

  /** So is every file of every version on the list. */
  ghost predicate FilesOk(versions: VersionList, tables: map<nat, seq<Entry>>, nextFile: nat) {
    forall id :: id in versions.nodes ==> Backed(versions.nodes[id].files, tables, nextFile)
  }

  /** The list is counted, and the store, the running compaction and the dump hold the versions they work with. */
  ghost predicate ListOk(versions: VersionList, version: Version, running: Running, dumping: Dumping) {
    && Counted(versions)
    && Held(versions, CurrentVersion) == version
    && (CompactionInput in versions.holders <==> running.Compacting?)
    && (running.Compacting? ==> Held(versions, CompactionInput) == running.base)
    && (DumpBase in versions.holders <==> dumping.Dumping?)
  }

  /** Outputs are on disk, and they are protected from deletion until they are in a version. */
  ghost predicate OutputsOk(running: Running, pending: set<nat>, tables: map<nat, seq<Entry>>, nextFile: nat) {
    running.Compacting? ==>
      && (forall f :: f in running.outputs ==> BackedFile(f, tables, nextFile) && f.number in pending)
      && (running.open.Just? ==> OpenOk(running.open.value, pending, tables, nextFile))
  }

  /** The file being written is in no version on the list. */
  ghost predicate OpenUnused(versions: VersionList, running: Running) {
    running.Compacting? && running.open.Just? ==> forall id :: id in versions.nodes ==> UnusedIn(versions.nodes[id].files, running.open.value)
  }

  ghost predicate OpenOk(n: nat, pending: set<nat>, tables: map<nat, seq<Entry>>, nextFile: nat) {
    n < nextFile && n in tables && n in pending
  }

  /** Tables handed out before are still there, unchanged. */
  ghost predicate SameBelow(tables: map<nat, seq<Entry>>, tables': map<nat, seq<Entry>>, n: nat) {
    forall k :: 0 <= k < n && k in tables ==> k in tables' && tables'[k] == tables[k]
  }

  lemma BackedGrows(v: Version, tables: map<nat, seq<Entry>>, n: nat, tables': map<nat, seq<Entry>>, n': nat)
    requires Backed(v, tables, n) && n <= n' && SameBelow(tables, tables', n)
    ensures Backed(v, tables', n')
  {
    forall l, f | 0 <= l < |v| && f in v[l] ensures BackedFile(f, tables', n') {
      assert BackedFile(f, tables, n);
    }
  }

  lemma FilesGrow(versions: VersionList, tables: map<nat, seq<Entry>>, n: nat, tables': map<nat, seq<Entry>>, n': nat)
    requires FilesOk(versions, tables, n) && n <= n' && SameBelow(tables, tables', n)
    ensures FilesOk(versions, tables', n')
  {
    forall id | id in versions.nodes ensures Backed(versions.nodes[id].files, tables', n') {
      BackedGrows(versions.nodes[id].files, tables, n, tables', n');
    }
  }

  lemma OutputsGrow(running: Running, pending: set<nat>, tables: map<nat, seq<Entry>>, n: nat, tables': map<nat, seq<Entry>>, n': nat)
    requires OutputsOk(running, pending, tables, n) && n <= n' && SameBelow(tables, tables', n)
    ensures OutputsOk(running, pending, tables', n')
  {
    if running.Compacting? {
      forall f | f in running.outputs ensures BackedFile(f, tables', n') {
        assert BackedFile(f, tables, n);
      }
    }
  }

  /** The current version and the version a compaction works on are on the list. */
  lemma ListedBacked(versions: VersionList, version: Version, running: Running, dumping: Dumping,
                     tables: map<nat, seq<Entry>>, nextFile: nat)
    requires ListOk(versions, version, running, dumping) && FilesOk(versions, tables, nextFile)
    ensures Backed(version, tables, nextFile)
    ensures running.Compacting? ==> Backed(running.base, tables, nextFile)
  {
    var current := versions.holders[CurrentVersion];
    assert current in versions.nodes;
    if running.Compacting? {
      var input := versions.holders[CompactionInput];
      assert input in versions.nodes;
    }
  }

  /** The table of the dump in progress is on disk, and its number is above those of the version. */
  ghost predicate DumpingOk(dumping: Dumping, imm: seq<Entry>, hasImm: bool, version: Version, running: Running,
                            tables: map<nat, seq<Entry>>, nextFile: nat) {
    dumping.Dumping? ==>
      && hasImm && dumping.number < nextFile
      && (imm != [] ==> dumping.number in tables && tables[dumping.number] == imm)
      && (forall l, f :: 0 <= l < |version| && f in version[l] ==> f.number < dumping.number)
      && (running.Compacting? ==> Unlike(running, dumping.number))
  }

  /** `n` is the number of no output of the compaction. */
  ghost predicate Unlike(running: Running, n: nat)
    requires running.Compacting?
  {
    (forall f :: f in running.outputs ==> f.number != n) && (running.open.Just? ==> running.open.value != n)
  }

  // ---------------------------------------------------------------------------------------------
  // Logs and manifest
  // ---------------------------------------------------------------------------------------------

  ghost predicate ManifestOk(manifest: seq<Record>, version: Version, minLog: nat, nextFile: nat, last: Seqno) {
    && ReplayMeta(manifest).Meta?
    && ReplayVersion(manifest) == version
    && ReplayMeta(manifest).logNumber == minLog < ReplayMeta(manifest).nextFile
    && ReplayMeta(manifest).nextFile <= nextFile
    && ReplayMeta(manifest).last <= last
    && forall l, f :: 0 <= l < |version| && f in version[l] ==> f.number < ReplayMeta(manifest).nextFile
  }

  /** No edit in the manifest has yet added a table that is still being written. */
  ghost predicate UnseenOk(edits: seq<FileChanges>, running: Running, dumping: Dumping) {
    && (dumping.Dumping? ==> !Seen(edits, dumping.number))
    && (running.Compacting? ==>
          && (forall f :: f in running.outputs ==> !Seen(edits, f.number))
          && (running.open.Just? ==> !Seen(edits, running.open.value)))
  }

  /** What the log holds of the group in flight. */
  ghost function InflightEntries(inflight: Inflight): seq<Entry> {
    if inflight.Writing? && inflight.logged then inflight.batch else []
  }

  /** The live logs hold exactly what is in memory, in the order it was written. */
  ghost predicate LogsOk(logs: map<nat, seq<Group>>, mem: seq<Entry>, imm: seq<Entry>, hasImm: bool, inflight: Inflight,
                         minLog: nat, logNumber: nat, nextFile: nat) {
    && logNumber in logs && minLog in logs && logNumber < nextFile
    && (if hasImm then minLog < logNumber else minLog == logNumber)
    && (forall n :: n in logs && n >= minLog ==> n == minLog || n == logNumber)
    && Ascending(FlatRecords(logs[logNumber])) && Ascending(FlatRecords(logs[minLog]))
    && Elems(FlatRecords(logs[logNumber])) == Elems(mem) + Elems(InflightEntries(inflight))
    && (hasImm ==> Elems(FlatRecords(logs[minLog])) == Elems(imm))
  }

  /** The last sequence number is on disk: in the manifest, or in a live log. */
  ghost predicate LastOk(manifest: seq<Record>, mem: seq<Entry>, imm: seq<Entry>, last: Seqno) {
    ReplayMeta(manifest).Meta? && (ReplayMeta(manifest).last == last || exists e :: (e in mem || e in imm) && e.seqno == last)
  }

  /** Memory, the history it is part of, and the logs that hold it. */
  ghost predicate MemoryInv(s: Db) {
    && InflightOk(s.inflight, s.last)
    && MemoryOk(s.mem, s.imm, s.hasImm)
    && AgesOk(s.mem, s.imm, s.version)
    && HistoryOk(Stored(s.mem, s.imm, s.version), s.hist, s.last)
    && SnapshotsOk(s.snapshots, s.last)
    && LogsOk(s.disk.logs, s.mem, s.imm, s.hasImm, s.inflight, s.minLog, s.logNumber, s.nextFile)
    && LastOk(s.disk.manifest, s.mem, s.imm, s.last)
  }

  /** The versions, their tables and the manifest. */
  ghost predicate TablesInv(s: Db) {
    && VersionOk(s.version)
    && RunningOk(s.running, s.version, SmallestSnapshot(s))
    && ListOk(s.versions, s.version, s.running, s.dumping)
    && FilesOk(s.versions, s.disk.tables, s.nextFile)
    && OutputsOk(s.running, s.pending, s.disk.tables, s.nextFile)
    && OpenUnused(s.versions, s.running)
    && DumpingOk(s.dumping, s.imm, s.hasImm, s.version, s.running, s.disk.tables, s.nextFile)
    && ManifestOk(s.disk.manifest, s.version, s.minLog, s.nextFile, s.last)
    && EditsOk(Changes(s.disk.manifest), s.version, s.nextFile)
    && UnseenOk(Changes(s.disk.manifest), s.running, s.dumping)
  }

  /** What holds in every state of the store as long as compactions keep the levels disjoint. */
  ghost predicate Inv(s: Db) {
    MemoryInv(s) && TablesInv(s)
  }

  lemma TablesStay(s: Db, t: Db)
    requires TablesInv(s) && s.last <= t.last && SmallestSnapshot(s) <= SmallestSnapshot(t)
    requires t.version == s.version && t.versions == s.versions && t.running == s.running && t.dumping == s.dumping
    requires t.imm == s.imm && t.hasImm == s.hasImm && t.pending == s.pending && t.nextFile == s.nextFile && t.minLog == s.minLog
    requires t.disk.tables == s.disk.tables && t.disk.manifest == s.disk.manifest
    ensures TablesInv(t)
  {
  }

  lemma MemoryStays(s: Db, t: Db)
    requires MemoryInv(s) && s.nextFile <= t.nextFile
    requires t.mem == s.mem && t.inflight == s.inflight && t.imm == s.imm && t.hasImm == s.hasImm && t.version == s.version
    requires t.hist == s.hist && t.last == s.last && t.snapshots == s.snapshots
    requires t.logNumber == s.logNumber && t.minLog == s.minLog && t.disk.logs == s.disk.logs && t.disk.manifest == s.disk.manifest
    ensures MemoryInv(t)
  {
  }

  /** From the oldest live snapshot on, the store answers every read as the acknowledged writes do. */
  ghost predicate Reads(s: Db) {
    Agrees(Stored(s.mem, s.imm, s.version), s.hist, SmallestSnapshot(s))
  }

  // ---------------------------------------------------------------------------------------------
  // Guards: what the theorems need and the code does not ensure
  // ---------------------------------------------------------------------------------------------

  /** Finishing a compaction keeps its level disjoint: no output surrounds a file that was dumped there meanwhile. */
  ghost predicate KeepsLevels(s: Db, a: Action)
    requires Enabled(s, a)
  {
    a.Finish? ==> s.running.c.level + 1 < |s.version| && OutputsApart(s.version, s.running.c, s.running.outputs)
  }

  /** No file left out of the compaction starts with older entries of the last key of one of its inputs. */
  ghost predicate KeepsReads(s: Db, a: Action)
    requires Enabled(s, a)
  {
    a.Finish? ==> s.running.c.level + 1 < |s.version| && NothingLeftOut(s.version, s.running.c)
  }
}
