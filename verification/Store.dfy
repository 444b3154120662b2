/** The store as a state machine: memory, disk, one background thread, and crashes.

    Every action is atomic and leaves the disk in a state a crash may find it in. Work that DBImpl does with
    its mutex released is split into several actions, so other actions may come in between. */
module Store {
  import opened InternalKeys
  import opened Memtables
  import opened Versions
  import opened VersionEdits
  import opened InputSelection
  import opened CompactionInputs
  import opened OutputCuts
  import opened DropRules
  import opened Compactions
  import opened Dumps
  import opened Manifests
  import opened VersionLists
  import opened Values

  /** A group of writes as logged: entries with their sequence numbers. */
  type Group = seq<Entry>

  datatype Update = Put(key: UserKey, value: Bytes) | Delete(key: UserKey)

  /** What survives a crash. Tables are immutable once written; logs and the manifest only grow. */
  datatype Disk = Disk(logs: map<nat, seq<Group>>, manifest: seq<Record>, tables: map<nat, seq<Entry>>)

  datatype Running =
    | Idle
    /** `kept` is what the drop rules leave of `input`; the first `pos` entries of it are in `outputs`. */
    | Compacting(c: Inputs, base: Version, snap: Seqno, input: seq<Entry>, kept: seq<Entry>, pos: nat, outputs: seq<File>,
                 open: Maybe<nat>)   // the number of the output being written

  /** The group being written: its record is in the log once it is `logged`. */
  datatype Inflight = NoWrite | Writing(batch: Group, logged: bool, inserted: nat)

  datatype Dumping = NoDump | Dumping(number: nat, size: nat)

  datatype Db = Db(
    mem: seq<Entry>,           // published entries of the memtable
    inflight: Inflight,        // the group being logged and inserted behind them
    imm: seq<Entry>,
    hasImm: bool,
    version: Version,
    versions: VersionList,     // the versions somebody refers to; `version` is the current one
    running: Running,
    dumping: Dumping,
    pending: set<nat>,         // pending_outputs_: tables being written
    snapshots: seq<Seqno>,
    last: Seqno,
    nextFile: nat,
    logNumber: nat,            // the log new groups go to
    minLog: nat,               // the oldest log the manifest still asks for
    disk: Disk,
    hist: set<Entry>           // every acknowledged write
  )

  datatype Action =
    | BeginWrite(ops: seq<Update>)
    | LogGroup
    | InsertNext
    | Publish
    | Switch
    | BuildDump(size: nat)
    | CommitDump(level: nat)
    | Pick(c: Inputs, input: seq<Entry>)
    | OpenOutput
    | FinishOutput(count: nat, size: nat)
    | Finish
    | Abandon
    | TrivialMove(c: Inputs)
    | TakeSnapshot
    | ReleaseSnapshot(index: nat)
    | AcquireVersion(reader: nat)
    | ReleaseVersion(reader: nat)
    | DeleteObsolete
    | Crash(attempts: seq<Attempt>, found: Version, order: seq<nat>, groups: seq<seq<Entry>>, tables: seq<File>, newLog: nat)

  // ---------------------------------------------------------------------------------------------
  // Writes
  // ---------------------------------------------------------------------------------------------

  function Assign(ops: seq<Update>, first: nat): Group
    requires first + |ops| <= MAX_SEQUENCE + 1
  {
    seq(|ops|, i requires 0 <= i < |ops| =>
      if ops[i].Put? then Entry(ops[i].key, first + i, Value, ops[i].value) else Entry(ops[i].key, first + i, Deletion, ""))
  }

  /** The memtable readers look into. */
  function Memtable(s: Db): seq<Entry> {
    if s.inflight.Writing? && s.inflight.inserted <= |s.inflight.batch|
    then InsertBatch(s.mem, s.inflight.batch[..s.inflight.inserted])
    else s.mem
  }

  // ---------------------------------------------------------------------------------------------
  // Compactions
  // ---------------------------------------------------------------------------------------------

  function SmallestSnapshot(s: Db): Seqno {
    if s.snapshots == [] then s.last else s.snapshots[0]
  }

  /** The next `count` entries complete the output file that is open. */
  function Emitted(r: Running, count: nat, size: nat): Running
    requires r.Compacting? && r.open.Just? && 0 < count && r.pos + count <= |r.kept| && Sorted(r.kept)
  {
    r.(pos := r.pos + count, outputs := r.outputs + [File(r.open.value, size, r.kept[r.pos..r.pos + count])], open := Nothing)
  }

  /** Writing to a file that has been deleted meanwhile does not bring it back. */
  function Overwrite(tables: map<nat, seq<Entry>>, n: nat, entries: seq<Entry>): map<nat, seq<Entry>> {
    if n in tables then tables[n := entries] else tables
  }

  /** The numbers of a compaction's output files. */
  function OutputNumbers(r: Running): set<nat> {
    if r.Compacting? then Numbers(r.outputs) + (if r.open.Just? then {r.open.value} else {}) else {}
  }

  function LogAndApply(s: Db, changes: FileChanges, minLog: nat): Db {
    s.(version := ApplyEdit(s.version, changes),
       versions := AppendVersion(s.versions, ApplyEdit(s.version, changes)),
       minLog := minLog,
       disk := s.disk.(manifest := s.disk.manifest + [Record(changes, Meta(minLog, s.nextFile, s.last))]))
  }

  /** CleanupCompaction and ReleaseInputs. */
  function Closed(s: Db): Db {
    s.(running := Idle, pending := s.pending - OutputNumbers(s.running), versions := Release(s.versions, CompactionInput))
  }

  const NO_CHANGES := FileChanges({}, [])

  function DumpEdit(s: Db, level: nat): FileChanges
    requires s.dumping.Dumping? && Sorted(s.imm)
  {
    if s.imm == [] then NO_CHANGES else DumpChanges(level, File(s.dumping.number, s.dumping.size, s.imm))
  }

  // ---------------------------------------------------------------------------------------------
  // Obsolete files
  // ---------------------------------------------------------------------------------------------

  function VersionNumbers(v: Version): set<nat> {
    set l, i | 0 <= l < |v| && 0 <= i < |v[l]| :: v[l][i].number
  }

  /** AddLiveFiles: the files of every version on the list. */
  function LiveNumbers(s: Db): set<nat> {
    set id, n | id in s.versions.nodes && n in VersionNumbers(s.versions.nodes[id].files) :: n
  }

  function KeepTables(tables: map<nat, seq<Entry>>, keep: set<nat>): map<nat, seq<Entry>> {
    map n | n in tables && n in keep :: tables[n]
  }

  function KeepLogs(logs: map<nat, seq<Group>>, minLog: nat): map<nat, seq<Group>> {
    map n | n in logs && n >= minLog :: logs[n]
  }

  // ---------------------------------------------------------------------------------------------
  // Recovery
  // ---------------------------------------------------------------------------------------------

  function FlatRecords(records: seq<Group>): seq<Entry> {
    if records == [] then [] else FlatRecords(records[..|records| - 1]) + records[|records| - 1]
  }

  /** The entries of the logs in `order`, as they are replayed. */
  function FlatLogs(logs: map<nat, seq<Group>>, order: seq<nat>): seq<Entry>
    requires forall n :: n in order ==> n in logs
    decreases |order|
  {
    if order == [] then []
    else
      FlatLogs(logs, order[..|order| - 1]) +
      (assert order[|order| - 1] in order; FlatRecords(logs[order[|order| - 1]]))
  }

  /** The logs not older than the one the manifest names, oldest first. */
  ghost predicate LiveLogs(logs: map<nat, seq<Group>>, minLog: nat, order: seq<nat>) {
    && (forall i, j :: 0 <= i < j < |order| ==> order[i] < order[j])
    && (forall n :: n in order <==> n in logs && n >= minLog)
  }

  function MaxSeqno(es: seq<Entry>): Seqno {
    if es == [] then 0
    else
      var rest := MaxSeqno(es[..|es| - 1]);
      if es[|es| - 1].seqno > rest then es[|es| - 1].seqno else rest
  }

  /** Replay fills one memtable after the other; each becomes a level-0 table with a rising number. */
  ghost predicate TablesOf(groups: seq<seq<Entry>>, tables: seq<File>, firstNumber: nat) {
    && |groups| == |tables|
    && (forall i :: 0 <= i < |tables| ==> tables[i].number >= firstNumber && tables[i].entries == InsertBatch([], groups[i]))
    && (forall i, j :: 0 <= i < j < |tables| ==> tables[i].number < tables[j].number)
  }

  function TableMap(files: seq<File>): map<nat, seq<Entry>> {
    if files == [] then map[]
    else TableMap(files[..|files| - 1])[files[|files| - 1].number := files[|files| - 1].entries]
  }

  function AddTables(tables: map<nat, seq<Entry>>, files: seq<File>): map<nat, seq<Entry>> {
    tables + TableMap(files)
  }

  function RecoveredLast(disk: Disk, es: seq<Entry>): Seqno
    requires ReplayMeta(disk.manifest).Meta?
  {
    var m := ReplayMeta(disk.manifest).last;
    if m < MaxSeqno(es) then MaxSeqno(es) else m
  }

  /** An opening that is itself cut short before CURRENT names its manifest: some tables are left behind, perhaps partly
      written, and perhaps an empty log. */
  datatype Attempt = Attempt(tables: seq<File>, log: Maybe<nat>)

  ghost predicate MayAttempt(disk: Disk, a: Attempt) {
    && ReplayMeta(disk.manifest).Meta?
    && (forall t :: t in a.tables ==> t.number > ReplayMeta(disk.manifest).nextFile)
    && (a.log.Just? ==> a.log.value > ReplayMeta(disk.manifest).nextFile && forall n :: n in disk.logs ==> n < a.log.value)
  }

  function AfterAttempt(disk: Disk, a: Attempt): Disk {
    disk.(tables := AddTables(disk.tables, a.tables), logs := if a.log.Just? then disk.logs[a.log.value := []] else disk.logs)
  }

  function AfterAttempts(disk: Disk, attempts: seq<Attempt>): Disk {
    if attempts == [] then disk else AfterAttempt(AfterAttempts(disk, attempts[..|attempts| - 1]), attempts[|attempts| - 1])
  }

  ghost predicate MayAttempts(disk: Disk, attempts: seq<Attempt>) {
    attempts == [] ||
    (MayAttempts(disk, attempts[..|attempts| - 1]) &&
     MayAttempt(AfterAttempts(disk, attempts[..|attempts| - 1]), attempts[|attempts| - 1]))
  }

  /** What may come out of an opening: the builder finds version `found`, and the live logs `order` are replayed, cut into
      `groups` anywhere. */
  ghost predicate MayRecover(disk: Disk, found: Version, order: seq<nat>, groups: seq<seq<Entry>>, tables: seq<File>, newLog: nat) {
    && ReplayMeta(disk.manifest).Meta?
    && Built(Changes(disk.manifest), found)
    && (forall n :: n in order ==> n in disk.logs)
    && LiveLogs(disk.logs, ReplayMeta(disk.manifest).logNumber, order)
    && Concat(groups) == FlatLogs(disk.logs, order)
    && TablesOf(groups, tables, ReplayMeta(disk.manifest).nextFile + 1)
    && newLog > ReplayMeta(disk.manifest).nextFile
    && (forall t :: t in tables ==> t.number < newLog)
    && (forall n :: n in order ==> n < newLog)
  }

  /** The store after DB::Open: the replayed tables at level 0, a fresh log, and a fresh manifest that
      starts with a snapshot of the version found. */
  function Recovered(disk: Disk, v: Version, es: seq<Entry>, tables: seq<File>, newLog: nat, hist: set<Entry>): Db
    requires ReplayMeta(disk.manifest).Meta?
  {
    var changes := FileChanges({}, AddAt(0, tables));
    var last := RecoveredLast(disk, es);
    Db([], NoWrite, [], false, ApplyEdit(v, changes), OneVersion(ApplyEdit(v, changes)), Idle, NoDump, {}, [], last,
       newLog + 1, newLog, newLog,
       Disk(disk.logs[newLog := []],
            [Record(SnapshotChanges(v), NoMeta), Record(changes, Meta(newLog, newLog + 1, last))],
            AddTables(disk.tables, tables)),
       hist)
  }

  /** Acknowledged writes, and the group whose record was already in the log. */
  function Survivors(s: Db): set<Entry> {
    if s.inflight.Writing? && s.inflight.logged then s.hist + (set e | e in s.inflight.batch) else s.hist
  }

  // ---------------------------------------------------------------------------------------------
  // Actions
  // ---------------------------------------------------------------------------------------------

  ghost predicate Enabled(s: Db, a: Action) {
    match a
    case BeginWrite(ops) => s.inflight.NoWrite? && s.last + |ops| < MAX_SEQUENCE
    case LogGroup => s.inflight.Writing? && !s.inflight.logged && s.logNumber in s.disk.logs
    case InsertNext => s.inflight.Writing? && s.inflight.logged && s.inflight.inserted < |s.inflight.batch|
    case Publish => s.inflight.Writing? && s.inflight.logged && s.inflight.inserted == |s.inflight.batch| && s.last + |s.inflight.batch| < MAX_SEQUENCE
    case Switch => s.inflight.NoWrite? && !s.hasImm
    case BuildDump(_) => s.hasImm && s.dumping.NoDump?
    case CommitDump(level) => s.hasImm && s.dumping.Dumping? && Sorted(s.imm) && level <= MAX_MEM_COMPACT_LEVEL && |s.version| == NUM_LEVELS &&
                              (s.imm != [] ==> DumpAllowed(s.version, level, File(s.dumping.number, s.dumping.size, s.imm)))
    case Pick(c, input) => s.running.Idle? && s.dumping.NoDump? && WellChosen(s.version, c) &&
                           Sorted(input) && Elems(input) == InputEntries(c)
    case OpenOutput => s.running.Compacting? && s.dumping.NoDump? && s.running.open.Nothing?
    case FinishOutput(count, _) => s.running.Compacting? && s.dumping.NoDump? && s.running.open.Just? &&
                                   0 < count && s.running.pos + count <= |s.running.kept| && Sorted(s.running.kept)
    case Finish => s.running.Compacting? && s.dumping.NoDump? && s.running.open.Nothing? && s.running.pos == |s.running.kept|
    case Abandon => s.running.Compacting? && s.dumping.NoDump?
    case TrivialMove(c) => s.running.Idle? && s.dumping.NoDump? && WellChosen(s.version, c) && |c.from| == 1 && c.into == []
    case TakeSnapshot => true
    case ReleaseSnapshot(i) => i < |s.snapshots|
    case AcquireVersion(reader) => Reader(reader) !in s.versions.holders
    case ReleaseVersion(reader) => Reader(reader) in s.versions.holders
    case DeleteObsolete => s.dumping.NoDump?
    case Crash(attempts, found, order, groups, tables, newLog) =>
      MayAttempts(s.disk, attempts) && MayRecover(AfterAttempts(s.disk, attempts), found, order, groups, tables, newLog)
  }

  /** What PickLevelForMemTableOutput guarantees of the level it picks. */
  ghost predicate DumpAllowed(v: Version, level: nat, f: File)
    requires level < |v|
  {
    level > 0 ==> forall l :: 0 <= l <= level ==> !Overlapped(v, l, f.Smallest().user, f.Largest().user)
  }

  ghost function Next(s: Db, a: Action): Db
    requires Enabled(s, a)
  {
    match a
    case BeginWrite(ops) =>
      s.(inflight := Writing(Assign(ops, s.last + 1), false, 0))
    case LogGroup =>
      s.(inflight := s.inflight.(logged := true),
         disk := s.disk.(logs := s.disk.logs[s.logNumber := s.disk.logs[s.logNumber] + [s.inflight.batch]]))
    case InsertNext => s.(inflight := s.inflight.(inserted := s.inflight.inserted + 1))
    case Publish =>
      s.(mem := InsertBatch(s.mem, s.inflight.batch), inflight := NoWrite,
         last := s.last + |s.inflight.batch|, hist := s.hist + Elems(s.inflight.batch))
    case Switch =>
      s.(imm := s.mem, hasImm := true, mem := [], logNumber := s.nextFile, nextFile := s.nextFile + 1,
         disk := s.disk.(logs := s.disk.logs[s.nextFile := []]))
    case BuildDump(size) =>
      s.(dumping := Dumping(s.nextFile, size), nextFile := s.nextFile + 1, versions := Acquire(s.versions, DumpBase),
         disk := if s.imm == [] then s.disk else s.disk.(tables := s.disk.tables[s.nextFile := s.imm]))
    case CommitDump(level) =>
      LogAndApply(s.(versions := Release(s.versions, DumpBase)), DumpEdit(s, level), s.logNumber)
        .(imm := [], hasImm := false, dumping := NoDump)
    case Pick(c, input) =>
      s.(running := Compacting(c, s.version, SmallestSnapshot(s), input, Kept(s.version, c.level, input, SmallestSnapshot(s)), 0, [], Nothing),
         versions := Acquire(s.versions, CompactionInput))
    case OpenOutput =>
      s.(running := s.running.(open := Just(s.nextFile)), nextFile := s.nextFile + 1, pending := s.pending + {s.nextFile},
         disk := s.disk.(tables := s.disk.tables[s.nextFile := []]))
    case FinishOutput(count, size) =>
      s.(running := Emitted(s.running, count, size),
         disk := s.disk.(tables := Overwrite(s.disk.tables, s.running.open.value, s.running.kept[s.running.pos..s.running.pos + count])))
    case Finish => Closed(LogAndApply(s, CompactionChanges(s.running.c, s.running.outputs), s.minLog))
    case Abandon => Closed(s)
    case TrivialMove(c) => LogAndApply(s, CompactionChanges(c, c.from), s.minLog)
    case TakeSnapshot => s.(snapshots := s.snapshots + [s.last])
    case ReleaseSnapshot(i) => s.(snapshots := s.snapshots[..i] + s.snapshots[i + 1..])
    case AcquireVersion(reader) => s.(versions := Acquire(s.versions, Reader(reader)))
    case ReleaseVersion(reader) => s.(versions := Release(s.versions, Reader(reader)))
    case DeleteObsolete =>
      s.(disk := s.disk.(tables := KeepTables(s.disk.tables, LiveNumbers(s) + s.pending),
                         logs := KeepLogs(s.disk.logs, s.minLog)))
    case Crash(attempts, found, order, groups, tables, newLog) =>
      Recovered(AfterAttempts(s.disk, attempts), found, Concat(groups), tables, newLog, Survivors(s))
  }

  // ---------------------------------------------------------------------------------------------
  // Reads
  // ---------------------------------------------------------------------------------------------

  /** DBImpl::Get: memtable, then immutable memtable, then the version. */
  method Get(mem: seq<Entry>, imm: seq<Entry>, version: Version, u: UserKey, snapshot: Seqno) returns (answer: Answer, ghost h: Hit)
    requires Sorted(mem) && Sorted(imm) && ValidVersion(version)
    requires Layered(Elems(mem), Elems(imm) + AllContents(version)) && Layered(Elems(imm), AllContents(version))
    ensures Newest(Elems(mem) + (Elems(imm) + AllContents(version)), u, snapshot, h)
    ensures answer == AnswerOf(h)
  {
    var inMem := Lookup(mem, u, snapshot);
    if inMem.Hit? {
      NewestLayered(Elems(mem), Elems(imm) + AllContents(version), u, snapshot, inMem, Miss);
      return AnswerOf(inMem), inMem;
    }
    var inImm := Lookup(imm, u, snapshot);
    if inImm.Hit? {
      NewestLayered(Elems(imm), AllContents(version), u, snapshot, inImm, Miss);
      NewestLayered(Elems(mem), Elems(imm) + AllContents(version), u, snapshot, Miss, inImm);
      return AnswerOf(inImm), inImm;
    }
    var inFiles := Versions.Get(version, u, snapshot);
    NewestLayered(Elems(imm), AllContents(version), u, snapshot, Miss, inFiles);
    NewestLayered(Elems(mem), Elems(imm) + AllContents(version), u, snapshot, Miss, inFiles);
    return AnswerOf(inFiles), inFiles;
  }
}
