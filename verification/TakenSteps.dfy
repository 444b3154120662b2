/** Steps the store is sure to be able to take. The actions of Store allow every level, input and output the theorems put up
    with; here are conditions under which BackgroundCompaction and what it calls choose exactly these. The options are the
    default ones. */
module TakenSteps {
  import opened InternalKeys
  import opened Versions
  import opened InputSelection
  import opened CompactionInputs
  import opened Manifests
  import opened Store

  const MAX_FILE_SIZE: nat := 2 * 1024 * 1024

  const L0_COMPACTION_TRIGGER: nat := 4

  const L0_STOP_WRITES_TRIGGER: nat := 12

  function MaxBytesForLevel(level: nat): nat {
    if level <= 1 then 10 * 1048576 else 10 * MaxBytesForLevel(level - 1)
  }

  /** No level has a compaction score of 1 or more, so the file to compact is the one that reads have charged. */
  predicate NoLevelFull(v: Version) {
    && |v| == NUM_LEVELS && |v[0]| < L0_COMPACTION_TRIGGER
    && forall l :: 1 <= l < NUM_LEVELS - 1 ==> TotalFileSize(v[l]) < MaxBytesForLevel(l)
  }

  /** Enough reads of user key `u` make level-0 file `f` the one to compact: they look into it first, and then into another. */
  ghost predicate ChargedBy(v: Version, f: File, u: UserKey) {
    && v != [] && f in v[0] && f.Spans(u)
    && (forall h :: h in v[0] && h.Spans(u) ==> h.number <= f.number)
    && exists l, g :: 0 <= l < |v| && g in v[l] && g != f && g.Spans(u)
  }

  ghost predicate PickedAt(v: Version, c: Inputs, f: File, u: UserKey) {
    ChargedBy(v, f, u) && SettledBy(v, f, c)
  }

  /** PickCompaction chooses the inputs of an automatic compaction. */
  ghost predicate PickedAutomatically(v: Version, c: Inputs) {
    NoLevelFull(v) && exists f, u :: PickedAt(v, c, f, u)
  }

  /** IsTrivialMove, where no file lies two levels down. */
  predicate MovedOnly(c: Inputs) {
    |c.from| == 1 && c.into == []
  }

  predicate NothingTwoDown(v: Version, level: nat) {
    level + 2 < |v| ==> v[level + 2] == []
  }

  /** Replay of one log that fits into one memtable; table and new log get the next two numbers. */
  ghost predicate RecoversAtOnce(disk: Disk, attempts: seq<Attempt>, order: seq<nat>, groups: seq<seq<Entry>>, tables: seq<File>, newLog: nat) {
    && attempts == [] && ReplayMeta(disk.manifest).Meta?
    && |order| == |groups| == |tables| == 1 && groups[0] != []
    && tables[0].number == ReplayMeta(disk.manifest).nextFile + 1 && newLog == ReplayMeta(disk.manifest).nextFile + 2
  }

  /** Enough for the code to take the step; `auto` leaves out manual compactions. */
  ghost predicate Taken(auto: bool, s: Db, a: Action) {
    match a
    // the memtable is full
    case Switch => s.mem != [] && s.version != [] && |s.version[0]| < L0_STOP_WRITES_TRIGGER
    // either nothing else is under way, or the compaction has entries to come
    case BuildDump(_) => s.running.Compacting? ==> s.running.pos < |s.running.kept|
    case CommitDump(level) =>
      && s.imm != [] && |s.version| == NUM_LEVELS
      && DumpGoesTo(s.version, s.imm[0].user, s.imm[|s.imm| - 1].user, MAX_FILE_SIZE, level)
    case Pick(c, _) =>
      && !s.hasImm
      && if auto then PickedAutomatically(s.version, c) && !MovedOnly(c) else TakesLevel(s.version, c, MAX_FILE_SIZE)
    case TrivialMove(c) => !s.hasImm && PickedAutomatically(s.version, c) && MovedOnly(c) && NothingTwoDown(s.version, c.level)
    case OpenOutput => s.running.Compacting? && s.running.pos < |s.running.kept|
    // the output is full, or there is nothing more to come
    case FinishOutput(count, size) =>
      && s.running.Compacting? && NothingTwoDown(s.running.base, s.running.c.level)
      && (size >= MAX_FILE_SIZE || s.running.pos + count == |s.running.kept|)
    case Abandon => false
    case Crash(attempts, _, order, groups, tables, newLog) => RecoversAtOnce(s.disk, attempts, order, groups, tables, newLog)
    case _ => true
  }

  ghost predicate TakenAt(auto: bool, states: seq<Db>, actions: seq<Action>, k: nat) {
    k < |actions| && k < |states| && Taken(auto, states[k], actions[k])
  }
}
