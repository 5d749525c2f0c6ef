/** The database as a state machine. One step is what happens between two points where another thread
    can take the mutex: a write group, a write group that failed to reach the log, a memtable switch, a
    flush, the start and the installation of a compaction, a trivial move, a snapshot, a crash followed by
    recovery.

    Every state also carries `history`, the plain versioned map: all acknowledged writes in commit order.
    The theorem is that at every reachable state every live snapshot reads from the memtables and the
    files what it reads from `history`. */
module Lsm {
  import opened InternalKeys
  import opened TableFiles
  import opened CompactionInputs
  import opened DropRule
  import opened LevelUpdates

  /** A compaction between the moment its inputs are chosen and the moment it is installed. */
  datatype Pending = Pending(
    level: nat, in0: set<TableFile>, in1: set<TableFile>,
    deeper: set<TableFile>,        // level + 2 and below, in the input version
    snapshot: Sequence,            // smallest_snapshot
    outputs: set<nat>,             // file numbers handed to its outputs so far
    automatic: bool)               // chosen by PickCompaction rather than CompactRange

  datatype Log = Log(number: nat, entries: seq<Entry>)

  datatype State = State(
    mem: set<Entry>,
    imm: Option<set<Entry>>,
    levels: seq<set<TableFile>>,
    lastSequence: Sequence,
    snapshots: multiset<Sequence>,
    pending: Option<Pending>,
    nextFile: nat,
    logs: seq<Log>,                // on disk, oldest first; the last one is being written
    logNumber: nat,                // in the MANIFEST: older logs are not needed
    manifestSequence: Sequence,    // the last sequence recorded in the MANIFEST
    manifestNextFile: nat,         // the next file number recorded in the MANIFEST
    history: seq<Entry>,
    horizon: Sequence)             // the largest smallest_snapshot any compaction has used

  datatype Operation = Operation(user: UserKey, kind: ValueType, value: Value)

  // ---- Views ----

  ghost function ImmSet(s: State): set<Entry> {
    if s.imm.Some? then s.imm.value else {}
  }

  ghost function Stored(s: State): set<Entry> {
    s.mem + ImmSet(s) + EntriesOf(s.levels)
  }

  /** The entries of the logs numbered at least `from`, oldest first. */
  function LogEntries(logs: seq<Log>, from: nat): seq<Entry> {
    if logs == [] then []
    else
      var last := logs[|logs| - 1];
      LogEntries(logs[..|logs| - 1], from) + if last.number >= from then last.entries else []
  }

  // ---- Steps ----

  function Stamp(batch: seq<Operation>, last: Sequence): seq<Entry>
    requires last + |batch| < MAX_SEQUENCE
  {
    seq(|batch|, i requires 0 <= i < |batch| =>
      Entry(InternalKey(batch[i].user, last + 1 + i, batch[i].kind), batch[i].value))
  }

  function AppendLog(logs: seq<Log>, entries: seq<Entry>): seq<Log>
    requires logs != []
  {
    logs[|logs| - 1 := logs[|logs| - 1].(entries := logs[|logs| - 1].entries + entries)]
  }

  /** Newer entries into the log, the memtable and the history. */
  function Commit(s: State, entries: seq<Entry>, last: Sequence): State
    requires s.logs != []
  {
    s.(mem := s.mem + EntrySet(entries), lastSequence := last, logs := AppendLog(s.logs, entries),
       history := s.history + entries)
  }

  /** A write group: one log record, then the memtable, then the last sequence. */
  function Write(s: State, batch: seq<Operation>): State
    requires s.logs != [] && s.lastSequence + |batch| < MAX_SEQUENCE
  {
    Commit(s, Stamp(batch, s.lastSequence), s.lastSequence + |batch|)
  }

  /** A write group whose log record could not be written: its sequence numbers are used up all the same. */
  function Skip(s: State, n: nat): State
    requires s.lastSequence + n < MAX_SEQUENCE
  {
    s.(lastSequence := s.lastSequence + n)
  }

  /** MakeRoomForWrite: a new log and memtable. */
  function SwitchMemTable(s: State): State
    requires s.imm.None?
  {
    s.(mem := {}, imm := Some(s.mem), logs := s.logs + [Log(s.nextFile, [])], nextFile := s.nextFile + 1)
  }

  /** CompactMemTable: the immutable memtable becomes a file at `level`; an empty one leaves no file. */
  function Flush(s: State, file: Option<TableFile>, level: nat): State
    requires level < |s.levels| && s.logs != []
  {
    s.(imm := None, nextFile := s.nextFile + 1,
       levels := if file.Some? then WithFile(s.levels, level, file.value) else s.levels,
       logNumber := s.logs[|s.logs| - 1].number, manifestSequence := s.lastSequence,
       manifestNextFile := s.nextFile + 1)
  }

  /** The smallest sequence any present or future reader can use. */
  ghost predicate IsSmallestSnapshot(s: State, q: Sequence) {
    if |s.snapshots| == 0 then q == s.lastSequence
    else q in s.snapshots && forall p | p in s.snapshots :: q <= p
  }

  ghost function BeginCompaction(s: State, level: nat, in0: set<TableFile>, in1: set<TableFile>, snapshot: Sequence,
                                 automatic: bool): State {
    s.(pending := Some(Pending(level, in0, in1, Deeper(s.levels, level), snapshot, {}, automatic)))
  }

  function OpenOutput(s: State): State
    requires s.pending.Some?
  {
    s.(pending := Some(s.pending.value.(outputs := s.pending.value.outputs + {s.nextFile})), nextFile := s.nextFile + 1)
  }

  function FinishCompaction(s: State, outputs: set<TableFile>): State
    requires s.pending.Some? && s.pending.value.level + 1 < |s.levels|
  {
    var p := s.pending.value;
    s.(levels := Replaced(s.levels, p.level, p.in0, p.in1, outputs), pending := None, horizon := p.snapshot,
       manifestSequence := s.lastSequence, manifestNextFile := s.nextFile)
  }

  function TrivialMove(s: State, level: nat, f: TableFile): State
    requires level + 1 < |s.levels|
  {
    s.(levels := Replaced(s.levels, level, {f}, {}, {f}), manifestSequence := s.lastSequence,
       manifestNextFile := s.nextFile)
  }

  function RemoveObsoleteLogs(logs: seq<Log>, from: nat): seq<Log> {
    if logs == [] then []
    else
      var last := logs[|logs| - 1];
      RemoveObsoleteLogs(logs[..|logs| - 1], from) + if last.number >= from then [last] else []
  }

  function AddAll(levels: seq<set<TableFile>>, tables: seq<TableFile>): seq<set<TableFile>>
    requires |levels| > 0
  {
    levels[0 := levels[0] + FileSet(tables)]
  }

  function LastOf(entries: seq<Entry>, otherwise: Sequence): Sequence {
    if entries == [] then otherwise
    else
      var rest := LastOf(entries[..|entries| - 1], otherwise);
      var last := entries[|entries| - 1].key.sequence;
      if last > rest then last else rest
  }

  /** A crash loses the memtables, the snapshots and the running compaction. Recovery takes levels, log
      number and last sequence from the MANIFEST and turns the logs into level-0 tables. */
  function Reopen(s: State, tables: seq<TableFile>, newLog: nat, last: Sequence): State
    requires |s.levels| > 0
  {
    s.(mem := {}, imm := None, levels := AddAll(s.levels, tables), lastSequence := last, snapshots := multiset{},
       pending := None, nextFile := newLog + 1, logs := s.logs + [Log(newLog, [])], logNumber := newLog,
       manifestSequence := last, manifestNextFile := newLog + 1)
  }

  // ---- When a step may happen ----

  /** The new file holds the immutable memtable, under the next number. */
  ghost predicate IsTableFor(f: TableFile, entries: set<Entry>) {
    WellFormed(f) && EntrySet(f.entries) == entries
  }

  /** PickLevelForMemTableOutput's promise about the level it picks. */
  ghost predicate MayPlace(s: State, level: nat, f: TableFile) {
    level < NUM_LEVELS && (level > 0 ==> ClearDownTo(s.levels, level, f))
  }

  /** What the compaction is going to write out. */
  ghost function KeptOf(p: Pending): set<Entry> {
    KeptSet(EntriesIn(p.in0 + p.in1), p.snapshot, p.deeper)
  }

  /** A flush during a manual compaction must not land at its output level between the entries that the
      compaction keeps. */
  ghost predicate KeepsClear(s: State, level: nat, f: TableFile) {
    s.pending.Some? && !s.pending.value.automatic && level == s.pending.value.level + 1 ==>
      OneSide(f, KeptOf(s.pending.value))
  }

  ghost predicate MayFlush(s: State, file: Option<TableFile>, level: nat) {
    && s.imm.Some? && level < NUM_LEVELS
    && (file.None? <==> s.imm.value == {})
    && (file.Some? ==> IsTableFor(file.value, s.imm.value) && file.value.number == s.nextFile
                       && MayPlace(s, level, file.value) && KeepsClear(s, level, file.value))
  }

  ghost predicate MayBegin(s: State, level: nat, in0: set<TableFile>, in1: set<TableFile>, snapshot: Sequence,
                           automatic: bool) {
    && s.pending.None? && level + 1 < NUM_LEVELS
    && InputsClosed(s.levels, level, in0, in1)
    && IsSmallestSnapshot(s, snapshot)
    && (automatic ==> Gapless(in0 + in1))
  }

  ghost predicate DistinctNumbers(files: set<TableFile>) {
    forall f, g | f in files && g in files && f.number == g.number :: f == g
  }

  ghost predicate AreFilesWith(files: set<TableFile>, numbers: set<nat>, kept: set<Entry>) {
    && Disjoint(files) && DistinctNumbers(files)
    && (forall o | o in files :: WellFormed(o) && o.number in numbers)
    && EntriesIn(files) == kept
  }

  /** The outputs hold, cut into disjoint files under the numbers handed out, what the drop rule keeps. */
  ghost predicate IsOutputOf(p: Pending, outputs: set<TableFile>) {
    exists kept :: kept == KeptOf(p) && AreFilesWith(outputs, p.outputs, kept)
  }

  /** Later tables have higher numbers and newer entries. */
  ghost predicate InOrder(tables: seq<TableFile>) {
    forall i, j | 0 <= i < j < |tables| ::
      tables[i].number < tables[j].number && NewestOf(tables[j], EntrySet(tables[i].entries))
  }

  /** The tables recovery writes: the replayed entries, cut in order, under increasing numbers above the
      one the MANIFEST recorded. The new log's number is above those and above every log's. */
  ghost predicate IsReplay(s: State, tables: seq<TableFile>, newLog: nat) {
    && (forall t | t in tables :: WellFormed(t) && s.manifestNextFile < t.number < newLog)
    && InOrder(tables)
    && EntriesIn(FileSet(tables)) == EntrySet(LogEntries(s.logs, s.logNumber))
    && s.manifestNextFile < newLog && forall log | log in s.logs :: log.number < newLog
  }

  /** The last sequence after recovery: not before that of the MANIFEST or of a replayed entry; an empty batch
      in a log can account for numbers that failed writes had used up. */
  ghost predicate IsRecovered(s: State, last: Sequence) {
    LastOf(LogEntries(s.logs, s.logNumber), s.manifestSequence) <= last <= s.lastSequence
  }

  datatype Step =
    | WriteStep(batch: seq<Operation>)
    | SkipStep(n: nat)
    | SwitchStep
    | FlushStep(file: Option<TableFile>, level: nat)
    | TakeSnapshot
    | ReleaseSnapshot(snapshot: Sequence)
    | BeginStep(from: nat, in0: set<TableFile>, in1: set<TableFile>, smallest: Sequence, automatic: bool)
    | OpenOutputStep
    | FinishStep(outputs: set<TableFile>)
    | MoveStep(from: nat, f: TableFile)
    | RemoveLogsStep
    | ReopenStep(tables: seq<TableFile>, newLog: nat, last: Sequence)

  ghost predicate Next(s: State, step: Step, t: State) {
    match step
    case WriteStep(batch) => s.logs != [] && s.lastSequence + |batch| < MAX_SEQUENCE && t == Write(s, batch)
    case SkipStep(n) => s.lastSequence + n < MAX_SEQUENCE && t == Skip(s, n)
    case SwitchStep => s.imm.None? && t == SwitchMemTable(s)
    case FlushStep(file, level) => level < |s.levels| && s.logs != [] && MayFlush(s, file, level)
        && t == Flush(s, file, level)
    case TakeSnapshot => t == s.(snapshots := s.snapshots + multiset{s.lastSequence})
    case ReleaseSnapshot(q) => q in s.snapshots && t == s.(snapshots := s.snapshots - multiset{q})
    case BeginStep(level, in0, in1, q, automatic) =>
      MayBegin(s, level, in0, in1, q, automatic) && t == BeginCompaction(s, level, in0, in1, q, automatic)
    case OpenOutputStep => s.pending.Some? && t == OpenOutput(s)
    case FinishStep(outputs) =>
      && s.pending.Some? && s.pending.value.level + 1 < |s.levels| && IsOutputOf(s.pending.value, outputs)
      && t == FinishCompaction(s, outputs)
    case MoveStep(level, f) =>
      && s.pending.None? && level + 1 < |s.levels| && InputsClosed(s.levels, level, {f}, {})
      && t == TrivialMove(s, level, f)
    case RemoveLogsStep => t == s.(logs := RemoveObsoleteLogs(s.logs, s.logNumber))
    case ReopenStep(tables, newLog, last) =>
      && |s.levels| > 0 && IsReplay(s, tables, newLog) && IsRecovered(s, last) && t == Reopen(s, tables, newLog, last)
  }

  /** A newly created database. */
  ghost predicate Initial(s: State) {
    && s.mem == {} && s.imm.None? && s.lastSequence == 0 && s.snapshots == multiset{} && s.pending.None?
    && |s.levels| == NUM_LEVELS && (forall l | 0 <= l < NUM_LEVELS :: s.levels[l] == {})
    && |s.logs| == 1 && s.logs[0].entries == [] && 0 < s.logs[0].number < s.nextFile && s.logNumber == s.logs[0].number
    && s.manifestSequence == 0 && s.manifestNextFile <= s.nextFile && s.history == [] && s.horizon == 0
  }

  // ---- The invariant ----

  ghost predicate UniqueNumbers(levels: seq<set<TableFile>>) {
    forall i, j, f, g | 0 <= i < |levels| && 0 <= j < |levels| && f in levels[i] && g in levels[j]
        && f.number == g.number ::
      i == j && f == g
  }

  ghost predicate FilesBelow(levels: seq<set<TableFile>>, bound: nat) {
    && OrderedLevels(levels) && UniqueNumbers(levels)
    && forall l, f | 0 <= l < NUM_LEVELS && f in levels[l] :: f.number < bound
  }

  /** The levels are in order, and the MANIFEST knows the number of every file in them. */
  ghost predicate FilesInv(s: State) {
    exists bound: nat :: bound == s.manifestNextFile && FilesBelow(s.levels, bound) && bound <= s.nextFile
  }

  function LastWritten(history: seq<Entry>): Sequence {
    if history == [] then 0 else history[|history| - 1].key.sequence
  }

  ghost predicate HistoryInv(s: State) {
    && Increasing(s.history)
    && LastWritten(s.history) <= s.lastSequence
    && Stored(s) <= EntrySet(s.history)
  }

  ghost predicate AllNewer(A: set<Entry>, B: set<Entry>) {
    forall a, b | a in A && b in B :: a.key.sequence > b.key.sequence
  }

  ghost predicate AgeInv(s: State) {
    && AllNewer(s.mem, ImmSet(s)) && AllNewer(s.mem, EntriesOf(s.levels)) && AllNewer(ImmSet(s), EntriesOf(s.levels))
  }

  ghost predicate SnapshotInv(s: State) {
    && s.horizon <= s.lastSequence < MAX_SEQUENCE
    && forall q | q in s.snapshots :: s.horizon <= q <= s.lastSequence
  }

  /** Reads of the stored entries are reads of the history. */
  ghost predicate ReadsInv(s: State) {
    forall k: UserKey, q: Sequence | s.horizon <= q :: Yields(Stored(s), k, q, SpecGet(s.history, k, q))
  }

  /** The files around the inputs of a running compaction. */
  ghost predicate AroundInv(levels: seq<set<TableFile>>, p: Pending) {
    && |levels| == NUM_LEVELS && p.level + 1 < NUM_LEVELS
    && Surrounded(levels, p.level, p.in0, p.in1)
    && AllOneSide(levels[p.level + 1] - p.in1, KeptOf(p))
    && (p.automatic ==> Gapless(p.in0 + p.in1))
    && forall l, f, g | p.level + 2 <= l < NUM_LEVELS && f in levels[l] && f !in p.deeper && g in p.in0 + p.in1 ::
         !RangesMeet(f, g)
  }

  /** The numbers handed to its outputs are not in use yet. */
  ghost predicate OutputsInv(levels: seq<set<TableFile>>, outputs: set<nat>, nextFile: nat) {
    && (forall n | n in outputs :: n < nextFile)
    && (forall l, f | 0 <= l < |levels| && f in levels[l] :: f.number !in outputs)
  }

  ghost predicate PendingInv(s: State) {
    s.pending.Some? ==>
      var p := s.pending.value;
      && AroundInv(s.levels, p) && OutputsInv(s.levels, p.outputs, s.nextFile)
      && s.horizon <= p.snapshot <= s.lastSequence
      && (forall q | q in s.snapshots :: p.snapshot <= q)
  }

  /** The logs the MANIFEST still names hold the immutable memtable and then the memtable, everything
      written after the MANIFEST's last sequence is in one of the two, and no compaction has dropped anything
      that a read at the MANIFEST's last sequence could ask for. */
  ghost predicate LogInv(s: State) {
    && s.logs != []
    && var n := |s.logs| - 1;
      && (forall i, j | 0 <= i < j <= n :: s.logs[i].number < s.logs[j].number)
      && s.logs[0].number > 0
      && s.logNumber <= s.logs[n].number < s.nextFile
      && EntrySet(s.logs[n].entries) == s.mem
      && EntrySet(LogEntries(s.logs[..n], s.logNumber)) == ImmSet(s)
      && (forall e | e in s.history && e.key.sequence > s.manifestSequence :: e in s.mem || e in ImmSet(s))
      && s.horizon <= s.manifestSequence <= s.lastSequence
  }

  ghost predicate Inv(s: State) {
    && FilesInv(s) && HistoryInv(s) && AgeInv(s) && SnapshotInv(s) && ReadsInv(s) && PendingInv(s) && LogInv(s)
  }
}
