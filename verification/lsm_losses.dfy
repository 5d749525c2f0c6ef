/** A crash may cost part of what the logs hold: damage that the log reader skips, or a tail that was never synced.
    What recovery then starts from is still a state of the machine, for the history without the lost entries. */
module LsmLosses {
  import opened InternalKeys
  import opened TableFiles
  import opened DropRule
  import opened LevelUpdates
  import opened Lsm
  import opened LsmWrites
  import opened LsmFlushes
  import opened LsmCompactions
  import opened LsmRestarts
  import LsmRuns
  import opened LsmLogs

  function Tail(s: State): seq<Entry> {
    LogEntries(s.logs, s.logNumber)
  }

  /** Reads of the files alone are reads of `older`. */
  ghost predicate FilesRead(files: set<Entry>, older: seq<Entry>, horizon: Sequence) {
    forall k: UserKey, q: Sequence | horizon <= q :: Yields(files, k, q, SpecGet(older, k, q))
  }

  ghost predicate IsFlushed(s: State, older: seq<Entry>) {
    && EndsIn(s.history, older, Tail(s)) && FilesRead(EntriesOf(s.levels), older, s.horizon)
  }

  /** What the logs do not hold any more is in the files, and they read like it. No read of a memtable is
      needed to make up for what a compaction has dropped. */
  ghost predicate FlushedInv(s: State) {
    Increasing(s.history) && exists older :: IsFlushed(s, older)
  }

  lemma FlushedInOrder(s: State)
    requires FlushedInv(s)
    ensures LogsInOrder(s)
  {
    var older :| IsFlushed(s, older);
  }

  // ---- Every step keeps the files readable on their own ----

  /** A newer layer over one that reads like a history. */
  lemma LayerReads(files: set<Entry>, older: seq<Entry>, es: seq<Entry>, horizon: Sequence)
    requires FilesRead(files, older, horizon) && Increasing(es) && AllNewer(EntrySet(es), files)
    ensures FilesRead(files + EntrySet(es), older + es, horizon)
  {
    forall k: UserKey, q: Sequence | horizon <= q
      ensures Yields(files + EntrySet(es), k, q, SpecGet(older + es, k, q))
    {
      LayerRead(files, older, es, k, q);
      assert EntrySet(es) + files == files + EntrySet(es);
    }
  }

  /** The same files and the same logs. */
  lemma SameFlushed(s: State, t: State)
    requires FlushedInv(s) && t.history == s.history && t.horizon == s.horizon
    requires EntriesOf(t.levels) == EntriesOf(s.levels) && Tail(t) == Tail(s)
    ensures FlushedInv(t)
  {
    var older :| IsFlushed(s, older);
    assert IsFlushed(t, older);
  }

  /** What was written before the first entry that the logs hold. */
  function Older(s: State): seq<Entry> {
    if |Tail(s)| <= |s.history| then s.history[..|s.history| - |Tail(s)|] else []
  }

  lemma OlderIs(s: State, older: seq<Entry>)
    requires EndsIn(s.history, older, Tail(s))
    ensures Older(s) == older
  {
  }

  lemma CommitFlushed(s: State, es: seq<Entry>, last: Sequence, t: State)
    requires HistoryInv(s) && LogInv(s) && FlushedInv(s) && MayCommit(s, es, last) && t == Commit(s, es, last)
    ensures FlushedInv(t) && Older(t) == Older(s)
  {
    HistoryExtends(s.history, es, last);
    AppendedLog(s.logs, es, s.logNumber);
    var older :| IsFlushed(s, older);
    Regroup(older, Tail(s), es);
    assert IsFlushed(t, older);
    OlderIs(s, older);
    OlderIs(t, older);
  }

  /** Once the entries of the older logs are in the files, the last log is the tail. */
  lemma OlderFlushed(s: State, t: State, older: seq<Entry>, es: seq<Entry>, last: seq<Entry>)
    requires IsFlushed(s, older) && Increasing(s.history) && Tail(s) == es + last && Tail(t) == last
    requires t.history == s.history && t.horizon == s.horizon
    requires AllNewer(EntrySet(es), EntriesOf(s.levels)) && EntriesOf(t.levels) == EntriesOf(s.levels) + EntrySet(es)
    ensures FlushedInv(t)
  {
    Regroup(older, es, last);
    PartsIncreasing(s.history, older, es);
    LayerReads(EntriesOf(s.levels), older, es, s.horizon);
    assert IsFlushed(t, older + es);
  }

  lemma LogsBeforeLast(logs: seq<Log>, n: nat)
    requires n == |logs| - 1 && forall i, j | 0 <= i < j <= n :: logs[i].number < logs[j].number
    ensures LogEntries(logs, logs[n].number) == logs[n].entries
  {
    NoOlderLogs(logs[..n], logs[n].number);
    SplitLogs(logs, logs[n].number);
    Regroup(logs[n].entries, [], []);
  }

  lemma FlushFlushed(s: State, file: Option<TableFile>, level: nat)
    requires FilesInv(s) && AgeInv(s) && LogInv(s) && FlushedInv(s) && MayFlush(s, file, level)
    ensures FlushedInv(Flush(s, file, level))
  {
    var t, n := Flush(s, file, level), |s.logs| - 1;
    var es, last := LogEntries(s.logs[..n], s.logNumber), s.logs[n].entries;
    var older :| IsFlushed(s, older);
    FlushStored(s, file, level);
    SplitLogs(s.logs, s.logNumber);
    LogsBeforeLast(s.logs, n);
    OlderFlushed(s, t, older, es, last);
  }

  /** The files that a running compaction leaves alone. */
  ghost function OtherFiles(s: State, p: Pending): set<Entry>
    requires p.level + 1 < |s.levels|
  {
    EntriesOf(Without(s.levels, p.level, p.in0, p.in1))
  }

  lemma FinishFlushed(s: State, outputs: set<TableFile>)
    requires FilesInv(s) && AgeInv(s) && HistoryInv(s) && PendingInv(s) && FlushedInv(s)
    requires s.pending.Some? && IsOutputOf(s.pending.value, outputs)
    ensures FlushedInv(FinishCompaction(s, outputs))
  {
    var p, t := s.pending.value, FinishCompaction(s, outputs);
    var older :| IsFlushed(s, older);
    var inputs := EntriesIn(p.in0 + p.in1);
    EntriesSplit(s.levels, p.level, p.in0, p.in1, outputs);
    PendingOlderIsBelow(s, p);
    StoredDistinct(s);
    forall k: UserKey, q: Sequence | t.horizon <= q
      ensures Yields(EntriesOf(t.levels), k, q, SpecGet(older, k, q))
    {
      DroppingIsInvisible(OtherFiles(s, p), inputs, p.snapshot, p.deeper, k, q, SpecGet(older, k, q));
    }
    assert IsFlushed(t, older);
  }

  lemma ReopenFlushed(s: State, tables: seq<TableFile>, newLog: nat, last: Sequence)
    requires Inv(s) && IsReplay(s, tables, newLog) && IsRecovered(s, last)
    ensures FlushedInv(Reopen(s, tables, newLog, last))
  {
    var t := Reopen(s, tables, newLog, last);
    ReplayLevels(s, tables, newLog);
    NewLog(s.logs, newLog, newLog);
    NoOlderLogs(s.logs, newLog);
    Regroup(s.history, [], []);
    assert EntriesOf(t.levels) == Stored(s);
    assert IsFlushed(t, s.history);
  }

  lemma WriteFlushed(s: State, batch: seq<Operation>, t: State)
    requires HistoryInv(s) && LogInv(s) && FlushedInv(s) && Next(s, WriteStep(batch), t)
    ensures FlushedInv(t)
  {
    StampIsLate(s, batch);
    CommitFlushed(s, Stamp(batch, s.lastSequence), s.lastSequence + |batch|, t);
  }

  lemma MoveFlushed(s: State, level: nat, f: TableFile, t: State)
    requires Inv(s) && FlushedInv(s) && Next(s, MoveStep(level, f), t)
    ensures FlushedInv(t)
  {
    StoredDistinct(s);
    MoveOrder(s.levels, level, f);
    SameFlushed(s, t);
  }

  lemma LogStepFlushed(s: State, step: Step, t: State)
    requires Inv(s) && FlushedInv(s) && Next(s, step, t) && (step.SwitchStep? || step.RemoveLogsStep?)
    ensures FlushedInv(t)
  {
    if step.SwitchStep? { NewLog(s.logs, s.nextFile, s.logNumber); } else { RemoveLogsFacts(s.logs, s.logNumber); }
    SameFlushed(s, t);
  }

  lemma StepFlushed(s: State, step: Step, t: State)
    requires Inv(s) && FlushedInv(s) && Next(s, step, t)
    ensures FlushedInv(t)
  {
    match step
    case WriteStep(batch) => WriteFlushed(s, batch, t);
    case FlushStep(file, level) => FlushFlushed(s, file, level);
    case FinishStep(outputs) => FinishFlushed(s, outputs);
    case ReopenStep(tables, newLog, last) => ReopenFlushed(s, tables, newLog, last);
    case SwitchStep => LogStepFlushed(s, step, t);
    case MoveStep(level, f) => MoveFlushed(s, level, f, t);
    case RemoveLogsStep => LogStepFlushed(s, step, t);
    case _ => SameFlushed(s, t);
  }

  lemma InitialFlushed(s: State)
    requires Initial(s)
    ensures FlushedInv(s)
  {
    SplitLogs(s.logs, s.logNumber);
    assert s.logs[..0] == [] && [] + s.logs[0].entries == [];
    assert EndsIn(s.history, [], Tail(s));
    assert EntriesOf(s.levels) == {};
    assert IsFlushed(s, []);
  }

  lemma {:induction false} RunFlushed(states: seq<State>, steps: seq<Step>, n: nat)
    requires LsmRuns.IsRun(states, steps) && n < |states|
    ensures FlushedInv(states[n])
  {
    if n == 0 {
      InitialFlushed(states[0]);
    } else {
      var i := n - 1;
      RunFlushed(states, steps, i);
      LsmRuns.RunInv(states, steps, i);
      assert Next(states[i], steps[i], states[i + 1]);
      StepFlushed(states[i], steps[i], states[i + 1]);
    }
  }

  // ---- What a crash can do to the logs ----

  /** Some of the entries, in order. */
  ghost predicate IsPart(some: seq<Entry>, all: seq<Entry>) {
    Increasing(some) && forall e | e in some :: e in all
  }

  /** The same logs, of those that still matter with part of their entries. */
  ghost predicate ArePartsOf(kept: seq<Log>, logs: seq<Log>, from: nat) {
    && |kept| == |logs|
    && forall i | 0 <= i < |logs| ::
         kept[i].number == logs[i].number && (logs[i].number >= from ==> IsPart(kept[i].entries, logs[i].entries))
  }

  /** The state with these logs instead: memtables and history are without what they lack. */
  function Damaged(s: State, kept: seq<Log>): State
    requires kept != []
  {
    var n := |kept| - 1;
    s.(logs := kept, mem := EntrySet(kept[n].entries),
       imm := if s.imm.Some? then Some(EntrySet(LogEntries(kept[..n], s.logNumber))) else None,
       history := Older(s) + LogEntries(kept, s.logNumber))
  }

  lemma JoinParts(a: seq<Entry>, b: seq<Entry>, c: seq<Entry>, d: seq<Entry>)
    requires Increasing(a + b) && IsPart(c, a) && IsPart(d, b)
    ensures IsPart(c + d, a + b)
  {
    forall x, y | x in c && y in d ensures x.key.sequence < y.key.sequence {
      assert x in a && y in b;
      PartsIncreasing(a + b, a, b);
    }
  }

  /** What is left of the entries to replay is part of them, too. */
  lemma {:induction false} PartOfEntries(kept: seq<Log>, logs: seq<Log>, from: nat)
    requires ArePartsOf(kept, logs, from) && Increasing(LogEntries(logs, from))
    ensures IsPart(LogEntries(kept, from), LogEntries(logs, from))
  {
    if logs != [] {
      var n := |logs| - 1;
      var before := LogEntries(logs[..n], from);
      var last := if logs[n].number >= from then logs[n].entries else [];
      assert LogEntries(logs, from) == before + last;
      PartsIncreasing(before + last, [], before);
      PartsIncreasing(before + last, before, last);
      PartOfEntries(kept[..n], logs[..n], from);
      JoinParts(before, last, LogEntries(kept[..n], from), if logs[n].number >= from then kept[n].entries else []);
    }
  }

  lemma FilesAreOlder(s: State, older: seq<Entry>)
    requires HistoryInv(s) && AgeInv(s) && LogInv(s) && EndsIn(s.history, older, Tail(s))
    ensures EntriesOf(s.levels) <= EntrySet(older) && AllNewer(EntrySet(Tail(s)), EntriesOf(s.levels))
  {
    ReplayedIsLost(s);
    forall e | e in EntriesOf(s.levels) ensures e in EntrySet(older) {
      assert e in Stored(s);
      assert e in older || e in EntrySet(Tail(s));
    }
  }

  lemma DamagedHistory(s: State, d: State, older: seq<Entry>)
    requires Increasing(s.history) && EndsIn(s.history, older, Tail(s)) && IsPart(Tail(d), Tail(s))
    requires d.history == older + Tail(d)
    ensures Increasing(d.history) && LastWritten(d.history) <= LastWritten(s.history)
    ensures forall e | e in d.history :: e in s.history
  {
    PartsIncreasing(s.history, [], older);
    Regroup(older, [], []);
    assert IsPart(older, older);
    JoinParts(older, Tail(s), older, Tail(d));
    HistoryBound(s.history);
    assert d.history != [] ==> d.history[|d.history| - 1] in d.history;
  }

  /** What is not in the logs any more is covered by the MANIFEST. */
  lemma OlderIsRecorded(s: State, older: seq<Entry>)
    requires Increasing(s.history) && LogInv(s) && EndsIn(s.history, older, Tail(s))
    ensures forall e | e in older :: e.key.sequence <= s.manifestSequence
  {
    ReplayedIsLost(s);
    PartsIncreasing(s.history, older, Tail(s));
    forall e | e in older ensures e.key.sequence <= s.manifestSequence {
      assert e !in Tail(s);
      assert e !in EntrySet(Tail(s));
      assert e in s.history;
    }
  }

  lemma PartIsSubset(some: seq<Entry>, all: seq<Entry>)
    requires IsPart(some, all)
    ensures EntrySet(some) <= EntrySet(all)
  {
  }

  lemma DamagedMemTables(s: State, kept: seq<Log>)
    requires LogInv(s) && Increasing(Tail(s)) && ArePartsOf(kept, s.logs, s.logNumber)
    ensures var d, n := Damaged(s, kept), |kept| - 1;
            && EntrySet(LogEntries(kept[..n], s.logNumber)) == ImmSet(d)
            && EntrySet(Tail(d)) == ImmSet(d) + d.mem && d.mem <= s.mem && ImmSet(d) <= ImmSet(s)
  {
    var n := |kept| - 1;
    SplitLogs(s.logs, s.logNumber);
    SplitLogs(kept, s.logNumber);
    PartsIncreasing(Tail(s), [], LogEntries(s.logs[..n], s.logNumber));
    PartOfEntries(kept[..n], s.logs[..n], s.logNumber);
    PartIsSubset(LogEntries(kept[..n], s.logNumber), LogEntries(s.logs[..n], s.logNumber));
    PartIsSubset(kept[n].entries, s.logs[n].entries);
  }

  /** The logs still hold the memtables. */
  lemma DamagedRecent(s: State, kept: seq<Log>, d: State)
    requires Increasing(s.history) && LogInv(s) && FlushedInv(s) && ArePartsOf(kept, s.logs, s.logNumber)
    requires d == Damaged(s, kept) && Increasing(Tail(s))
    ensures forall e | e in d.history && e.key.sequence > d.manifestSequence :: e in d.mem || e in ImmSet(d)
  {
    var older :| IsFlushed(s, older);
    OlderIs(s, older);
    OlderIsRecorded(s, older);
    DamagedMemTables(s, kept);
    forall e | e in d.history && e.key.sequence > d.manifestSequence ensures e in d.mem || e in ImmSet(d) {
      assert e in EntrySet(Tail(d));
    }
  }

  lemma DamagedLogs(s: State, kept: seq<Log>, d: State)
    requires Increasing(s.history) && LogInv(s) && FlushedInv(s) && ArePartsOf(kept, s.logs, s.logNumber)
    requires d == Damaged(s, kept)
    ensures LogInv(d)
  {
    var older :| IsFlushed(s, older);
    OlderIs(s, older);
    PartsIncreasing(s.history, older, Tail(s));
    DamagedMemTables(s, kept);
    DamagedRecent(s, kept, d);
  }

  lemma DamagedStored(s: State, kept: seq<Log>, older: seq<Entry>)
    requires Inv(s) && IsFlushed(s, older) && ArePartsOf(kept, s.logs, s.logNumber)
    ensures var d := Damaged(s, kept);
            && d.history == older + Tail(d) && Increasing(Tail(d))
            && Stored(d) == EntriesOf(s.levels) + EntrySet(Tail(d)) && Stored(d) <= EntrySet(d.history)
            && AllNewer(EntrySet(Tail(d)), EntriesOf(s.levels))
  {
    OlderIs(s, older);
    PartsIncreasing(s.history, older, Tail(s));
    PartOfEntries(kept, s.logs, s.logNumber);
    PartIsSubset(Tail(Damaged(s, kept)), Tail(s));
    DamagedMemTables(s, kept);
    FilesAreOlder(s, older);
  }

  /** The files, and what is not in the logs, stay as they are; the memtables shrink. */
  lemma DamagedRest(s: State, d: State)
    requires FilesInv(s) && AgeInv(s) && SnapshotInv(s) && PendingInv(s)
    requires d.levels == s.levels && d.nextFile == s.nextFile && d.manifestNextFile == s.manifestNextFile
    requires d.pending == s.pending && d.snapshots == s.snapshots && d.horizon == s.horizon
    requires d.lastSequence == s.lastSequence && d.mem <= s.mem && ImmSet(d) <= ImmSet(s)
    ensures FilesInv(d) && AgeInv(d) && SnapshotInv(d) && PendingInv(d)
  {
  }

  /** After any loss of log entries: a state of the machine, whose history is what was flushed before and what
      the logs still hold. */
  lemma DamagedInv(s: State, kept: seq<Log>, d: State)
    requires Inv(s) && FlushedInv(s) && ArePartsOf(kept, s.logs, s.logNumber) && d == Damaged(s, kept)
    ensures Inv(d) && FlushedInv(d) && d.history == Older(s) + Tail(d)
    ensures forall e | e in d.history :: e in s.history
    ensures forall e | e in s.history && e !in Tail(s) :: e in d.history
  {
    var older :| IsFlushed(s, older);
    OlderIs(s, older);
    DamagedStored(s, kept, older);
    PartsIncreasing(s.history, older, Tail(s));
    PartOfEntries(kept, s.logs, s.logNumber);
    DamagedHistory(s, d, older);
    DamagedMemTables(s, kept);
    DamagedLogs(s, kept, d);
    LayerReads(EntriesOf(s.levels), older, Tail(d), s.horizon);
    assert IsFlushed(d, older);
    DamagedRest(s, d);
    assert ReadsInv(d) && HistoryInv(d);
  }

  /** Without a loss it is the same state. */
  lemma NothingDamaged(s: State)
    requires LogInv(s) && FlushedInv(s)
    ensures Damaged(s, s.logs) == s
  {
    var older :| IsFlushed(s, older);
    OlderIs(s, older);
  }
}
