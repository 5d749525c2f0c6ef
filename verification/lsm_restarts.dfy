/** Removing logs keeps the invariant, and a crash followed by recovery loses nothing. */
module LsmRestarts {
  import opened InternalKeys
  import opened TableFiles
  import opened DropRule
  import opened LevelUpdates
  import opened Lsm
  import opened LsmWrites
  import opened LsmFlushes

  lemma OneMoreLog(logs: seq<Log>, log: Log, from: nat)
    ensures LogEntries(logs + [log], from) == LogEntries(logs, from) + if log.number >= from then log.entries else []
  {
    assert (logs + [log])[..|logs|] == logs;
  }

  lemma {:induction false} RemovedEntries(logs: seq<Log>, from: nat)
    ensures LogEntries(RemoveObsoleteLogs(logs, from), from) == LogEntries(logs, from)
  {
    if logs != [] {
      var n := |logs| - 1;
      RemovedEntries(logs[..n], from);
      OneMoreLog(RemoveObsoleteLogs(logs[..n], from), logs[n], from);
      Regroup(LogEntries(logs[..n], from), [], []);
      Regroup(RemoveObsoleteLogs(logs[..n], from), [], []);
    }
  }

  lemma {:induction false} LiveLogsMembers(logs: seq<Log>, from: nat)
    ensures forall log :: log in RemoveObsoleteLogs(logs, from) <==> log in logs && log.number >= from
  {
    if logs != [] {
      LiveLogsMembers(logs[..|logs| - 1], from);
      assert logs == logs[..|logs| - 1] + [logs[|logs| - 1]];
    }
  }

  ghost predicate AscendingLogs(logs: seq<Log>) {
    forall i, j | 0 <= i < j < |logs| :: logs[i].number < logs[j].number
  }

  lemma {:induction false} LiveLogsOrder(logs: seq<Log>, from: nat)
    requires AscendingLogs(logs)
    ensures AscendingLogs(RemoveObsoleteLogs(logs, from))
  {
    if logs != [] {
      var n := |logs| - 1;
      LiveLogsOrder(logs[..n], from);
      LiveLogsMembers(logs[..n], from);
      var rest := RemoveObsoleteLogs(logs[..n], from);
      forall i | 0 <= i < |rest| ensures rest[i].number < logs[n].number { assert rest[i] in logs[..n]; }
      assert AscendingLogs(rest);
      assert RemoveObsoleteLogs(logs, from) == if logs[n].number >= from then rest + [logs[n]] else rest;
    }
  }

  lemma RemoveLogsFacts(logs: seq<Log>, from: nat)
    requires AscendingLogs(logs)
    ensures var r := RemoveObsoleteLogs(logs, from);
            && LogEntries(r, from) == LogEntries(logs, from)
            && (forall log | log in r :: log in logs)
            && AscendingLogs(r)
  {
    RemovedEntries(logs, from);
    LiveLogsMembers(logs, from);
    LiveLogsOrder(logs, from);
  }

  lemma FirstIsLeast(logs: seq<Log>, log: Log)
    requires forall i, j | 0 <= i < j < |logs| :: logs[i].number < logs[j].number
    requires log in logs
    ensures logs[0].number <= log.number
  {
  }

  /** The last log stays, and so does what the ones before it have to replay. */
  lemma LastLogStays(logs: seq<Log>, from: nat)
    requires logs != [] && logs[|logs| - 1].number >= from
    requires forall i, j | 0 <= i < j < |logs| :: logs[i].number < logs[j].number
    ensures var r := RemoveObsoleteLogs(logs, from);
            && r != [] && r[|r| - 1] == logs[|logs| - 1] && logs[0].number <= r[0].number
            && LogEntries(r[..|r| - 1], from) == LogEntries(logs[..|logs| - 1], from)
            && forall i, j | 0 <= i < j < |r| :: r[i].number < r[j].number
  {
    var r, n := RemoveObsoleteLogs(logs, from), |logs| - 1;
    RemoveLogsFacts(logs, from);
    RemoveLogsFacts(logs[..n], from);
    FirstIsLeast(logs, r[0]);
    assert r[..|r| - 1] == RemoveObsoleteLogs(logs[..n], from);
  }

  /** Other logs that show the same memtables. */
  lemma SameLogInv(s: State, r: seq<Log>)
    requires LogInv(s) && r != [] && r[|r| - 1] == s.logs[|s.logs| - 1] && s.logs[0].number <= r[0].number
    requires LogEntries(r[..|r| - 1], s.logNumber) == LogEntries(s.logs[..|s.logs| - 1], s.logNumber)
    requires forall i, j | 0 <= i < j < |r| :: r[i].number < r[j].number
    ensures LogInv(s.(logs := r))
  {
  }

  lemma RemoveLogsLogInv(s: State)
    requires LogInv(s)
    ensures LogInv(s.(logs := RemoveObsoleteLogs(s.logs, s.logNumber)))
  {
    var r := RemoveObsoleteLogs(s.logs, s.logNumber);
    LastLogStays(s.logs, s.logNumber);
    SameLogInv(s, r);
  }

  lemma RemoveLogsInv(s: State)
    requires Inv(s)
    ensures Inv(s.(logs := RemoveObsoleteLogs(s.logs, s.logNumber)))
  {
    var t := s.(logs := RemoveObsoleteLogs(s.logs, s.logNumber));
    RemoveLogsLogInv(s);
    assert Stored(t) == Stored(s);
    SameContents(s, t);
    SameAges(s, t);
    SamePending(s, t);
    assert FilesInv(t) && SnapshotInv(t);
  }

  lemma {:induction false} LastOfIsMaximum(entries: seq<Entry>, otherwise: Sequence)
    ensures var m := LastOf(entries, otherwise);
            && otherwise <= m && (forall e | e in entries :: e.key.sequence <= m)
            && (m == otherwise || exists e :: e in entries && e.key.sequence == m)
  {
    if entries != [] {
      var n := |entries| - 1;
      LastOfIsMaximum(entries[..n], otherwise);
      assert entries == entries[..n] + [entries[n]];
      if LastOf(entries[..n], otherwise) != otherwise {
        var e :| e in entries[..n] && e.key.sequence == LastOf(entries[..n], otherwise);
        assert e in entries;
      }
      assert entries[n] in entries;
    }
  }

  /** The logs recovery replays hold exactly what the crash took from memory. */
  lemma ReplayedIsLost(s: State)
    requires LogInv(s)
    ensures EntrySet(LogEntries(s.logs, s.logNumber)) == ImmSet(s) + s.mem
  {
  }

  /** The recovered last sequence is not before anything written and not after the one at the crash: it
      falls back at most over numbers that failed writes had used up. */
  lemma RecoveredSequence(s: State)
    requires HistoryInv(s) && LogInv(s)
    ensures var last := LastOf(LogEntries(s.logs, s.logNumber), s.manifestSequence);
            && LastWritten(s.history) <= last <= s.lastSequence && s.manifestSequence <= last
            && (last == LastWritten(s.history) || last == s.manifestSequence)
  {
    var replayed := LogEntries(s.logs, s.logNumber);
    LastOfIsMaximum(replayed, s.manifestSequence);
    ReplayedIsLost(s);
    HistoryBound(s.history);
    forall e | e in replayed ensures e.key.sequence <= LastWritten(s.history) {
      assert e in EntrySet(replayed);
      assert e in EntrySet(s.history);
    }
    if s.history != [] {
      var last := s.history[|s.history| - 1];
      if last.key.sequence > s.manifestSequence {
        assert last in EntrySet(replayed);
      }
    }
  }

  ghost predicate NumbersUpTo(levels: seq<set<TableFile>>, bound: nat) {
    forall l, f | 0 <= l < |levels| && f in levels[l] :: f.number <= bound
  }

  lemma AddLastTable(levels: seq<set<TableFile>>, last: TableFile, bound: nat, more: seq<set<TableFile>>)
    requires OrderedLevels(levels) && UniqueNumbers(levels) && NumbersUpTo(levels, bound)
    requires WellFormed(last) && bound < last.number && NewestOf(last, EntriesOf(levels))
    requires more == WithFile(levels, 0, last)
    ensures OrderedLevels(more) && UniqueNumbers(more) && NumbersUpTo(more, last.number)
    ensures EntriesOf(more) == EntriesOf(levels) + EntrySet(last.entries)
  {
    AddNewest(levels, 0, last);
    PlacedNumbers(levels, last, 0);
  }

  lemma AddAllSplit(levels: seq<set<TableFile>>, rest: seq<TableFile>, last: TableFile)
    requires |levels| > 0
    ensures AddAll(levels, rest + [last]) == WithFile(AddAll(levels, rest), 0, last)
    ensures EntriesIn(FileSet(rest + [last])) == EntriesIn(FileSet(rest)) + EntrySet(last.entries)
  {
    assert FileSet(rest + [last]) == FileSet(rest) + {last};
    assert levels[0] + FileSet(rest + [last]) == levels[0] + FileSet(rest) + {last};
  }

  function LastNumber(tables: seq<TableFile>, bound: nat): nat {
    if tables == [] then bound else tables[|tables| - 1].number
  }

  lemma InOrderSplit(rest: seq<TableFile>, last: TableFile, bound: nat)
    requires InOrder(rest + [last]) && bound < last.number
    ensures InOrder(rest) && LastNumber(rest, bound) < last.number
    ensures forall t | t in rest :: NewestOf(last, EntrySet(t.entries))
  {
    var tables := rest + [last];
    forall i | 0 <= i < |rest|
      ensures rest[i].number < last.number && NewestOf(last, EntrySet(rest[i].entries))
    {
      assert tables[i] == rest[i] && tables[|rest|] == last;
    }
    forall i, j | 0 <= i < j < |rest|
      ensures rest[i].number < rest[j].number && NewestOf(rest[j], EntrySet(rest[i].entries))
    {
      assert tables[i] == rest[i] && tables[j] == rest[j];
    }
  }

  /** What adding tables to level 0 should achieve. */
  ghost predicate Added(levels: seq<set<TableFile>>, tables: seq<TableFile>, bound: nat)
    requires |levels| > 0
  {
    && OrderedLevels(AddAll(levels, tables)) && UniqueNumbers(AddAll(levels, tables))
    && EntriesOf(AddAll(levels, tables)) == EntriesOf(levels) + EntriesIn(FileSet(tables))
    && NumbersUpTo(AddAll(levels, tables), LastNumber(tables, bound))
  }

  lemma JoinedSets(all: set<Entry>, some: set<Entry>, base: set<Entry>, rest: set<Entry>, last: set<Entry>,
                   added: set<Entry>)
    requires all == some + last && some == base + rest && added == rest + last
    ensures all == base + added
  {
  }

  lemma LastIsNewest(levels: seq<set<TableFile>>, rest: seq<TableFile>, last: TableFile)
    requires NewestOf(last, EntriesOf(levels)) && forall t | t in rest :: NewestOf(last, EntrySet(t.entries))
    ensures NewestOf(last, EntriesOf(levels) + EntriesIn(FileSet(rest)))
  {
    forall a, b | a in last.entries && b in EntriesIn(FileSet(rest)) ensures a.key.sequence > b.key.sequence {
      var t :| t in FileSet(rest) && b in t.entries;
      assert b in EntrySet(t.entries);
    }
  }

  lemma AddOneMore(levels: seq<set<TableFile>>, rest: seq<TableFile>, last: TableFile, bound: nat)
    requires |levels| == NUM_LEVELS && Added(levels, rest, bound)
    requires WellFormed(last) && LastNumber(rest, bound) < last.number
    requires NewestOf(last, EntriesOf(levels)) && forall t | t in rest :: NewestOf(last, EntrySet(t.entries))
    ensures Added(levels, rest + [last], bound)
  {
    LastIsNewest(levels, rest, last);
    AddAllSplit(levels, rest, last);
    AddLastTable(AddAll(levels, rest), last, LastNumber(rest, bound), AddAll(levels, rest + [last]));
    JoinedSets(EntriesOf(AddAll(levels, rest + [last])), EntriesOf(AddAll(levels, rest)), EntriesOf(levels),
               EntriesIn(FileSet(rest)), EntrySet(last.entries), EntriesIn(FileSet(rest + [last])));
  }

  /** Tables that may be added to level 0 one after the other. */
  ghost predicate Addable(levels: seq<set<TableFile>>, tables: seq<TableFile>, bound: nat) {
    && (forall t | t in tables :: WellFormed(t) && bound < t.number && NewestOf(t, EntriesOf(levels)))
    && InOrder(tables)
  }

  lemma AddableSplit(levels: seq<set<TableFile>>, rest: seq<TableFile>, last: TableFile, bound: nat)
    requires Addable(levels, rest + [last], bound)
    ensures Addable(levels, rest, bound) && WellFormed(last) && NewestOf(last, EntriesOf(levels))
    ensures LastNumber(rest, bound) < last.number && forall t | t in rest :: NewestOf(last, EntrySet(t.entries))
  {
    assert last in rest + [last];
    InOrderSplit(rest, last, bound);
  }

  /** Tables numbered and written in order may all be added to level 0. */
  lemma {:induction false} AddTables(levels: seq<set<TableFile>>, tables: seq<TableFile>, bound: nat)
    requires OrderedLevels(levels) && UniqueNumbers(levels) && NumbersUpTo(levels, bound)
    requires Addable(levels, tables, bound)
    ensures Added(levels, tables, bound)
  {
    if tables == [] {
      assert levels[0] + FileSet(tables) == levels[0];
      assert AddAll(levels, tables) == levels;
    } else {
      var n := |tables| - 1;
      var rest, last := tables[..n], tables[n];
      assert tables == rest + [last];
      AddableSplit(levels, rest, last, bound);
      AddTables(levels, rest, bound);
      AddOneMore(levels, rest, last, bound);
    }
  }

  lemma ReplayIsNewest(tables: seq<TableFile>, replayed: set<Entry>, stored: set<Entry>)
    requires EntriesIn(FileSet(tables)) == replayed && AllNewer(replayed, stored)
    ensures forall t | t in tables :: NewestOf(t, stored)
  {
    forall t, a | t in tables && a in t.entries ensures a in replayed {
      assert t in FileSet(tables) && a in EntriesIn(FileSet(tables));
    }
  }

  lemma ReplayLevels(s: State, tables: seq<TableFile>, newLog: nat)
    requires FilesInv(s) && AgeInv(s) && LogInv(s) && IsReplay(s, tables, newLog)
    ensures EntriesOf(AddAll(s.levels, tables)) == EntriesOf(s.levels) + ImmSet(s) + s.mem
    ensures FilesBelow(AddAll(s.levels, tables), newLog + 1)
  {
    ReplayedIsLost(s);
    ReplayIsNewest(tables, ImmSet(s) + s.mem, EntriesOf(s.levels));
    AddTables(s.levels, tables, s.manifestNextFile);
    assert LastNumber(tables, s.manifestNextFile) <= newLog;
  }

  lemma NewestLog(logs: seq<Log>, newLog: nat)
    requires forall i, j | 0 <= i < j < |logs| :: logs[i].number < logs[j].number
    requires forall log | log in logs :: log.number < newLog
    ensures var more := logs + [Log(newLog, [])];
            && (forall i, j | 0 <= i < j < |more| :: more[i].number < more[j].number)
            && more[..|more| - 1] == logs && EntrySet(LogEntries(logs, newLog)) == {}
  {
    NoOlderLogs(logs, newLog);
  }

  lemma ReopenLogs(s: State, tables: seq<TableFile>, newLog: nat, last: Sequence)
    requires HistoryInv(s) && LogInv(s) && |s.levels| > 0 && IsReplay(s, tables, newLog) && IsRecovered(s, last)
    ensures LogInv(Reopen(s, tables, newLog, last))
  {
    var t := Reopen(s, tables, newLog, last);
    RecoveredSequence(s);
    HistoryBound(s.history);
    NewestLog(s.logs, newLog);
  }

  /** Crash recovery loses nothing: the recovered database stores the same entries, its last sequence is
      not before any of them, and so it reads as before the crash. */
  lemma ReopenInv(s: State, tables: seq<TableFile>, newLog: nat, last: Sequence)
    requires Inv(s) && IsReplay(s, tables, newLog) && IsRecovered(s, last)
    ensures var t := Reopen(s, tables, newLog, last);
            Inv(t) && Stored(t) == Stored(s) && LastWritten(s.history) <= t.lastSequence <= s.lastSequence
  {
    var t := Reopen(s, tables, newLog, last);
    RecoveredSequence(s);
    ReplayLevels(s, tables, newLog);
    assert Stored(t) == Stored(s);
    assert HistoryInv(t) && ReadsInv(t);
    assert FilesInv(t) && AgeInv(t) && SnapshotInv(t) && PendingInv(t);
    ReopenLogs(s, tables, newLog, last);
  }

  /** Whatever its last sequence, the recovered database shows its next reader all that was written. */
  lemma {:induction false} ReadsAll(history: seq<Entry>, k: UserKey, p: Sequence, q: Sequence)
    requires forall e | e in history :: e.key.sequence <= p && e.key.sequence <= q
    ensures SpecGet(history, k, p) == SpecGet(history, k, q)
  {
    if history != [] {
      ReadsAll(history[..|history| - 1], k, p, q);
    }
  }

  lemma RecoveredReads(s: State, tables: seq<TableFile>, newLog: nat, last: Sequence, k: UserKey)
    requires Inv(s) && IsReplay(s, tables, newLog) && IsRecovered(s, last)
    ensures var t := Reopen(s, tables, newLog, last);
            && SpecGet(t.history, k, t.lastSequence) == SpecGet(s.history, k, s.lastSequence)
            && Yields(Stored(t), k, t.lastSequence, SpecGet(s.history, k, s.lastSequence))
  {
    var t := Reopen(s, tables, newLog, last);
    ReopenInv(s, tables, newLog, last);
    HistoryBound(s.history);
    ReadsAll(s.history, k, t.lastSequence, s.lastSequence);
  }
}
