/** The logs on disk hold the end of the history, in commit order. */
module LsmLogs {
  import opened InternalKeys
  import opened Lsm
  import opened LsmWrites
  import opened LsmFlushes
  import opened LsmRestarts
  import opened LsmRuns

  predicate EndsIn(history: seq<Entry>, older: seq<Entry>, tail: seq<Entry>) {
    history == older + tail
  }

  /** What the logs still hold is the last part of what was written, in commit order. */
  ghost predicate LogsInOrder(s: State) {
    Increasing(s.history) && exists older :: EndsIn(s.history, older, LogEntries(s.logs, s.logNumber))
  }

  lemma TailIncreasing(s: State)
    requires LogsInOrder(s)
    ensures Increasing(LogEntries(s.logs, s.logNumber))
  {
    var older :| EndsIn(s.history, older, LogEntries(s.logs, s.logNumber));
    var tail := LogEntries(s.logs, s.logNumber);
    forall i, j | 0 <= i < j < |tail| ensures tail[i].key.sequence < tail[j].key.sequence {
      assert s.history[|older| + i] == tail[i] && s.history[|older| + j] == tail[j];
    }
  }

  /** The last log, and the ones before it. */
  lemma SplitLogs(logs: seq<Log>, from: nat)
    requires logs != [] && logs[|logs| - 1].number >= from
    ensures LogEntries(logs, from) == LogEntries(logs[..|logs| - 1], from) + logs[|logs| - 1].entries
  {
  }

  lemma AppendedLog(logs: seq<Log>, es: seq<Entry>, from: nat)
    requires logs != [] && logs[|logs| - 1].number >= from
    ensures LogEntries(AppendLog(logs, es), from) == LogEntries(logs, from) + es
  {
    var n := |logs| - 1;
    var more := AppendLog(logs, es);
    assert more[..n] == logs[..n];
    SplitLogs(logs, from);
    SplitLogs(more, from);
    Regroup(LogEntries(logs[..n], from), logs[n].entries, es);
  }

  lemma CommitLogs(s: State, es: seq<Entry>, last: Sequence)
    requires HistoryInv(s) && LogInv(s) && LogsInOrder(s) && MayCommit(s, es, last)
    ensures LogsInOrder(Commit(s, es, last))
  {
    var t := Commit(s, es, last);
    HistoryExtends(s.history, es, last);
    AppendedLog(s.logs, es, s.logNumber);
    var older :| EndsIn(s.history, older, LogEntries(s.logs, s.logNumber));
    Regroup(older, LogEntries(s.logs, s.logNumber), es);
    assert EndsIn(t.history, older, LogEntries(t.logs, t.logNumber));
  }

  lemma NewLog(logs: seq<Log>, number: nat, from: nat)
    ensures LogEntries(logs + [Log(number, [])], from) == LogEntries(logs, from)
  {
    assert (logs + [Log(number, [])])[..|logs|] == logs;
    Regroup(LogEntries(logs, from), [], []);
  }

  lemma PartsIncreasing(all: seq<Entry>, a: seq<Entry>, b: seq<Entry>)
    requires Increasing(all) && a + b <= all
    ensures Increasing(b) && forall x, y | x in a && y in b :: x.key.sequence < y.key.sequence
  {
    forall i, j | 0 <= i < j < |b| ensures b[i].key.sequence < b[j].key.sequence {
      assert all[|a| + i] == b[i] && all[|a| + j] == b[j];
    }
    forall i, j | 0 <= i < |a| && 0 <= j < |b| ensures a[i].key.sequence < b[j].key.sequence {
      assert all[i] == a[i] && all[|a| + j] == b[j];
    }
  }

  lemma FlushedLogs(s: State, t: State)
    requires LogInv(s) && LogsInOrder(s)
    requires t.logs == s.logs && t.logNumber == s.logs[|s.logs| - 1].number && t.history == s.history
    ensures LogsInOrder(t)
  {
    var n := |s.logs| - 1;
    assert forall log | log in s.logs[..n] :: log.number < s.logs[n].number;
    NoOlderLogs(s.logs[..n], s.logs[n].number);
    SplitLogs(s.logs, s.logs[n].number);
    SplitLogs(s.logs, s.logNumber);
    Regroup(s.logs[n].entries, [], []);
    var older :| EndsIn(s.history, older, LogEntries(s.logs, s.logNumber));
    Regroup(older, LogEntries(s.logs[..n], s.logNumber), s.logs[n].entries);
    assert EndsIn(t.history, older + LogEntries(s.logs[..n], s.logNumber), s.logs[n].entries);
  }

  /** Other logs with the same entries to replay. */
  lemma SameTail(s: State, t: State)
    requires LogsInOrder(s) && t.history == s.history
    requires LogEntries(t.logs, t.logNumber) == LogEntries(s.logs, s.logNumber)
    ensures LogsInOrder(t)
  {
    var older :| EndsIn(s.history, older, LogEntries(s.logs, s.logNumber));
    assert EndsIn(t.history, older, LogEntries(t.logs, t.logNumber));
  }

  lemma EmptyTail(t: State)
    requires Increasing(t.history) && LogEntries(t.logs, t.logNumber) == []
    ensures LogsInOrder(t)
  {
    Regroup(t.history, [], []);
    assert EndsIn(t.history, t.history, LogEntries(t.logs, t.logNumber));
  }

  lemma StepLogs(s: State, step: Step, t: State)
    requires HistoryInv(s) && LogInv(s) && LogsInOrder(s) && Next(s, step, t)
    ensures LogsInOrder(t)
  {
    if step.WriteStep? {
      StampIsLate(s, step.batch);
      CommitLogs(s, Stamp(step.batch, s.lastSequence), s.lastSequence + |step.batch|);
    } else if step.SwitchStep? {
      NewLog(s.logs, s.nextFile, s.logNumber);
      SameTail(s, t);
    } else if step.FlushStep? {
      FlushedLogs(s, t);
    } else if step.RemoveLogsStep? {
      RemoveLogsFacts(s.logs, s.logNumber);
      SameTail(s, t);
    } else if step.ReopenStep? {
      NewLog(s.logs, step.newLog, step.newLog);
      NoOlderLogs(s.logs, step.newLog);
      EmptyTail(t);
    } else {
      SameTail(s, t);
    }
  }

  lemma InitialLogs(s: State)
    requires Initial(s)
    ensures LogsInOrder(s)
  {
    assert s.logs[..0] == [];
    EmptyTail(s);
  }

  lemma {:induction false} RunLogs(states: seq<State>, steps: seq<Step>, n: nat)
    requires IsRun(states, steps) && n < |states|
    ensures LogsInOrder(states[n])
  {
    if n == 0 {
      InitialLogs(states[0]);
    } else {
      var i := n - 1;
      RunLogs(states, steps, i);
      RunInv(states, steps, i);
      assert Next(states[i], steps[i], states[i + 1]);
      StepLogs(states[i], steps[i], states[i + 1]);
    }
  }
}
