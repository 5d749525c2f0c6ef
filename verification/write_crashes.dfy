/** What a crash leaves of the writes, at whatever point of a write it comes: everything acknowledged if the logs
    lose nothing, everything synced if they lose nothing that was synced, and each group whole or not at all. */
module WriteCrashes {
  import opened InternalKeys
  import opened TableFiles
  import opened LsmLogs
  import opened LsmLosses
  import opened WritePaths
  import L = Lsm
  import LsmRestarts
  import LsmWrites
  import Q = WriteQueues

  // ---- Crashes that lose nothing ----

  predicate IsLossless(a: Joint, step: Step) {
    step.CrashStep? ==> step.kept == a.db.logs && !SyncHasFailed(a.queue)
  }

  /** If it is a crash, the logs are all there, and no sync had failed. */
  ghost predicate LosesNothing(a: Joint, step: Step) {
    exists taken :: taken == step && IsLossless(a, taken)
  }

  lemma NothingLost(a: Joint, step: Step, s: L.State, before: seq<Entry>, lost: seq<Entry>)
    requires Shows(a, s, before, lost) && step.CrashStep? && LosesNothing(a, step)
    ensures lost == [] && Unfinished(a.queue, lost) == InFlight(a.queue)
  {
    Regroup(InFlight(a.queue), [], []);
  }

  lemma TailIsOld(s: L.State)
    requires L.Inv(s)
    ensures forall e | e in Tail(s) :: e.key.sequence <= s.lastSequence
  {
    LsmRestarts.ReplayedIsLost(s);
    LsmWrites.StoredDistinct(s);
    forall e | e in Tail(s) ensures e.key.sequence <= s.lastSequence { assert e in EntrySet(Tail(s)); }
  }

  /** The numbers in use end with those of the group under way. */
  lemma GivenOutIs(a: Joint, s: L.State, before: seq<Entry>)
    requires Shows(a, s, before, [])
    ensures GivenOut(a.db) == s.lastSequence + |InFlight(a.queue)|
  {
    var es := InFlight(a.queue);
    Regroup(es, [], []);
    UnfinishedIsLate(a, s, before, []);
    UnfinishedIsGivenOut(a, s, before, []);
    LsmRestarts.LastOfIsMaximum(Tail(a.db), a.db.lastSequence);
    TailIsOld(s);
    if es != [] {
      GroupIsStamped(a.queue);
      LsmWrites.StampFacts(Operations(a.queue), a.queue.lastSequence);
      assert es[|es| - 1] in Tail(a.db);
    }
  }

  /** The state that the logs stand for is the next one of the machine, or the same. */
  lemma LoggedIsWrite(a: Joint, s: L.State, before: seq<Entry>, x: L.State)
    requires Shows(a, s, before, []) && s.logs != [] && x == Logged(s, a.queue, [], a.db)
    ensures InFlight(a.queue) == [] ==> x == s
    ensures InFlight(a.queue) != [] ==>
              a.queue.group.value.members <= |a.queue.writers| && Does(s, L.WriteStep(Operations(a.queue)), x)
  {
    var es := InFlight(a.queue);
    Regroup(es, [], []);
    GivenOutIs(a, s, before);
    if es == [] {
      Regroup(s.history, [], []);
      ConcreteOfNothing(s);
      assert s.mem + EntrySet([]) == s.mem;
    } else {
      GroupIsStamped(a.queue);
      assert L.Next(s, L.WriteStep(Operations(a.queue)), x);
    }
  }

  lemma GoodIsUndamaged(x: L.State)
    requires Good(x)
    ensures x.logs != [] && Damaged(x, x.logs) == x && |x.levels| > 0
  {
    assert L.Inv(x);
    NothingDamaged(x);
  }

  lemma IsReopening(x: L.State, tables: seq<TableFile>, newLog: nat, last: Sequence, t: L.State)
    requires |x.levels| > 0 && L.IsReplay(x, tables, newLog) && L.IsRecovered(x, last)
    requires t == L.Reopen(x, tables, newLog, last)
    ensures Does(x, L.ReopenStep(tables, newLog, last), t)
  {
    assert L.Next(x, L.ReopenStep(tables, newLog, last), t);
  }

  /** Recovery reopens that state. */
  lemma LoggedReopens(a: Joint, step: Step, b: Joint, s: L.State, before: seq<Entry>, x: L.State)
    requires Shows(a, s, before, []) && step.CrashStep? && Goes(a, step, b) && step.kept == a.db.logs
    requires s.logs != [] && x == Logged(s, a.queue, [], a.db)
    ensures Does(x, L.ReopenStep(step.tables, step.newLog, step.last), b.db)
  {
    LoggedGood(a, s, before, [], x);
    OlderIsUnique(a.db.history, Tail(a.db), step.older, Older(x));
    GoodIsUndamaged(x);
    SameRecovery(a.db, step, x, x);
    IsReopening(x, step.tables, step.newLog, step.last, b.db);
  }

  lemma CrashPath(s: L.State, write: L.Step, x: L.State, reopen: L.Step, t: L.State, path: seq<L.Step>)
    requires Does(x, reopen, t)
    requires (path == [reopen] && x == s) || (path == [write] + [reopen] && Does(s, write, x))
    ensures Reaches(s, path, t)
  {
    OneStep(x, reopen, t);
    if path != [reopen] {
      OneStep(s, write, x);
      ReachesJoin(s, [write], x, [reopen], t);
    }
  }

  lemma CrashMoves(q: Q.Queue, step: Step)
    requires step.CrashStep?
    ensures var reopen := L.ReopenStep(step.tables, step.newLog, step.last);
            && (InFlight(q) == [] ==> Moves(q, step) == [reopen])
            && (InFlight(q) != [] && q.group.value.members <= |q.writers| ==>
                  Moves(q, step) == [L.WriteStep(Operations(q))] + [reopen])
  {
    Regroup([L.ReopenStep(step.tables, step.newLog, step.last)], [], []);
  }

  /** Such a crash is a step of the machine, after a write of the group that the log holds, if there is one. */
  lemma WholeCrash(a: Joint, step: Step, b: Joint, s: L.State, before: seq<Entry>, lost: seq<Entry>)
    requires Shows(a, s, before, lost) && step.CrashStep? && Goes(a, step, b) && LosesNothing(a, step)
    ensures Reaches(s, Moves(a.queue, step), b.db)
  {
    NothingLost(a, step, s, before, lost);
    UnfinishedIsLate(a, s, before, lost);
    var x := Logged(s, a.queue, [], a.db);
    LoggedReopens(a, step, b, s, before, x);
    LoggedIsWrite(a, s, before, x);
    CrashMoves(a.queue, step);
    var write := if InFlight(a.queue) == [] then L.SwitchStep else L.WriteStep(Operations(a.queue));
    CrashPath(s, write, x, L.ReopenStep(step.tables, step.newLog, step.last), b.db, Moves(a.queue, step));
  }

  lemma AnyStepShows(a: Joint, step: Step, b: Joint, s: L.State, before: seq<Entry>, lost: seq<Entry>)
    returns (t: L.State, c: seq<Entry>, d: seq<Entry>)
    requires Shows(a, s, before, lost) && Goes(a, step, b)
    ensures Shows(b, t, c, d) && (LosesNothing(a, step) ==> Reaches(s, Moves(a.queue, step), t))
  {
    if step.CrashStep? {
      CrashShows(a, step, b, s, before, lost);
      if LosesNothing(a, step) { WholeCrash(a, step, b, s, before, lost); }
      t, c, d := b.db, b.db.history, [];
    } else {
      t, d := StepShows(a, step, b, s, before, lost);
      c := before;
    }
  }

  lemma GoodEnds(x: L.State)
    requires Good(x)
    ensures x.history == Older(x) + Tail(x)
  {
    assert L.Inv(x);
    var older :| IsFlushed(x, older);
    OlderIs(x, older);
  }

  lemma CrashOpens(a: Joint, step: Step, b: Joint, s: L.State, before: seq<Entry>, lost: seq<Entry>)
    requires Shows(a, s, before, lost) && step.CrashStep? && Goes(a, step, b)
    ensures Initial(b)
  {
    CrashShows(a, step, b, s, before, lost);
  }

  /** If the logs lose nothing, then what recovery brings back is what readers saw, and behind it the whole group
      under way, if its record was written, or the whole record that was not synced. */
  lemma WholeHistory(a: Joint, step: Step, b: Joint, s: L.State, before: seq<Entry>, lost: seq<Entry>)
    requires Shows(a, s, before, lost) && step.CrashStep? && Goes(a, step, b) && step.kept == a.db.logs
    ensures Initial(b) && b.db.history == s.history + Unfinished(a.queue, lost)
    ensures Unfinished(a.queue, lost) == [] || Unfinished(a.queue, lost) == InFlight(a.queue)
            || Unfinished(a.queue, lost) == lost
  {
    UnfinishedIsLate(a, s, before, lost);
    var x := Logged(s, a.queue, lost, a.db);
    LoggedGood(a, s, before, lost, x);
    OlderIsUnique(a.db.history, Tail(a.db), step.older, Older(x));
    CrashShows(a, step, b, s, before, lost);
    CrashOpens(a, step, b, s, before, lost);
    GoodEnds(x);
    Regroup(lost, [], []);
  }

  // ---- Runs ----

  /** The steps of the machine in a part of a run. */
  function AllMoves(states: seq<Joint>, steps: seq<Step>, i: nat, n: nat): seq<L.Step>
    requires i <= n <= |steps| < |states|
    decreases n
  {
    if n == i then [] else AllMoves(states, steps, i, n - 1) + Moves(states[n - 1].queue, steps[n - 1])
  }

  ghost predicate LosesNothingAt(states: seq<Joint>, steps: seq<Step>, k: nat)
    requires k < |steps| < |states|
  {
    LosesNothing(states[k], steps[k])
  }

  ghost predicate AllLoseNothing(states: seq<Joint>, steps: seq<Step>, i: nat, n: nat) {
    && i <= n <= |steps| < |states|
    && forall k | i <= k < n :: LosesNothingAt(states, steps, k)
  }

  /** The machine gets from `first` to the state that `a` shows. */
  ghost predicate Shown(first: L.State, path: seq<L.Step>, a: Joint) {
    exists s, before, lost :: Shows(a, s, before, lost) && Reaches(first, path, s)
  }

  /** To begin with, it is that state. */
  lemma ShownNow(a: Joint, first: L.State, before: seq<Entry>, lost: seq<Entry>)
    requires Shows(a, first, before, lost)
    ensures Shown(first, [], a)
  {
    NoStep(first);
  }

  lemma ShownNext(first: L.State, path: seq<L.Step>, a: Joint, step: Step, b: Joint, moves: seq<L.Step>)
    returns (longer: seq<L.Step>)
    requires Shown(first, path, a) && Goes(a, step, b) && LosesNothing(a, step) && moves == Moves(a.queue, step)
    ensures Shown(first, longer, b) && longer == path + moves
  {
    var r, d, e :| Shows(a, r, d, e) && Reaches(first, path, r);
    var s, c, l := AnyStepShows(a, step, b, r, d, e);
    longer := path + moves;
    ReachesJoin(first, path, r, moves, s);
  }

  lemma MoreMoves(states: seq<Joint>, steps: seq<Step>, i: nat, n: nat, moves: seq<L.Step>)
    requires i < n <= |steps| < |states| && moves == Moves(states[n - 1].queue, steps[n - 1])
    ensures AllMoves(states, steps, i, n) == AllMoves(states, steps, i, n - 1) + moves
  {
  }

  lemma RunShownNext(states: seq<Joint>, steps: seq<Step>, n: nat, a: Joint, step: Step, b: Joint, first: L.State,
                     path: seq<L.Step>, moves: seq<L.Step>)
    returns (longer: seq<L.Step>)
    requires AreSteps(states, steps) && 0 < n <= |steps| && LosesNothingAt(states, steps, n - 1)
    requires a == states[n - 1] && step == steps[n - 1] && b == states[n] && Shown(first, path, a)
    requires moves == Moves(a.queue, step)
    ensures Shown(first, longer, b) && longer == path + moves
  {
    StepAt(states, steps, n - 1);
    longer := ShownNext(first, path, a, step, b, moves);
  }

  /** As long as crashes lose nothing, every run is a run of the state machine, in which each logged group is one
      write, finished or not. */
  lemma {:induction false} RunRefines(states: seq<Joint>, steps: seq<Step>, i: nat, n: nat, a: Joint, first: L.State,
                                      path: seq<L.Step>)
    requires AreSteps(states, steps) && AllLoseNothing(states, steps, i, n) && a == states[n]
    requires Shown(first, [], states[i]) && path == AllMoves(states, steps, i, n)
    ensures Shown(first, path, a)
    decreases n
  {
    if i < n {
      var c, step, before := states[n - 1], steps[n - 1], AllMoves(states, steps, i, n - 1);
      RunRefines(states, steps, i, n - 1, c, first, before);
      assert LosesNothingAt(states, steps, n - 1);
      MoreMoves(states, steps, i, n, Moves(c.queue, step));
      var longer := RunShownNext(states, steps, n, c, step, a, first, before, Moves(c.queue, step));
    }
  }

  lemma InitialShown(states: seq<Joint>, steps: seq<Step>)
    requires IsRun(states, steps)
    ensures Shown(states[0].db, [], states[0])
  {
    InitialShows(states, steps);
    ShownNow(states[0], states[0].db, states[0].db.history, []);
  }

  /** So it is from the opening of the database on. */
  lemma WholeRunRefines(states: seq<Joint>, steps: seq<Step>)
    requires IsRun(states, steps) && AllLoseNothing(states, steps, 0, |steps|)
    ensures Shown(states[0].db, AllMoves(states, steps, 0, |steps|), states[|steps|])
  {
    InitialShown(states, steps);
    RunRefines(states, steps, 0, |steps|, states[|steps|], states[0].db, AllMoves(states, steps, 0, |steps|));
  }

  // ---- What a step leaves of the logs and of the history ----

  lemma {:induction false} FewerLogs(logs: seq<L.Log>, from: nat, to: nat)
    requires from <= to
    ensures forall e | e in L.LogEntries(logs, to) :: e in L.LogEntries(logs, from)
  {
    if logs != [] { FewerLogs(logs[..|logs| - 1], from, to); }
  }

  /** Other threads only take logs away. */
  lemma DbTail(db: L.State, step: L.Step, t: L.State)
    requires L.Next(db, step, t) && !step.WriteStep? && !step.SkipStep? && !step.ReopenStep?
    requires db.logs != [] && db.logNumber <= db.logs[|db.logs| - 1].number
    ensures t.history == db.history && forall e | e in Tail(t) :: e in Tail(db)
  {
    if step.FlushStep? {
      FewerLogs(db.logs, db.logNumber, t.logNumber);
    } else if step.RemoveLogsStep? {
      LsmRestarts.RemovedEntries(db.logs, db.logNumber);
    } else if step.SwitchStep? {
      NewLog(db.logs, db.nextFile, db.logNumber);
    }
  }

  /** What a group puts into the log comes after all that was written. */
  lemma GroupTail(q: Q.Queue, db: L.State, w: Q.Step, s: L.State)
    requires Q.Inv(q) && L.HistoryInv(s) && s.lastSequence == q.lastSequence && s.history == db.history
    requires w.AppendStep? && q.group.Some? && db.logs != [] && db.logNumber <= db.logs[|db.logs| - 1].number
    ensures forall e | e in Tail(Effect(q, db, w)) :: e in Tail(db) || e !in db.history
  {
    GroupIsLate(q, s);
    LsmWrites.HistoryBound(s.history);
    AppendedLog(db.logs, q.group.value.entries, db.logNumber);
  }

  lemma LogNumbers(a: Joint, s: L.State, before: seq<Entry>, lost: seq<Entry>)
    requires Shows(a, s, before, lost)
    ensures a.db.logs != [] && a.db.logNumber <= a.db.logs[|a.db.logs| - 1].number && a.db.history == s.history
    ensures L.Inv(s) && s.lastSequence == a.queue.lastSequence && Q.Inv(a.queue)
  {
    assert L.Inv(s);
  }

  /** Without a crash nothing leaves the history, and nothing written gets into the logs again. */
  lemma StepTail(a: Joint, step: Step, b: Joint, s: L.State, before: seq<Entry>, lost: seq<Entry>)
    requires Shows(a, s, before, lost) && !step.CrashStep? && Goes(a, step, b)
    ensures forall e | e in a.db.history :: e in b.db.history && (e in Tail(b.db) ==> e in Tail(a.db))
  {
    LogNumbers(a, s, before, lost);
    if step.DbStep? {
      DbTail(a.db, step.db, b.db);
    } else if step.queue.AppendStep? {
      GroupTail(a.queue, a.db, step.queue, s);
    }
  }

  // ---- Acknowledged writes ----

  /** The entry is still in the logs after a crash, if it was there before. */
  ghost predicate Keeps(a: Joint, step: Step, e: Entry) {
    step.CrashStep? && e in Tail(a.db) ==> e in L.LogEntries(step.kept, a.db.logNumber)
  }

  lemma StaysWritten(a: Joint, step: Step, b: Joint, s: L.State, before: seq<Entry>, lost: seq<Entry>, e: Entry)
    requires Shows(a, s, before, lost) && Goes(a, step, b) && e in a.db.history && Keeps(a, step, e)
    ensures e in b.db.history
  {
    if step.CrashStep? {
      CrashShows(a, step, b, s, before, lost);
      assert IsOlder(a.db.history, Tail(a.db), step.older);
      var i :| 0 <= i < |a.db.history| && a.db.history[i] == e;
      assert i < |step.older| ==> step.older[i] == e;
    } else {
      StepTail(a, step, b, s, before, lost);
    }
  }

  lemma RunStaysWritten(states: seq<Joint>, steps: seq<Step>, i: nat, a: Joint, step: Step, b: Joint, e: Entry)
    requires IsRun(states, steps) && i < |steps| && a == states[i] && step == steps[i] && b == states[i + 1]
    requires e in a.db.history && Keeps(a, step, e)
    ensures e in b.db.history
  {
    var s, before, lost := RunShows(states, steps, i, a);
    StepAt(states, steps, i);
    StaysWritten(a, step, b, s, before, lost, e);
  }

  ghost predicate KeepsAt(states: seq<Joint>, steps: seq<Step>, k: nat, e: Entry)
    requires k < |steps| < |states|
  {
    Keeps(states[k], steps[k], e)
  }

  ghost predicate AllKeep(states: seq<Joint>, steps: seq<Step>, i: nat, n: nat, e: Entry) {
    i <= n <= |steps| < |states| && forall k | i <= k < n :: KeepsAt(states, steps, k, e)
  }

  /** What has been written stays written as long as no crash costs the logs its record. */
  lemma {:induction false} WrittenStays(states: seq<Joint>, steps: seq<Step>, i: nat, n: nat, a: Joint, e: Entry)
    requires IsRun(states, steps) && AllKeep(states, steps, i, n, e) && e in states[i].db.history && a == states[n]
    ensures e in a.db.history
    decreases n
  {
    if i < n {
      WrittenStays(states, steps, i, n - 1, states[n - 1], e);
      assert KeepsAt(states, steps, n - 1, e);
      RunStaysWritten(states, steps, n - 1, states[n - 1], steps[n - 1], a, e);
    }
  }

  /** The entries of a finished call. */
  function EntriesOfCall(q: Q.Queue, c: nat): seq<Entry>
    requires c < |q.completed|
  {
    var batch := q.completed[c].writer.batch;
    if batch.Some? && Q.Base(q, c) + |batch.value| < MAX_SEQUENCE then L.Stamp(batch.value, Q.Base(q, c)) else []
  }

  lemma CallIsWritten(states: seq<Joint>, steps: seq<Step>, i: nat, c: nat, e: Entry)
    requires IsRun(states, steps) && i < |states| && c < |states[i].queue.completed|
    requires states[i].queue.completed[c].status.Ok? && e in EntriesOfCall(states[i].queue, c)
    ensures e in states[i].db.history
  {
    AcknowledgedIsWritten(states, steps, i, c);
  }

  predicate LogsKeptAt(states: seq<Joint>, steps: seq<Step>, k: nat)
    requires k < |steps| < |states|
  {
    steps[k].CrashStep? ==> steps[k].kept == states[k].db.logs
  }

  ghost predicate AllLogsKept(states: seq<Joint>, steps: seq<Step>, i: nat, n: nat) {
    i <= n <= |steps| < |states| && forall k | i <= k < n :: LogsKeptAt(states, steps, k)
  }

  lemma NothingLostKeeps(states: seq<Joint>, steps: seq<Step>, i: nat, n: nat, e: Entry)
    requires i <= n <= |steps| < |states|
    requires AllLogsKept(states, steps, i, n)
    ensures AllKeep(states, steps, i, n, e)
  {
    forall k | i <= k < n ensures KeepsAt(states, steps, k, e) { assert LogsKeptAt(states, steps, k); }
  }

  lemma RunLength(states: seq<Joint>, steps: seq<Step>)
    requires IsRun(states, steps)
    ensures |states| == |steps| + 1
  {
  }

  /** An acknowledged batch is part of the history for good, whatever other writers do and however often the
      database crashes, if the logs lose nothing. */
  lemma AcknowledgedSurvives(states: seq<Joint>, steps: seq<Step>, i: nat, n: nat, c: nat)
    requires IsRun(states, steps) && i <= n <= |steps|
    requires c < |states[i].queue.completed| && states[i].queue.completed[c].status.Ok?
    requires AllLogsKept(states, steps, i, n)
    ensures forall e | e in EntriesOfCall(states[i].queue, c) :: e in states[n].db.history
  {
    RunLength(states, steps);
    forall e | e in EntriesOfCall(states[i].queue, c) ensures e in states[n].db.history {
      CallIsWritten(states, steps, i, c, e);
      NothingLostKeeps(states, steps, i, n, e);
      WrittenStays(states, steps, i, n, states[n], e);
    }
  }

  // ---- Synced writes ----

  ghost predicate Synced(q: Q.Queue, e: Entry) {
    exists r :: r in q.log && r.synced && e in r.entries
  }

  /** Written, and if it is still in the logs, in a record that has been synced. */
  ghost predicate Safe(a: Joint, e: Entry) {
    e in a.db.history && (e in Tail(a.db) ==> Synced(a.queue, e))
  }

  /** A crash keeps this entry if it has been synced. */
  ghost predicate KeepsSynced(a: Joint, step: Step, e: Entry) {
    Synced(a.queue, e) ==> Keeps(a, step, e)
  }

  lemma SyncedStays(q: Q.Queue, step: Q.Step, r: Q.Queue, e: Entry)
    requires Q.Next(q, step, r) && Synced(q, e)
    ensures Synced(r, e)
  {
    var x :| x in q.log && x.synced && e in x.entries;
    assert x in r.log;
  }

  lemma StaysSafe(a: Joint, step: Step, b: Joint, s: L.State, before: seq<Entry>, lost: seq<Entry>, e: Entry)
    requires Shows(a, s, before, lost) && Goes(a, step, b) && Safe(a, e) && KeepsSynced(a, step, e)
    ensures Safe(b, e)
  {
    StaysWritten(a, step, b, s, before, lost, e);
    if step.CrashStep? {
      CrashShows(a, step, b, s, before, lost);
    } else {
      StepTail(a, step, b, s, before, lost);
      if step.QueueStep? && Synced(a.queue, e) { SyncedStays(a.queue, step.queue, b.queue, e); }
    }
  }

  lemma RunStaysSafe(states: seq<Joint>, steps: seq<Step>, i: nat, a: Joint, step: Step, b: Joint, e: Entry)
    requires IsRun(states, steps) && i < |steps| && a == states[i] && step == steps[i] && b == states[i + 1]
    requires Safe(a, e) && KeepsSynced(a, step, e)
    ensures Safe(b, e)
  {
    var s, before, lost := RunShows(states, steps, i, a);
    StepAt(states, steps, i);
    StaysSafe(a, step, b, s, before, lost, e);
  }

  ghost predicate KeepsSyncedAt(states: seq<Joint>, steps: seq<Step>, k: nat, e: Entry)
    requires k < |steps| < |states|
  {
    KeepsSynced(states[k], steps[k], e)
  }

  ghost predicate AllKeepSynced(states: seq<Joint>, steps: seq<Step>, i: nat, n: nat, e: Entry) {
    i <= n <= |steps| < |states| && forall k | i <= k < n :: KeepsSyncedAt(states, steps, k, e)
  }

  lemma {:induction false} SafeStays(states: seq<Joint>, steps: seq<Step>, i: nat, n: nat, a: Joint, e: Entry)
    requires IsRun(states, steps) && AllKeepSynced(states, steps, i, n, e) && Safe(states[i], e) && a == states[n]
    ensures Safe(a, e)
    decreases n
  {
    if i < n {
      SafeStays(states, steps, i, n - 1, states[n - 1], e);
      assert KeepsSyncedAt(states, steps, n - 1, e);
      RunStaysSafe(states, steps, n - 1, states[n - 1], steps[n - 1], a, e);
    }
  }

  lemma CallIsSynced(states: seq<Joint>, steps: seq<Step>, i: nat, c: nat, e: Entry)
    requires IsRun(states, steps) && i < |states| && c < |states[i].queue.completed|
    requires states[i].queue.completed[c].status.Ok? && states[i].queue.completed[c].writer.sync
    requires e in EntriesOfCall(states[i].queue, c)
    ensures Safe(states[i], e)
  {
    CallIsWritten(states, steps, i, c, e);
    var s, before, lost := RunShows(states, steps, i, states[i]);
    LogNumbers(states[i], s, before, lost);
    var q := states[i].queue;
    assert Q.Acknowledged(q, c);
    var r :| r in q.log && r.synced && forall x | x in EntriesOfCall(q, c) :: x in r.entries;
  }

  /** An acknowledged batch of a sync write is part of the history for good even if crashes cost the logs all that
      was not synced. */
  lemma SyncedSurvives(states: seq<Joint>, steps: seq<Step>, i: nat, n: nat, c: nat)
    requires IsRun(states, steps) && i <= n <= |steps| && c < |states[i].queue.completed|
    requires states[i].queue.completed[c].status.Ok? && states[i].queue.completed[c].writer.sync
    requires forall e | e in EntriesOfCall(states[i].queue, c) :: AllKeepSynced(states, steps, i, n, e)
    ensures forall e | e in EntriesOfCall(states[i].queue, c) :: e in states[n].db.history
  {
    RunLength(states, steps);
    forall e | e in EntriesOfCall(states[i].queue, c) ensures e in states[n].db.history {
      CallIsSynced(states, steps, i, c, e);
      SafeStays(states, steps, i, n, states[n], e);
    }
  }

  // ---- Groups are atomic ----

  ghost predicate AllOrNone(some: seq<Entry>, all: seq<Entry>) {
    (forall e | e in some :: e in all) || (forall e | e in some :: e !in all)
  }

  /** Of the logs that matter, each holds all of the record or nothing of it. */
  ghost predicate InOneLog(logs: seq<L.Log>, from: nat, r: Q.Record) {
    forall log | log in logs && log.number >= from :: AllOrNone(r.entries, log.entries)
  }

  ghost predicate Aligned(a: Joint) {
    forall r | r in a.queue.log :: InOneLog(a.db.logs, a.db.logNumber, r)
  }

  lemma {:induction false} LogMembers(logs: seq<L.Log>, from: nat, e: Entry)
    ensures e in L.LogEntries(logs, from) <==> exists log :: log in logs && log.number >= from && e in log.entries
  {
    if logs != [] {
      LogMembers(logs[..|logs| - 1], from, e);
      assert logs == logs[..|logs| - 1] + [logs[|logs| - 1]];
    }
  }

  lemma {:induction false} RecordInFlat(log: seq<Q.Record>, r: Q.Record, e: Entry)
    requires r in log && e in r.entries
    ensures e in Flat(log)
  {
    var n := |log| - 1;
    assert log == log[..n] + [log[n]];
    if r != log[n] { RecordInFlat(log[..n], r, e); }
  }

  /** Every record is in the history, or in the log and unfinished. */
  lemma RecordIsKnown(a: Joint, s: L.State, before: seq<Entry>, lost: seq<Entry>, r: Q.Record, e: Entry)
    requires Shows(a, s, before, lost) && r in a.queue.log && e in r.entries
    ensures e in a.db.history || e in Unfinished(a.queue, lost)
  {
    RecordInFlat(a.queue.log, r, e);
    assert e in before + a.queue.applied || e in lost;
    assert e in s.history + InFlight(a.queue) || e in lost;
  }

  lemma TailIsWritten(s: L.State, e: Entry)
    requires L.Inv(s) && e in Tail(s)
    ensures e in s.history
  {
    LsmRestarts.ReplayedIsLost(s);
    assert e in EntrySet(Tail(s));
    assert e in L.Stored(s);
  }

  /** What the logs that matter hold has been written. */
  lemma LogIsWritten(s: L.State, log: L.Log, e: Entry)
    requires L.Inv(s) && log in s.logs && log.number >= s.logNumber && e in log.entries
    ensures e in s.history
  {
    LogMembers(s.logs, s.logNumber, e);
    TailIsWritten(s, e);
  }

  lemma MoreAtEnd(some: seq<Entry>, held: seq<Entry>, more: seq<Entry>)
    requires AllOrNone(some, held) && forall e | e in some :: e !in more
    ensures AllOrNone(some, held + more)
  {
  }

  /** A new record at the end of the last log, and the logs and records that were there. */
  lemma AppendedAligned(s: L.State, entries: seq<Entry>, r: Q.Record, log: L.Log)
    requires L.Inv(s) && LsmWrites.IsLate(s.history, entries, MAX_SEQUENCE)
    requires log in L.AppendLog(s.logs, entries) && log.number >= s.logNumber
    requires r.entries == entries || (InOneLog(s.logs, s.logNumber, r) && forall e | e in r.entries :: e in s.history)
    ensures AllOrNone(r.entries, log.entries)
  {
    var n := |s.logs| - 1;
    LsmWrites.HistoryBound(s.history);
    var i :| 0 <= i <= n && L.AppendLog(s.logs, entries)[i] == log;
    var was := s.logs[i];
    assert was in s.logs && was.number == log.number;
    forall e | e in was.entries ensures e !in entries { LogIsWritten(s, was, e); }
    if r.entries != entries {
      assert AllOrNone(r.entries, was.entries);
      if i == n { MoreAtEnd(r.entries, was.entries, entries); }
    }
  }

  lemma NothingUnfinished(a: Joint, w: Q.Step, s: L.State, before: seq<Entry>, lost: seq<Entry>)
    requires Shows(a, s, before, lost) && w.AppendStep? && Q.MayAppend(a.queue, w.outcome)
    ensures Unfinished(a.queue, lost) == [] && a.db == s
    ensures LsmWrites.IsLate(s.history, a.queue.group.value.entries, MAX_SEQUENCE)
  {
    LogNumbers(a, s, before, lost);
    GroupIsLate(a.queue, s);
    assert lost == [] && InFlight(a.queue) == [];
    ConcreteOfNothing(s);
  }

  lemma AppendAligned(a: Joint, w: Q.Step, b: Joint, s: L.State, before: seq<Entry>, lost: seq<Entry>)
    requires Shows(a, s, before, lost) && w.AppendStep? && Next(a, QueueStep(w), b) && Aligned(a)
    ensures Aligned(b)
  {
    var entries := a.queue.group.value.entries;
    LogNumbers(a, s, before, lost);
    NothingUnfinished(a, w, s, before, lost);
    if !w.outcome.NotLogged? {
      forall r, log | r in b.queue.log && log in b.db.logs && log.number >= b.db.logNumber
        ensures AllOrNone(r.entries, log.entries)
      {
        forall e | e in r.entries && r in a.queue.log ensures e in s.history {
          RecordIsKnown(a, s, before, lost, r, e);
        }
        AppendedAligned(s, entries, r, log);
      }
    }
  }

  /** Other threads add no records to a log. */
  lemma DbLogs(db: L.State, e: L.Step, t: L.State)
    requires L.Next(db, e, t) && !e.WriteStep? && !e.SkipStep? && !e.ReopenStep?
    requires db.logs != [] && db.logNumber <= db.logs[|db.logs| - 1].number
    ensures t.logNumber >= db.logNumber && forall log | log in t.logs :: log in db.logs || log.entries == []
  {
    LsmRestarts.LiveLogsMembers(db.logs, db.logNumber);
  }

  lemma DbAligned(a: Joint, e: L.Step, b: Joint, s: L.State, before: seq<Entry>, lost: seq<Entry>)
    requires Shows(a, s, before, lost) && Next(a, DbStep(e), b) && Aligned(a)
    ensures Aligned(b)
  {
    LogNumbers(a, s, before, lost);
    DbLogs(a.db, e, b.db);
    assert forall r | r in b.queue.log :: InOneLog(a.db.logs, a.db.logNumber, r);
  }

  lemma StepAligned(a: Joint, step: Step, b: Joint, s: L.State, before: seq<Entry>, lost: seq<Entry>)
    requires Shows(a, s, before, lost) && Goes(a, step, b) && Aligned(a)
    ensures Aligned(b)
  {
    if step.DbStep? {
      DbAligned(a, step.db, b, s, before, lost);
    } else if step.QueueStep? && step.queue.AppendStep? {
      AppendAligned(a, step.queue, b, s, before, lost);
    }
  }

  lemma RunStepAligned(states: seq<Joint>, steps: seq<Step>, i: nat, a: Joint, b: Joint)
    requires IsRun(states, steps) && i < |steps| && a == states[i] && b == states[i + 1] && Aligned(a)
    ensures Aligned(b)
  {
    var s, before, lost := RunShows(states, steps, i, a);
    StepAt(states, steps, i);
    StepAligned(a, steps[i], b, s, before, lost);
  }

  lemma InitialAligned(states: seq<Joint>, steps: seq<Step>)
    requires IsRun(states, steps)
    ensures Aligned(states[0])
  {
  }

  lemma {:induction false} RunAligned(states: seq<Joint>, steps: seq<Step>, n: nat, a: Joint)
    requires IsRun(states, steps) && n < |states| && a == states[n]
    ensures Aligned(a)
    decreases n
  {
    if n == 0 {
      InitialAligned(states, steps);
    } else {
      RunAligned(states, steps, n - 1, states[n - 1]);
      RunStepAligned(states, steps, n - 1, states[n - 1], a);
    }
  }

  /** All of it is in the history, or nothing. */
  ghost predicate IsAtomic(history: seq<Entry>, r: Q.Record) {
    AllOrNone(r.entries, history)
  }

  lemma TailOrOlder(history: seq<Entry>, tail: seq<Entry>, older: seq<Entry>, e: Entry)
    requires IsOlder(history, tail, older)
    ensures e in tail ==> e !in older
    ensures e in history && e !in tail ==> e in older
  {
    if e in history && e !in tail {
      var i :| 0 <= i < |history| && history[i] == e;
      assert i < |older| ==> older[i] == e;
    }
  }

  /** If the logs held the record, what they have left of it decides. */
  lemma LoggedIsAtomic(a: Joint, step: Step, history: seq<Entry>, r: Q.Record, log: L.Log)
    requires step.CrashStep? && IsOlder(a.db.history, Tail(a.db), step.older)
    requires history == step.older + L.LogEntries(step.kept, a.db.logNumber)
    requires InOneLog(step.kept, a.db.logNumber, r)
    requires log in a.db.logs && log.number >= a.db.logNumber && forall e | e in r.entries :: e in log.entries
    ensures IsAtomic(history, r)
  {
    forall e | e in r.entries
      ensures e in history <==> exists k :: k in step.kept && k.number >= a.db.logNumber && e in k.entries
    {
      LogMembers(a.db.logs, a.db.logNumber, e);
      LogMembers(step.kept, a.db.logNumber, e);
      TailOrOlder(a.db.history, Tail(a.db), step.older, e);
    }
    if e, k :| e in r.entries && k in step.kept && k.number >= a.db.logNumber && e in k.entries {
      assert forall x | x in r.entries :: x in k.entries;
    }
  }

  /** If they did not, it has been flushed. */
  lemma FlushedIsAtomic(a: Joint, step: Step, history: seq<Entry>, r: Q.Record)
    requires step.CrashStep? && IsOlder(a.db.history, Tail(a.db), step.older)
    requires history == step.older + L.LogEntries(step.kept, a.db.logNumber)
    requires forall e | e in r.entries :: e in a.db.history && e !in Tail(a.db)
    ensures IsAtomic(history, r)
  {
    forall e | e in r.entries ensures e in history { TailOrOlder(a.db.history, Tail(a.db), step.older, e); }
  }

  lemma NotLogged(a: Joint, s: L.State, before: seq<Entry>, lost: seq<Entry>, r: Q.Record)
    requires Shows(a, s, before, lost) && r in a.queue.log
    requires forall log | log in a.db.logs && log.number >= a.db.logNumber ::
               forall e | e in r.entries :: e !in log.entries
    ensures forall e | e in r.entries :: e in a.db.history && e !in Tail(a.db)
  {
    UnfinishedIsLate(a, s, before, lost);
    forall e | e in r.entries ensures e in a.db.history && e !in Tail(a.db) {
      LogMembers(a.db.logs, a.db.logNumber, e);
      RecordIsKnown(a, s, before, lost, r, e);
    }
  }

  lemma RecordIsAtomic(a: Joint, step: Step, b: Joint, s: L.State, before: seq<Entry>, lost: seq<Entry>, r: Q.Record)
    requires Shows(a, s, before, lost) && step.CrashStep? && Goes(a, step, b) && Aligned(a) && r in a.queue.log
    requires InOneLog(step.kept, a.db.logNumber, r)
    ensures IsAtomic(b.db.history, r)
  {
    CrashShows(a, step, b, s, before, lost);
    assert IsOlder(a.db.history, Tail(a.db), step.older);
    if log :| log in a.db.logs && log.number >= a.db.logNumber && forall e | e in r.entries :: e in log.entries {
      LoggedIsAtomic(a, step, b.db.history, r, log);
    } else {
      NotLogged(a, s, before, lost, r);
      FlushedIsAtomic(a, step, b.db.history, r);
    }
  }

  /** If a log keeps or loses each record as a whole, then so does the history, whenever the crash comes: no reader
      ever sees part of a group. */
  lemma GroupsAreAtomic(states: seq<Joint>, steps: seq<Step>, n: nat, r: Q.Record)
    requires IsRun(states, steps) && n < |steps| && steps[n].CrashStep? && r in states[n].queue.log
    requires InOneLog(steps[n].kept, states[n].db.logNumber, r)
    ensures IsAtomic(states[n + 1].db.history, r)
  {
    var a := states[n];
    RunAligned(states, steps, n, a);
    var s, before, lost := RunShows(states, steps, n, a);
    StepAt(states, steps, n);
    RecordIsAtomic(a, steps[n], states[n + 1], s, before, lost, r);
  }

  // ---- Opening the database again ----

  /** Whatever a recovery makes of the state that the logs stand for, less what they lost, is such a crash. */
  lemma RecoveryIsCrash(a: Joint, s: L.State, before: seq<Entry>, lost: seq<Entry>, kept: seq<L.Log>,
                        tables: seq<TableFile>, newLog: nat, last: Sequence, b: Joint)
    requires Shows(a, s, before, lost) && s.logs != [] && kept != [] && ArePartsOf(kept, a.db.logs, a.db.logNumber)
    requires Does(Damaged(Logged(s, a.queue, lost, a.db), kept), L.ReopenStep(tables, newLog, last), b.db)
    requires Opened(b)
    ensures Goes(a, CrashStep(Older(Logged(s, a.queue, lost, a.db)), kept, tables, newLog, last), b)
  {
    var x := Logged(s, a.queue, lost, a.db);
    LoggedGood(a, s, before, lost, x);
    assert Next(a, CrashStep(Older(x), kept, tables, newLog, last), b);
  }
}
