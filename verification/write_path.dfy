/** The writer queue on top of the database: in DBImpl::Write the log and the memtable change without the mutex,
    before the last sequence does, while flushes, compactions, snapshots and reads go on, and the database may
    crash at any point. Joined like this the two still move like the state machine, in which a write is one
    step. */
module WritePaths {
  import opened InternalKeys
  import opened TableFiles
  import L = Lsm
  import LsmRuns
  import LsmWrites
  import Q = WriteQueues
  import opened LsmLogs
  import opened LsmLosses
  import LsmRestarts

  /** `switched`: how often the writer in front has switched the memtable so far, while it makes room. */
  datatype Joint = Joint(queue: Q.Queue, db: L.State, switched: nat)

  datatype Step =
    | QueueStep(queue: Q.Step)
    | DbStep(db: L.Step)
    | CrashStep(older: seq<Entry>, kept: seq<L.Log>, tables: seq<TableFile>, newLog: nat, last: Sequence)

  /** Into the current log, and into the memtable; readers go by the last sequence and see nothing yet. */
  function Insert(s: L.State, entries: seq<Entry>): L.State
    requires s.logs != []
  {
    s.(mem := s.mem + EntrySet(entries), logs := L.AppendLog(s.logs, entries))
  }

  /** What a step of the queue does to log, memtable and last sequence. */
  function Effect(q: Q.Queue, s: L.State, step: Q.Step): L.State
    requires s.logs != []
    requires step.AppendStep? || step.FinishStep? ==> q.group.Some?
    requires step.FinishStep? ==> q.group.value.outcome.Some? && s.lastSequence + |q.group.value.entries| < MAX_SEQUENCE
  {
    match step
    case JoinStep(_) => s
    case LeadStep(_, _) => s
    case AppendStep(outcome) =>
      if outcome.Logged? then Insert(s, q.group.value.entries)
      else if outcome.SyncFailed? then s.(logs := L.AppendLog(s.logs, q.group.value.entries))
      else s
    case FinishStep =>
      var g := q.group.value;
      s.(lastSequence := s.lastSequence + |g.entries|,
         history := if g.outcome.value.Logged? then s.history + g.entries else s.history)
  }

  /** The steps that other threads take at any time, and the switch of memtables, which the front writer
      takes while it makes room. */
  ghost predicate MayRun(q: Q.Queue, step: L.Step) {
    && !step.WriteStep? && !step.SkipStep? && !step.ReopenStep?
    && (step.SwitchStep? ==> q.writers != [] && q.group.None? && !q.bgError)
  }

  /** `older` is what was written before all that the logs still hold. */
  ghost predicate IsOlder(history: seq<Entry>, tail: seq<Entry>, older: seq<Entry>) {
    && older <= history
    && (forall e | e in older :: e !in tail)
    && forall i | |older| <= i < |history| :: history[i] in tail
  }

  /** The largest sequence number in use. That of a group under way may be in the log already. */
  function GivenOut(db: L.State): Sequence {
    L.LastOf(Tail(db), db.lastSequence)
  }

  /** The database that recovery finds: these logs are left, and so this has been written. */
  function Left(db: L.State, older: seq<Entry>, kept: seq<L.Log>): L.State {
    db.(logs := kept, history := older + L.LogEntries(kept, db.logNumber))
  }

  /** A crash, in which the logs may lose any of their records, and the recovery. */
  ghost predicate MayCrash(db: L.State, step: Step)
    requires step.CrashStep?
  {
    && |db.levels| > 0 && step.kept != [] && ArePartsOf(step.kept, db.logs, db.logNumber)
    && IsOlder(db.history, Tail(db), step.older)
    && L.IsReplay(Left(db, step.older, step.kept), step.tables, step.newLog)
    && L.LastOf(L.LogEntries(step.kept, db.logNumber), db.manifestSequence) <= step.last <= GivenOut(db)
  }

  function Recovered(db: L.State, step: Step): L.State
    requires step.CrashStep? && |db.levels| > 0
  {
    L.Reopen(Left(db, step.older, step.kept), step.tables, step.newLog, step.last)
  }

  /** A queue without writers, on a database that has just been opened. */
  ghost predicate Opened(a: Joint) {
    Q.Initial(a.queue) && a.queue.start == a.db.lastSequence < MAX_SEQUENCE && a.switched == 0
  }

  ghost predicate Next(a: Joint, step: Step, b: Joint) {
    match step
    case QueueStep(w) =>
      && Q.Next(a.queue, w, b.queue) && a.db.logs != []
      && (w.FinishStep? ==> a.db.lastSequence + |a.queue.group.value.entries| < MAX_SEQUENCE)
      && b.db == Effect(a.queue, a.db, w)
      && (w.LeadStep? ==> w.room.switches == a.switched)
      && b.switched == if w.LeadStep? then 0 else a.switched
    case DbStep(e) =>
      && b.queue == a.queue && MayRun(a.queue, e) && L.Next(a.db, e, b.db)
      && b.switched == if e.SwitchStep? then a.switched + 1 else a.switched
    case CrashStep(_, _, _, _, _) =>
      MayCrash(a.db, step) && b.db == Recovered(a.db, step) && Opened(b)
  }

  // Here and below a quantifier over one value keeps a definition folded where it is only passed on.
  ghost predicate Good(s: L.State) {
    forall r | r == s :: L.Inv(r) && FlushedInv(r)
  }

  /** The step has been taken. */
  ghost predicate Goes(a: Joint, step: Step, b: Joint) {
    exists taken :: taken == step && Next(a, taken, b)
  }

  /** The database has just been opened. */
  ghost predicate Initial(a: Joint) {
    Opened(a) && Good(a.db)
  }

  // ---- The state machine's view of a joint state ----

  function Flat(log: seq<Q.Record>): seq<Entry> {
    if log == [] then [] else Flat(log[..|log| - 1]) + log[|log| - 1].entries
  }

  /** In log and memtable, but not finished. */
  function InFlight(q: Q.Queue): seq<Entry> {
    if q.group.Some? && q.group.value.outcome == Some(Q.Logged) then q.group.value.entries else []
  }

  /** A record whose sync failed may be in the log. Nothing is written after it. */
  predicate SyncHasFailed(q: Q.Queue) {
    if q.group.Some? then q.group.value.outcome == Some(Q.SyncFailed) else q.bgError
  }

  /** `s` with what the queue has put into the log and the memtable since. */
  function Concrete(s: L.State, inFlight: seq<Entry>, lost: seq<Entry>): L.State
    requires s.logs != []
  {
    s.(mem := s.mem + EntrySet(inFlight), logs := L.AppendLog(s.logs, inFlight + lost))
  }

  ghost predicate Fine(q: Q.Queue) {
    forall p | p == q :: Q.Inv(p)
  }

  ghost predicate Sound(q: Q.Queue, s: L.State) {
    Fine(q) && Good(s)
  }

  ghost predicate Agree(q: Q.Queue, db: L.State, s: L.State, lost: seq<Entry>)
    requires s.logs != []
  {
    db == Concrete(s, InFlight(q), lost) && s.lastSequence == q.lastSequence
  }

  /** Everything in the log and everything in the memtables is accounted for. */
  ghost predicate Accounts(q: Q.Queue, history: seq<Entry>, before: seq<Entry>, lost: seq<Entry>) {
    && history + InFlight(q) == before + q.applied
    && Flat(q.log) == q.applied + lost
    && (lost != [] ==> SyncHasFailed(q))
    && LsmWrites.IsLate(history, lost, MAX_SEQUENCE - 1)
  }

  /** `s` is the state that readers and recovery may rely on: the writes up to the last sequence. `before` was
      written before the database was opened, and `lost` is what a failed sync left in the log. */
  ghost predicate Shows(a: Joint, s: L.State, before: seq<Entry>, lost: seq<Entry>) {
    exists q ::
      && q == a.queue && Sound(q, s) && s.logs != []
      && Agree(q, a.db, s, lost) && Accounts(q, s.history, before, lost)
  }

  // ---- Small facts ----

  lemma Units(a: seq<Entry>)
    ensures a + [] == a && [] + a == a && EntrySet([]) == {}
  {
  }

  lemma AppendNothing(logs: seq<L.Log>)
    requires logs != []
    ensures L.AppendLog(logs, []) == logs
  {
    Units(logs[|logs| - 1].entries);
  }

  lemma ConcreteOfNothing(s: L.State)
    requires s.logs != []
    ensures Concrete(s, [], []) == s
  {
    Units([]);
    AppendNothing(s.logs);
  }

  lemma FlatNext(log: seq<Q.Record>, r: Q.Record)
    ensures Flat(log + [r]) == Flat(log) + r.entries
  {
    assert (log + [r])[..|log|] == log;
  }

  // ---- Steps of the queue ----

  lemma QuietQueue(q: Q.Queue, w: Q.Step, r: Q.Queue, lost: seq<Entry>)
    requires Q.Next(q, w, r) && (w.JoinStep? || w.LeadStep?) && (lost != [] ==> SyncHasFailed(q))
    ensures InFlight(r) == InFlight(q) && r.applied == q.applied && r.log == q.log && r.lastSequence == q.lastSequence
    ensures lost != [] ==> SyncHasFailed(r)
  {
  }

  /** Joining and leading leave the database as it is. */
  lemma QuietShows(a: Joint, w: Q.Step, b: Joint, s: L.State, before: seq<Entry>, lost: seq<Entry>)
    requires Shows(a, s, before, lost) && Next(a, QueueStep(w), b) && (w.JoinStep? || w.LeadStep?)
    ensures Shows(b, s, before, lost)
  {
    Q.StepInv(a.queue, w, b.queue);
    QuietQueue(a.queue, w, b.queue, lost);
    assert Sound(b.queue, s);
  }

  lemma AppendedDb(q: Q.Queue, outcome: Q.Outcome, db: L.State, s: L.State, after: seq<Entry>)
    requires Q.MayAppend(q, outcome) && s.logs != [] && Agree(q, db, s, []) && InFlight(q) == []
    requires after == if outcome.SyncFailed? then q.group.value.entries else []
    ensures db == s && Agree(Q.Append(q, outcome), Effect(q, s, Q.AppendStep(outcome)), s, after)
  {
    ConcreteOfNothing(s);
    Units(q.group.value.entries);
    AppendNothing(s.logs);
  }

  lemma AppendedAccounts(q: Q.Queue, outcome: Q.Outcome, history: seq<Entry>, before: seq<Entry>, after: seq<Entry>)
    requires Q.MayAppend(q, outcome) && Accounts(q, history, before, []) && InFlight(q) == []
    requires LsmWrites.IsLate(history, q.group.value.entries, MAX_SEQUENCE - 1)
    requires after == if outcome.SyncFailed? then q.group.value.entries else []
    ensures Accounts(Q.Append(q, outcome), history, before, after)
  {
    var r, entries := Q.Append(q, outcome), q.group.value.entries;
    Units(history);
    Units(q.applied);
    Units(r.applied);
    if !outcome.NotLogged? {
      FlatNext(q.log, r.log[|q.log|]);
      Regroup(before, q.applied, entries);
      assert r.log == q.log + [r.log[|q.log|]];
    }
  }

  /** The group's operations, which its entries are the stamped form of. */
  function Operations(q: Q.Queue): seq<L.Operation>
    requires q.group.Some? && q.group.value.members <= |q.writers|
  {
    Q.Gathered(q.writers[..q.group.value.members])
  }

  lemma GroupIsStamped(q: Q.Queue)
    requires Q.Inv(q) && q.group.Some?
    ensures q.group.value.members <= |q.writers| && q.lastSequence + |Operations(q)| < MAX_SEQUENCE
    ensures q.group.value.entries == L.Stamp(Operations(q), q.lastSequence)
    ensures |q.group.value.entries| == |Operations(q)|
  {
  }

  lemma GroupIsLate(q: Q.Queue, s: L.State)
    requires Q.Inv(q) && q.group.Some? && L.HistoryInv(s) && s.lastSequence == q.lastSequence
    ensures LsmWrites.IsLate(s.history, q.group.value.entries, q.lastSequence + |q.group.value.entries|)
    ensures LsmWrites.IsLate(s.history, q.group.value.entries, MAX_SEQUENCE - 1)
  {
    GroupIsStamped(q);
    LsmWrites.StampFacts(Operations(q), q.lastSequence);
  }

  lemma AppendShows(a: Joint, outcome: Q.Outcome, b: Joint, s: L.State, before: seq<Entry>, lost: seq<Entry>)
    returns (after: seq<Entry>)
    requires Shows(a, s, before, lost) && Next(a, QueueStep(Q.AppendStep(outcome)), b)
    ensures Shows(b, s, before, after)
  {
    assert L.Inv(s);
    Q.StepInv(a.queue, Q.AppendStep(outcome), b.queue);
    assert lost == [] && InFlight(a.queue) == [];
    after := if outcome.SyncFailed? then a.queue.group.value.entries else [];
    GroupIsLate(a.queue, s);
    AppendedDb(a.queue, outcome, a.db, s, after);
    AppendedAccounts(a.queue, outcome, s.history, before, after);
    assert Sound(b.queue, s);
  }

  lemma FinishedDb(q: Q.Queue, db: L.State, s: L.State)
    requires Q.Inv(q) && Q.MayFinish(q) && q.group.value.outcome == Some(Q.Logged)
    requires s.logs != [] && Agree(q, db, s, [])
    requires q.group.value.members <= |q.writers| && s.lastSequence + |Operations(q)| < MAX_SEQUENCE
    ensures db.logs != [] && db.lastSequence + |q.group.value.entries| < MAX_SEQUENCE
    ensures Agree(Q.Finish(q), Effect(q, db, Q.FinishStep), L.Write(s, Operations(q)), [])
  {
    GroupIsStamped(q);
    Units(q.group.value.entries);
    ConcreteOfNothing(L.Write(s, Operations(q)));
  }

  lemma FinishedAccounts(q: Q.Queue, history: seq<Entry>, before: seq<Entry>)
    requires Q.MayFinish(q) && q.group.value.outcome == Some(Q.Logged) && Accounts(q, history, before, [])
    ensures Accounts(Q.Finish(q), history + q.group.value.entries, before, [])
  {
    Units(history + q.group.value.entries);
  }

  ghost predicate Does(s: L.State, step: L.Step, t: L.State) {
    exists done :: done == step && L.Next(s, done, t)
  }

  lemma StepGood(s: L.State, step: L.Step, t: L.State)
    requires Good(s) && Does(s, step, t)
    ensures Good(t)
  {
    LsmRuns.StepInv(s, step, t);
    StepFlushed(s, step, t);
  }

  /** A logged group's last step makes it one write of the state machine. */
  lemma WriteShows(a: Joint, b: Joint, s: L.State, before: seq<Entry>, lost: seq<Entry>) returns (t: L.State)
    requires Shows(a, s, before, lost) && Next(a, QueueStep(Q.FinishStep), b)
    requires a.queue.group.value.outcome == Some(Q.Logged)
    ensures a.queue.group.value.members <= |a.queue.writers|
    ensures Does(s, L.WriteStep(Operations(a.queue)), t) && Shows(b, t, before, lost)
  {
    Q.StepInv(a.queue, Q.FinishStep, b.queue);
    GroupIsStamped(a.queue);
    assert lost == [];
    t := L.Write(s, Operations(a.queue));
    assert L.Next(s, L.WriteStep(Operations(a.queue)), t);
    StepGood(s, L.WriteStep(Operations(a.queue)), t);
    FinishedDb(a.queue, a.db, s);
    FinishedAccounts(a.queue, s.history, before);
    assert Sound(b.queue, t);
  }

  /** The other groups use up their numbers. */
  lemma SkipShows(a: Joint, b: Joint, s: L.State, before: seq<Entry>, lost: seq<Entry>) returns (t: L.State)
    requires Shows(a, s, before, lost) && Next(a, QueueStep(Q.FinishStep), b)
    requires a.queue.group.value.outcome != Some(Q.Logged)
    ensures Does(s, L.SkipStep(|a.queue.group.value.entries|), t) && Shows(b, t, before, lost)
  {
    Q.StepInv(a.queue, Q.FinishStep, b.queue);
    var n := |a.queue.group.value.entries|;
    t := L.Skip(s, n);
    assert L.Next(s, L.SkipStep(n), t);
    StepGood(s, L.SkipStep(n), t);
    assert Sound(b.queue, t);
  }

  // ---- Steps of the other threads ----

  lemma {:induction false} RemovedThenAppended(logs: seq<L.Log>, from: nat, es: seq<Entry>)
    requires logs != [] && logs[|logs| - 1].number >= from
    ensures L.RemoveObsoleteLogs(logs, from) != []
    ensures L.RemoveObsoleteLogs(L.AppendLog(logs, es), from) == L.AppendLog(L.RemoveObsoleteLogs(logs, from), es)
  {
    var n := |logs| - 1;
    var more := L.AppendLog(logs, es);
    assert more[..n] == logs[..n];
    var rest := L.RemoveObsoleteLogs(logs[..n], from);
    assert L.RemoveObsoleteLogs(logs, from) == rest + [logs[n]];
    assert L.RemoveObsoleteLogs(more, from) == rest + [more[n]];
  }

  lemma SwitchedConcrete(s: L.State)
    requires s.imm.None? && s.logs != []
    ensures Concrete(L.SwitchMemTable(s), [], []) == L.SwitchMemTable(Concrete(s, [], []))
  {
    ConcreteOfNothing(s);
    ConcreteOfNothing(L.SwitchMemTable(s));
  }

  lemma OtherStepShows(e: L.State, step: L.Step, f: L.State, s: L.State, inFlight: seq<Entry>, lost: seq<Entry>,
                       t: L.State)
    requires s.logs != [] && e == Concrete(s, inFlight, lost) && L.Next(e, step, f)
    requires !step.WriteStep? && !step.SkipStep? && !step.ReopenStep? && !step.SwitchStep? && !step.RemoveLogsStep?
    requires t == f.(mem := s.mem, logs := s.logs)
    ensures L.Next(s, step, t) && f == Concrete(t, inFlight, lost)
    ensures t.history == s.history && t.lastSequence == s.lastSequence
  {
  }

  /** What another thread does to the database as it stands, it does to the finished part of it. */
  lemma DbStepShows(e: L.State, step: L.Step, f: L.State, s: L.State, inFlight: seq<Entry>, lost: seq<Entry>)
    returns (t: L.State)
    requires L.LogInv(s) && e == Concrete(s, inFlight, lost) && L.Next(e, step, f)
    requires !step.WriteStep? && !step.SkipStep? && !step.ReopenStep?
    requires step.SwitchStep? ==> inFlight == [] && lost == []
    ensures Does(s, step, t) && t.logs != [] && f == Concrete(t, inFlight, lost)
    ensures t.history == s.history && t.lastSequence == s.lastSequence
  {
    if step.SwitchStep? {
      t := L.SwitchMemTable(s);
      SwitchedConcrete(s);
    } else if step.RemoveLogsStep? {
      t := s.(logs := L.RemoveObsoleteLogs(s.logs, s.logNumber));
      RemovedThenAppended(s.logs, s.logNumber, inFlight + lost);
    } else {
      t := f.(mem := s.mem, logs := s.logs);
      OtherStepShows(e, step, f, s, inFlight, lost, t);
    }
    assert L.Next(s, step, t);
  }

  // ---- A crash ----

  lemma Opening(a: Joint)
    requires Opened(a) && Good(a.db)
    ensures Shows(a, a.db, a.db.history, [])
  {
    assert L.Inv(a.db);
    Q.InitialInv(a.queue);
    ConcreteOfNothing(a.db);
    Units(a.db.history);
    assert Sound(a.queue, a.db);
  }

  lemma InBoth(history: seq<Entry>, tail: seq<Entry>, a: seq<Entry>, b: seq<Entry>, i: nat)
    requires IsOlder(history, tail, a) && IsOlder(history, tail, b) && i < |b|
    ensures i < |a|
  {
    assert history[i] == b[i] && b[i] in b;
  }

  lemma OlderIsUnique(history: seq<Entry>, tail: seq<Entry>, a: seq<Entry>, b: seq<Entry>)
    requires IsOlder(history, tail, a) && IsOlder(history, tail, b)
    ensures a == b
  {
    if a != [] { InBoth(history, tail, b, a, |a| - 1); }
    if b != [] { InBoth(history, tail, a, b, |b| - 1); }
  }

  /** More entries at the end of the log, none of which is in the history, change nothing about it. */
  lemma OlderIsOlder(s: L.State, es: seq<Entry>, older: seq<Entry>)
    requires Increasing(s.history) && EndsIn(s.history, older, Tail(s))
    requires LsmWrites.IsLate(s.history, es, MAX_SEQUENCE - 1)
    ensures IsOlder(s.history, Tail(s) + es, older)
  {
    PartsIncreasing(s.history, older, Tail(s));
    LsmWrites.HistoryBound(s.history);
    forall e | e in older ensures e !in Tail(s) + es { assert e in s.history; }
  }

  /** In the log, but not in the history: the group under way, or what a failed sync left. */
  function Unfinished(q: Q.Queue, lost: seq<Entry>): seq<Entry> {
    InFlight(q) + lost
  }

  lemma UnfinishedIsLate(a: Joint, s: L.State, before: seq<Entry>, lost: seq<Entry>)
    requires Shows(a, s, before, lost)
    ensures LsmWrites.IsLate(s.history, Unfinished(a.queue, lost), MAX_SEQUENCE - 1)
    ensures a.db.logs == L.AppendLog(s.logs, Unfinished(a.queue, lost)) && a.db.logNumber == s.logNumber
    ensures s.logs != [] && Tail(a.db) == Tail(s) + Unfinished(a.queue, lost)
  {
    assert L.Inv(s);
    Units(InFlight(a.queue));
    Units(lost);
    if InFlight(a.queue) != [] {
      assert lost == [];
      GroupIsLate(a.queue, s);
    }
    AppendedLog(s.logs, Unfinished(a.queue, lost), s.logNumber);
  }

  /** The numbers in use cover them. */
  lemma UnfinishedIsGivenOut(a: Joint, s: L.State, before: seq<Entry>, lost: seq<Entry>)
    requires Shows(a, s, before, lost)
    ensures L.Inv(s) && LsmWrites.MayCommit(s, Unfinished(a.queue, lost), GivenOut(a.db))
  {
    assert L.Inv(s);
    UnfinishedIsLate(a, s, before, lost);
    LsmRestarts.LastOfIsMaximum(Tail(a.db), a.db.lastSequence);
    LsmRestarts.ReplayedIsLost(s);
    LsmWrites.StoredDistinct(s);
    forall e | e in Tail(a.db) ensures e.key.sequence < MAX_SEQUENCE {
      assert e in Tail(s) ==> e in EntrySet(Tail(s));
    }
  }

  /** The state that the logs stand for: with the group under way as a write. */
  function Logged(s: L.State, q: Q.Queue, lost: seq<Entry>, db: L.State): L.State
    requires s.logs != []
  {
    L.Commit(s, Unfinished(q, lost), GivenOut(db))
  }

  lemma LoggedGood(a: Joint, s: L.State, before: seq<Entry>, lost: seq<Entry>, x: L.State)
    requires Shows(a, s, before, lost) && s.logs != [] && x == Logged(s, a.queue, lost, a.db)
    ensures Good(x) && IsOlder(a.db.history, Tail(a.db), Older(x))
    ensures x.logs == a.db.logs && Tail(x) == Tail(a.db) && x.lastSequence == GivenOut(a.db)
    ensures x.levels == a.db.levels && x.logNumber == a.db.logNumber && x.manifestSequence == a.db.manifestSequence
    ensures x.manifestNextFile == a.db.manifestNextFile && x.horizon == a.db.horizon
  {
    var es := Unfinished(a.queue, lost);
    UnfinishedIsLate(a, s, before, lost);
    UnfinishedIsGivenOut(a, s, before, lost);
    LsmWrites.CommitInv(s, es, GivenOut(a.db));
    CommitFlushed(s, es, GivenOut(a.db), x);
    var older :| IsFlushed(s, older);
    OlderIs(s, older);
    OlderIsOlder(s, es, older);
  }

  /** Recovery sees only what it has in common with that state. */
  lemma SameRecovery(db: L.State, step: Step, x: L.State, d: L.State)
    requires step.CrashStep? && MayCrash(db, step) && step.older == Older(x)
    requires d == Damaged(x, step.kept) && x.lastSequence == GivenOut(db)
    requires x.levels == db.levels && x.logNumber == db.logNumber && x.manifestSequence == db.manifestSequence
    requires x.manifestNextFile == db.manifestNextFile && x.horizon == db.horizon
    ensures L.IsReplay(d, step.tables, step.newLog) && L.IsRecovered(d, step.last)
    ensures L.Reopen(d, step.tables, step.newLog, step.last) == Recovered(db, step)
  {
  }

  lemma DamagedGood(x: L.State, kept: seq<L.Log>, d: L.State)
    requires Good(x) && kept != [] && ArePartsOf(kept, x.logs, x.logNumber) && d == Damaged(x, kept)
    ensures Good(d)
  {
    DamagedInv(x, kept, d);
  }

  lemma NoEntries(es: seq<Entry>)
    ensures EntrySet(es) == {} ==> es == []
  {
    assert es != [] ==> es[0] in EntrySet(es);
  }

  lemma ReopenedGood(d: L.State, tables: seq<TableFile>, newLog: nat, last: Sequence, t: L.State)
    requires Good(d) && |d.levels| > 0 && L.IsReplay(d, tables, newLog) && L.IsRecovered(d, last)
    requires t == L.Reopen(d, tables, newLog, last)
    ensures Good(t) && Tail(t) == []
  {
    LsmRestarts.ReopenInv(d, tables, newLog, last);
    ReopenFlushed(d, tables, newLog, last);
    LsmRestarts.NewestLog(d.logs, newLog);
    NewLog(d.logs, newLog, newLog);
    NoEntries(L.LogEntries(d.logs, newLog));
  }

  /** Whenever the database crashes and whatever the logs lose: recovery brings back a database in order, whose
      history is what the logs did not hold any more and what is left in them. */
  lemma CrashShows(a: Joint, step: Step, b: Joint, s: L.State, before: seq<Entry>, lost: seq<Entry>)
    requires Shows(a, s, before, lost) && step.CrashStep? && Goes(a, step, b)
    ensures Shows(b, b.db, b.db.history, []) && Tail(b.db) == []
    ensures b.db.history == step.older + L.LogEntries(step.kept, a.db.logNumber)
  {
    UnfinishedIsLate(a, s, before, lost);
    var x := Logged(s, a.queue, lost, a.db);
    LoggedGood(a, s, before, lost, x);
    OlderIsUnique(a.db.history, Tail(a.db), step.older, Older(x));
    var d := Damaged(x, step.kept);
    DamagedGood(x, step.kept, d);
    SameRecovery(a.db, step, x, d);
    ReopenedGood(d, step.tables, step.newLog, step.last, b.db);
    Opening(b);
  }

  // ---- Every step, and every run ----

  ghost predicate IsPath(states: seq<L.State>, path: seq<L.Step>) {
    |states| == |path| + 1 && forall i {:trigger path[i]} | 0 <= i < |path| :: Does(states[i], path[i], states[i + 1])
  }

  /** The state machine gets from `s` to `t` by these steps. */
  ghost predicate Reaches(s: L.State, path: seq<L.Step>, t: L.State) {
    exists states :: IsPath(states, path) && states[0] == s && states[|path|] == t
  }

  lemma NoStep(s: L.State)
    ensures Reaches(s, [], s)
  {
    assert IsPath([s], []);
  }

  lemma OneStep(s: L.State, step: L.Step, t: L.State)
    requires Does(s, step, t)
    ensures Reaches(s, [step], t)
  {
    assert IsPath([s, t], [step]);
  }

  lemma JoinPaths(a: seq<L.State>, path: seq<L.Step>, b: seq<L.State>, more: seq<L.Step>)
    requires IsPath(a, path) && IsPath(b, more) && a[|path|] == b[0]
    ensures IsPath(a + b[1..], path + more)
  {
    var all, steps := a + b[1..], path + more;
    forall i | 0 <= i < |steps| ensures Does(all[i], steps[i], all[i + 1]) {
      if i >= |path| { assert Does(b[i - |path|], more[i - |path|], b[i - |path| + 1]); }
    }
  }

  lemma ReachesJoin(s: L.State, path: seq<L.Step>, t: L.State, more: seq<L.Step>, u: L.State)
    requires Reaches(s, path, t) && Reaches(t, more, u)
    ensures Reaches(s, path + more, u)
  {
    var a :| IsPath(a, path) && a[0] == s && a[|path|] == t;
    var b :| IsPath(b, more) && b[0] == t && b[|more|] == u;
    JoinPaths(a, path, b, more);
  }

  /** The steps of the state machine that a step is: a group is a write when it is done, or a skip if it failed;
      a crash makes a write of the group that the log holds, if there is one, and then reopens the database. */
  function Moves(q: Q.Queue, step: Step): seq<L.Step> {
    match step
    case QueueStep(w) =>
      if !w.FinishStep? || q.group.None? || q.group.value.members > |q.writers| then []
      else if q.group.value.outcome == Some(Q.Logged) then [L.WriteStep(Operations(q))]
      else [L.SkipStep(|q.group.value.entries|)]
    case DbStep(e) => [e]
    case CrashStep(_, _, tables, newLog, last) =>
      (if InFlight(q) != [] && q.group.value.members <= |q.writers| then [L.WriteStep(Operations(q))] else [])
      + [L.ReopenStep(tables, newLog, last)]
  }

  lemma FinishShows(a: Joint, b: Joint, s: L.State, before: seq<Entry>, lost: seq<Entry>) returns (t: L.State)
    requires Shows(a, s, before, lost) && Next(a, QueueStep(Q.FinishStep), b)
    ensures Shows(b, t, before, lost) && Reaches(s, Moves(a.queue, QueueStep(Q.FinishStep)), t)
  {
    GroupIsStamped(a.queue);
    if a.queue.group.value.outcome == Some(Q.Logged) {
      t := WriteShows(a, b, s, before, lost);
      OneStep(s, L.WriteStep(Operations(a.queue)), t);
    } else {
      t := SkipShows(a, b, s, before, lost);
      OneStep(s, L.SkipStep(|a.queue.group.value.entries|), t);
    }
  }

  lemma OtherShows(a: Joint, e: L.Step, b: Joint, s: L.State, before: seq<Entry>, lost: seq<Entry>)
    returns (t: L.State)
    requires Shows(a, s, before, lost) && Next(a, DbStep(e), b)
    ensures Shows(b, t, before, lost) && Reaches(s, Moves(a.queue, DbStep(e)), t)
  {
    assert L.Inv(s);
    t := DbStepShows(a.db, e, b.db, s, InFlight(a.queue), lost);
    StepGood(s, e, t);
    OneStep(s, e, t);
    assert Sound(b.queue, t);
  }

  lemma StepShows(a: Joint, step: Step, b: Joint, s: L.State, before: seq<Entry>, lost: seq<Entry>)
    returns (t: L.State, after: seq<Entry>)
    requires Shows(a, s, before, lost) && !step.CrashStep? && Goes(a, step, b)
    ensures Shows(b, t, before, after) && Reaches(s, Moves(a.queue, step), t)
  {
    t, after := s, lost;
    NoStep(s);
    match step
    case QueueStep(w) =>
      if w.AppendStep? {
        after := AppendShows(a, w.outcome, b, s, before, lost);
      } else if w.FinishStep? {
        t := FinishShows(a, b, s, before, lost);
      } else {
        QuietShows(a, w, b, s, before, lost);
      }
    case DbStep(e) =>
      t := OtherShows(a, e, b, s, before, lost);
  }

  ghost predicate Takes(states: seq<Joint>, steps: seq<Step>, i: nat)
    requires i < |steps| < |states|
  {
    Goes(states[i], steps[i], states[i + 1])
  }

  ghost predicate AreSteps(states: seq<Joint>, steps: seq<Step>) {
    |states| == |steps| + 1 && forall i | 0 <= i < |steps| :: Takes(states, steps, i)
  }

  ghost predicate IsRun(states: seq<Joint>, steps: seq<Step>) {
    AreSteps(states, steps) && Initial(states[0])
  }

  lemma InitialShows(states: seq<Joint>, steps: seq<Step>)
    requires IsRun(states, steps)
    ensures Shows(states[0], states[0].db, states[0].db.history, [])
  {
    Opening(states[0]);
  }

  lemma StepAt(states: seq<Joint>, steps: seq<Step>, i: nat)
    requires AreSteps(states, steps) && i < |steps|
    ensures Goes(states[i], steps[i], states[i + 1])
  {
    assert Takes(states, steps, i);
  }

  /** After every step of every run, crashes with any loss included, the finished part of the database is a state
      of the machine. */
  lemma {:induction false} RunShows(states: seq<Joint>, steps: seq<Step>, n: nat, a: Joint)
    returns (s: L.State, before: seq<Entry>, lost: seq<Entry>)
    requires IsRun(states, steps) && n < |states| && a == states[n]
    ensures Shows(a, s, before, lost)
    decreases n
  {
    if n == 0 {
      InitialShows(states, steps);
      s, before, lost := a.db, a.db.history, [];
    } else {
      var r, earlier, left := RunShows(states, steps, n - 1, states[n - 1]);
      StepAt(states, steps, n - 1);
      if steps[n - 1].CrashStep? {
        CrashShows(states[n - 1], steps[n - 1], a, r, earlier, left);
        s, before, lost := a.db, a.db.history, [];
      } else {
        s, lost := StepShows(states[n - 1], steps[n - 1], a, r, earlier, left);
        before := earlier;
      }
    }
  }

  // ---- What readers and writers get ----

  lemma InFlightIsLate(a: Joint, s: L.State, before: seq<Entry>, lost: seq<Entry>)
    requires Shows(a, s, before, lost)
    ensures forall e | e in InFlight(a.queue) :: e.key.sequence > s.lastSequence
  {
    if InFlight(a.queue) != [] { GroupIsStamped(a.queue); }
  }

  lemma LateIsInvisible(S: set<Entry>, late: set<Entry>, k: UserKey, p: Sequence, r: Option<Value>)
    requires forall e | e in late :: e.key.sequence > p
    ensures Yields(S + late, k, p, r) <==> Yields(S, k, p, r)
  {
    forall e ensures IsNewest(S + late, e, k, p) <==> IsNewest(S, e, k, p) {
      if IsNewest(S, e, k, p) {
        assert forall x | x in S + late && Visible(x, k, p) :: x in S;
      }
    }
    if (forall e | e in S :: !Visible(e, k, p)) {
      assert forall e | e in S + late :: !Visible(e, k, p);
    }
  }

  lemma StoredWithInFlight(s: L.State, inFlight: seq<Entry>, lost: seq<Entry>)
    requires s.logs != []
    ensures L.Stored(Concrete(s, inFlight, lost)) == L.Stored(s) + EntrySet(inFlight)
  {
  }

  lemma ReadsOf(a: Joint, s: L.State, before: seq<Entry>, lost: seq<Entry>, k: UserKey, p: Sequence, r: Option<Value>)
    requires Shows(a, s, before, lost) && s.horizon <= p <= s.lastSequence
    ensures Yields(L.Stored(a.db), k, p, r) <==> r == SpecGet(s.history, k, p)
  {
    InFlightIsLate(a, s, before, lost);
    StoredWithInFlight(s, InFlight(a.queue), lost);
    LateIsInvisible(L.Stored(s), EntrySet(InFlight(a.queue)), k, p, r);
    LsmWrites.StoredReads(s, k, p, r);
  }

  lemma SameSnapshots(a: Joint, s: L.State, before: seq<Entry>, lost: seq<Entry>)
    requires Shows(a, s, before, lost)
    ensures s.snapshots == a.db.snapshots && s.history == a.db.history && s.lastSequence == a.queue.lastSequence
    ensures s.horizon <= s.lastSequence && forall q | q in s.snapshots :: s.horizon <= q <= s.lastSequence
  {
    assert L.Inv(s);
  }

  /** A read during a write sees nothing of it: in every joint state a live snapshot and the present read from
      memtables and files what the plain versioned map of the finished writes says, and nothing else. */
  lemma ReadsDuringWrites(states: seq<Joint>, steps: seq<Step>, n: nat, k: UserKey, p: Sequence, r: Option<Value>)
    requires IsRun(states, steps) && n <= |steps|
    requires p in states[n].db.snapshots || p == states[n].queue.lastSequence
    ensures Yields(L.Stored(states[n].db), k, p, r) <==> r == SpecGet(states[n].db.history, k, p)
  {
    var s, before, lost := RunShows(states, steps, n, states[n]);
    SameSnapshots(states[n], s, before, lost);
    ReadsOf(states[n], s, before, lost, k, p, r);
  }

  lemma {:induction false} AdmittedGrows(cs: seq<Q.Completion>, i: nat)
    requires i <= |cs|
    ensures |Q.Admitted(cs[..i])| <= |Q.Admitted(cs)|
  {
    if i < |cs| {
      AdmittedGrows(cs[..|cs| - 1], i);
      assert cs[..|cs| - 1][..i] == cs[..i];
    } else {
      assert cs[..i] == cs;
    }
  }

  /** The numbers of a finished call are not beyond the last sequence. */
  lemma NumbersAreOld(q: Q.Queue, i: nat)
    requires Q.Inv(q) && i < |q.completed| && q.completed[i].admitted && q.completed[i].writer.batch.Some?
    ensures Q.Base(q, i) + |q.completed[i].writer.batch.value| <= q.lastSequence
  {
    Q.NumbersInOrder(q, i, i + 1);
    AdmittedGrows(q.completed, i + 1);
    assert q.completed[..|q.completed|] == q.completed;
  }

  /** What is in a memtable and not newer than the last sequence is in the history. */
  lemma OldIsWritten(a: Joint, s: L.State, before: seq<Entry>, lost: seq<Entry>, e: Entry)
    requires Shows(a, s, before, lost) && e in a.queue.applied && e.key.sequence <= s.lastSequence
    ensures e in a.db.history
  {
    InFlightIsLate(a, s, before, lost);
    assert e in before + a.queue.applied;
    assert e in s.history + InFlight(a.queue);
  }

  lemma AcknowledgedIsApplied(q: Q.Queue, i: nat, batch: seq<L.Operation>, base: nat)
    requires Q.Inv(q) && i < |q.completed| && q.completed[i].status.Ok? && q.completed[i].writer.batch == Some(batch)
    requires base == Q.Base(q, i)
    ensures base + |batch| < MAX_SEQUENCE && base + |batch| <= q.lastSequence
    ensures forall e | e in L.Stamp(batch, base) :: e in q.applied
  {
    assert Q.Acknowledged(q, i);
    NumbersAreOld(q, i);
  }

  /** Every acknowledged batch is part of the history, under the numbers set aside for it. */
  lemma AcknowledgedIsWritten(states: seq<Joint>, steps: seq<Step>, n: nat, i: nat)
    requires IsRun(states, steps) && n <= |steps| && i < |states[n].queue.completed|
    requires var c := states[n].queue.completed[i]; c.status.Ok? && c.writer.batch.Some?
    ensures var q := states[n].queue;
            var batch := q.completed[i].writer.batch.value;
            && Q.Base(q, i) + |batch| < MAX_SEQUENCE
            && forall e | e in L.Stamp(batch, Q.Base(q, i)) :: e in states[n].db.history
  {
    var a := states[n];
    var s, before, lost := RunShows(states, steps, n, a);
    var batch, base := a.queue.completed[i].writer.batch.value, Q.Base(a.queue, i);
    SameSnapshots(a, s, before, lost);
    AcknowledgedIsApplied(a.queue, i, batch, base);
    LsmWrites.StampFacts(batch, base);
    forall e | e in L.Stamp(batch, base) ensures e in a.db.history {
      OldIsWritten(a, s, before, lost, e);
    }
  }

  // ---- Null batches ----

  /** Once the writer in front has switched the memtable, nothing goes into the new one until it is done. */
  ghost predicate SwitchedInv(a: Joint) {
    a.switched > 0 ==> a.db.mem == {} && a.queue.group.None?
  }

  lemma StepSwitched(a: Joint, step: Step, b: Joint)
    requires SwitchedInv(a) && Goes(a, step, b)
    ensures SwitchedInv(b)
  {
  }

  lemma InitialSwitched(states: seq<Joint>, steps: seq<Step>)
    requires IsRun(states, steps)
    ensures SwitchedInv(states[0])
  {
  }

  lemma {:induction false} RunSwitched(states: seq<Joint>, steps: seq<Step>, n: nat, a: Joint)
    requires IsRun(states, steps) && n < |states| && a == states[n]
    ensures SwitchedInv(a)
    decreases n
  {
    if n == 0 {
      InitialSwitched(states, steps);
    } else {
      RunSwitched(states, steps, n - 1, states[n - 1]);
      StepAt(states, steps, n - 1);
      StepSwitched(states[n - 1], steps[n - 1], a);
    }
  }

  /** When a null batch that has led is acknowledged, the memtable is empty: all that was written before is
      waiting to be flushed, or has been. */
  lemma NullBatchSwitches(states: seq<Joint>, steps: seq<Step>, n: nat, room: Q.Room, members: nat)
    requires IsRun(states, steps) && n < |steps| && steps[n] == QueueStep(Q.LeadStep(room, members))
    requires states[n].queue.writers != [] && states[n].queue.writers[0].batch.None? && room.status.Ok?
    ensures var q, r := states[n].queue, states[n + 1].queue;
            && r.completed == q.completed + [Q.Completion(q.writers[0], Q.Ok, true, true, true)]
            && states[n + 1].db.mem == {}
  {
    RunSwitched(states, steps, n, states[n]);
    StepAt(states, steps, n);
  }
}
