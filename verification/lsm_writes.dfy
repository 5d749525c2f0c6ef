/** Writes, memtable switches and snapshots keep the invariant. */
module LsmWrites {
  import opened InternalKeys
  import opened TableFiles
  import opened Lsm

  lemma SameAges(s: State, t: State)
    requires AgeInv(s) && t.mem == s.mem && t.imm == s.imm && EntriesOf(t.levels) <= EntriesOf(s.levels)
    ensures AgeInv(t)
  {
  }

  /** A step that only moves entries around leaves the reads as they are. */
  lemma SameContents(s: State, t: State)
    requires HistoryInv(s) && ReadsInv(s)
    requires Stored(t) == Stored(s) && t.history == s.history && t.lastSequence == s.lastSequence
        && t.horizon == s.horizon
    ensures HistoryInv(t) && ReadsInv(t)
  {
  }

  lemma SamePending(s: State, t: State)
    requires PendingInv(s) && t.pending == s.pending && t.levels == s.levels && t.horizon == s.horizon
    requires s.lastSequence <= t.lastSequence && s.nextFile <= t.nextFile
    requires forall q | q in t.snapshots :: q in s.snapshots || s.lastSequence <= q
    ensures PendingInv(t)
  {
  }

  lemma InitialInv(s: State)
    requires Initial(s)
    ensures Inv(s)
  {
    assert EntriesOf(s.levels) == {};
    assert s.logs[..0] == [];
    assert FilesBelow(s.levels, s.manifestNextFile);
  }

  lemma StoredDistinct(s: State)
    requires HistoryInv(s)
    ensures DistinctSequences(EntrySet(s.history)) && DistinctSequences(Stored(s))
        && DistinctSequences(EntriesOf(s.levels))
    ensures forall e | e in Stored(s) :: e.key.sequence <= s.lastSequence
  {
    forall a, b | a in s.history && b in s.history && a.key.sequence == b.key.sequence
      ensures a == b
    {
      var i :| 0 <= i < |s.history| && s.history[i] == a;
      var j :| 0 <= j < |s.history| && s.history[j] == b;
    }
    forall e | e in Stored(s) ensures e.key.sequence <= s.lastSequence {
      assert e in EntrySet(s.history);
      var i :| 0 <= i < |s.history| && s.history[i] == e;
    }
  }

  /** From the horizon on, what is stored reads like the plain versioned map, and only so. */
  lemma StoredReads(s: State, k: UserKey, p: Sequence, r: Option<Value>)
    requires Inv(s) && s.horizon <= p <= s.lastSequence
    ensures Yields(Stored(s), k, p, r) <==> r == SpecGet(s.history, k, p)
  {
    StoredDistinct(s);
    assert Yields(Stored(s), k, p, SpecGet(s.history, k, p));
    if Yields(Stored(s), k, p, r) {
      YieldsFunctional(Stored(s), k, p, r, SpecGet(s.history, k, p));
    }
  }

  lemma {:induction false} SpecGetAppend(history: seq<Entry>, entries: seq<Entry>, k: UserKey, q: Sequence)
    ensures SpecGet(history + entries, k, q)
         == if exists e :: e in entries && Visible(e, k, q) then SpecGet(entries, k, q) else SpecGet(history, k, q)
  {
    if entries == [] {
      assert history + entries == history;
    } else {
      var n := |entries| - 1;
      var all := history + entries;
      assert all[|all| - 1] == entries[n] && all[..|all| - 1] == history + entries[..n];
      assert entries == entries[..n] + [entries[n]];
      SpecGetAppend(history, entries[..n], k, q);
    }
  }

  lemma StampFacts(batch: seq<Operation>, last: Sequence)
    requires last + |batch| < MAX_SEQUENCE
    ensures var es := Stamp(batch, last);
            |es| == |batch| && Increasing(es) && forall i | 0 <= i < |es| :: es[i].key.sequence == last + 1 + i
  {
  }

  lemma HistoryBound(history: seq<Entry>)
    requires Increasing(history)
    ensures forall e | e in history :: e.key.sequence <= LastWritten(history)
  {
    forall e | e in history ensures e.key.sequence <= LastWritten(history) {
      var i :| 0 <= i < |history| && history[i] == e;
    }
  }

  /** Entries that come after all that was written, up to `last`. */
  ghost predicate IsLate(history: seq<Entry>, es: seq<Entry>, last: Sequence) {
    Increasing(es) && forall e | e in es :: LastWritten(history) < e.key.sequence <= last
  }

  lemma HistoryExtends(history: seq<Entry>, es: seq<Entry>, last: Sequence)
    requires Increasing(history) && LastWritten(history) <= last && IsLate(history, es, last)
    ensures Increasing(history + es) && LastWritten(history + es) <= last
    ensures EntrySet(history + es) == EntrySet(history) + EntrySet(es)
    ensures forall x, e | x in history && e in es :: x.key.sequence < e.key.sequence
  {
    HistoryBound(history);
  }

  /** Newer entries on top of stored ones that read like a history. */
  lemma LayerRead(stored: set<Entry>, history: seq<Entry>, es: seq<Entry>, k: UserKey, q: Sequence)
    requires Yields(stored, k, q, SpecGet(history, k, q)) && Increasing(es) && AllNewer(EntrySet(es), stored)
    ensures Yields(EntrySet(es) + stored, k, q, SpecGet(history + es, k, q))
  {
    SpecGetAppend(history, es, k, q);
    SpecGetYields(es, k, q);
    assert (exists e :: e in es && Visible(e, k, q)) <==> (exists e :: e in EntrySet(es) && Visible(e, k, q)) by {
      if e :| e in es && Visible(e, k, q) { assert e in EntrySet(es); }
    }
    YieldsLayered(EntrySet(es), stored, k, q, SpecGet(history + es, k, q));
  }

  lemma AppendLogFacts(s: State, es: seq<Entry>)
    requires LogInv(s)
    ensures var logs := AppendLog(s.logs, es);
            && |logs| == |s.logs| && logs[..|logs| - 1] == s.logs[..|logs| - 1]
            && (forall i | 0 <= i < |logs| :: logs[i].number == s.logs[i].number)
            && EntrySet(logs[|logs| - 1].entries) == s.mem + EntrySet(es)
  {
  }

  /** What may be committed. */
  ghost predicate MayCommit(s: State, es: seq<Entry>, last: Sequence) {
    IsLate(s.history, es, last) && s.lastSequence <= last < MAX_SEQUENCE
  }

  lemma CommitHistoryInv(s: State, es: seq<Entry>, last: Sequence)
    requires HistoryInv(s) && s.logs != [] && MayCommit(s, es, last)
    ensures HistoryInv(Commit(s, es, last))
    ensures AllNewer(EntrySet(es), Stored(s)) && Stored(Commit(s, es, last)) == EntrySet(es) + Stored(s)
  {
    HistoryExtends(s.history, es, last);
    forall a, b | a in EntrySet(es) && b in Stored(s) ensures a.key.sequence > b.key.sequence {
      assert b in EntrySet(s.history);
    }
  }

  lemma CommitReadsInv(s: State, es: seq<Entry>, last: Sequence)
    requires HistoryInv(s) && ReadsInv(s) && s.logs != [] && MayCommit(s, es, last)
    ensures ReadsInv(Commit(s, es, last))
  {
    var t := Commit(s, es, last);
    CommitHistoryInv(s, es, last);
    forall k: UserKey, q: Sequence | t.horizon <= q
      ensures Yields(Stored(t), k, q, SpecGet(t.history, k, q))
    {
      LayerRead(Stored(s), s.history, es, k, q);
    }
  }

  lemma CommitAgeInv(s: State, es: seq<Entry>, last: Sequence)
    requires HistoryInv(s) && AgeInv(s) && s.logs != [] && MayCommit(s, es, last)
    ensures AgeInv(Commit(s, es, last))
  {
    CommitHistoryInv(s, es, last);
    assert EntriesOf(s.levels) <= Stored(s) && ImmSet(s) <= Stored(s);
  }

  lemma CommitLogInv(s: State, es: seq<Entry>, last: Sequence)
    requires LogInv(s) && MayCommit(s, es, last)
    ensures LogInv(Commit(s, es, last))
  {
    var t := Commit(s, es, last);
    AppendLogFacts(s, es);
    forall e | e in t.history && e.key.sequence > t.manifestSequence
      ensures e in t.mem || e in ImmSet(t)
    {
      assert e in s.history || e in EntrySet(es);
    }
  }

  /** Newer entries may be committed at any time. */
  lemma CommitInv(s: State, es: seq<Entry>, last: Sequence)
    requires Inv(s) && MayCommit(s, es, last)
    ensures Inv(Commit(s, es, last))
  {
    var t := Commit(s, es, last);
    SamePending(s, t);
    assert FilesInv(t) && SnapshotInv(t);
    CommitHistoryInv(s, es, last);
    CommitAgeInv(s, es, last);
    CommitReadsInv(s, es, last);
    CommitLogInv(s, es, last);
  }

  lemma StampIsLate(s: State, batch: seq<Operation>)
    requires HistoryInv(s) && s.lastSequence + |batch| < MAX_SEQUENCE
    ensures MayCommit(s, Stamp(batch, s.lastSequence), s.lastSequence + |batch|)
  {
    StampFacts(batch, s.lastSequence);
  }

  lemma WriteInv(s: State, batch: seq<Operation>)
    requires Inv(s) && s.lastSequence + |batch| < MAX_SEQUENCE
    ensures Inv(Write(s, batch))
  {
    StampIsLate(s, batch);
    CommitInv(s, Stamp(batch, s.lastSequence), s.lastSequence + |batch|);
  }

  lemma SkipInv(s: State, n: nat)
    requires Inv(s) && s.lastSequence + n < MAX_SEQUENCE
    ensures Inv(Skip(s, n))
  {
    var t := Skip(s, n);
    assert Stored(t) == Stored(s) && ImmSet(t) == ImmSet(s);
    SamePending(s, t);
    assert FilesInv(t) && HistoryInv(t) && AgeInv(t) && SnapshotInv(t);
    assert ReadsInv(t) && LogInv(t);
  }

  lemma SwitchLogs(s: State)
    requires LogInv(s) && s.imm.None?
    ensures LogInv(SwitchMemTable(s))
  {
    var t := SwitchMemTable(s);
    var n := |s.logs| - 1;
    assert t.logs[..n + 1] == s.logs;
    assert EntrySet(LogEntries(s.logs, s.logNumber)) == EntrySet(LogEntries(s.logs[..n], s.logNumber)) + s.mem;
  }

  lemma SwitchInv(s: State)
    requires Inv(s) && s.imm.None?
    ensures Inv(SwitchMemTable(s))
  {
    var t := SwitchMemTable(s);
    assert Stored(t) == Stored(s);
    SameContents(s, t);
    SwitchLogs(s);
    SamePending(s, t);
    assert FilesInv(t) && AgeInv(t) && SnapshotInv(t);
  }

  lemma SnapshotStepsInv(s: State, q: Sequence)
    requires Inv(s)
    ensures Inv(s.(snapshots := s.snapshots + multiset{s.lastSequence}))
    ensures q in s.snapshots ==> Inv(s.(snapshots := s.snapshots - multiset{q}))
  {
    var t := s.(snapshots := s.snapshots + multiset{s.lastSequence});
    assert Stored(t) == Stored(s) && ImmSet(t) == ImmSet(s);
    SamePending(s, t);
    if q in s.snapshots {
      var u := s.(snapshots := s.snapshots - multiset{q});
      assert Stored(u) == Stored(s) && ImmSet(u) == ImmSet(s);
      SamePending(s, u);
      assert forall p | p in u.snapshots :: p in s.snapshots;
    }
  }
}
