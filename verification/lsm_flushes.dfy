/** A flush keeps the invariant, also in the middle of a compaction. */
module LsmFlushes {
  import opened InternalKeys
  import opened TableFiles
  import opened CompactionInputs
  import opened DropRule
  import opened LevelUpdates
  import opened Lsm
  import opened LsmWrites

  lemma {:induction false} NoOlderLogs(logs: seq<Log>, from: nat)
    requires forall log | log in logs :: log.number < from
    ensures LogEntries(logs, from) == []
  {
    if logs != [] { NoOlderLogs(logs[..|logs| - 1], from); }
  }

  /** A file that meets no file of a gapless set lies on one side of it. */
  lemma GaplessOutside(S: set<TableFile>, f: TableFile)
    requires Gapless(S) && WellFormed(f) && forall g | g in S :: WellFormed(g) && !RangesMeet(f, g)
    ensures OutsideOf(f, S)
  {
    WellFormedBounds(f);
    forall g | g in S ensures g.smallest.user <= g.largest.user { WellFormedBounds(g); }
    OneSided(S, f.smallest.user);
  }

  lemma TableIsNewest(f: TableFile, imm: set<Entry>, stored: set<Entry>)
    requires IsTableFor(f, imm) && AllNewer(imm, stored)
    ensures NewestOf(f, stored)
  {
    forall a | a in f.entries ensures a in imm { assert a in EntrySet(f.entries); }
  }

  lemma PlacedNumbers(levels: seq<set<TableFile>>, f: TableFile, level: nat)
    requires UniqueNumbers(levels) && level < |levels|
    requires forall l, g | 0 <= l < |levels| && g in levels[l] :: g.number < f.number
    ensures UniqueNumbers(WithFile(levels, level, f))
    ensures forall l, g | 0 <= l < |levels| && g in WithFile(levels, level, f)[l] :: g.number <= f.number
  {
    var more := WithFile(levels, level, f);
    assert forall l, g | 0 <= l < |levels| && g in more[l] :: (l == level && g == f) || g in levels[l];
  }

  lemma FlushFiles(s: State, f: TableFile, level: nat)
    requires FilesInv(s) && AgeInv(s) && MayFlush(s, Some(f), level) && s.logs != []
    ensures FilesInv(Flush(s, Some(f), level))
    ensures NewestOf(f, EntriesOf(s.levels))
    ensures EntriesOf(WithFile(s.levels, level, f)) == EntriesOf(s.levels) + ImmSet(s)
  {
    TableIsNewest(f, s.imm.value, EntriesOf(s.levels));
    assert forall g | g in s.levels[0] :: g.number < f.number;
    AddNewest(s.levels, level, f);
    PlacedNumbers(s.levels, f, level);
    assert FilesBelow(WithFile(s.levels, level, f), s.nextFile + 1);
  }

  /** Adding the newest file next to a running compaction leaves it surrounded by newer data. */
  lemma SurroundedByNewest(levels: seq<set<TableFile>>, level: nat, f: TableFile, at: nat, in0: set<TableFile>,
                           in1: set<TableFile>)
    requires Surrounded(levels, at, in0, in1) && level < |levels| && NewestOf(f, EntriesOf(levels))
    ensures Surrounded(WithFile(levels, level, f), at, in0, in1)
  {
    forall g | g in in0 + in1 ensures Newer(f, g) {
      NewestIsNewer(levels, if g in in0 then at else at + 1, f, g);
    }
  }

  /** A table that PickLevelForMemTableOutput may place at the output level of an automatic compaction lies
      on one side of all the inputs. */
  lemma FlushOutside(s: State, f: TableFile, level: nat)
    requires FilesInv(s) && PendingInv(s) && s.pending.Some? && s.pending.value.automatic
    requires WellFormed(f) && MayPlace(s, level, f) && level == s.pending.value.level + 1
    ensures OutsideOf(f, s.pending.value.in0 + s.pending.value.in1)
  {
    var p := s.pending.value;
    forall g | g in p.in0 + p.in1 ensures WellFormed(g) && !RangesMeet(f, g) {
      assert g in s.levels[p.level] || g in s.levels[p.level + 1];
    }
    GaplessOutside(p.in0 + p.in1, f);
  }

  lemma FlushOneSide(s: State, f: TableFile, level: nat)
    requires FilesInv(s) && PendingInv(s) && s.pending.Some? && MayFlush(s, Some(f), level)
    requires level == s.pending.value.level + 1
    ensures OneSide(f, KeptOf(s.pending.value))
  {
    var p := s.pending.value;
    if p.automatic {
      FlushOutside(s, f, level);
      forall g | g in p.in0 + p.in1 ensures WellFormed(g) {
        assert g in s.levels[p.level] || g in s.levels[p.level + 1];
      }
      OutsideIsOneSide(f, p.in0 + p.in1);
      FewerOneSide(f, EntriesIn(p.in0 + p.in1), KeptOf(p));
    }
  }

  lemma FlushBelow(s: State, f: TableFile, level: nat)
    requires FilesInv(s) && PendingInv(s) && s.pending.Some? && MayFlush(s, Some(f), level)
    ensures var p := s.pending.value;
            forall g | level >= p.level + 2 && g in p.in0 + p.in1 :: !RangesMeet(f, g)
  {
    var p := s.pending.value;
    forall g | level >= p.level + 2 && g in p.in0 + p.in1 ensures !RangesMeet(f, g) {
      assert g in s.levels[p.level] || g in s.levels[p.level + 1];
    }
  }

  lemma AroundPlaced(levels: seq<set<TableFile>>, p: Pending, f: TableFile, level: nat)
    requires AroundInv(levels, p) && level < |levels| && NewestOf(f, EntriesOf(levels))
    requires level == p.level + 1 ==> OneSide(f, KeptOf(p))
    requires forall g | level >= p.level + 2 && g in p.in0 + p.in1 :: !RangesMeet(f, g)
    ensures AroundInv(WithFile(levels, level, f), p)
  {
    SurroundedByNewest(levels, level, f, p.level, p.in0, p.in1);
  }

  lemma FlushAround(s: State, f: TableFile, level: nat)
    requires FilesInv(s) && AgeInv(s) && PendingInv(s) && s.pending.Some? && MayFlush(s, Some(f), level)
    ensures AroundInv(WithFile(s.levels, level, f), s.pending.value)
  {
    var p := s.pending.value;
    TableIsNewest(f, s.imm.value, EntriesOf(s.levels));
    if level == p.level + 1 { FlushOneSide(s, f, level); }
    FlushBelow(s, f, level);
    AroundPlaced(s.levels, p, f, level);
  }

  lemma PlacedOutputs(levels: seq<set<TableFile>>, f: TableFile, level: nat, outputs: set<nat>, nextFile: nat)
    requires OutputsInv(levels, outputs, nextFile) && level < |levels| && f.number == nextFile
    ensures OutputsInv(WithFile(levels, level, f), outputs, nextFile + 1)
  {
  }

  lemma FlushPending(s: State, file: Option<TableFile>, level: nat)
    requires FilesInv(s) && AgeInv(s) && PendingInv(s) && MayFlush(s, file, level) && s.logs != []
    ensures PendingInv(Flush(s, file, level))
  {
    if s.pending.Some? {
      if file.Some? {
        FlushAround(s, file.value, level);
        PlacedOutputs(s.levels, file.value, level, s.pending.value.outputs, s.nextFile);
      } else {
        SamePending(s, Flush(s, file, level));
      }
    }
  }

  lemma FlushStored(s: State, file: Option<TableFile>, level: nat)
    requires FilesInv(s) && AgeInv(s) && MayFlush(s, file, level) && s.logs != []
    ensures FilesInv(Flush(s, file, level))
    ensures EntriesOf(Flush(s, file, level).levels) == EntriesOf(s.levels) + ImmSet(s)
  {
    if file.Some? {
      FlushFiles(s, file.value, level);
    } else {
      assert FilesBelow(s.levels, s.nextFile + 1);
    }
  }

  lemma FlushAges(s: State, t: State)
    requires AgeInv(s) && t.mem == s.mem && t.imm.None? && EntriesOf(t.levels) == EntriesOf(s.levels) + ImmSet(s)
    ensures AgeInv(t) && Stored(t) == Stored(s)
  {
  }

  lemma OlderLogsAreDone(logs: seq<Log>, n: nat, older: seq<Log>, from: nat)
    requires n < |logs| && forall i, j | 0 <= i < j <= n :: logs[i].number < logs[j].number
    requires older == logs[..n] && from == logs[n].number
    ensures EntrySet(LogEntries(older, from)) == {}
  {
    NoOlderLogs(older, from);
  }

  lemma FlushLogs(s: State, file: Option<TableFile>, level: nat)
    requires LogInv(s) && level < |s.levels|
    requires forall e | e in s.history :: e.key.sequence <= s.lastSequence
    ensures LogInv(Flush(s, file, level))
  {
    var t := Flush(s, file, level);
    var n := |s.logs| - 1;
    OlderLogsAreDone(s.logs, n, t.logs[..n], t.logNumber);
  }

  lemma FlushInv(s: State, file: Option<TableFile>, level: nat)
    requires Inv(s) && MayFlush(s, file, level)
    ensures Inv(Flush(s, file, level))
  {
    var t := Flush(s, file, level);
    FlushStored(s, file, level);
    FlushAges(s, t);
    SameContents(s, t);
    HistoryBound(s.history);
    FlushLogs(s, file, level);
    FlushPending(s, file, level);
  }

}
