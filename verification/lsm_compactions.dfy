/** Beginning and ending a compaction, and a trivial move, keep the invariant and every read. */
module LsmCompactions {
  import opened InternalKeys
  import opened TableFiles
  import opened CompactionInputs
  import opened DropRule
  import opened LevelUpdates
  import opened Lsm
  import opened LsmWrites

  lemma BeginAround(levels: seq<set<TableFile>>, p: Pending)
    requires OrderedLevels(levels) && DistinctSequences(EntriesOf(levels))
    requires InputsClosed(levels, p.level, p.in0, p.in1)
    requires p.level + 1 < NUM_LEVELS && p.deeper == Deeper(levels, p.level)
    requires p.automatic ==> Gapless(p.in0 + p.in1)
    ensures AroundInv(levels, p)
  {
    ClosedIsSurrounded(levels, p.level, p.in0, p.in1);
    forall f | f in levels[p.level + 1] - p.in1 ensures OneSide(f, KeptOf(p)) {
      FewerOneSide(f, EntriesIn(p.in0 + p.in1), KeptOf(p));
    }
  }

  lemma BeginPending(s: State, level: nat, in0: set<TableFile>, in1: set<TableFile>, q: Sequence, automatic: bool)
    requires FilesInv(s) && HistoryInv(s) && SnapshotInv(s) && MayBegin(s, level, in0, in1, q, automatic)
    ensures PendingInv(BeginCompaction(s, level, in0, in1, q, automatic))
  {
    StoredDistinct(s);
    BeginAround(s.levels, BeginCompaction(s, level, in0, in1, q, automatic).pending.value);
  }

  lemma BeginInv(s: State, level: nat, in0: set<TableFile>, in1: set<TableFile>, q: Sequence, automatic: bool)
    requires Inv(s) && MayBegin(s, level, in0, in1, q, automatic)
    ensures Inv(BeginCompaction(s, level, in0, in1, q, automatic))
  {
    var t := BeginCompaction(s, level, in0, in1, q, automatic);
    BeginPending(s, level, in0, in1, q, automatic);
    assert Stored(t) == Stored(s);
    SameContents(s, t);
    SameAges(s, t);
    assert FilesInv(t) && SnapshotInv(t);
    assert LogInv(t);
  }

  lemma OpenOutputInv(s: State)
    requires Inv(s) && s.pending.Some?
    ensures Inv(OpenOutput(s))
  {
    var t := OpenOutput(s);
    assert Stored(t) == Stored(s);
    SameAges(s, t);
    assert FilesInv(t) && SnapshotInv(t);
    assert PendingInv(t) by {
      assert forall l, f | 0 <= l < NUM_LEVELS && f in s.levels[l] :: f.number < s.nextFile;
    }
    SameContents(s, t);
    assert LogInv(t);
  }

  /** Everything in the database but the inputs of the running compaction. */
  ghost function Rest(s: State, p: Pending): set<Entry>
    requires p.level + 1 < |s.levels|
  {
    s.mem + ImmSet(s) + EntriesOf(Without(s.levels, p.level, p.in0, p.in1))
  }

  lemma OneOlderIsBelow(levels: seq<set<TableFile>>, p: Pending, m: nat, f: TableFile, g: TableFile, a: Entry, b: Entry)
    requires OrderedLevels(levels) && AroundInv(levels, p)
    requires m < NUM_LEVELS && f in Without(levels, p.level, p.in0, p.in1)[m] && g in p.in0 + p.in1
    requires a in f.entries && b in g.entries && a.key.user == b.key.user && a.key.sequence < b.key.sequence
    ensures !NotBelow(p.deeper, a.key.user)
  {
    assert f in levels[m] && (g in levels[p.level] || g in levels[p.level + 1]);
    SharedKeyMeets(f, g, a, b);
    if m <= p.level + 1 { StaysNewer(levels, p.level, p.in0, p.in1, m, f, g); }
  }

  lemma RestIsBelow(s: State, p: Pending, a: Entry, b: Entry)
    requires OrderedLevels(s.levels) && AgeInv(s) && AroundInv(s.levels, p)
    requires a in Rest(s, p) && b in EntriesIn(p.in0 + p.in1) && b in EntriesOf(s.levels)
    requires a.key.user == b.key.user && a.key.sequence < b.key.sequence
    ensures !NotBelow(p.deeper, a.key.user)
  {
    var less := Without(s.levels, p.level, p.in0, p.in1);
    var m, f: TableFile :| 0 <= m < |less| && f in less[m] && a in f.entries;
    var g :| g in p.in0 + p.in1 && b in g.entries;
    OneOlderIsBelow(s.levels, p, m, f, g, a, b);
  }

  /** Under a running compaction, an older entry of an input's key can only be two or more levels below. */
  lemma PendingOlderIsBelow(s: State, p: Pending)
    requires FilesInv(s) && AgeInv(s) && PendingInv(s) && s.pending == Some(p)
    ensures OlderIsBelow(Rest(s, p), EntriesIn(p.in0 + p.in1), p.deeper)
  {
    EntriesSplit(s.levels, p.level, p.in0, p.in1, {});
    forall a, b | a in Rest(s, p) && b in EntriesIn(p.in0 + p.in1) && a.key.user == b.key.user
                  && a.key.sequence < b.key.sequence
      ensures !NotBelow(p.deeper, a.key.user)
    {
      RestIsBelow(s, p, a, b);
    }
  }

  lemma FinishStored(s: State, p: Pending, outputs: set<TableFile>)
    requires s.pending == Some(p) && Surrounded(s.levels, p.level, p.in0, p.in1)
    requires EntriesIn(outputs) == KeptOf(p)
    ensures Stored(s) == Rest(s, p) + EntriesIn(p.in0 + p.in1)
    ensures Stored(FinishCompaction(s, outputs)) == Rest(s, p) + EntriesIn(outputs)
    ensures EntriesOf(FinishCompaction(s, outputs).levels) <= EntriesOf(s.levels)
  {
    EntriesSplit(s.levels, p.level, p.in0, p.in1, outputs);
  }

  lemma FinishReads(s: State, outputs: set<TableFile>)
    requires FilesInv(s) && AgeInv(s) && HistoryInv(s) && ReadsInv(s) && PendingInv(s)
    requires s.pending.Some? && IsOutputOf(s.pending.value, outputs)
    ensures ReadsInv(FinishCompaction(s, outputs))
  {
    var p, t := s.pending.value, FinishCompaction(s, outputs);
    FinishStored(s, p, outputs);
    PendingOlderIsBelow(s, p);
    StoredDistinct(s);
    forall k: UserKey, q: Sequence | t.horizon <= q
      ensures Yields(Stored(t), k, q, SpecGet(t.history, k, q))
    {
      DroppingIsInvisible(Rest(s, p), EntriesIn(p.in0 + p.in1), p.snapshot, p.deeper, k, q, SpecGet(s.history, k, q));
    }
  }

  lemma ReplacedNumbers(levels: seq<set<TableFile>>, level: nat, in0: set<TableFile>, in1: set<TableFile>,
                        outputs: set<TableFile>)
    requires UniqueNumbers(levels) && level + 1 < |levels| && DistinctNumbers(outputs)
    requires forall m, f, o | 0 <= m < |levels| && f in Without(levels, level, in0, in1)[m] && o in outputs ::
               f.number != o.number
    ensures UniqueNumbers(Replaced(levels, level, in0, in1, outputs))
  {
    var less, more := Without(levels, level, in0, in1), Replaced(levels, level, in0, in1, outputs);
    forall m, f: TableFile | 0 <= m < |levels| && f in more[m]
      ensures f in less[m] || (f in outputs && m == level + 1)
      ensures f in less[m] ==> f in levels[m]
    {
    }
  }

  lemma FinishNumbers(levels: seq<set<TableFile>>, p: Pending, outputs: set<TableFile>, nextFile: nat)
    requires UniqueNumbers(levels) && OutputsInv(levels, p.outputs, nextFile) && p.level + 1 < |levels|
    requires IsOutputOf(p, outputs)
    requires forall l, f | 0 <= l < |levels| && f in levels[l] :: f.number < nextFile
    ensures UniqueNumbers(Replaced(levels, p.level, p.in0, p.in1, outputs))
    ensures forall l, f | 0 <= l < |levels| && f in Replaced(levels, p.level, p.in0, p.in1, outputs)[l] ::
              f.number < nextFile
  {
    var less := Without(levels, p.level, p.in0, p.in1);
    forall m, f | 0 <= m < |levels| && f in less[m] ensures f in levels[m] {}
    ReplacedNumbers(levels, p.level, p.in0, p.in1, outputs);
    var more := Replaced(levels, p.level, p.in0, p.in1, outputs);
    forall m, f: TableFile | 0 <= m < |levels| && f in more[m] ensures f.number < nextFile {
      assert f in less[m] || f in outputs;
    }
  }

  lemma FinishOrder(levels: seq<set<TableFile>>, p: Pending, outputs: set<TableFile>)
    requires OrderedLevels(levels) && AroundInv(levels, p) && IsOutputOf(p, outputs)
    ensures OrderedLevels(Replaced(levels, p.level, p.in0, p.in1, outputs))
  {
    ReplaceKeepsOrder(levels, p.level, p.in0, p.in1, outputs);
  }

  lemma FinishFiles(s: State, outputs: set<TableFile>)
    requires FilesInv(s) && PendingInv(s) && s.pending.Some? && IsOutputOf(s.pending.value, outputs)
    ensures FilesInv(FinishCompaction(s, outputs))
  {
    var p := s.pending.value;
    FinishOrder(s.levels, p, outputs);
    FinishNumbers(s.levels, p, outputs, s.nextFile);
    assert FilesBelow(Replaced(s.levels, p.level, p.in0, p.in1, outputs), s.nextFile);
  }

  lemma FinishInv(s: State, outputs: set<TableFile>)
    requires Inv(s) && s.pending.Some? && IsOutputOf(s.pending.value, outputs)
    ensures Inv(FinishCompaction(s, outputs))
  {
    var t := FinishCompaction(s, outputs);
    FinishFiles(s, outputs);
    FinishStored(s, s.pending.value, outputs);
    FinishReads(s, outputs);
    SameAges(s, t);
    HistoryBound(s.history);
    assert HistoryInv(t) && SnapshotInv(t) && PendingInv(t);
    assert LogInv(t);
  }

  lemma MoveOrder(levels: seq<set<TableFile>>, level: nat, f: TableFile)
    requires OrderedLevels(levels) && DistinctSequences(EntriesOf(levels))
    requires level + 1 < NUM_LEVELS && InputsClosed(levels, level, {f}, {})
    ensures OrderedLevels(Replaced(levels, level, {f}, {}, {f}))
    ensures EntriesOf(Replaced(levels, level, {f}, {}, {f})) == EntriesOf(levels)
  {
    ClosedIsSurrounded(levels, level, {f}, {});
    assert {f} + {} == {f} && f in levels[level];
    assert AllOneSide(levels[level + 1] - {}, EntriesIn({f}));
    EntriesSplit(levels, level, {f}, {}, {f});
    ReplaceKeepsOrder(levels, level, {f}, {}, {f});
  }

  lemma MoveNumbers(levels: seq<set<TableFile>>, level: nat, f: TableFile, bound: nat)
    requires UniqueNumbers(levels) && level + 1 < |levels| && f in levels[level]
    requires forall l, g | 0 <= l < |levels| && g in levels[l] :: g.number < bound
    ensures UniqueNumbers(Replaced(levels, level, {f}, {}, {f}))
    ensures forall l, g | 0 <= l < |levels| && g in Replaced(levels, level, {f}, {}, {f})[l] :: g.number < bound
  {
    var less, more := Without(levels, level, {f}, {}), Replaced(levels, level, {f}, {}, {f});
    forall m, g: TableFile | 0 <= m < |levels| && g in less[m] ensures g in levels[m] && g.number != f.number {}
    ReplacedNumbers(levels, level, {f}, {}, {f});
    forall m, g: TableFile | 0 <= m < |levels| && g in more[m] ensures g.number < bound {
      assert g == f || g in less[m];
    }
  }

  lemma MoveInv(s: State, level: nat, f: TableFile)
    requires Inv(s) && s.pending.None? && level + 1 < NUM_LEVELS && InputsClosed(s.levels, level, {f}, {})
    ensures Inv(TrivialMove(s, level, f))
  {
    var t := TrivialMove(s, level, f);
    StoredDistinct(s);
    MoveOrder(s.levels, level, f);
    MoveNumbers(s.levels, level, f, s.nextFile);
    assert FilesBelow(t.levels, s.nextFile);
    assert FilesInv(t);
    assert Stored(t) == Stored(s);
    SameContents(s, t);
    SameAges(s, t);
    assert SnapshotInv(t) && PendingInv(t);
    HistoryBound(s.history);
    assert LogInv(t);
  }
}
