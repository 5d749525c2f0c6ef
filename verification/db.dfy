/** DBImpl of project/db_impl.cc: the fields behind the state machine and the records on disk, and the operations
    that move them, each built from the algorithms of the other modules. Every method is a step of the state
    machine, or, for the installation of a compaction, a few; a flush in the middle of a manual compaction is
    one on a condition that the code does not check. */
module Databases {
  import opened InternalKeys
  import opened TableFiles
  import opened FileSearch
  import opened ReadPath
  import opened CompactionInputs
  import opened Compactions
  import opened CompactionWork
  import opened DropRule
  import opened LevelUpdates
  import opened MemTables
  import opened OutputFiles
  import opened Builders
  import opened VersionSets
  import opened Installs
  import I = InputIterators
  import Pruning
  import L = Lsm
  import LsmRestarts
  import LsmRuns
  import LsmWrites
  import M = Manifests
  import O = ObsoleteFiles
  import LsmLogs
  import LsmLosses
  import R = Recovery
  import S = Scans

  // ---- Reads ----

  ghost function ImmEntries(imm: Option<seq<Entry>>): set<Entry> {
    if imm.Some? then EntrySet(imm.value) else {}
  }

  /** Reads that agree layer by layer: the memtable, then the immutable one, then the files. */
  lemma LayeredGet(mem: set<Entry>, imm: set<Entry>, files: set<Entry>, k: UserKey, s: Sequence, r: Option<Value>)
    requires L.AllNewer(mem, imm) && L.AllNewer(mem, files) && L.AllNewer(imm, files)
    requires if exists e :: e in mem && Visible(e, k, s) then Yields(mem, k, s, r)
             else if exists e :: e in imm && Visible(e, k, s) then Yields(imm, k, s, r)
             else Yields(files, k, s, r)
    ensures Yields(mem + imm + files, k, s, r)
  {
    if exists e :: e in mem && Visible(e, k, s) {
      YieldsLayered(mem, imm + files, k, s, r);
    } else {
      YieldsLayered(imm, files, k, s, r);
      YieldsLayered(mem, imm + files, k, s, r);
    }
    assert mem + (imm + files) == mem + imm + files;
  }

  /** First the memtable, then the immutable one, then the files. */
  method ReadLayers(mem: seq<Entry>, imm: Option<seq<Entry>>, files: seq<seq<TableFile>>, k: UserKey, s: Sequence)
    returns (r: Option<Value>)
    requires SortedEntries(mem) && (imm.Some? ==> SortedEntries(imm.value))
    requires ValidLevels(files) && OrderedLevels(LevelSets(files))
    requires L.AllNewer(EntrySet(mem), ImmEntries(imm)) && L.AllNewer(EntrySet(mem), EntriesOf(LevelSets(files)))
    requires L.AllNewer(ImmEntries(imm), EntriesOf(LevelSets(files)))
    ensures Yields(EntrySet(mem) + ImmEntries(imm) + EntriesOf(LevelSets(files)), k, s, r)
  {
    var state := MemTableGet(mem, k, s);
    MemTableGetYields(mem, k, s);
    if state.NotFound? && imm.Some? {
      state := MemTableGet(imm.value, k, s);
      MemTableGetYields(imm.value, k, s);
    }
    if !state.NotFound? {
      r := ResultOf(state);
    } else {
      var version := new Version(files);
      r := version.Get(k, s);
    }
    LayeredGet(EntrySet(mem), ImmEntries(imm), EntriesOf(LevelSets(files)), k, s, r);
  }

  lemma ReadIsUnique(v: L.State, k: UserKey, s: Sequence, r: Option<Value>)
    requires L.HistoryInv(v) && L.ReadsInv(v) && v.horizon <= s && Yields(L.Stored(v), k, s, r)
    ensures r == SpecGet(v.history, k, s)
  {
    LsmWrites.StoredDistinct(v);
    YieldsFunctional(L.Stored(v), k, s, r, SpecGet(v.history, k, s));
  }

  // ---- Writes and snapshots ----

  lemma StampedIsNewer(s: L.State, batch: seq<L.Operation>)
    requires L.HistoryInv(s) && s.lastSequence + |batch| < MAX_SEQUENCE
    ensures Increasing(L.Stamp(batch, s.lastSequence))
    ensures forall x, e | x in s.mem && e in L.Stamp(batch, s.lastSequence) :: x.key.sequence < e.key.sequence
  {
    LsmWrites.StoredDistinct(s);
    LsmWrites.StampFacts(batch, s.lastSequence);
    forall x | x in s.mem ensures x.key.sequence <= s.lastSequence { assert x in L.Stored(s); }
  }

  ghost predicate OldestFirst(snapshots: seq<Sequence>) {
    forall i, j | 0 <= i < j < |snapshots| :: snapshots[i] <= snapshots[j]
  }

  lemma AppendNewest(snapshots: seq<Sequence>, q: Sequence)
    requires OldestFirst(snapshots) && forall x | x in snapshots :: x <= q
    ensures OldestFirst(snapshots + [q]) && multiset(snapshots + [q]) == multiset(snapshots) + multiset{q}
  {
    forall i | 0 <= i < |snapshots| ensures snapshots[i] <= q { assert snapshots[i] in snapshots; }
  }

  method RemoveSnapshot(snapshots: seq<Sequence>, q: Sequence) returns (r: seq<Sequence>)
    requires OldestFirst(snapshots) && q in snapshots
    ensures OldestFirst(r) && multiset(r) == multiset(snapshots) - multiset{q}
  {
    var i: nat := 0;
    while snapshots[i] != q
      invariant i < |snapshots| && q in snapshots[i..]
      decreases |snapshots| - i
    {
      i := i + 1;
    }
    assert snapshots == snapshots[..i] + [q] + snapshots[i + 1..];
    r := snapshots[..i] + snapshots[i + 1..];
  }

  lemma SmallestIsFirst(s: L.State, snapshots: seq<Sequence>)
    requires OldestFirst(snapshots) && s.snapshots == multiset(snapshots)
    ensures L.IsSmallestSnapshot(s, if snapshots == [] then s.lastSequence else snapshots[0])
  {
    if snapshots != [] {
      assert snapshots[0] in snapshots;
      forall p | p in s.snapshots ensures snapshots[0] <= p {
        assert p in snapshots;
        var i :| 0 <= i < |snapshots| && snapshots[i] == p;
      }
    } else {
      assert |s.snapshots| == 0;
    }
  }

  // ---- Starting a compaction ----

  ghost predicate AllowsCompaction(s: L.State) {
    L.FilesInv(s) && L.SnapshotInv(s) && s.pending.None?
  }

  /** The step has been taken, and the MANIFEST says so. */
  ghost predicate DidLog(s: L.State, step: L.Step, records: seq<VersionEdit>, t: L.State, after: seq<VersionEdit>) {
    exists taken :: taken == step && Taken(s, taken, records, t, after)
  }

  /** Size or seeks ask for a compaction of this level, or neither asks for any. */
  ghost predicate PicksLevel(levels: seq<seq<TableFile>>, level0Trigger: nat, pointers: seq<Option<InternalKey>>,
                             seekFile: Option<(nat, nat)>, level: Option<nat>)
    requires |levels| == NUM_LEVELS == |pointers| && level0Trigger > 0
  {
    exists choice :: PicksFile(levels, level0Trigger, pointers, seekFile, choice) &&
      level == if choice.Some? then Some(choice.value.0) else None
  }

  function LevelOf(c: Option<Compaction>): Option<nat> {
    if c.Some? then Some(c.value.level) else None
  }

  /** PickCompaction on the current version. */
  method Pick(current: seq<seq<TableFile>>, level0Trigger: nat, pointers: seq<Option<InternalKey>>,
              seekFile: Option<(nat, nat)>, maxFileSize: nat)
    returns (c: Option<Compaction>, choice: Option<(nat, nat)>, newPointers: seq<Option<InternalKey>>)
    requires OrderedLists(current) && OrderedLevels(LevelSets(current)) && |pointers| == NUM_LEVELS && level0Trigger > 0
    requires IsFileAt(current, seekFile)
    ensures PicksFile(current, level0Trigger, pointers, seekFile, choice) && IsFileAt(current, choice)
    ensures |newPointers| == NUM_LEVELS && (c.None? <==> choice.None?)
    ensures c.Some? ==> var p := c.value;
              && fresh(p) && fresh(p.levelPtrs) && Picked(p, current, maxFileSize)
              && p.level == choice.value.0 && current[p.level][choice.value.1] in p.inputs0
              && PointsBeyond(pointers, p.level, p.inputs0, newPointers)
  {
    OrderedIsValid(current);
    c, choice, newPointers := PickCompaction(current, level0Trigger, pointers, seekFile, maxFileSize);
  }

  /** What a manual compaction still has to do; an absent end of the range is unbounded. */
  datatype Manual = Manual(level: nat, begin: Option<InternalKey>, end: Option<InternalKey>)

  function RangeOf(m: Manual): Range {
    Range(UserOf(m.begin), UserOf(m.end))
  }

  /** What is left of it for the next turn: the range from the end of the last input on. */
  function Rest(m: Manual, inputs: seq<TableFile>): Manual {
    if inputs == [] then m else m.(begin := Some(inputs[|inputs| - 1].largest))
  }

  /** CompactRange on the current version. */
  method PickRange(current: seq<seq<TableFile>>, m: Manual, pointers: seq<Option<InternalKey>>, maxFileSize: nat)
    returns (c: Option<Compaction>, newPointers: seq<Option<InternalKey>>)
    requires OrderedLists(current) && OrderedLevels(LevelSets(current)) && m.level + 1 < NUM_LEVELS == |pointers|
    ensures |newPointers| == NUM_LEVELS
    ensures c.None? <==> Select(current[m.level], RangeOf(m)) == []
    ensures c.Some? ==> var p := c.value;
              && fresh(p) && fresh(p.levelPtrs) && Chosen(p, current) && p.level == m.level
              && Reaches(current[m.level], RangeOf(m), p.inputs0)
  {
    OrderedIsValid(current);
    c, newPointers := CompactRange(current, m.level, m.begin, m.end, pointers, maxFileSize);
  }

  // ---- Finishing a compaction ----

  /** The beginning of a compaction. */
  ghost function StartOf(c: Compaction, snapshot: Sequence, automatic: bool): L.Step
    reads c
  {
    L.BeginStep(c.level, FileSet(c.inputs0), FileSet(c.inputs1), snapshot, automatic)
  }

  predicate IsMove(c: Compaction, maxFileSize: nat)
    reads c
  {
    IsTrivialMove(c.inputs0, c.inputs1, c.grandparents, maxFileSize)
  }

  /** What becomes of a picked compaction: a trivial move is done at once. */
  ghost function PickedStep(c: Compaction, snapshot: Sequence, maxFileSize: nat): L.Step
    reads c
  {
    if IsMove(c, maxFileSize) then L.MoveStep(c.level, c.inputs0[0]) else StartOf(c, snapshot, true)
  }

  /** `c` is the object of the compaction under way. */
  ghost predicate IsRunning(p: L.Pending, c: Compaction, snapshot: Sequence)
    reads c
  {
    && p.level == c.level && p.in0 == FileSet(c.inputs0) && p.in1 == FileSet(c.inputs1) && p.snapshot == snapshot
    && |c.levels| == NUM_LEVELS && p.deeper == Deeper(LevelSets(c.levels), c.level)
  }

  /** The part of the invariant that a compaction relies on. */
  ghost predicate Consistent(s: L.State) {
    L.FilesInv(s) && L.HistoryInv(s) && L.SnapshotInv(s) && L.PendingInv(s)
  }

  /** The state after `n` output files have been opened. */
  ghost function Opened(s: L.State, n: nat): (t: L.State)
    requires s.pending.Some?
    ensures t.pending.Some? && t.nextFile == s.nextFile + n
    ensures t == s.(nextFile := t.nextFile, pending := t.pending)
    ensures t.pending.value == s.pending.value.(outputs := s.pending.value.outputs + NumbersFrom(s.nextFile, n))
  {
    if n == 0 then
      assert s.pending.value.outputs + {} == s.pending.value.outputs;
      s
    else
      var r := Opened(s, n - 1);
      assert r.pending.value.outputs + {r.nextFile} ==
             s.pending.value.outputs + (NumbersFrom(s.nextFile, n - 1) + {r.nextFile});
      L.OpenOutput(r)
  }

  /** Opening outputs one by one keeps what a compaction relies on. */
  lemma OpenedConsistent(s: L.State, n: nat)
    requires L.FilesInv(s) && L.PendingInv(s) && s.pending.Some?
    ensures L.FilesInv(Opened(s, n)) && L.PendingInv(Opened(s, n))
  {
    NumbersFromMembers(s.nextFile, n);
  }

  /** What the loop produced is an output of the compaction, once its files have been opened. */
  lemma OutputsOfOpened(p: L.Pending, kept: seq<seq<Entry>>, outputs: seq<TableFile>, first: nat)
    requires AreFilesOf(outputs, kept, first) && SortedEntries(Flatten(kept)) && EntrySet(Flatten(kept)) == L.KeptOf(p)
    ensures L.IsOutputOf(p.(outputs := p.outputs + NumbersFrom(first, |outputs|)), FileSet(outputs))
  {
    OutputsAreApart(kept, outputs, first);
    NumbersFromMembers(first, |outputs|);
    assert L.DistinctNumbers(FileSet(outputs)) by {
      assert forall i, j | 0 <= i < j < |outputs| :: outputs[i].number != outputs[j].number;
    }
    forall o | o in outputs ensures o.number in NumbersFrom(first, |outputs|) {}
    assert L.AreFilesWith(FileSet(outputs), p.outputs + NumbersFrom(first, |outputs|), L.KeptOf(p));
  }

  lemma InputIsDistinct(s: L.State, input: seq<Entry>)
    requires L.HistoryInv(s) && L.PendingInv(s) && s.pending.Some? && s.horizon <= s.lastSequence < MAX_SEQUENCE
    requires EntrySet(input) == EntriesIn(s.pending.value.in0 + s.pending.value.in1)
    ensures DistinctSequences(EntrySet(input)) && s.pending.value.snapshot < MAX_SEQUENCE
  {
    var p := s.pending.value;
    LsmWrites.StoredDistinct(s);
    forall e | e in EntrySet(input) ensures e in EntriesOf(s.levels) {
      var g :| g in p.in0 + p.in1 && e in g.entries;
      if g in p.in0 {
        EntryIsStored(s.levels, p.level, g, e);
      } else {
        EntryIsStored(s.levels, p.level + 1, g, e);
      }
    }
  }

  lemma GrandparentsNondecreasing(c: Compaction)
    requires c.Ready() && ValidLevels(c.levels)
    ensures LargestNondecreasing(c.grandparents)
  {
    if c.level + 2 < NUM_LEVELS {
      var start, limit :| IsHull(c.inputs0 + c.inputs1, start, limit)
                          && c.grandparents == Select(c.levels[c.level + 2], UserHull(start, limit));
      var a, b := SelectIsRun(c.levels[c.level + 2], UserHull(start, limit));
      SortedLevelBounds(c.levels[c.level + 2]);
    }
  }

  lemma ListsHaveNoDuplicates(files: seq<TableFile>)
    requires StrictlyOrdered(files)
    ensures I.NoDuplicates(files)
  {
  }

  /** The merging iterator over the inputs, read from front to back. */
  method ReadInputs(c: Compaction, fetch: nat -> seq<Entry>) returns (input: seq<Entry>)
    requires c.Ready() && OrderedLists(c.levels) && OrderedLevels(LevelSets(c.levels))
    requires I.FetchesAll(c.inputs0, fetch) && I.FetchesAll(c.inputs1, fetch)
    ensures SortedEntries(input) && EntrySet(input) == EntriesIn(FileSet(c.inputs0) + FileSet(c.inputs1))
  {
    OrderedIsValid(c.levels);
    ListsHaveNoDuplicates(c.levels[0]);
    I.InputIsSorted(c.levels, c.level, c.inputs0, c.inputs1, fetch);
    var children := I.MakeInputIterator(c.level, c.inputs0, c.inputs1, fetch);
    input := Pruning.MergeAll(seq(|children|, i requires 0 <= i < |children| => Pruning.Contents(children[i])));
    assert seq(|children|, i requires 0 <= i < |children| => Pruning.Contents(children[i]))
        == I.InputLists(c.level, c.inputs0, c.inputs1, fetch);
  }

  /** The loop on the running compaction: the outputs hold what the drop rule keeps. */
  method Work(c: Compaction, input: seq<Entry>, snapshot: Sequence, fileSize: seq<Entry> -> nat, ghost s: L.State)
    returns (kept: seq<seq<Entry>>)
    requires Consistent(s) && s.pending.Some? && IsRunning(s.pending.value, c, snapshot)
    requires c.Ready() && ValidLevels(c.levels)
    requires SortedEntries(input) && EntrySet(input) == EntriesIn(s.pending.value.in0 + s.pending.value.in1)
    modifies c`grandparentIndex, c`seenKey, c`overlappedBytes, c.levelPtrs
    ensures NoneEmpty(kept) && SortedEntries(Flatten(kept))
    ensures EntrySet(Flatten(kept)) == L.KeptOf(s.pending.value)
  {
    InputIsDistinct(s, input);
    GrandparentsNondecreasing(c);
    kept := DoCompactionWork(c, input, snapshot, fileSize);
    forall i | 0 <= i < |kept| ensures kept[i] != [] { assert kept[i] in kept; }
    KeptIsSortedSet(kept, input, snapshot, c.levels, c.level);
  }

  ghost function Installed(s: L.State, levels: seq<set<TableFile>>, snapshot: Sequence, n: nat): L.State {
    s.(levels := levels, pending := None, horizon := snapshot, nextFile := s.nextFile + n,
       manifestSequence := s.lastSequence, manifestNextFile := s.nextFile + n)
  }

  /** Output files are opened one by one, and then the compaction is installed. */
  ghost predicate FinishedFrom(s: L.State, records: seq<VersionEdit>, outputs: set<TableFile>, u: L.State,
                               after: seq<VersionEdit>) {
    exists n: nat :: s.pending.Some? && Taken(Opened(s, n), L.FinishStep(outputs), records, u, after)
  }

  lemma FinishIsNext(t: L.State, outputs: set<TableFile>)
    requires t.pending.Some? && t.pending.value.level + 1 < |t.levels| && L.IsOutputOf(t.pending.value, outputs)
    ensures L.Next(t, L.FinishStep(outputs), L.FinishCompaction(t, outputs))
  {
  }

  lemma FinishIsTaken(t: L.State, level: nat, in0: seq<TableFile>, in1: seq<TableFile>, outputs: seq<TableFile>,
                      records: seq<VersionEdit>, edit: VersionEdit)
    requires t.pending.Some? && t.pending.value.level + 1 < |t.levels| && IsFinishEdit(edit, level, in0, in1, outputs)
    requires var p := t.pending.value; p.level == level && p.in0 == FileSet(in0) && p.in1 == FileSet(in1)
    requires L.IsOutputOf(t.pending.value, FileSet(outputs)) && level + 1 < NUM_LEVELS
    requires Counters(edit, L.FinishCompaction(t, FileSet(outputs)))
    ensures Taken(t, L.FinishStep(FileSet(outputs)), records, L.FinishCompaction(t, FileSet(outputs)), records + [edit])
  {
    FinishIsNext(t, FileSet(outputs));
    FinishDescribed(t, level, in0, in1, outputs, edit);
    AddsToOneLevel(edit, level + 1, outputs);
    IsTaken(t, L.FinishStep(FileSet(outputs)), records, L.FinishCompaction(t, FileSet(outputs)), edit);
  }

  lemma IsInstalled(s: L.State, t: L.State, outputs: seq<TableFile>, levels: seq<set<TableFile>>, snapshot: Sequence)
    requires s.pending.Some? && s.pending.value.snapshot == snapshot && s.pending.value.level + 1 < |s.levels|
    requires t.pending.Some? && t == s.(nextFile := s.nextFile + |outputs|, pending := t.pending)
    requires t.pending.value == s.pending.value.(outputs := t.pending.value.outputs)
    requires levels == L.FinishCompaction(t, FileSet(outputs)).levels
    ensures Installed(s, levels, snapshot, |outputs|) == L.FinishCompaction(t, FileSet(outputs))
  {
  }

  lemma IsFinished(s: L.State, n: nat, t: L.State, outputs: set<TableFile>, records: seq<VersionEdit>, u: L.State,
                   after: seq<VersionEdit>)
    requires s.pending.Some? && t == Opened(s, n) && Taken(t, L.FinishStep(outputs), records, u, after)
    ensures FinishedFrom(s, records, outputs, u, after)
  {
  }

  /** The edit of a compaction, and the version it leads to. */
  method FinishVersion(current: seq<seq<TableFile>>, level: nat, in0: seq<TableFile>, in1: seq<TableFile>,
                       outputs: seq<TableFile>, snapshot: Sequence, logNumber: nat, nextFile: nat,
                       lastSequence: Sequence,
                       ghost s: L.State, ghost records: seq<VersionEdit>)
    returns (files: seq<seq<TableFile>>, edit: VersionEdit)
    requires OrderedLists(current) && L.FilesInv(s) && L.PendingInv(s) && s.levels == LevelSets(current)
        && s.pending.Some? && s.pending.value.snapshot == snapshot
    requires var p := s.pending.value; p.level == level && p.in0 == FileSet(in0) && p.in1 == FileSet(in1)
    requires L.IsOutputOf(Opened(s, |outputs|).pending.value, FileSet(outputs))
    requires s.logNumber == logNumber && s.nextFile + |outputs| == nextFile && s.lastSequence == lastSequence
    ensures OrderedLists(files)
    ensures FinishedFrom(s, records, FileSet(outputs), Installed(s, LevelSets(files), snapshot, |outputs|),
                         records + [edit])
  {
    edit := VersionEdit(Deletions(level, in0) + Deletions(level + 1, in1), LevelFiles(level + 1, outputs),
                        None, None, None);
    edit := Complete(edit, logNumber, nextFile, lastSequence);
    ghost var t := Opened(s, |outputs|);
    OpenedConsistent(s, |outputs|);
    FinishEdit(t, current, level, in0, in1, outputs, edit);
    files := BuildNext(current, edit);
    IsInstalled(s, t, outputs, LevelSets(files), snapshot);
    FinishIsTaken(t, level, in0, in1, outputs, records, edit);
    IsFinished(s, |outputs|, t, FileSet(outputs), records, L.FinishCompaction(t, FileSet(outputs)), records + [edit]);
  }

  /** The outputs as files, and the version that installing them leads to. */
  method WorkAndBuild(c: Compaction, fetch: nat -> seq<Entry>, snapshot: Sequence, fileSize: seq<Entry> -> nat,
                      current: seq<seq<TableFile>>, first: nat, logNumber: nat, lastSequence: Sequence,
                      ghost s: L.State, ghost records: seq<VersionEdit>)
    returns (outputs: seq<TableFile>, files: seq<seq<TableFile>>, edit: VersionEdit)
    requires Consistent(s) && s.pending.Some? && IsRunning(s.pending.value, c, snapshot) && c.Ready()
    requires OrderedLists(c.levels) && OrderedLevels(LevelSets(c.levels))
    requires I.FetchesAll(c.inputs0, fetch) && I.FetchesAll(c.inputs1, fetch)
    requires OrderedLists(current) && s.levels == LevelSets(current) && s.nextFile == first
    requires s.logNumber == logNumber && s.lastSequence == lastSequence
    modifies c`grandparentIndex, c`seenKey, c`overlappedBytes, c.levelPtrs
    ensures OrderedLists(files)
    ensures FinishedFrom(s, records, FileSet(outputs), Installed(s, LevelSets(files), snapshot, |outputs|),
                         records + [edit])
  {
    OrderedIsValid(c.levels);
    var input := ReadInputs(c, fetch);
    var kept := Work(c, input, snapshot, fileSize, s);
    outputs := BuildFiles(kept, first, fileSize);
    OutputsOfOpened(s.pending.value, kept, outputs, first);
    files, edit := FinishVersion(current, c.level, c.inputs0, c.inputs1, outputs, snapshot, logNumber,
                                 first + |outputs|, lastSequence, s, records);
  }

  // ---- Obsolete logs ----

  lemma LogKept(logs: seq<L.Log>, i: nat, from: nat)
    requires i < |logs|
    ensures L.RemoveObsoleteLogs(logs[..i + 1], from)
         == L.RemoveObsoleteLogs(logs[..i], from) + if logs[i].number >= from then [logs[i]] else []
  {
    assert logs[..i + 1][..i] == logs[..i];
  }

  /** The keep rule of RemoveObsoleteFiles for log files, one by one: all that recovery would replay stays, in
      order, and no other log does. */
  method KeepLogs(logs: seq<L.Log>, logNumber: nat, prevLogNumber: nat) returns (kept: seq<L.Log>)
    requires forall log | log in logs :: log.number != prevLogNumber
    requires forall i, j | 0 <= i < j < |logs| :: logs[i].number < logs[j].number
    ensures kept == L.RemoveObsoleteLogs(logs, logNumber)
    ensures forall log :: log in kept <==> log in logs && log.number >= logNumber
    ensures L.LogEntries(kept, logNumber) == L.LogEntries(logs, logNumber)
  {
    kept := [];
    assert logs[..0] == [];
    for i := 0 to |logs|
      invariant kept == L.RemoveObsoleteLogs(logs[..i], logNumber)
    {
      LogKept(logs, i, logNumber);
      assert logs[i] in logs;
      if O.Keep(O.Child(O.LogFile, logs[i].number), {}, logNumber, prevLogNumber, 0) {
        kept := kept + [logs[i]];
      }
    }
    assert logs[..|logs|] == logs;
    LsmRestarts.RemoveLogsFacts(logs, logNumber);
    LsmRestarts.LiveLogsMembers(logs, logNumber);
  }

  // ---- A whole turn of the background thread ----

  /** The table cache opens every file of the version. */
  ghost predicate FetchesFiles(files: seq<seq<TableFile>>, fetch: nat -> seq<Entry>) {
    forall l, f | 0 <= l < |files| && f in files[l] :: fetch(f.number) == f.entries
  }

  lemma InputsFetched(c: Compaction, fetch: nat -> seq<Entry>)
    requires c.Ready() && |c.levels| == NUM_LEVELS && FetchesFiles(c.levels, fetch)
    ensures I.FetchesAll(c.inputs0, fetch) && I.FetchesAll(c.inputs1, fetch)
  {
    forall f | f in c.inputs0 ensures fetch(f.number) == f.entries { assert f in FileSet(c.inputs0); }
    forall f | f in c.inputs1 ensures fetch(f.number) == f.entries { assert f in FileSet(c.inputs1); }
  }

  lemma OneMoreOpened(s: L.State, n: nat, r: L.State, t: L.State)
    requires s.pending.Some? && n > 0 && r == Opened(s, n - 1) && t == Opened(s, n)
    ensures L.Next(r, L.OpenOutputStep, t)
  {
  }

  lemma NothingOpened(s: L.State)
    requires s.pending.Some?
    ensures Opened(s, 0) == s
  {
    assert s.pending.value.outputs + {} == s.pending.value.outputs;
  }

  /** A state of the machine in which the same has been written. */
  ghost predicate KeepsHistory(s: L.State, t: L.State) {
    forall r | r == t :: L.Inv(r) && r.history == s.history
  }

  lemma OpeningInv(s: L.State, n: nat, r: L.State, t: L.State)
    requires s.pending.Some? && n > 0 && r == Opened(s, n - 1) && t == Opened(s, n) && KeepsHistory(s, r)
    ensures KeepsHistory(s, t)
  {
    assert L.Inv(r);
    OneMoreOpened(s, n, r, t);
    LsmRuns.StepInv(r, L.OpenOutputStep, t);
  }

  lemma {:induction false} OpenedInv(s: L.State, n: nat, t: L.State)
    requires s.pending.Some? && t == Opened(s, n) && KeepsHistory(s, s)
    ensures KeepsHistory(s, t)
  {
    if n == 0 {
      NothingOpened(s);
    } else {
      OpenedInv(s, n - 1, Opened(s, n - 1));
      OpeningInv(s, n, Opened(s, n - 1), t);
    }
  }

  lemma FinishedInv(s: L.State, records: seq<VersionEdit>, outputs: set<TableFile>, u: L.State,
                    after: seq<VersionEdit>)
    requires L.Inv(s) && FinishedFrom(s, records, outputs, u, after)
    ensures L.Inv(u) && u.history == s.history
  {
    var n: nat :| s.pending.Some? && Taken(Opened(s, n), L.FinishStep(outputs), records, u, after);
    OpenedInv(s, n, Opened(s, n));
    assert L.Inv(Opened(s, n));
    LsmRuns.StepInv(Opened(s, n), L.FinishStep(outputs), u);
  }

  lemma FlushedInv(s: L.State, records: seq<VersionEdit>, t: L.State, after: seq<VersionEdit>)
    requires L.Inv(s) && FlushedFrom(s, records, t, after)
    ensures L.Inv(t) && t.history == s.history
  {
    var file, level :| Taken(s, L.FlushStep(file, level), records, t, after);
    LsmRuns.StepInv(s, L.FlushStep(file, level), t);
  }

  lemma NothingStored()
    ensures OrderedLists(NoLevels()) && forall l | 0 <= l < NUM_LEVELS :: LevelSets(NoLevels())[l] == {}
  {
  }

  class Database {
    var mem: seq<Entry>
    var imm: Option<seq<Entry>>
    var current: seq<seq<TableFile>>        // the file lists of versions_->current()
    var lastSequence: Sequence
    var nextFileNumber: nat
    var snapshots: seq<Sequence>            // oldest first
    var compactPointers: seq<Option<InternalKey>>
    var logs: seq<L.Log>                    // on disk; the last one is logfile_
    var logNumber: nat
    var manifest: seq<VersionEdit>          // on disk
    var manifestSequence: Sequence          // what the last MANIFEST record says
    var manifestNextFile: nat
    ghost var pending: Option<L.Pending>
    ghost var history: seq<Entry>
    ghost var horizon: Sequence

    /** A new database: its MANIFEST is a snapshot of no files and the record that names the first log. */
    constructor ()
      ensures Rep() && L.Initial(View()) && M.InitialManifest(View(), manifest)
    {
      mem, imm, snapshots, current := [], None, [], NoLevels();
      compactPointers := seq(NUM_LEVELS, _ => None);
      lastSequence, nextFileNumber, logNumber, manifestSequence, manifestNextFile := 0, 4, 3, 0, 4;
      logs := [L.Log(3, [])];
      manifest := [VersionEdit([], [], None, None, None), VersionEdit([], [], Some(3), Some(4), Some(0))];
      pending, history, horizon := None, [], 0;
      new;
      NothingStored();
    }

    /** A database as recovery leaves it. */
    constructor Reopened(files: seq<seq<TableFile>>, records: seq<VersionEdit>, last: Sequence, newLog: nat,
                          oldLogs: seq<L.Log>, ghost s: L.State)
      requires OrderedLists(files) && oldLogs == s.logs
      ensures Rep() && manifest == records && View() == AfterReopen(s, LevelSets(files), last, newLog)
    {
      mem, imm, snapshots, current := [], None, [], files;
      compactPointers := seq(NUM_LEVELS, _ => None);
      lastSequence, nextFileNumber, logNumber := last, newLog + 1, newLog;
      manifestSequence, manifestNextFile := last, newLog + 1;
      logs := oldLogs + [L.Log(newLog, [])];
      manifest := records;
      pending, history, horizon := None, s.history, s.horizon;
    }

    ghost predicate Rep()
      reads this
    {
      && OrderedLists(current) && OldestFirst(snapshots) && logs != [] && |compactPointers| == NUM_LEVELS
      && SortedEntries(mem) && (imm.Some? ==> SortedEntries(imm.value))
    }

    /** The state of the state machine that the fields stand for. */
    ghost function View(): L.State
      reads this
    {
      L.State(EntrySet(mem), if imm.Some? then Some(EntrySet(imm.value)) else None, LevelSets(current),
              lastSequence, multiset(snapshots), pending, nextFileNumber, logs, logNumber,
              manifestSequence, manifestNextFile, history, horizon)
    }

    /** A read of a live snapshot, or of the present, returns what the plain versioned map returns. */
    method Get(k: UserKey, snapshot: Option<Sequence>) returns (r: Option<Value>)
      requires Rep() && L.Inv(View()) && (snapshot.Some? ==> snapshot.value in snapshots)
      ensures r == SpecGet(history, k, if snapshot.Some? then snapshot.value else lastSequence)
    {
      var s := if snapshot.Some? then snapshot.value else lastSequence;
      ghost var v := View();
      OrderedIsValid(current);
      assert snapshot.Some? ==> s in v.snapshots;
      r := ReadLayers(mem, imm, current, k, s);
      ReadIsUnique(v, k, s, r);
    }

    /** The iterators of a scan, over the state's own memtables and files, and the number it reads at. */
    method NewInternalIterator(fetch: nat -> seq<Entry>)
      returns (children: seq<Pruning.Child>, latestSnapshot: Sequence)
      requires Rep() && L.Inv(View())
      ensures latestSnapshot == lastSequence && S.Shown(View(), mem, imm, current)
      ensures Pruning.Yield(children, S.AllChildren(mem, imm, current, fetch)) && Pruning.Ready(children)
    {
      OrderedIsValid(current);
      children := S.NewInternalIterator(mem, imm, current, fetch);
      latestSnapshot := lastSequence;
    }

    /** A write group once it has the queue: the log, the memtable, the last sequence, which moves on even if
        the log could not be written. */
    method Write(batch: seq<L.Operation>, logged: bool)
      requires Rep() && L.Inv(View()) && lastSequence + |batch| < MAX_SEQUENCE
      modifies this`mem, this`logs, this`history, this`lastSequence
      ensures Rep()
      ensures L.Next(old(View()), if logged then L.WriteStep(batch) else L.SkipStep(|batch|), View())
    {
      ghost var s := View();
      if logged {
        var entries := L.Stamp(batch, lastSequence);
        logs := L.AppendLog(logs, entries);
        StampedIsNewer(s, batch);
        mem := InsertInto(mem, entries);
        history := history + entries;
      }
      lastSequence := lastSequence + |batch|;
    }

    /** MakeRoomForWrite's switch to a new log and memtable. */
    method SwitchMemTable()
      requires Rep() && imm.None?
      modifies this`mem, this`imm, this`logs, this`nextFileNumber
      ensures Rep() && L.Next(old(View()), L.SwitchStep, View())
    {
      var newLogNumber := nextFileNumber;
      nextFileNumber := newLogNumber + 1;
      logs := logs + [L.Log(newLogNumber, [])];
      imm, mem := Some(mem), [];
    }

    method GetSnapshot() returns (q: Sequence)
      requires Rep() && L.SnapshotInv(View())
      modifies this`snapshots
      ensures Rep() && q == lastSequence && L.Next(old(View()), L.TakeSnapshot, View())
    {
      q := lastSequence;
      forall x | x in snapshots ensures x <= q { assert x in View().snapshots; }
      AppendNewest(snapshots, q);
      snapshots := snapshots + [q];
    }

    method ReleaseSnapshot(q: Sequence)
      requires Rep() && q in snapshots
      modifies this`snapshots
      ensures Rep() && L.Next(old(View()), L.ReleaseSnapshot(q), View())
    {
      snapshots := RemoveSnapshot(snapshots, q);
    }

    /** The log files of RemoveObsoleteFiles. Nothing that a recovery would replay is lost, and no log stays
        that it would not read. */
    method RemoveObsoleteLogs()
      requires Rep() && L.LogInv(View())
      modifies this`logs
      ensures Rep() && L.Next(old(View()), L.RemoveLogsStep, View())
      ensures L.LogEntries(logs, logNumber) == old(L.LogEntries(logs, logNumber))
      ensures forall log :: log in logs <==> log in old(logs) && log.number >= logNumber
    {
      assert logs[|logs| - 1].number >= logNumber;
      logs := KeepLogs(logs, logNumber, 0);
      assert logs != [];
    }

    /** The end of LogAndApply: the record is written, and the version becomes current. */
    method Record(files: seq<seq<TableFile>>, edit: VersionEdit)
      modifies this`current, this`manifest, this`manifestSequence, this`manifestNextFile
      ensures current == files && manifest == old(manifest) + [edit]
      ensures manifestSequence == lastSequence && manifestNextFile == nextFileNumber
    {
      manifest := manifest + [edit];
      current, manifestSequence, manifestNextFile := files, lastSequence, nextFileNumber;
    }

    /** CompactMemTable: the immutable memtable becomes a table file, at the level that
        PickLevelForMemTableOutput finds, and the logs before the current one are no longer needed. Apart from
        a manual compaction under way that is always a step; for the end of such a compaction to be in order
        too, the memtable must not lie astride, which the code does not see to: `ManualGap`. */
    method CompactMemTable(maxMemCompactLevel: nat, maxFileSize: nat, fileSize: seq<Entry> -> nat)
      requires Rep() && L.FilesInv(View()) && imm.Some? && maxMemCompactLevel < NUM_LEVELS
      modifies this`imm, this`current, this`nextFileNumber, this`logNumber
      modifies this`manifest, this`manifestSequence, this`manifestNextFile
      ensures Rep() && FlushedFrom(Alone(old(View())), old(manifest), Alone(View()), manifest)
      ensures old(NotAstride(LevelSets(current), pending, imm.value)) ==>
                FlushedFrom(old(View()), old(manifest), View(), manifest)
    {
      ghost var s := View();
      var newLog := logs[|logs| - 1].number;
      var files, edit := FlushFiles(imm.value, current, nextFileNumber, newLog, lastSequence, maxMemCompactLevel,
                                    maxFileSize, fileSize, s, manifest);
      DropMemTable(files, edit, newLog);
    }

    method DropMemTable(files: seq<seq<TableFile>>, edit: VersionEdit, newLog: nat)
      requires Rep() && OrderedLists(files)
      modifies this`imm, this`current, this`nextFileNumber, this`logNumber
      modifies this`manifest, this`manifestSequence, this`manifestNextFile
      ensures Rep() && View() == AfterFlush(old(View()), LevelSets(files), newLog) && manifest == old(manifest) + [edit]
    {
      nextFileNumber := nextFileNumber + 1;
      Record(files, edit);
      logNumber, imm := newLog, None;
    }

    /** The smallest sequence that a reader may still ask for. */
    function SmallestSnapshot(): Sequence
      reads this
    {
      if snapshots == [] then lastSequence else snapshots[0]
    }

    /** The chosen inputs are taken: the compaction of a picked or a manual choice begins. */
    method Begin(c: Compaction, automatic: bool, ghost step: L.Step)
      requires Rep() && L.SnapshotInv(View()) && pending.None?
      requires Chosen(c, current) && (automatic ==> Gapless(FileSet(c.inputs0) + FileSet(c.inputs1)))
      requires step == StartOf(c, SmallestSnapshot(), automatic)
      modifies this`pending
      ensures Rep() && pending.Some?
      ensures DidLog(old(View()), step, manifest, View(), manifest)
    {
      ghost var s := View();
      SmallestIsFirst(s, snapshots);
      pending := Some(L.Pending(c.level, FileSet(c.inputs0), FileSet(c.inputs1), Deeper(LevelSets(current), c.level),
                                SmallestSnapshot(), {}, automatic));
      assert Taken(s, step, manifest, View(), manifest);
    }

    /** A compaction of one file that meets nothing below only moves it. */
    method MoveFile(level: nat, f: TableFile)
      requires Rep() && L.FilesInv(View()) && pending.None? && level + 1 < NUM_LEVELS
      requires InputsClosed(LevelSets(current), level, {f}, {})
      modifies this`current, this`manifest, this`manifestSequence, this`manifestNextFile
      ensures Rep() && DidLog(old(View()), L.MoveStep(level, f), old(manifest), View(), manifest)
    {
      ghost var s := View();
      var files, edit := MoveVersion(current, level, f, logNumber, nextFileNumber, lastSequence, s, manifest);
      Record(files, edit);
    }

    /** The version and the snapshots are in order, and no compaction is running. */
    ghost predicate Idle()
      reads this
    {
      exists s :: s == View() && AllowsCompaction(s)
    }

    method PointTo(pointers: seq<Option<InternalKey>>)
      requires Rep() && |pointers| == NUM_LEVELS
      modifies this`compactPointers
      ensures Rep() && View() == old(View()) && (old(Idle()) ==> Idle())
    {
      compactPointers := pointers;
      assert View() == old(View());
    }

    method MoveOnlyFile(c: Compaction, maxFileSize: nat)
      requires Rep() && L.FilesInv(View()) && pending.None? && Picked(c, current, maxFileSize) && IsMove(c, maxFileSize)
      modifies this`current, this`manifest, this`manifestSequence, this`manifestNextFile
      ensures Rep() && DidLog(old(View()), L.MoveStep(c.level, c.inputs0[0]), old(manifest), View(), manifest)
    {
      MoveFile(c.level, c.inputs0[0]);
    }

    method StartPicked(c: Compaction, pointers: seq<Option<InternalKey>>, maxFileSize: nat, ghost step: L.Step)
      requires Rep() && Idle() && |pointers| == NUM_LEVELS && Picked(c, current, maxFileSize)
      requires step == PickedStep(c, SmallestSnapshot(), maxFileSize)
      modifies this`current, this`manifest, this`manifestSequence, this`manifestNextFile, this`pending
      modifies this`compactPointers
      ensures Rep()
      ensures DidLog(old(View()), step, old(manifest), View(), manifest)
    {
      PointTo(pointers);
      if IsMove(c, maxFileSize) {
        MoveOnlyFile(c, maxFileSize);
      } else {
        Begin(c, true, step);
      }
    }

    /** BackgroundCompaction when no manual compaction waits: a trivial move, or the beginning of the picked
        compaction, up to the point where the mutex is released. */
    method AutomaticCompaction(level0Trigger: nat, seekFile: Option<(nat, nat)>, maxFileSize: nat)
      returns (c: Option<Compaction>, choice: Option<(nat, nat)>)
      requires Rep() && Idle()
      requires level0Trigger > 0 && IsFileAt(current, seekFile)
      modifies this`current, this`manifest, this`manifestSequence, this`manifestNextFile, this`pending
      modifies this`compactPointers
      ensures Rep() && (c.None? <==> choice.None?)
      ensures PicksFile(old(current), level0Trigger, old(compactPointers), seekFile, choice)
      ensures c.None? ==> View() == old(View()) && manifest == old(manifest)
      ensures c.Some? ==> fresh(c.value) && fresh(c.value.levelPtrs) && Picked(c.value, old(current), maxFileSize)
      ensures c.Some? ==> c.value.level == choice.value.0
      ensures c.Some? ==> DidLog(old(View()), PickedStep(c.value, SmallestSnapshot(), maxFileSize), old(manifest),
                                 View(), manifest)
    {
      var pointers;
      c, choice, pointers := Pick(current, level0Trigger, compactPointers, seekFile, maxFileSize);
      if c.Some? {
        StartPicked(c.value, pointers, maxFileSize, PickedStep(c.value, SmallestSnapshot(), maxFileSize));
      }
    }

    method StartManual(c: Compaction, pointers: seq<Option<InternalKey>>, ghost step: L.Step)
      requires Rep() && Idle() && |pointers| == NUM_LEVELS && Chosen(c, current)
      requires step == StartOf(c, SmallestSnapshot(), false)
      modifies this`pending, this`compactPointers
      ensures Rep()
      ensures DidLog(old(View()), step, manifest, View(), manifest)
    {
      PointTo(pointers);
      Begin(c, false, step);
    }

    /** BackgroundCompaction for a manual compaction, which is never a trivial move; None if nothing is in the
        range, and else what is left of the range for the next turn. */
    method ManualCompaction(m: Manual, maxFileSize: nat) returns (c: Option<Compaction>, left: Option<Manual>)
      requires Rep() && Idle() && m.level + 1 < NUM_LEVELS
      modifies this`pending, this`compactPointers
      ensures Rep()
      ensures c.None? <==> Select(current[m.level], RangeOf(m)) == []
      ensures c.None? ==> View() == old(View()) && left.None?
      ensures c.Some? ==> fresh(c.value) && fresh(c.value.levelPtrs) && Chosen(c.value, current)
      ensures c.Some? ==> c.value.level == m.level
      ensures c.Some? ==> left == Some(Rest(m, c.value.inputs0))
      ensures c.Some? ==> Reaches(current[m.level], RangeOf(m), c.value.inputs0)
      ensures c.Some? ==> DidLog(old(View()), StartOf(c.value, SmallestSnapshot(), false), manifest, View(), manifest)
    {
      left := None;
      var pointers;
      c, pointers := PickRange(current, m, compactPointers, maxFileSize);
      if c.Some? {
        left := Some(Rest(m, c.value.inputs0));
        StartManual(c.value, pointers, StartOf(c.value, SmallestSnapshot(), false));
      }
    }

    /** BackgroundCompaction: a waiting memtable comes first, then manual work, then what size and seeks ask
        for. */
    method BackgroundCompaction(manual: Option<Manual>, level0Trigger: nat, seekFile: Option<(nat, nat)>,
                                maxMemCompactLevel: nat, maxFileSize: nat, fileSize: seq<Entry> -> nat)
      returns (c: Option<Compaction>, left: Option<Manual>)
      requires Rep() && Idle()
      requires manual.Some? ==> manual.value.level + 1 < NUM_LEVELS
      requires level0Trigger > 0 && IsFileAt(current, seekFile) && maxMemCompactLevel < NUM_LEVELS
      modifies this`imm, this`current, this`nextFileNumber, this`logNumber, this`pending, this`compactPointers
      modifies this`manifest, this`manifestSequence, this`manifestNextFile
      ensures Rep() && (c.Some? ==> fresh(c.value) && fresh(c.value.levelPtrs))
      ensures old(imm).Some? ==> c.None? && left == manual && FlushedFrom(old(View()), old(manifest), View(), manifest)
      ensures old(imm).None? && c.None? ==> View() == old(View()) && manifest == old(manifest) && left.None?
      ensures old(imm).None? && manual.Some? ==>
                (c.None? <==> Select(old(current)[manual.value.level], RangeOf(manual.value)) == [])
      ensures c.Some? && manual.Some? ==> Chosen(c.value, old(current)) && c.value.level == manual.value.level
      ensures c.Some? && manual.Some? ==>
                left == Some(Rest(manual.value, c.value.inputs0))
                && Reaches(old(current)[manual.value.level], RangeOf(manual.value), c.value.inputs0)
      ensures c.Some? && manual.Some? ==>
                DidLog(old(View()), StartOf(c.value, SmallestSnapshot(), false), old(manifest), View(), manifest)
      ensures old(imm).None? && manual.None? ==>
                PicksLevel(old(current), level0Trigger, old(compactPointers), seekFile, LevelOf(c))
      ensures c.Some? && manual.None? ==> left.None? && Picked(c.value, old(current), maxFileSize)
      ensures c.Some? && manual.None? ==>
                DidLog(old(View()), PickedStep(c.value, SmallestSnapshot(), maxFileSize), old(manifest),
                       View(), manifest)
    {
      left := manual;
      c := None;
      if imm.Some? {
        CompactMemTable(maxMemCompactLevel, maxFileSize, fileSize);
      } else if manual.Some? {
        c, left := ManualCompaction(manual.value, maxFileSize);
      } else {
        var choice;
        c, choice := AutomaticCompaction(level0Trigger, seekFile, maxFileSize);
        assert PicksFile(old(current), level0Trigger, old(compactPointers), seekFile, choice);
      }
    }

    method InstallResults(files: seq<seq<TableFile>>, edit: VersionEdit, n: nat, snapshot: Sequence)
      requires Rep() && OrderedLists(files)
      modifies this`current, this`nextFileNumber, this`pending, this`horizon
      modifies this`manifest, this`manifestSequence, this`manifestNextFile
      ensures Rep() && View() == Installed(old(View()), LevelSets(files), snapshot, n)
      ensures manifest == old(manifest) + [edit]
    {
      nextFileNumber := nextFileNumber + n;
      Record(files, edit);
      pending, horizon := None, snapshot;
    }

    /** DoCompactionWork and InstallCompactionResults: the kept entries of the merged inputs, cut into files
        under new numbers, take the place of the inputs. Memtables may have been flushed since the compaction
        began. `fetch` is what the table cache opens under a file number. */
    method FinishCompaction(c: Compaction, fetch: nat -> seq<Entry>, snapshot: Sequence, fileSize: seq<Entry> -> nat)
      returns (outputs: seq<TableFile>)
      requires Rep() && Consistent(View()) && pending.Some? && IsRunning(pending.value, c, snapshot) && c.Ready()
      requires OrderedLists(c.levels) && OrderedLevels(LevelSets(c.levels))
      requires I.FetchesAll(c.inputs0, fetch) && I.FetchesAll(c.inputs1, fetch)
      modifies this`current, this`nextFileNumber, this`pending, this`horizon
      modifies this`manifest, this`manifestSequence, this`manifestNextFile
      modifies c`grandparentIndex, c`seenKey, c`overlappedBytes, c.levelPtrs
      ensures Rep() && FinishedFrom(old(View()), old(manifest), FileSet(outputs), View(), manifest)
    {
      ghost var s := View();
      var files, edit;
      outputs, files, edit := WorkAndBuild(c, fetch, snapshot, fileSize, current, nextFileNumber, logNumber,
                                           lastSequence, s, manifest);
      InstallResults(files, edit, |outputs|, snapshot);
    }

    /** A compaction that has just begun is carried through. */
    method CarryThrough(c: Compaction, automatic: bool, fetch: nat -> seq<Entry>, fileSize: seq<Entry> -> nat,
                        ghost s: L.State)
      requires Rep() && L.Inv(s) && OrderedLists(c.levels) && LevelSets(c.levels) == s.levels && c.Ready()
      requires L.Next(s, StartOf(c, SmallestSnapshot(), automatic), View())
      requires FetchesFiles(c.levels, fetch)
      modifies this`current, this`nextFileNumber, this`pending, this`horizon
      modifies this`manifest, this`manifestSequence, this`manifestNextFile
      modifies c`grandparentIndex, c`seenKey, c`overlappedBytes, c.levelPtrs
      ensures Rep() && L.Inv(View()) && View().history == s.history
    {
      ghost var t, records := View(), manifest;
      LsmRuns.StepInv(s, StartOf(c, SmallestSnapshot(), automatic), t);
      InputsFetched(c, fetch);
      var outputs := FinishCompaction(c, fetch, SmallestSnapshot(), fileSize);
      FinishedInv(t, records, FileSet(outputs), View(), manifest);
    }

    /** A whole turn of the background thread, if nothing happens while the mutex is free: whatever it does, the
        database is in order afterwards, and nothing has been written. */
    method BackgroundCall(manual: Option<Manual>, level0Trigger: nat, seekFile: Option<(nat, nat)>,
                          maxMemCompactLevel: nat, maxFileSize: nat, fetch: nat -> seq<Entry>,
                          fileSize: seq<Entry> -> nat)
      returns (left: Option<Manual>)
      requires Rep() && L.Inv(View()) && pending.None? && FetchesFiles(current, fetch)
      requires manual.Some? ==> manual.value.level + 1 < NUM_LEVELS
      requires level0Trigger > 0 && IsFileAt(current, seekFile) && maxMemCompactLevel < NUM_LEVELS
      modifies this`imm, this`current, this`nextFileNumber, this`logNumber, this`pending, this`compactPointers
      modifies this`manifest, this`manifestSequence, this`manifestNextFile, this`horizon
      ensures Rep() && L.Inv(View()) && View().history == old(View()).history
    {
      ghost var s, records := View(), manifest;
      assert AllowsCompaction(s);
      var c;
      c, left := BackgroundCompaction(manual, level0Trigger, seekFile, maxMemCompactLevel, maxFileSize, fileSize);
      if c.None? {
        if s.imm.Some? { FlushedInv(s, records, View(), manifest); }
      } else if manual.None? && IsMove(c.value, maxFileSize) {
        LsmRuns.StepInv(s, L.MoveStep(c.value.level, c.value.inputs0[0]), View());
      } else {
        CarryThrough(c.value, manual.None?, fetch, fileSize, s);
      }
    }
  }

  // ---- Opening a database again ----

  /** AddLiveFiles on the recovered version. */
  function LiveNumbers(files: seq<seq<TableFile>>): set<nat> {
    set l, i | 0 <= l < |files| && 0 <= i < |files[l]| :: files[l][i].number
  }

  lemma LiveNumbersAre(files: seq<seq<TableFile>>, levels: seq<set<TableFile>>)
    requires LevelSets(files) == levels
    ensures forall n :: n in LiveNumbers(files) <==> exists l, f :: 0 <= l < |levels| && f in levels[l] && f.number == n
  {
  }

  /** What the MANIFEST gives back is the state at the crash. */
  lemma ManifestRecovers(s: L.State, records: seq<VersionEdit>, r: Option<Recovered>)
    requires M.ManifestInv(s, records)
    requires r.None? <==> LastNextFile(records).None? || LastLog(records).None? || LastSequenceOf(records).None?
    requires r.Some? ==>
               && OrderedLists(r.value.levels) && LevelSets(r.value.levels) == Result(Replay(records))
               && LastLog(records) == Some(r.value.logNumber)
               && LastNextFile(records) == Some(r.value.nextFile - 1)
               && LastSequenceOf(records) == Some(r.value.lastSequence)
    ensures r.Some? && OrderedLists(r.value.levels) && LevelSets(r.value.levels) == s.levels
    ensures r.value.logNumber == s.logNumber && r.value.nextFile == s.manifestNextFile + 1
    ensures r.value.lastSequence == s.manifestSequence
  {
  }

  /** What DB::Open has before it installs anything. */
  datatype Restored = Restored(files: seq<seq<TableFile>>, records: seq<VersionEdit>, lastSequence: Sequence,
                               newLog: nat)

  /** Some table of the version has no file under its number. */
  ghost predicate TableMissing(levels: seq<set<TableFile>>, children: seq<O.Child>) {
    exists l, f :: 0 <= l < |levels| && f in levels[l] && !R.HasFile(children, f.number)
  }

  lemma MissingIsMissing(files: seq<seq<TableFile>>, levels: seq<set<TableFile>>, children: seq<O.Child>)
    requires LevelSets(files) == levels
    ensures (exists n :: n in LiveNumbers(files) && !R.HasFile(children, n)) <==> TableMissing(levels, children)
  {
    LiveNumbersAre(files, levels);
    if TableMissing(levels, children) {
      var l, f :| 0 <= l < |levels| && f in levels[l] && !R.HasFile(children, f.number);
      assert f.number in LiveNumbers(files);
    }
  }

  /** Recover, and the record that makes its result the current version. */
  method Restore(records: seq<VersionEdit>, children: seq<O.Child>, contents: nat -> seq<R.Record>,
                 paranoid: bool, memFull: seq<Entry> -> bool, fileSize: seq<Entry> -> nat, ghost s: L.State)
    returns (r: Option<Restored>)
    requires L.FilesInv(s) && L.LogInv(s) && LsmLogs.LogsInOrder(s) && M.ManifestInv(s, records)
    requires R.IsDirectory(children) && R.OnDisk(children, contents, s)
    ensures r.None? <==> TableMissing(s.levels, children) || (paranoid && R.HasFault(s.logs, s.logNumber, contents))
    ensures r.Some? ==> OrderedLists(r.value.files)
    ensures r.Some? ==> var t := AfterReopen(s, LevelSets(r.value.files), r.value.lastSequence, r.value.newLog);
                        ReopenedFrom(s, records, t, r.value.records)
  {
    var recovered := VersionSets.Recover(records);
    ManifestRecovers(s, records, recovered);
    var v := recovered.value;
    MissingIsMissing(v.levels, s.levels, children);
    var replay := R.Recover(children, LiveNumbers(v.levels), contents, paranoid, v.logNumber, v.nextFile,
                            v.lastSequence, memFull, fileSize, s);
    if replay.None? {
      return None;
    }
    var newLog, last := replay.value.newLog, replay.value.lastSequence;
    var files, edit := ReopenVersion(v.levels, replay.value.tables, newLog, last, s, records);
    r := Some(Restored(files, [Snapshot(v.levels)] + [edit], last, newLog));
  }

  lemma SameManifest(s: L.State, t: L.State, records: seq<VersionEdit>)
    requires M.ManifestInv(s, records) && t.levels == s.levels && t.pending == s.pending && t.nextFile == s.nextFile
    requires t.logNumber == s.logNumber && t.manifestNextFile == s.manifestNextFile
    requires t.manifestSequence == s.manifestSequence
    ensures M.ManifestInv(t, records)
  {
  }

  /** What a recovery works on: the state at the crash without the lost entries. */
  lemma LeftState(records: seq<VersionEdit>, children: seq<O.Child>, contents: nat -> seq<R.Record>, s: L.State,
                  logs: seq<L.Log>, left: L.State)
    requires L.Inv(s) && LsmLosses.FlushedInv(s) && M.ManifestInv(s, records) && R.LeftOnDisk(children, contents, s)
    requires logs == R.Surviving(s.logs, s.logNumber, contents) && left == LsmLosses.Damaged(s, logs)
    ensures L.FilesInv(left) && L.LogInv(left) && LsmLogs.LogsInOrder(left) && M.ManifestInv(left, records)
    ensures R.OnDisk(children, contents, left)
  {
    R.LeftIsOnDisk(children, contents, s, logs, left);
    LsmLosses.DamagedInv(s, logs, left);
    LsmLosses.FlushedInOrder(left);
    SameManifest(s, left, records);
  }

  /** DB::Open after a crash in any state: the MANIFEST and what is left of the logs is all it has. It fails
      exactly if the directory has no file under the number of some live table, or, with paranoid checks, if a
      log is at fault; else it is the recovery step of the state without the lost entries, which is the state
      itself if no entry is lost. */
  method Open(records: seq<VersionEdit>, children: seq<O.Child>, logs: seq<L.Log>,
              contents: nat -> seq<R.Record>, paranoid: bool, memFull: seq<Entry> -> bool,
              fileSize: seq<Entry> -> nat, ghost s: L.State)
    returns (db: Option<Database>)
    requires L.Inv(s) && LsmLosses.FlushedInv(s) && M.ManifestInv(s, records)
    requires R.IsDirectory(children) && R.LeftOnDisk(children, contents, s)
    requires logs == R.Surviving(s.logs, s.logNumber, contents)
    ensures db.None? <==> TableMissing(s.levels, children) || (paranoid && R.HasFault(s.logs, s.logNumber, contents))
    ensures db.Some? ==> db.value.Rep()
    ensures db.Some? ==> ReopenedFrom(LsmLosses.Damaged(s, logs), records, db.value.View(), db.value.manifest)
    ensures logs == s.logs ==> LsmLosses.Damaged(s, logs) == s
  {
    ghost var left := LsmLosses.Damaged(s, logs);
    LeftState(records, children, contents, s, logs, left);
    R.SameFaults(s.logs, s.logNumber, contents);
    if logs == s.logs { LsmLosses.NothingDamaged(s); }
    var r := Restore(records, children, contents, paranoid, memFull, fileSize, left);
    if r.None? {
      return None;
    }
    var d := new Database.Reopened(r.value.files, r.value.records, r.value.lastSequence, r.value.newLog, logs, left);
    db := Some(d);
  }
}
