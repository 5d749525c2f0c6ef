/** The version edits of flushes, moves, compactions and recoveries (project/db_impl.cc), and the versions that
    LogAndApply builds from them. */
module Installs {
  import opened InternalKeys
  import opened TableFiles
  import opened FileSearch
  import opened CompactionInputs
  import opened LevelUpdates
  import opened MemTables
  import opened Builders
  import opened VersionSets
  import L = Lsm
  import M = Manifests
  import P = Placements

  /** The step was taken, and the MANIFEST says so. */
  ghost predicate Taken(s: L.State, step: L.Step, records: seq<VersionEdit>, t: L.State, after: seq<VersionEdit>) {
    L.Next(s, step, t) && M.Logs(s, step, t, records, after)
  }

  lemma IsTaken(s: L.State, step: L.Step, records: seq<VersionEdit>, t: L.State, edit: VersionEdit)
    requires L.Next(s, step, t) && M.IsLogged(step) && !step.ReopenStep? && M.IsEditOf(edit, s, step, t)
    ensures Taken(s, step, records, t, records + [edit])
  {
  }

  lemma OrderedIsValid(files: seq<seq<TableFile>>)
    requires OrderedLists(files) && OrderedLevels(LevelSets(files))
    ensures ValidLevels(files)
  {
    forall l, f | 0 <= l < NUM_LEVELS && f in files[l] ensures WellFormed(f) {
      assert f in LevelSets(files)[l];
    }
    forall l | 1 <= l < NUM_LEVELS ensures SortedLevel(files[l]) {
      assert Disjoint(LevelSets(files)[l]);
      OrderedDisjointIsSorted(files[l]);
    }
  }

  /** Numbers above those of all files are fresh. */
  lemma NewNumbersAreFresh(s: L.State, current: seq<seq<TableFile>>, edit: VersionEdit)
    requires L.FilesInv(s) && s.levels == LevelSets(current) && ValidEdit(edit)
    requires forall l | 0 <= l < NUM_LEVELS :: NumbersName(AddedAt(edit, l))
    requires forall l, m, f, g | 0 <= l < NUM_LEVELS && l == m && f in AddedAt(edit, l) && g in s.levels[m] ::
        f.number != g.number
    ensures FreshOn(current, edit)
  {
    var b := EmptyBatch(LevelSets(current));
    forall l | 0 <= l < NUM_LEVELS
      ensures Numbers(AddedAt(edit, l)) !! Numbers(FileSet(current[l]))
      ensures b.base[l] + b.added[l] == FileSet(current[l])
    {
      assert s.levels[l] == FileSet(current[l]);
    }
  }

  /** The places of an edit that adds files to one level. */
  lemma PlacesOfOneLevel(edit: VersionEdit, level: nat, files: set<TableFile>)
    requires forall l: nat :: AddedAt(edit, l) == if l == level then files else {}
    ensures M.EditPlaces(edit) == P.At(level, files)
  {
    forall l: nat, n: nat ensures (l, n) in M.EditPlaces(edit) <==> (l, n) in P.At(level, files) {
      M.AddedPlaces(edit, l, n);
    }
  }

  ghost predicate Counters(edit: VersionEdit, t: L.State) {
    && edit.logNumber == Some(t.logNumber) && edit.nextFile == Some(t.manifestNextFile)
    && edit.lastSequence == Some(t.manifestSequence)
  }

  // ---- Flushes ----

  lemma PickedIsClear(levels: seq<seq<TableFile>>, level: nat, f: TableFile)
    requires level < NUM_LEVELS == |levels|
    requires forall l | 0 <= l <= level ::
               !OverlapInLevel(levels, l, Range(Some(f.smallest.user), Some(f.largest.user)))
    ensures ClearDownTo(LevelSets(levels), level, f)
  {
    forall m, g | 0 <= m <= level && g in LevelSets(levels)[m] ensures !RangesMeet(f, g) {
      assert g in levels[m];
      assert !OverlapInLevel(levels, m, Range(Some(f.smallest.user), Some(f.largest.user)));
    }
  }

  /** During a manual compaction: if nothing keeps the memtable from its output level, then what it keeps is
      not on both sides of the memtable. */
  ghost predicate NotAstride(levels: seq<set<TableFile>>, pending: Option<L.Pending>, es: seq<Entry>) {
    (pending.Some? && !pending.value.automatic && es != []
     && ClearDownTo(levels, pending.value.level + 1, AsTable(es))) ==>
      OneSide(AsTable(es), L.KeptOf(pending.value))
  }

  lemma MayKeepClear(s: L.State, es: seq<Entry>, level: nat, f: TableFile)
    requires es != [] && NotAstride(s.levels, s.pending, es)
    requires f.smallest == es[0].key && f.largest == es[|es| - 1].key
    requires level > 0 ==> ClearDownTo(s.levels, level, f)
    ensures L.KeepsClear(s, level, f)
  {
    if s.pending.Some? && !s.pending.value.automatic && level == s.pending.value.level + 1 {
      forall m, g | 0 <= m <= level && m < |s.levels| && g in s.levels[m] ensures !RangesMeet(AsTable(es), g) {
        assert !RangesMeet(f, g);
      }
    }
  }

  /** The state without the compaction under way. */
  ghost function Alone(s: L.State): L.State {
    s.(pending := None)
  }

  /** WriteLevel0Table: an empty memtable leaves no file. Apart from a manual compaction under way, the table may
      always be placed where the level picker puts it. */
  method WriteLevel0Table(es: seq<Entry>, levels: seq<seq<TableFile>>, number: nat, maxMemCompactLevel: nat,
                          maxFileSize: nat, fileSize: seq<Entry> -> nat, ghost s: L.State)
    returns (level: nat, file: Option<TableFile>)
    requires SortedEntries(es) && OrderedLists(levels) && maxMemCompactLevel < NUM_LEVELS
    requires L.FilesInv(s) && s.imm == Some(EntrySet(es)) && s.levels == LevelSets(levels) && s.nextFile == number
    ensures L.MayFlush(Alone(s), file, level)
    ensures NotAstride(s.levels, s.pending, es) ==> L.MayFlush(s, file, level)
  {
    level, file := 0, None;
    assert es != [] ==> es[0] in EntrySet(es);
    if es != [] {
      OrderedIsValid(levels);
      var smallest, largest := es[0].key, es[|es| - 1].key;
      var f := TableFile(number, fileSize(es), smallest, largest, es);
      level := PickLevelForMemTableOutput(levels, smallest.user, largest.user, maxMemCompactLevel, maxFileSize);
      if level > 0 { PickedIsClear(levels, level, f); }
      if NotAstride(s.levels, s.pending, es) { MayKeepClear(s, es, level, f); }
      file := Some(f);
    }
  }

  function FlushedLevels(levels: seq<set<TableFile>>, level: nat, file: Option<TableFile>): seq<set<TableFile>>
    requires level < |levels|
  {
    if file.Some? then WithFile(levels, level, file.value) else levels
  }

  lemma FlushDescribed(s: L.State, file: Option<TableFile>, level: nat, edit: VersionEdit)
    requires edit.deletedFiles == [] && edit.newFiles == if file.Some? then [(level, file.value)] else []
    ensures P.Describes(edit, s, L.FlushStep(file, level))
    ensures M.EditPlaces(edit) == P.NewPlaces(s, L.FlushStep(file, level))
  {
    var added := if file.Some? then {file.value} else {};
    forall l: nat ensures DeletedAt(edit, l) == {} && AddedAt(edit, l) == if l == level then added else {} {}
    PlacesOfOneLevel(edit, level, added);
  }

  /** The edit of a flush is fresh, and leads to the levels of the flush step. */
  lemma FlushEdit(s: L.State, current: seq<seq<TableFile>>, file: Option<TableFile>, level: nat, edit: VersionEdit)
    requires L.FilesInv(s) && L.MayFlush(s, file, level) && s.levels == LevelSets(current)
    requires edit.deletedFiles == [] && edit.newFiles == if file.Some? then [(level, file.value)] else []
    ensures FreshOn(current, edit)
    ensures VersionAfter(LevelSets(current), edit) == FlushedLevels(s.levels, level, file)
  {
    var added := if file.Some? then {file.value} else {};
    forall l: nat ensures DeletedAt(edit, l) == {} && AddedAt(edit, l) == if l == level then added else {} {}
    forall l | 0 <= l < NUM_LEVELS
      ensures VersionAfter(LevelSets(current), edit)[l] == FlushedLevels(s.levels, level, file)[l]
    {
      P.OnlyAdds(s.levels[l], AddedAt(edit, l));
    }
    P.SameLevels(VersionAfter(LevelSets(current), edit), FlushedLevels(s.levels, level, file));
    NewNumbersAreFresh(s, current, edit);
  }

  /** The immutable memtable has become a file at some level, or was empty. */
  ghost predicate FlushedFrom(s: L.State, records: seq<VersionEdit>, t: L.State, after: seq<VersionEdit>) {
    exists file, level :: Taken(s, L.FlushStep(file, level), records, t, after)
  }

  lemma IsFlushed(s: L.State, file: Option<TableFile>, level: nat, records: seq<VersionEdit>, t: L.State,
                  edit: VersionEdit)
    requires L.MayFlush(s, file, level) && |s.levels| == NUM_LEVELS && s.logs != [] && t == L.Flush(s, file, level)
    requires edit.deletedFiles == [] && edit.newFiles == (if file.Some? then [(level, file.value)] else [])
        && Counters(edit, t)
    ensures FlushedFrom(s, records, t, records + [edit])
  {
    FlushDescribed(s, file, level, edit);
    IsTaken(s, L.FlushStep(file, level), records, t, edit);
  }

  ghost function AfterFlush(s: L.State, levels: seq<set<TableFile>>, logNumber: nat): L.State {
    s.(imm := None, levels := levels, nextFile := s.nextFile + 1, logNumber := logNumber,
       manifestSequence := s.lastSequence, manifestNextFile := s.nextFile + 1)
  }

  lemma FlushLeadsTo(s: L.State, file: Option<TableFile>, level: nat, records: seq<VersionEdit>, edit: VersionEdit,
                     levels: seq<set<TableFile>>, t: L.State)
    requires L.MayFlush(s, file, level) && |s.levels| == NUM_LEVELS && s.logs != []
    requires edit.deletedFiles == [] && edit.newFiles == if file.Some? then [(level, file.value)] else []
    requires edit.logNumber == Some(s.logs[|s.logs| - 1].number) && edit.nextFile == Some(s.nextFile + 1)
        && edit.lastSequence == Some(s.lastSequence)
    requires levels == FlushedLevels(s.levels, level, file)
    requires t == AfterFlush(s, levels, s.logs[|s.logs| - 1].number)
    ensures FlushedFrom(s, records, t, records + [edit])
  {
    IsFlushed(s, file, level, records, L.Flush(s, file, level), edit);
  }

  lemma BothFlushes(s: L.State, es: seq<Entry>, file: Option<TableFile>, level: nat, records: seq<VersionEdit>,
                    edit: VersionEdit, levels: seq<set<TableFile>>, t: L.State)
    requires L.MayFlush(Alone(s), file, level) && (NotAstride(s.levels, s.pending, es) ==> L.MayFlush(s, file, level))
    requires |s.levels| == NUM_LEVELS && s.logs != [] && levels == FlushedLevels(s.levels, level, file)
    requires edit.deletedFiles == [] && edit.newFiles == if file.Some? then [(level, file.value)] else []
    requires edit.logNumber == Some(s.logs[|s.logs| - 1].number) && edit.nextFile == Some(s.nextFile + 1)
        && edit.lastSequence == Some(s.lastSequence)
    requires t == AfterFlush(s, levels, s.logs[|s.logs| - 1].number)
    ensures FlushedFrom(Alone(s), records, Alone(t), records + [edit])
    ensures NotAstride(s.levels, s.pending, es) ==> FlushedFrom(s, records, t, records + [edit])
  {
    FlushLeadsTo(Alone(s), file, level, records, edit, levels, Alone(t));
    if NotAstride(s.levels, s.pending, es) { FlushLeadsTo(s, file, level, records, edit, levels, t); }
  }

  /** The new table, and the version it leads to. */
  method FlushFiles(es: seq<Entry>, current: seq<seq<TableFile>>, number: nat, logNumber: nat, lastSequence: Sequence,
                    maxMemCompactLevel: nat, maxFileSize: nat, fileSize: seq<Entry> -> nat, ghost s: L.State,
                    ghost records: seq<VersionEdit>)
    returns (files: seq<seq<TableFile>>, edit: VersionEdit)
    requires SortedEntries(es) && OrderedLists(current) && maxMemCompactLevel < NUM_LEVELS && s.logs != []
    requires L.FilesInv(s) && s.imm == Some(EntrySet(es)) && s.levels == LevelSets(current) && s.nextFile == number
    requires s.logs[|s.logs| - 1].number == logNumber && s.lastSequence == lastSequence
    ensures OrderedLists(files)
    ensures FlushedFrom(Alone(s), records, Alone(AfterFlush(s, LevelSets(files), logNumber)), records + [edit])
    ensures NotAstride(s.levels, s.pending, es) ==>
              FlushedFrom(s, records, AfterFlush(s, LevelSets(files), logNumber), records + [edit])
  {
    var level, file := WriteLevel0Table(es, current, number, maxMemCompactLevel, maxFileSize, fileSize, s);
    edit := VersionEdit([], if file.Some? then [(level, file.value)] else [], Some(logNumber), None, None);
    edit := Complete(edit, logNumber, number + 1, lastSequence);
    FlushEdit(Alone(s), current, file, level, edit);
    files := BuildNext(current, edit);
    BothFlushes(s, es, file, level, records, edit, LevelSets(files), AfterFlush(s, LevelSets(files), logNumber));
  }

  // ---- Trivial moves ----

  lemma MoveDescribed(s: L.State, level: nat, f: TableFile, edit: VersionEdit)
    requires edit.deletedFiles == [(level, f.number)] && edit.newFiles == [(level + 1, f)]
    ensures P.Describes(edit, s, L.MoveStep(level, f))
    ensures M.EditPlaces(edit) == P.NewPlaces(s, L.MoveStep(level, f))
    ensures forall l: nat :: AddedAt(edit, l) == if l == level + 1 then {f} else {}
  {
    forall l: nat
      ensures DeletedAt(edit, l) == (if l == level then {f.number} else {})
      ensures AddedAt(edit, l) == if l == level + 1 then {f} else {}
    {
    }
    PlacesOfOneLevel(edit, level + 1, {f});
  }

  lemma MoveEdit(s: L.State, current: seq<seq<TableFile>>, level: nat, f: TableFile, edit: VersionEdit)
    requires OrderedLists(current) && L.FilesInv(s) && s.levels == LevelSets(current)
    requires level + 1 < NUM_LEVELS && f in s.levels[level]
    requires edit.deletedFiles == [(level, f.number)] && edit.newFiles == [(level + 1, f)]
    ensures FreshOn(current, edit) && VersionAfter(LevelSets(current), edit) == L.TrivialMove(s, level, f).levels
  {
    MoveDescribed(s, level, f, edit);
    P.MoveIsEdit(s, level, f, edit);
    NewNumbersAreFresh(s, current, edit);
  }

  /** The edit of a trivial move, and the version it leads to. */
  method MoveVersion(current: seq<seq<TableFile>>, level: nat, f: TableFile, logNumber: nat, nextFile: nat,
                     lastSequence: Sequence, ghost s: L.State, ghost records: seq<VersionEdit>)
    returns (files: seq<seq<TableFile>>, edit: VersionEdit)
    requires OrderedLists(current) && L.FilesInv(s) && s.levels == LevelSets(current)
    requires s.logNumber == logNumber && s.nextFile == nextFile && s.lastSequence == lastSequence
    requires s.pending.None? && level + 1 < NUM_LEVELS && InputsClosed(LevelSets(current), level, {f}, {})
    ensures OrderedLists(files)
    ensures Taken(s, L.MoveStep(level, f), records,
                  s.(levels := LevelSets(files), manifestSequence := lastSequence, manifestNextFile := nextFile),
                  records + [edit])
  {
    assert f in {f};
    edit := Complete(VersionEdit([(level, f.number)], [(level + 1, f)], None, None, None),
                     logNumber, nextFile, lastSequence);
    MoveEdit(s, current, level, f, edit);
    files := BuildNext(current, edit);
    MoveDescribed(s, level, f, edit);
    IsTaken(s, L.MoveStep(level, f), records, L.TrivialMove(s, level, f), edit);
  }

  // ---- Compactions ----

  function Deletions(level: nat, files: seq<TableFile>): seq<(nat, nat)> {
    seq(|files|, i requires 0 <= i < |files| => (level, files[i].number))
  }

  lemma DeletionsAt(level: nat, files: seq<TableFile>, n: nat)
    ensures (level, n) in Deletions(level, files) <==> n in Numbers(FileSet(files))
  {
    if n in Numbers(FileSet(files)) {
      var f :| f in files && f.number == n;
      var i :| 0 <= i < |files| && files[i] == f;
      assert Deletions(level, files)[i] == (level, n);
    }
  }

  lemma AddsToOneLevel(edit: VersionEdit, level: nat, files: seq<TableFile>)
    requires edit.newFiles == LevelFiles(level, files)
    ensures forall l: nat :: AddedAt(edit, l) == if l == level then FileSet(files) else {}
  {
    forall f | f in files ensures (level, f) in edit.newFiles {
      var i :| 0 <= i < |files| && files[i] == f;
      assert LevelFiles(level, files)[i] == (level, f);
    }
    forall l: nat, f ensures f in AddedAt(edit, l) <==> (l, f) in edit.newFiles {
      if (l, f) in edit.newFiles { assert (l, f).0 == l && (l, f).1 == f; }
    }
  }

  lemma DeletesInputs(edit: VersionEdit, level: nat, in0: seq<TableFile>, in1: seq<TableFile>, l: nat)
    requires edit.deletedFiles == Deletions(level, in0) + Deletions(level + 1, in1)
    ensures DeletedAt(edit, l)
         == if l == level then Numbers(FileSet(in0)) else if l == level + 1 then Numbers(FileSet(in1)) else {}
  {
    forall n: nat
      ensures (level, n) in Deletions(level, in0) <==> n in Numbers(FileSet(in0))
      ensures (level + 1, n) in Deletions(level + 1, in1) <==> n in Numbers(FileSet(in1))
    {
      DeletionsAt(level, in0, n);
      DeletionsAt(level + 1, in1, n);
    }
    forall n: nat ensures n in DeletedAt(edit, l) <==> (l, n) in edit.deletedFiles {
      if (l, n) in edit.deletedFiles { assert (l, n).0 == l && (l, n).1 == n; }
    }
  }

  ghost predicate IsFinishEdit(edit: VersionEdit, level: nat, in0: seq<TableFile>, in1: seq<TableFile>,
                               outputs: seq<TableFile>) {
    && edit.deletedFiles == Deletions(level, in0) + Deletions(level + 1, in1)
    && edit.newFiles == LevelFiles(level + 1, outputs)
  }

  lemma FinishDescribed(s: L.State, level: nat, in0: seq<TableFile>, in1: seq<TableFile>, outputs: seq<TableFile>,
                        edit: VersionEdit)
    requires s.pending.Some? && IsFinishEdit(edit, level, in0, in1, outputs)
    requires var p := s.pending.value; p.level == level && p.in0 == FileSet(in0) && p.in1 == FileSet(in1)
    ensures P.Describes(edit, s, L.FinishStep(FileSet(outputs)))
    ensures M.EditPlaces(edit) == P.NewPlaces(s, L.FinishStep(FileSet(outputs)))
  {
    AddsToOneLevel(edit, level + 1, outputs);
    forall l: nat
      ensures DeletedAt(edit, l)
           == if l == level then Numbers(FileSet(in0)) else if l == level + 1 then Numbers(FileSet(in1)) else {}
    {
      DeletesInputs(edit, level, in0, in1, l);
    }
    PlacesOfOneLevel(edit, level + 1, FileSet(outputs));
  }

  lemma FinishEdit(s: L.State, current: seq<seq<TableFile>>, level: nat, in0: seq<TableFile>, in1: seq<TableFile>,
                   outputs: seq<TableFile>, edit: VersionEdit)
    requires OrderedLists(current) && L.FilesInv(s) && L.PendingInv(s) && s.levels == LevelSets(current)
        && s.pending.Some?
    requires var p := s.pending.value; p.level == level && p.in0 == FileSet(in0) && p.in1 == FileSet(in1)
    requires L.IsOutputOf(s.pending.value, FileSet(outputs)) && IsFinishEdit(edit, level, in0, in1, outputs)
    ensures FreshOn(current, edit)
    ensures VersionAfter(LevelSets(current), edit) == L.FinishCompaction(s, FileSet(outputs)).levels
  {
    FinishDescribed(s, level, in0, in1, outputs, edit);
    P.FinishIsEdit(s, FileSet(outputs), edit);
    AddsToOneLevel(edit, level + 1, outputs);
    NewNumbersAreFresh(s, current, edit);
  }

  // ---- Recovery ----

  lemma TablesDescribed(s: L.State, tables: seq<TableFile>, newLog: nat, last: Sequence, edit: VersionEdit)
    requires edit.deletedFiles == [] && edit.newFiles == LevelFiles(0, tables)
    ensures P.Describes(edit, s, L.ReopenStep(tables, newLog, last))
    ensures M.EditPlaces(edit) == P.NewPlaces(s, L.ReopenStep(tables, newLog, last))
  {
    AddsToOneLevel(edit, 0, tables);
    PlacesOfOneLevel(edit, 0, FileSet(tables));
  }

  lemma TablesHaveNames(s: L.State, tables: seq<TableFile>, newLog: nat)
    requires L.IsReplay(s, tables, newLog)
    ensures NumbersName(FileSet(tables))
  {
  }

  /** The edit of a recovery is fresh, and leads to the levels of the reopened database. */
  lemma ReopenEdit(s: L.State, current: seq<seq<TableFile>>, tables: seq<TableFile>, newLog: nat, edit: VersionEdit)
    requires L.FilesInv(s) && s.levels == LevelSets(current) && L.IsReplay(s, tables, newLog)
    requires edit.deletedFiles == [] && edit.newFiles == LevelFiles(0, tables)
    ensures FreshOn(current, edit)
    ensures VersionAfter(LevelSets(current), edit) == L.AddAll(s.levels, tables)
  {
    AddsToOneLevel(edit, 0, tables);
    TablesHaveNames(s, tables, newLog);
    forall l | 0 <= l < NUM_LEVELS
      ensures VersionAfter(LevelSets(current), edit)[l] == L.AddAll(s.levels, tables)[l]
    {
      P.OnlyAdds(s.levels[l], AddedAt(edit, l));
    }
    P.SameLevels(VersionAfter(LevelSets(current), edit), L.AddAll(s.levels, tables));
    NewNumbersAreFresh(s, current, edit);
  }

  ghost predicate ReopenedFrom(s: L.State, records: seq<VersionEdit>, t: L.State, after: seq<VersionEdit>) {
    exists tables, newLog, last :: Taken(s, L.ReopenStep(tables, newLog, last), records, t, after)
  }

  lemma IsReopened(s: L.State, tables: seq<TableFile>, newLog: nat, last: Sequence, records: seq<VersionEdit>,
                   t: L.State, snapshot: VersionEdit, edit: VersionEdit)
    requires |s.levels| > 0 && L.IsReplay(s, tables, newLog) && L.IsRecovered(s, last)
    requires t == L.Reopen(s, tables, newLog, last)
    requires IsSnapshotOf(snapshot, s.levels)
    requires edit.deletedFiles == [] && edit.newFiles == LevelFiles(0, tables) && Counters(edit, t)
    ensures ReopenedFrom(s, records, t, [snapshot] + [edit])
  {
    TablesDescribed(s, tables, newLog, last, edit);
    AddsToOneLevel(edit, 0, tables);
    TablesHaveNames(s, tables, newLog);
    assert M.IsEditOf(edit, s, L.ReopenStep(tables, newLog, last), t);
    assert Taken(s, L.ReopenStep(tables, newLog, last), records, t, [snapshot] + [edit]);
  }

  ghost function AfterReopen(s: L.State, levels: seq<set<TableFile>>, last: Sequence, newLog: nat): L.State {
    L.State({}, None, levels, last, multiset{}, None, newLog + 1,
            s.logs + [L.Log(newLog, [])], newLog, last, newLog + 1,
            s.history, s.horizon)
  }

  lemma IsAfterReopen(s: L.State, tables: seq<TableFile>, newLog: nat, last: Sequence, levels: seq<set<TableFile>>)
    requires |s.levels| > 0 && levels == L.AddAll(s.levels, tables)
    ensures AfterReopen(s, levels, last, newLog) == L.Reopen(s, tables, newLog, last)
  {
  }

  /** The edit of a recovery, after a snapshot of what the MANIFEST gave, and the version they lead to. */
  method ReopenVersion(current: seq<seq<TableFile>>, tables: seq<TableFile>, newLog: nat, last: Sequence,
                       ghost s: L.State, ghost records: seq<VersionEdit>)
    returns (files: seq<seq<TableFile>>, edit: VersionEdit)
    requires OrderedLists(current) && L.FilesInv(s) && s.levels == LevelSets(current) && L.IsReplay(s, tables, newLog)
    requires L.IsRecovered(s, last)
    ensures OrderedLists(files)
    ensures ReopenedFrom(s, records, AfterReopen(s, LevelSets(files), last, newLog), [Snapshot(current)] + [edit])
  {
    edit := VersionEdit([], LevelFiles(0, tables), Some(newLog), None, None);
    edit := Complete(edit, newLog, newLog + 1, last);
    ReopenEdit(s, current, tables, newLog, edit);
    files := BuildNext(current, edit);
    SnapshotIsWhole(current);
    IsAfterReopen(s, tables, newLog, last, LevelSets(files));
    IsReopened(s, tables, newLog, last, records, AfterReopen(s, LevelSets(files), last, newLog), Snapshot(current),
               edit);
  }
}
