/** VersionSet::LogAndApply, WriteSnapshot and Recover of project/version_set.cc: the MANIFEST always rebuilds
    the installed version. */
module VersionSets {
  import opened InternalKeys
  import opened TableFiles
  import opened Builders

  function NoLevels(): (r: seq<seq<TableFile>>)
    ensures |r| == NUM_LEVELS && forall l | 0 <= l < NUM_LEVELS :: r[l] == []
  {
    seq(NUM_LEVELS, _ => [])
  }

  /** All records of a MANIFEST through one builder that starts from nothing. */
  ghost function Replay(records: seq<VersionEdit>): (b: Batch)
    ensures ValidBatch(b)
  {
    ApplyEdits(EmptyBatch(LevelSets(NoLevels())), records)
  }

  /** The files a level has ever had according to the records. */
  ghost predicate FreshEdit(records: seq<VersionEdit>, edit: VersionEdit) {
    && ValidEdit(edit)
    && FreshFor(Replay(records), edit)
    && forall l | 0 <= l < NUM_LEVELS :: NumbersName(AddedAt(edit, l))
  }

  /** A MANIFEST that adds each (level, number) at most once. */
  ghost predicate ValidRecords(records: seq<VersionEdit>) {
    records == [] ||
    (var n := |records| - 1; ValidRecords(records[..n]) && FreshEdit(records[..n], records[n]))
  }

  // ---- The last value of each field ----

  function LastLog(records: seq<VersionEdit>): Option<nat> {
    if records == [] then None
    else if records[|records| - 1].logNumber.Some? then records[|records| - 1].logNumber
    else LastLog(records[..|records| - 1])
  }

  function LastNextFile(records: seq<VersionEdit>): Option<nat> {
    if records == [] then None
    else if records[|records| - 1].nextFile.Some? then records[|records| - 1].nextFile
    else LastNextFile(records[..|records| - 1])
  }

  function LastSequenceOf(records: seq<VersionEdit>): Option<Sequence> {
    if records == [] then None
    else if records[|records| - 1].lastSequence.Some? then records[|records| - 1].lastSequence
    else LastSequenceOf(records[..|records| - 1])
  }

  datatype Recovered = Recovered(levels: seq<seq<TableFile>>, logNumber: nat, nextFile: nat, lastSequence: Sequence)

  // ---- Facts about replaying ----

  lemma ReplayNext(records: seq<VersionEdit>, edit: VersionEdit)
    ensures Replay(records + [edit]) == ApplyEdit(Replay(records), edit)
  {
    assert (records + [edit])[..|records|] == records;
  }

  lemma FreshNames(b: Batch, edit: VersionEdit, l: nat)
    requires ValidBatch(b) && l < NUM_LEVELS && FreshFor(b, edit)
    requires NumbersName(b.added[l]) && NumbersName(AddedAt(edit, l))
    ensures NumbersName(b.added[l] + AddedAt(edit, l))
  {
    forall f | f in b.added[l] ensures f.number !in Numbers(AddedAt(edit, l)) {
      assert f.number in Numbers(b.base[l] + b.added[l]);
    }
    forall g | g in AddedAt(edit, l) ensures g.number in Numbers(AddedAt(edit, l)) {}
  }

  lemma {:induction false} ReplayedNames(records: seq<VersionEdit>)
    requires ValidRecords(records)
    ensures forall l | 0 <= l < NUM_LEVELS :: Replay(records).base[l] == {} && NumbersName(Replay(records).added[l])
  {
    if records != [] {
      var n := |records| - 1;
      ReplayedNames(records[..n]);
      forall l | 0 <= l < NUM_LEVELS ensures NumbersName(Replay(records).added[l]) {
        FreshNames(Replay(records[..n]), records[n], l);
      }
    }
  }

  /** A fresh edit takes the replayed version to its successor. */
  lemma ReplayStep(records: seq<VersionEdit>, edit: VersionEdit)
    requires FreshEdit(records, edit)
    ensures Result(Replay(records + [edit])) == VersionAfter(Result(Replay(records)), edit)
  {
    ReplayNext(records, edit);
    FreshIsNoRevival(Replay(records), edit);
    BatchingExact(Replay(records), edit);
  }

  // ---- Snapshot ----

  function LevelFiles(level: nat, files: seq<TableFile>): seq<(nat, TableFile)> {
    seq(|files|, i requires 0 <= i < |files| => (level, files[i]))
  }

  function AllFiles(levels: seq<seq<TableFile>>): seq<(nat, TableFile)> {
    if levels == [] then []
    else AllFiles(levels[..|levels| - 1]) + LevelFiles(|levels| - 1, levels[|levels| - 1])
  }

  /** WriteSnapshot: one record that adds every file of the version. */
  function Snapshot(levels: seq<seq<TableFile>>): VersionEdit {
    VersionEdit([], AllFiles(levels), None, None, None)
  }

  lemma {:induction false} AllFilesMembers(levels: seq<seq<TableFile>>)
    ensures forall a | a in AllFiles(levels) :: a.0 < |levels| && a.1 in levels[a.0]
    ensures forall l, f | 0 <= l < |levels| && f in levels[l] :: (l, f) in AllFiles(levels)
  {
    if levels != [] {
      var n := |levels| - 1;
      AllFilesMembers(levels[..n]);
      forall f | f in levels[n] ensures (n, f) in LevelFiles(n, levels[n]) {
        var i :| 0 <= i < |levels[n]| && levels[n][i] == f;
        assert LevelFiles(n, levels[n])[i] == (n, f);
      }
    }
  }

  lemma SnapshotAdds(levels: seq<seq<TableFile>>, l: nat)
    requires |levels| == NUM_LEVELS && l < NUM_LEVELS
    ensures AddedAt(Snapshot(levels), l) == FileSet(levels[l]) && DeletedAt(Snapshot(levels), l) == {}
  {
    AllFilesMembers(levels);
    forall f | f in levels[l] ensures f in AddedAt(Snapshot(levels), l) {
      assert (l, f) in AllFiles(levels);
    }
  }

  lemma ReplayOfNothing()
    ensures forall l | 0 <= l < NUM_LEVELS :: Replay([]).base[l] + Replay([]).added[l] == {}
    ensures forall l | 0 <= l < NUM_LEVELS :: Result(Replay([]))[l] == {}
  {
    forall l | 0 <= l < NUM_LEVELS ensures Replay([]).base[l] + Replay([]).added[l] == {} {}
  }

  /** One record that adds every file of the levels. */
  ghost predicate IsSnapshotOf(edit: VersionEdit, levels: seq<set<TableFile>>) {
    && |levels| == NUM_LEVELS && ValidEdit(edit)
    && forall l | 0 <= l < NUM_LEVELS :: DeletedAt(edit, l) == {} && AddedAt(edit, l) == levels[l]
  }

  lemma FreshOnNothing(edit: VersionEdit)
    requires ValidEdit(edit) && forall l | 0 <= l < NUM_LEVELS :: NumbersName(AddedAt(edit, l))
    ensures FreshEdit([], edit)
  {
    ReplayOfNothing();
    assert Numbers({}) == {};
  }

  lemma FirstRecord(edit: VersionEdit)
    requires FreshEdit([], edit)
    ensures ValidRecords([edit]) && Result(Replay([edit])) == VersionAfter(Result(Replay([])), edit)
  {
    assert [] + [edit] == [edit] && [edit][..0] == [];
    ReplayStep([], edit);
  }

  lemma AddedToNothing(added: set<TableFile>)
    ensures LevelAfter({}, {}, added) == added
  {
  }

  /** Replaying such a record gives the levels. */
  lemma WholeReplays(edit: VersionEdit, levels: seq<set<TableFile>>)
    requires IsSnapshotOf(edit, levels) && forall l | 0 <= l < NUM_LEVELS :: NumbersName(levels[l])
    ensures ValidRecords([edit]) && Result(Replay([edit])) == levels
  {
    FreshOnNothing(edit);
    FirstRecord(edit);
    ReplayOfNothing();
    forall l | 0 <= l < NUM_LEVELS ensures Result(Replay([edit]))[l] == levels[l] {
      AddedToNothing(levels[l]);
    }
  }

  lemma SnapshotIsWhole(levels: seq<seq<TableFile>>)
    requires |levels| == NUM_LEVELS
    ensures IsSnapshotOf(Snapshot(levels), LevelSets(levels))
  {
    AllFilesMembers(levels);
    forall l | 0 <= l < NUM_LEVELS ensures AddedAt(Snapshot(levels), l) == LevelSets(levels)[l] {
      SnapshotAdds(levels, l);
    }
  }

  /** Replaying the snapshot gives the version it was taken from. */
  lemma SnapshotReplays(levels: seq<seq<TableFile>>)
    requires |levels| == NUM_LEVELS && forall l | 0 <= l < NUM_LEVELS :: NumbersName(FileSet(levels[l]))
    ensures ValidRecords([Snapshot(levels)])
    ensures Result(Replay([Snapshot(levels)])) == LevelSets(levels)
  {
    SnapshotIsWhole(levels);
    WholeReplays(Snapshot(levels), LevelSets(levels));
  }

  // ---- The version set ----

  /** The edit as it is logged: with the counters filled in. */
  function Complete(edit: VersionEdit, logNumber: nat, nextFile: nat, lastSequence: Sequence): VersionEdit {
    edit.(logNumber := if edit.logNumber.Some? then edit.logNumber else Some(logNumber),
          nextFile := Some(nextFile), lastSequence := Some(lastSequence))
  }

  /** How writing a record to the MANIFEST may go: it is there and synced, or an error is reported although
      the record may have got there, or it has not. */
  datatype Written = Synced | Unsure | Lost

  lemma SameFiles(a: VersionEdit, b: VersionEdit)
    requires a.deletedFiles == b.deletedFiles && a.newFiles == b.newFiles
    ensures forall l: nat :: AddedAt(a, l) == AddedAt(b, l) && DeletedAt(a, l) == DeletedAt(b, l)
    ensures forall v :: VersionAfter(v, a) == VersionAfter(v, b)
    ensures ValidEdit(a) == ValidEdit(b)
    ensures forall records :: FreshEdit(records, a) == FreshEdit(records, b)
  {
  }

  /** Every file of the replayed version was added by some record. */
  lemma ResultNames(records: seq<VersionEdit>)
    requires ValidRecords(records)
    ensures forall l | 0 <= l < NUM_LEVELS :: NumbersName(Result(Replay(records))[l])
  {
    ReplayedNames(records);
  }

  /** The records with one more. */
  lemma LoggedRecords(records: seq<VersionEdit>, edit: VersionEdit)
    requires ValidRecords(records) && FreshEdit(records, edit)
    requires edit.logNumber.Some? && edit.nextFile.Some? && edit.lastSequence.Some?
    ensures ValidRecords(records + [edit])
    ensures Result(Replay(records + [edit])) == VersionAfter(Result(Replay(records)), edit)
    ensures LastLog(records + [edit]) == edit.logNumber && LastNextFile(records + [edit]) == edit.nextFile
    ensures LastSequenceOf(records + [edit]) == edit.lastSequence
    ensures forall l | 0 <= l < NUM_LEVELS :: NumbersName(Result(Replay(records + [edit]))[l])
  {
    ReplayStep(records, edit);
    assert (records + [edit])[..|records|] == records;
    ResultNames(records + [edit]);
  }

  /** The edit adds no file number that its level has, and no number twice. */
  ghost predicate FreshOn(current: seq<seq<TableFile>>, edit: VersionEdit) {
    && |current| == NUM_LEVELS && ValidEdit(edit) && FreshFor(EmptyBatch(LevelSets(current)), edit)
    && forall l | 0 <= l < NUM_LEVELS :: NumbersName(AddedAt(edit, l))
         && Numbers(AddedAt(edit, l)) !! Numbers(FileSet(current[l]))
  }

  lemma FreshForCurrent(current: seq<seq<TableFile>>, edit: VersionEdit, records: seq<VersionEdit>)
    requires |current| == NUM_LEVELS && FreshEdit(records, edit) && Result(Replay(records)) == LevelSets(current)
    ensures FreshOn(current, edit)
  {
    var b := Replay(records);
    forall l | 0 <= l < NUM_LEVELS
      ensures Numbers(AddedAt(edit, l)) !! Numbers(FileSet(current[l]))
      ensures EmptyBatch(LevelSets(current)).base[l] + EmptyBatch(LevelSets(current)).added[l] == FileSet(current[l])
    {
      assert LevelSets(current)[l] == Result(b)[l];
      assert FileSet(current[l]) <= b.base[l] + b.added[l];
      assert Numbers(FileSet(current[l])) <= Numbers(b.base[l] + b.added[l]);
    }
  }

  lemma BatchedIsNext(start: Batch, edit: VersionEdit, version: seq<set<TableFile>>)
    requires |version| == NUM_LEVELS && start == EmptyBatch(version) && FreshFor(start, edit)
    ensures Result(ApplyEdit(start, edit)) == VersionAfter(version, edit)
    ensures forall l | 0 <= l < NUM_LEVELS :: ApplyEdit(start, edit).added[l] == AddedAt(edit, l)
  {
    FreshIsNoRevival(start, edit);
    BatchingExact(start, edit);
    forall l | 0 <= l < NUM_LEVELS ensures Result(start)[l] == version[l] {
      assert LiveFiles(version[l], {}) == version[l] && version[l] + {} == version[l];
    }
  }

  lemma FreshNoClash(base: seq<TableFile>, added: seq<TableFile>, deleted: set<nat>, news: set<TableFile>)
    requires FileSet(added) == news && Numbers(news) !! Numbers(FileSet(base))
    ensures NoClash(base, added, deleted)
  {
    forall f, g | f in base && g in added ensures f.number != g.number {
      assert f.number in Numbers(FileSet(base));
      assert g in news && g.number in Numbers(news);
    }
  }

  lemma NextIsOrdered(current: seq<seq<TableFile>>, added: seq<seq<TableFile>>, deleted: seq<set<nat>>,
                      v: seq<seq<TableFile>>, edit: VersionEdit)
    requires |current| == |added| == |deleted| == |v| == NUM_LEVELS
    requires forall l | 0 <= l < NUM_LEVELS :: LevelSets(added)[l] == AddedAt(edit, l)
    requires forall l | 0 <= l < NUM_LEVELS :: Numbers(AddedAt(edit, l)) !! Numbers(FileSet(current[l]))
    requires forall l | 0 <= l < NUM_LEVELS ::
               Saved(current[l], added[l], deleted[l], v[l])
    ensures OrderedLists(v)
  {
    forall l | 0 <= l < NUM_LEVELS ensures StrictlyOrdered(v[l]) {
      FreshNoClash(current[l], added[l], deleted[l], AddedAt(edit, l));
    }
  }

  /** One edit through a builder on the current version. */
  method BuildNext(current: seq<seq<TableFile>>, edit: VersionEdit) returns (v: seq<seq<TableFile>>)
    requires OrderedLists(current) && FreshOn(current, edit)
    ensures OrderedLists(v) && LevelSets(v) == VersionAfter(LevelSets(current), edit)
  {
    var builder := new Builder(current);
    ghost var start := builder.View();
    forall l | 0 <= l < NUM_LEVELS ensures PlacesName(ApplyEdit(start, edit).added[l]) {
      assert start.added[l] + AddedAt(edit, l) == AddedAt(edit, l);
      NumbersNamePlaces(AddedAt(edit, l));
    }
    builder.Apply(edit);
    v := builder.SaveTo();
    BatchedIsNext(start, edit, LevelSets(current));
    NextIsOrdered(current, builder.added, builder.deleted, v, edit);
  }

  lemma {:induction false} PrefixValid(records: seq<VersionEdit>, i: nat)
    requires ValidRecords(records) && i < |records|
    ensures ValidRecords(records[..i + 1]) && FreshEdit(records[..i], records[i])
    decreases |records|
  {
    var n := |records| - 1;
    if i == n {
      assert records[..n + 1] == records;
    } else {
      PrefixValid(records[..n], i);
      assert records[..n][..i + 1] == records[..i + 1] && records[..n][..i] == records[..i];
    }
  }

  lemma RecordNext(records: seq<VersionEdit>, i: nat)
    requires i < |records|
    ensures records[..i + 1] == records[..i] + [records[i]] && records[..i + 1][..i] == records[..i]
    ensures Replay(records[..i + 1]) == ApplyEdit(Replay(records[..i]), records[i])
  {
    assert records[..i + 1] == records[..i] + [records[i]];
    ReplayNext(records[..i], records[i]);
  }

  lemma RecordPlaces(records: seq<VersionEdit>, i: nat)
    requires i < |records| && ValidRecords(records[..i]) && FreshEdit(records[..i], records[i])
    ensures forall l | 0 <= l < NUM_LEVELS :: PlacesName(ApplyEdit(Replay(records[..i]), records[i]).added[l])
  {
    ReplayedNames(records[..i]);
    forall l | 0 <= l < NUM_LEVELS ensures PlacesName(ApplyEdit(Replay(records[..i]), records[i]).added[l]) {
      FreshNames(Replay(records[..i]), records[i], l);
      NumbersNamePlaces(Replay(records[..i]).added[l] + AddedAt(records[i], l));
    }
  }

  /** VersionSet::Recover: all records through one builder, keeping the last value of each counter.
      A MANIFEST without one of the counters is corrupt. */
  method Recover(records: seq<VersionEdit>) returns (r: Option<Recovered>)
    requires ValidRecords(records)
    ensures r.None? <==> LastNextFile(records).None? || LastLog(records).None? || LastSequenceOf(records).None?
    ensures r.Some? ==>
              && OrderedLists(r.value.levels) && LevelSets(r.value.levels) == Result(Replay(records))
              && LastLog(records) == Some(r.value.logNumber)
              && LastNextFile(records) == Some(r.value.nextFile - 1)
              && LastSequenceOf(records) == Some(r.value.lastSequence)
  {
    var builder := new Builder(NoLevels());
    var log, next, last := None, None, None;
    var i := 0;
    while i < |records|
      invariant 0 <= i <= |records| && fresh(builder) && builder.Valid() && builder.base == NoLevels()
      invariant builder.View() == Replay(records[..i]) && ValidRecords(records[..i])
      invariant log == LastLog(records[..i]) && next == LastNextFile(records[..i])
      invariant last == LastSequenceOf(records[..i])
    {
      var edit := records[i];
      PrefixValid(records, i);
      RecordNext(records, i);
      RecordPlaces(records, i);
      builder.Apply(edit);
      if edit.logNumber.Some? { log := edit.logNumber; }
      if edit.nextFile.Some? { next := edit.nextFile; }
      if edit.lastSequence.Some? { last := edit.lastSequence; }
      i := i + 1;
    }
    assert records[..|records|] == records;
    if next.None? || log.None? || last.None? {
      return None;
    }
    var levels := builder.SaveTo();
    r := Some(Recovered(levels, log.value, next.value + 1, last.value));
  }

  lemma SameLists(a: seq<seq<TableFile>>, b: seq<seq<TableFile>>)
    requires OrderedLists(a) && OrderedLists(b) && LevelSets(a) == LevelSets(b)
    ensures a == b
  {
    forall l | 0 <= l < NUM_LEVELS ensures a[l] == b[l] {
      assert LevelSets(a)[l] == LevelSets(b)[l];
      OrderedListUnique(a[l], b[l]);
    }
  }

  class VersionSet {
    var current: seq<seq<TableFile>>
    var nextFileNumber: nat
    var lastSequence: Sequence
    var logNumber: nat
    var manifest: Option<seq<VersionEdit>>      // the records of the open descriptor log

    constructor ()
      ensures Valid() && manifest.None? && current == NoLevels()
      ensures nextFileNumber == 2 && lastSequence == 0 && logNumber == 0
    {
      current := NoLevels();
      nextFileNumber, lastSequence, logNumber, manifest := 2, 0, 0, None;
      new;
      assert forall l | 0 <= l < NUM_LEVELS :: FileSet(current[l]) == {};
    }

    /** The installed version is ordered, and the MANIFEST, once open, replays to it. */
    ghost predicate Valid()
      reads this
    {
      && OrderedLists(current)
      && (forall l | 0 <= l < NUM_LEVELS :: NumbersName(FileSet(current[l])))
      && (manifest.Some? ==>
            && ValidRecords(manifest.value)
            && Result(Replay(manifest.value)) == LevelSets(current)
            && LastLog(manifest.value) == Some(logNumber)
            && LastNextFile(manifest.value).Some? && LastSequenceOf(manifest.value).Some?)
    }

    /** The records a new edit is appended to. */
    ghost function RecordsBefore(): seq<VersionEdit>
      reads this
    {
      if manifest.Some? then manifest.value else [Snapshot(current)]
    }

    function Completed(edit: VersionEdit): VersionEdit
      reads this
    {
      Complete(edit, logNumber, nextFileNumber, lastSequence)
    }

    /** The records may be those of the installed version or already those of the next one. */
    ghost predicate OldOrNew(before: seq<set<TableFile>>, edit: VersionEdit, oldManifest: Option<seq<VersionEdit>>,
                             records: seq<VersionEdit>)
      reads this
    {
      || manifest == oldManifest
      || (manifest == Some(records + [edit]) && ValidRecords(manifest.value)
          && Result(Replay(manifest.value)) == VersionAfter(before, edit))
    }

    /** Builds the next version and logs the edit; the first call also logs a snapshot. The version is
        installed once the record is written. If that fails nothing is installed, and a descriptor that was
        already open recovers to the version before the edit or to the one after it. */
    method LogAndApply(edit: VersionEdit, written: Written) returns (ok: bool)
      requires Valid() && FreshEdit(RecordsBefore(), edit)
      requires edit.logNumber.Some? ==> logNumber <= edit.logNumber.value < nextFileNumber
      modifies this`current, this`logNumber, this`manifest
      ensures ok == written.Synced?
      ensures ok ==> Valid()
      ensures ok ==> LevelSets(current) == VersionAfter(old(LevelSets(current)), edit)
      ensures ok ==> manifest == Some(old(RecordsBefore()) + [old(Completed(edit))])
      ensures ok ==> logNumber == if edit.logNumber.Some? then edit.logNumber.value else old(logNumber)
      ensures ok ==> LastNextFile(manifest.value) == Some(nextFileNumber)
                     && LastSequenceOf(manifest.value) == Some(lastSequence)
      ensures !ok ==> current == old(current) && logNumber == old(logNumber)
      ensures !ok ==> OldOrNew(old(LevelSets(current)), old(Completed(edit)), old(manifest), old(RecordsBefore()))
      ensures !ok && (written.Lost? || old(manifest).None?) ==> Valid()
    {
      ghost var records := RecordsBefore();
      SnapshotReplays(current);
      var logged := Completed(edit);
      SameFiles(edit, logged);
      FreshForCurrent(current, logged, records);
      var v := BuildNext(current, logged);
      var newManifest := manifest.None?;
      manifest := Some(if newManifest then [Snapshot(current)] else manifest.value);
      LoggedRecords(records, logged);
      ok := written.Synced?;
      if !written.Lost? {
        manifest := Some(manifest.value + [logged]);
      }
      if ok {
        current := v;
        logNumber := logged.logNumber.value;
      } else if newManifest {
        manifest := None;                       // the new descriptor file is removed
      }
    }

    /** Recovering from the MANIFEST gives back the installed version, log number and counters. */
    method RecoverFromManifest() returns (r: Option<Recovered>)
      requires Valid() && manifest.Some?
      ensures r.Some? && r.value.levels == current && r.value.logNumber == logNumber
      ensures r.value.nextFile == LastNextFile(manifest.value).value + 1
      ensures r.value.lastSequence == LastSequenceOf(manifest.value).value
    {
      r := Recover(manifest.value);
      SameLists(r.value.levels, current);
    }
  }

}
