/** The MANIFEST over whole runs: after every step, replaying it gives the levels of the state machine, and its
    last counters are those a recovery has to start from. */
module Manifests {
  import opened InternalKeys
  import opened TableFiles
  import opened Builders
  import opened VersionSets
  import opened Placements
  import L = Lsm
  import LsmRuns

  // ---- The places a MANIFEST lists files at ----

  ghost function Listed(records: seq<VersionEdit>): set<Place> {
    set l: nat, n: nat | l < NUM_LEVELS && n in Numbers(Replay(records).base[l] + Replay(records).added[l]) :: (l, n)
  }

  ghost function EditPlaces(edit: VersionEdit): set<Place> {
    set a | a in edit.newFiles :: (a.0, a.1.number)
  }

  lemma AddedPlaces(edit: VersionEdit, l: nat, n: nat)
    ensures (l, n) in EditPlaces(edit) <==> n in Numbers(AddedAt(edit, l))
  {
    if (l, n) in EditPlaces(edit) {
      var a :| a in edit.newFiles && a.0 == l && a.1.number == n;
      assert a.1 in AddedAt(edit, l);
    }
  }

  lemma NumbersJoin(a: set<TableFile>, b: set<TableFile>)
    ensures Numbers(a + b) == Numbers(a) + Numbers(b)
  {
  }

  lemma ListedNext(records: seq<VersionEdit>, edit: VersionEdit)
    requires ValidEdit(edit)
    ensures Listed(records + [edit]) == Listed(records) + EditPlaces(edit)
  {
    ReplayNext(records, edit);
    var b, c := Replay(records), Replay(records + [edit]);
    forall l: nat, n: nat | l < NUM_LEVELS
      ensures n in Numbers(c.base[l] + c.added[l]) <==>
                n in Numbers(b.base[l] + b.added[l]) || (l, n) in EditPlaces(edit)
    {
      AddedPlaces(edit, l, n);
      assert c.base[l] + c.added[l] == (b.base[l] + b.added[l]) + AddedAt(edit, l);
      NumbersJoin(b.base[l] + b.added[l], AddedAt(edit, l));
    }
    forall a | a in edit.newFiles ensures (a.0, a.1.number) in Listed(records + [edit]) {
      assert (a.0, a.1.number) in EditPlaces(edit);
    }
  }

  /** An edit that lists files only where none of their number was listed is fresh. */
  lemma FreshPlaces(records: seq<VersionEdit>, edit: VersionEdit)
    requires ValidEdit(edit) && EditPlaces(edit) !! Listed(records)
    requires forall l | 0 <= l < NUM_LEVELS :: NumbersName(AddedAt(edit, l))
    ensures FreshEdit(records, edit)
  {
    var b := Replay(records);
    forall l: nat, n: nat | l < NUM_LEVELS
        && n in Numbers(AddedAt(edit, l)) ensures n !in Numbers(b.base[l] + b.added[l]) {
      AddedPlaces(edit, l, n);
      assert (l, n) !in Listed(records);
    }
  }

  /** The edit says what the step does, lists its files at the step's places, and carries the counters that
      hold after the step. */
  ghost predicate IsEditOf(edit: VersionEdit, s: L.State, step: L.Step, t: L.State) {
    && ValidEdit(edit) && Describes(edit, s, step) && EditPlaces(edit) == NewPlaces(s, step)
    && (forall l | 0 <= l < NUM_LEVELS :: NumbersName(AddedAt(edit, l)))
    && edit.logNumber == Some(t.logNumber) && edit.nextFile == Some(t.manifestNextFile)
    && edit.lastSequence == Some(t.manifestSequence)
  }

  /** The steps that go through LogAndApply. */
  predicate IsLogged(step: L.Step) {
    step.FlushStep? || step.FinishStep? || step.MoveStep? || step.ReopenStep?
  }

  /** What a step does to the MANIFEST: a logged step appends its edit, and a recovery starts a new MANIFEST
      with a snapshot of what it recovered. */
  ghost predicate Logs(s: L.State, step: L.Step, t: L.State, records: seq<VersionEdit>, after: seq<VersionEdit>) {
    if step.ReopenStep? then
      exists snapshot, edit ::
        IsSnapshotOf(snapshot, s.levels) && IsEditOf(edit, s, step, t) && after == [snapshot] + [edit]
    else if IsLogged(step) then exists edit :: IsEditOf(edit, s, step, t) && after == records + [edit]
    else after == records
  }

  ghost predicate CountersMatch(s: L.State, records: seq<VersionEdit>) {
    && LastLog(records) == Some(s.logNumber) && LastNextFile(records) == Some(s.manifestNextFile)
    && LastSequenceOf(records) == Some(s.manifestSequence)
  }

  ghost predicate ManifestInv(s: L.State, records: seq<VersionEdit>) {
    && ValidRecords(records) && Result(Replay(records)) == s.levels && PlacedInv(s, Listed(records))
    && CountersMatch(s, records)
  }

  lemma NothingListed()
    ensures Listed([]) == {}
  {
    ReplayOfNothing();
    assert Numbers({}) == {};
  }

  lemma OneMoreOfNothing(records: seq<VersionEdit>, edit: VersionEdit)
    requires edit.deletedFiles == [] && edit.newFiles == []
    requires Listed(records) == {} && forall l | 0 <= l < NUM_LEVELS :: Result(Replay(records))[l] == {}
    ensures FreshEdit(records, edit) && Listed(records + [edit]) == {}
    ensures forall l | 0 <= l < NUM_LEVELS :: Result(Replay(records + [edit]))[l] == {}
  {
    assert forall l: nat :: AddedAt(edit, l) == {} && DeletedAt(edit, l) == {};
    FreshPlaces(records, edit);
    ReplayStep(records, edit);
    ListedNext(records, edit);
    UnchangedLevel({});
  }

  lemma {:induction false} RecordsOfNothing(records: seq<VersionEdit>)
    requires forall r | r in records :: r.deletedFiles == [] && r.newFiles == []
    ensures ValidRecords(records) && Listed(records) == {}
    ensures forall l | 0 <= l < NUM_LEVELS :: Result(Replay(records))[l] == {}
  {
    if records == [] {
      ReplayOfNothing();
      NothingListed();
    } else {
      var n := |records| - 1;
      RecordsOfNothing(records[..n]);
      assert records == records[..n] + [records[n]] && records[n] in records;
      OneMoreOfNothing(records[..n], records[n]);
    }
  }

  lemma NamesAreUnique(s: L.State, l: nat)
    requires L.FilesInv(s) && l < NUM_LEVELS
    ensures NumbersName(s.levels[l])
  {
  }

  lemma PlacesOfSnapshot(edit: VersionEdit, levels: seq<set<TableFile>>)
    requires IsSnapshotOf(edit, levels)
    ensures EditPlaces(edit) == PlacesOf(levels)
  {
    forall l: nat, n: nat ensures (l, n) in EditPlaces(edit) <==> (l, n) in PlacesOf(levels) {
      AddedPlaces(edit, l, n);
      assert forall a | a in edit.newFiles :: a.0 < NUM_LEVELS;
    }
  }

  lemma SnapshotLists(snapshot: VersionEdit, s: L.State)
    requires L.FilesInv(s) && IsSnapshotOf(snapshot, s.levels)
    ensures ValidRecords([snapshot]) && Result(Replay([snapshot])) == s.levels
    ensures Listed([snapshot]) == PlacesOf(s.levels)
  {
    forall l | 0 <= l < NUM_LEVELS ensures NumbersName(s.levels[l]) { NamesAreUnique(s, l); }
    WholeReplays(snapshot, s.levels);
    NothingListed();
    assert [] + [snapshot] == [snapshot];
    ListedNext([], snapshot);
    PlacesOfSnapshot(snapshot, s.levels);
  }

  // ---- Every step keeps the MANIFEST and the state in agreement ----

  lemma LoggedPlaces(s: L.State, step: L.Step, t: L.State, edit: VersionEdit, placed: set<Place>,
                     records: seq<VersionEdit>)
    requires L.Inv(s) && PlacedInv(s, placed) && L.Next(s, step, t) && IsEditOf(edit, s, step, t)
    requires Listed(records) == PlacedBefore(s, step, placed)
    ensures FreshEdit(records, edit) && PlacedInv(t, Listed(records + [edit]))
  {
    StepPlaced(s, step, t, placed);
    FreshPlaces(records, edit);
    ListedNext(records, edit);
  }

  /** A logged step on records that list what was placed before it. */
  lemma LoggedStep(s: L.State, step: L.Step, t: L.State, edit: VersionEdit, placed: set<Place>,
                   records: seq<VersionEdit>)
    requires L.Inv(s) && PlacedInv(s, placed) && L.Next(s, step, t) && IsEditOf(edit, s, step, t)
    requires ValidRecords(records) && Result(Replay(records)) == s.levels
        && Listed(records) == PlacedBefore(s, step, placed)
    ensures ManifestInv(t, records + [edit])
  {
    LoggedPlaces(s, step, t, edit, placed, records);
    LoggedRecords(records, edit);
    StepIsEdit(s, step, t, edit);
  }

  lemma ReopenManifest(s: L.State, step: L.Step, t: L.State, records: seq<VersionEdit>, after: seq<VersionEdit>)
    requires L.Inv(s) && ManifestInv(s, records) && L.Next(s, step, t) && step.ReopenStep?
        && Logs(s, step, t, records, after)
    ensures ManifestInv(t, after)
  {
    var snapshot, edit :|
      IsSnapshotOf(snapshot, s.levels) && IsEditOf(edit, s, step, t) && after == [snapshot] + [edit];
    SnapshotLists(snapshot, s);
    LoggedStep(s, step, t, edit, Listed(records), [snapshot]);
  }

  lemma NotReopened(s: L.State, step: L.Step, placed: set<Place>)
    requires !step.ReopenStep?
    ensures PlacedBefore(s, step, placed) == placed
  {
  }

  lemma LoggedManifest(s: L.State, step: L.Step, t: L.State, records: seq<VersionEdit>, edit: VersionEdit)
    requires L.Inv(s) && ManifestInv(s, records) && L.Next(s, step, t) && !step.ReopenStep?
    requires IsEditOf(edit, s, step, t)
    ensures ManifestInv(t, records + [edit])
  {
    NotReopened(s, step, Listed(records));
    LoggedStep(s, step, t, edit, Listed(records), records);
  }

  lemma QuietCounters(s: L.State, step: L.Step, t: L.State)
    requires L.Next(s, step, t) && !IsLogged(step)
    ensures t.logNumber == s.logNumber && t.manifestNextFile == s.manifestNextFile
        && t.manifestSequence == s.manifestSequence
  {
  }

  lemma QuietManifest(s: L.State, step: L.Step, t: L.State, records: seq<VersionEdit>)
    requires L.FilesInv(s) && ManifestInv(s, records) && L.Next(s, step, t) && !IsLogged(step)
    ensures ManifestInv(t, records)
  {
    QuietStep(s, step, t);
    QuietPlaced(s, t, Listed(records));
    QuietCounters(s, step, t);
  }

  lemma StepManifest(s: L.State, step: L.Step, t: L.State, records: seq<VersionEdit>, after: seq<VersionEdit>)
    requires L.Inv(s) && ManifestInv(s, records) && L.Next(s, step, t) && Logs(s, step, t, records, after)
    ensures ManifestInv(t, after)
  {
    if step.ReopenStep? {
      ReopenManifest(s, step, t, records, after);
    } else if IsLogged(step) {
      var edit :| IsEditOf(edit, s, step, t) && after == records + [edit];
      LoggedManifest(s, step, t, records, edit);
    } else {
      QuietManifest(s, step, t, records);
    }
  }

  // ---- Whole runs ----

  /** The records after each step of a run. */
  ghost predicate IsHistoryOf(states: seq<L.State>, steps: seq<L.Step>, manifests: seq<seq<VersionEdit>>) {
    && |manifests| == |states| == |steps| + 1
    && forall i {:trigger steps[i]} | 0 <= i < |steps| ::
         Logs(states[i], steps[i], states[i + 1], manifests[i], manifests[i + 1])
  }

  /** The MANIFEST of a new database lists no file. */
  ghost predicate InitialManifest(s: L.State, records: seq<VersionEdit>) {
    CountersMatch(s, records) && forall r | r in records :: r.deletedFiles == [] && r.newFiles == []
  }

  lemma InitialManifestInv(s: L.State, records: seq<VersionEdit>)
    requires L.Initial(s) && InitialManifest(s, records)
    ensures ManifestInv(s, records)
  {
    RecordsOfNothing(records);
    SameLevels(Result(Replay(records)), s.levels);
  }

  lemma StepAt(states: seq<L.State>, steps: seq<L.Step>, manifests: seq<seq<VersionEdit>>, i: nat)
    requires LsmRuns.IsRun(states, steps) && IsHistoryOf(states, steps, manifests) && i < |steps|
    ensures L.Next(states[i], steps[i], states[i + 1])
    ensures Logs(states[i], steps[i], states[i + 1], manifests[i], manifests[i + 1])
  {
  }

  lemma ManifestStepAt(states: seq<L.State>, steps: seq<L.Step>, manifests: seq<seq<VersionEdit>>, i: nat)
    requires LsmRuns.IsRun(states, steps) && IsHistoryOf(states, steps, manifests) && i < |steps|
    requires ManifestInv(states[i], manifests[i])
    ensures ManifestInv(states[i + 1], manifests[i + 1])
  {
    LsmRuns.RunInv(states, steps, i);
    StepAt(states, steps, manifests, i);
    StepManifest(states[i], steps[i], states[i + 1], manifests[i], manifests[i + 1]);
  }

  /** After every step of every run, recoveries included, replaying the MANIFEST gives the installed levels,
      its last counters are the log number, next file and last sequence that recovery relies on, and the
      records never add a file to a level twice. */
  lemma {:induction false} RunManifest(states: seq<L.State>, steps: seq<L.Step>, manifests: seq<seq<VersionEdit>>,
                                       n: nat)
    requires LsmRuns.IsRun(states, steps) && L.Initial(states[0])
    requires IsHistoryOf(states, steps, manifests) && n <= |steps|
    requires InitialManifest(states[0], manifests[0])
    ensures ManifestInv(states[n], manifests[n])
  {
    if n == 0 {
      InitialManifestInv(states[0], manifests[0]);
    } else {
      RunManifest(states, steps, manifests, n - 1);
      ManifestStepAt(states, steps, manifests, n - 1);
    }
  }
}
