/** Every step that changes the levels is one version edit, and over a whole incarnation of the database
    no edit ever adds a file to a level that already had it: what MANIFEST replay relies on. */
module Placements {
  import opened InternalKeys
  import opened TableFiles
  import opened Lsm
  import opened Builders

  type Place = (nat, nat)          // (level, file number)

  ghost function PlacesOf(levels: seq<set<TableFile>>): set<Place> {
    set l, f | 0 <= l < |levels| && f in levels[l] :: (l, f.number)
  }

  ghost function At(level: nat, files: set<TableFile>): set<Place> {
    set f | f in files :: (level, f.number)
  }

  /** The places a step's edit adds files to. */
  ghost function NewPlaces(s: State, step: Step): set<Place> {
    match step
    case FlushStep(file, level) => if file.Some? then {(level, file.value.number)} else {}
    case FinishStep(outputs) => if s.pending.Some? then At(s.pending.value.level + 1, outputs) else {}
    case MoveStep(level, f) => {(level + 1, f.number)}
    case ReopenStep(tables, _, _) => At(0, FileSet(tables))
    case _ => {}
  }

  /** `placed` are the places the MANIFEST of this incarnation has ever listed. Files only move down, and
      numbers in use by a running compaction have not been listed yet. */
  ghost predicate PlacedInv(s: State, placed: set<Place>) {
    && |s.levels| == NUM_LEVELS
    && PlacesOf(s.levels) <= placed
    && (forall p | p in placed :: p.1 < s.manifestNextFile)
    && (forall l, f, p | 0 <= l < NUM_LEVELS && f in s.levels[l] && p in placed && p.1 == f.number :: p.0 <= l)
    && (s.pending.Some? ==> forall p | p in placed :: p.1 !in s.pending.value.outputs)
  }

  /** What the MANIFEST lists when the step's edit is logged: a recovery starts a new one. */
  ghost function PlacedBefore(s: State, step: Step, placed: set<Place>): set<Place> {
    if step.ReopenStep? then PlacesOf(s.levels) else placed
  }

  /** The edit of the step lists files only where the MANIFEST never listed them. */
  ghost predicate ListsAnew(s: State, step: Step, t: State, placed: set<Place>) {
    var before := PlacedBefore(s, step, placed);
    NewPlaces(s, step) !! before && PlacedInv(t, before + NewPlaces(s, step))
  }

  /** New files may be listed where no file of their number was listed that deep, if every file of their
      number that stays is at least that deep and no running compaction owns the number. */
  lemma MayList(s: State, t: State, placed: set<Place>, news: set<Place>)
    requires PlacedInv(s, placed) && |t.levels| == NUM_LEVELS && s.manifestNextFile <= t.manifestNextFile
    requires forall l, g | 0 <= l < NUM_LEVELS && g in t.levels[l] :: g in s.levels[l] || (l, g.number) in news
    requires forall n | n in news :: n.1 < t.manifestNextFile
    requires forall n, p | n in news && p in placed && p.1 == n.1 :: p.0 < n.0
    requires forall n, l, g | n in news && 0 <= l < NUM_LEVELS && g in t.levels[l] && g.number == n.1 :: n.0 <= l
    requires t.pending.Some? ==> t.pending == s.pending && forall n | n in news :: n.1 !in t.pending.value.outputs
    ensures news !! placed && PlacedInv(t, placed + news)
  {
  }

  lemma FlushPlaced(s: State, step: Step, t: State, placed: set<Place>)
    requires FilesInv(s) && PendingInv(s) && PlacedInv(s, placed) && step.FlushStep? && Next(s, step, t)
    ensures ListsAnew(s, step, t, placed)
  {
    MayList(s, t, placed, NewPlaces(s, step));
  }

  lemma FinishPlaced(s: State, step: Step, t: State, placed: set<Place>)
    requires FilesInv(s) && PendingInv(s) && PlacedInv(s, placed) && step.FinishStep? && Next(s, step, t)
    ensures ListsAnew(s, step, t, placed)
  {
    MayList(s, t, placed, NewPlaces(s, step));
  }

  lemma MovePlaced(s: State, step: Step, t: State, placed: set<Place>)
    requires FilesInv(s) && PlacedInv(s, placed) && step.MoveStep? && Next(s, step, t)
    ensures ListsAnew(s, step, t, placed)
  {
    assert step.f in {step.f};
    MayList(s, t, placed, NewPlaces(s, step));
  }

  lemma ReopenPlaced(s: State, step: Step, t: State, placed: set<Place>)
    requires FilesInv(s) && step.ReopenStep? && Next(s, step, t)
    ensures ListsAnew(s, step, t, placed)
  {
    var before := s.(pending := None);
    MayList(before, t, PlacesOf(s.levels), NewPlaces(s, step));
  }

  /** The other steps leave levels and MANIFEST alone, and give a compaction only numbers not listed yet. */
  lemma QuietStep(s: State, step: Step, t: State)
    requires FilesInv(s) && Next(s, step, t) && !step.FlushStep? && !step.FinishStep? && !step.MoveStep?
        && !step.ReopenStep?
    ensures t.levels == s.levels && t.manifestNextFile == s.manifestNextFile && NewPlaces(s, step) == {}
    ensures t.pending.Some? ==>
              forall n | n in t.pending.value.outputs :: n >= s.manifestNextFile || (s.pending.Some?
                  && n in s.pending.value.outputs)
  {
  }

  lemma QuietPlaced(s: State, t: State, placed: set<Place>)
    requires PlacedInv(s, placed) && t.levels == s.levels && t.manifestNextFile == s.manifestNextFile
    requires t.pending.Some? ==>
              forall n | n in t.pending.value.outputs :: n >= s.manifestNextFile || (s.pending.Some?
                  && n in s.pending.value.outputs)
    ensures PlacedInv(t, placed)
  {
  }

  /** No step lists a file at a level the MANIFEST already listed it at. */
  lemma StepPlaced(s: State, step: Step, t: State, placed: set<Place>)
    requires Inv(s) && PlacedInv(s, placed) && Next(s, step, t)
    ensures ListsAnew(s, step, t, placed)
  {
    if step.FlushStep? {
      FlushPlaced(s, step, t, placed);
    } else if step.FinishStep? {
      FinishPlaced(s, step, t, placed);
    } else if step.MoveStep? {
      MovePlaced(s, step, t, placed);
    } else if step.ReopenStep? {
      ReopenPlaced(s, step, t, placed);
    } else {
      QuietStep(s, step, t);
      QuietPlaced(s, t, placed);
      assert placed + {} == placed;
    }
  }

  // ---- The edit of a step ----

  /** `edit` deletes and adds what the step takes out of and puts into the levels. */
  ghost predicate Describes(edit: VersionEdit, s: State, step: Step) {
    match step
    case FlushStep(file, level) =>
      forall l: nat :: DeletedAt(edit, l) == {}
        && AddedAt(edit, l) == if l == level && file.Some? then {file.value} else {}
    case FinishStep(outputs) =>
      s.pending.Some? &&
      var p := s.pending.value;
      forall l: nat ::
        && DeletedAt(edit, l) ==
           (if l == p.level then Numbers(p.in0) else if l == p.level + 1 then Numbers(p.in1) else {})
        && AddedAt(edit, l) == if l == p.level + 1 then outputs else {}
    case MoveStep(level, f) =>
      forall l: nat ::
        && DeletedAt(edit, l) == (if l == level then {f.number} else {})
        && AddedAt(edit, l) == if l == level + 1 then {f} else {}
    case ReopenStep(tables, _, _) =>
      forall l: nat :: DeletedAt(edit, l) == {} && AddedAt(edit, l) == if l == 0 then FileSet(tables) else {}
    case _ => forall l: nat :: DeletedAt(edit, l) == {} && AddedAt(edit, l) == {}
  }

  lemma UnchangedLevel(files: set<TableFile>)
    ensures LevelAfter(files, {}, {}) == files
  {
    assert Numbers({}) == {};
  }

  lemma OnlyAdds(files: set<TableFile>, added: set<TableFile>)
    ensures LevelAfter(files, {}, added) == files + added
  {
    assert {} - Numbers(added) == {};
  }

  /** Removing by number removes exactly the files meant. */
  lemma RemovesAndAdds(files: set<TableFile>, gone: set<TableFile>, added: set<TableFile>)
    requires gone <= files && forall f, g | f in files && g in files && f.number == g.number :: f == g
    requires Numbers(added) !! Numbers(gone)
    ensures LevelAfter(files, Numbers(gone), added) == files - gone + added
  {
    assert Numbers(gone) - Numbers(added) == Numbers(gone);
    assert LiveFiles(files, Numbers(gone)) == files - gone;
  }

  lemma SameLevels(a: seq<set<TableFile>>, b: seq<set<TableFile>>)
    requires |a| == |b| && forall l | 0 <= l < |a| :: a[l] == b[l]
    ensures a == b
  {
  }

  lemma FinishIsEdit(s: State, outputs: set<TableFile>, edit: VersionEdit)
    requires FilesInv(s) && PendingInv(s) && s.pending.Some? && IsOutputOf(s.pending.value, outputs)
    requires Describes(edit, s, FinishStep(outputs))
    ensures FinishCompaction(s, outputs).levels == VersionAfter(s.levels, edit)
  {
    var p := s.pending.value;
    var t, after := FinishCompaction(s, outputs).levels, VersionAfter(s.levels, edit);
    assert Numbers({}) == {};
    forall l | 0 <= l < |s.levels| ensures t[l] == after[l] {
      UnchangedLevel(s.levels[l]);
      if l == p.level {
        RemovesAndAdds(s.levels[l], p.in0, {});
      } else if l == p.level + 1 {
        RemovesAndAdds(s.levels[l], p.in1, outputs);
      }
    }
    SameLevels(t, after);
  }

  lemma MoveIsEdit(s: State, level: nat, f: TableFile, edit: VersionEdit)
    requires FilesInv(s) && level + 1 < NUM_LEVELS && f in s.levels[level] && Describes(edit, s, MoveStep(level, f))
    ensures TrivialMove(s, level, f).levels == VersionAfter(s.levels, edit)
  {
    var t, after := TrivialMove(s, level, f).levels, VersionAfter(s.levels, edit);
    assert Numbers({}) == {} && Numbers({f}) == {f.number};
    forall l | 0 <= l < |s.levels| ensures t[l] == after[l] {
      UnchangedLevel(s.levels[l]);
      if l == level {
        RemovesAndAdds(s.levels[l], {f}, {});
      } else if l == level + 1 {
        OnlyAdds(s.levels[l], {f});
      }
    }
    SameLevels(t, after);
  }

  /** Rearranging the levels is logging that edit. */
  lemma StepIsEdit(s: State, step: Step, t: State, edit: VersionEdit)
    requires Inv(s) && Next(s, step, t) && Describes(edit, s, step)
    ensures t.levels == VersionAfter(s.levels, edit)
  {
    if step.FinishStep? {
      FinishIsEdit(s, step.outputs, edit);
    } else if step.MoveStep? {
      MoveIsEdit(s, step.from, step.f, edit);
    } else {
      forall l | 0 <= l < |s.levels| ensures t.levels[l] == VersionAfter(s.levels, edit)[l] {
        UnchangedLevel(s.levels[l]);
        OnlyAdds(s.levels[l], AddedAt(edit, l));
      }
      SameLevels(t.levels, VersionAfter(s.levels, edit));
    }
  }
}
