/** VersionSet::Builder of project/version_set.cc: applying a sequence of edits without building the
    versions in between. */
module Builders {
  import opened InternalKeys
  import opened TableFiles

  /** version_edit.h is not part of the repository; these are the fields its users touch. */
  datatype VersionEdit = VersionEdit(
    deletedFiles: seq<(nat, nat)>,         // (level, file number)
    newFiles: seq<(nat, TableFile)>,       // (level, file)
    logNumber: Option<nat>,
    nextFile: Option<nat>,
    lastSequence: Option<Sequence>)

  ghost predicate ValidEdit(edit: VersionEdit) {
    && (forall d | d in edit.deletedFiles :: d.0 < NUM_LEVELS)
    && (forall a | a in edit.newFiles :: a.0 < NUM_LEVELS)
  }

  ghost function DeletedBy(deletions: seq<(nat, nat)>, level: nat): set<nat> {
    set d | d in deletions && d.0 == level :: d.1
  }

  ghost function AddedBy(files: seq<(nat, TableFile)>, level: nat): set<TableFile> {
    set a | a in files && a.0 == level :: a.1
  }

  ghost function DeletedAt(edit: VersionEdit, level: nat): set<nat> {
    DeletedBy(edit.deletedFiles, level)
  }

  ghost function AddedAt(edit: VersionEdit, level: nat): set<TableFile> {
    AddedBy(edit.newFiles, level)
  }

  ghost function Numbers(files: set<TableFile>): set<nat> {
    set f | f in files :: f.number
  }

  // ---- What an edit means ----

  ghost function LiveFiles(files: set<TableFile>, deleted: set<nat>): set<TableFile> {
    set f | f in files && f.number !in deleted
  }

  /** One level after an edit: without what it deletes, with what it adds. */
  ghost function LevelAfter(files: set<TableFile>, deleted: set<nat>, added: set<TableFile>): set<TableFile> {
    LiveFiles(files, deleted - Numbers(added)) + added
  }

  ghost function VersionAfter(version: seq<set<TableFile>>, edit: VersionEdit): seq<set<TableFile>> {
    seq(|version|, l requires 0 <= l < |version| => LevelAfter(version[l], DeletedAt(edit, l), AddedAt(edit, l)))
  }

  ghost function VersionAfterAll(version: seq<set<TableFile>>, edits: seq<VersionEdit>): seq<set<TableFile>> {
    if edits == [] then version
    else VersionAfter(VersionAfterAll(version, edits[..|edits| - 1]), edits[|edits| - 1])
  }

  // ---- What the builder accumulates, as sets ----

  datatype Batch = Batch(base: seq<set<TableFile>>, deleted: seq<set<nat>>, added: seq<set<TableFile>>)

  ghost predicate ValidBatch(b: Batch) {
    |b.base| == |b.deleted| == |b.added| == NUM_LEVELS
  }

  ghost function EmptyBatch(base: seq<set<TableFile>>): Batch {
    Batch(base, seq(|base|, _ => {}), seq(|base|, _ => {}))
  }

  ghost function ApplyEdit(b: Batch, edit: VersionEdit): (r: Batch)
    requires ValidBatch(b)
    ensures ValidBatch(r) && r.base == b.base
  {
    Batch(b.base,
          seq(NUM_LEVELS, l requires 0 <= l < NUM_LEVELS =>
            b.deleted[l] + DeletedAt(edit, l) - Numbers(AddedAt(edit, l))),
          seq(NUM_LEVELS, l requires 0 <= l < NUM_LEVELS => b.added[l] + AddedAt(edit, l)))
  }

  ghost function ApplyEdits(b: Batch, edits: seq<VersionEdit>): (r: Batch)
    requires ValidBatch(b)
    ensures ValidBatch(r) && r.base == b.base
  {
    if edits == [] then b else ApplyEdit(ApplyEdits(b, edits[..|edits| - 1]), edits[|edits| - 1])
  }

  ghost function Result(b: Batch): (r: seq<set<TableFile>>)
    requires ValidBatch(b)
    ensures |r| == NUM_LEVELS
    ensures forall l | 0 <= l < NUM_LEVELS :: r[l] == LiveFiles(b.base[l] + b.added[l], b.deleted[l])
  {
    seq(NUM_LEVELS, l requires 0 <= l < NUM_LEVELS => LiveFiles(b.base[l] + b.added[l], b.deleted[l]))
  }

  /** No file that was deleted from its level gives its number to a different file added there. */
  ghost predicate NoRevival(b: Batch, edit: VersionEdit)
    requires ValidBatch(b)
  {
    forall l, f | 0 <= l < NUM_LEVELS && f in b.base[l] + b.added[l] && f.number in b.deleted[l]
                  && f.number in Numbers(AddedAt(edit, l)) :: f in AddedAt(edit, l)
  }

  lemma LevelBatching(files: set<TableFile>, D: set<nat>, deleted: set<nat>, added: set<TableFile>)
    ensures LiveFiles(files + added, D + deleted - Numbers(added)) == LevelAfter(LiveFiles(files, D), deleted, added)
       <==> forall f | f in files && f.number in D && f.number in Numbers(added) :: f in added
  {
    var batched, stepwise := LiveFiles(files + added, D + deleted - Numbers(added)),
                             LevelAfter(LiveFiles(files, D), deleted, added);
    forall f | f in files
      ensures f in batched <==> f.number !in D + deleted || f.number in Numbers(added)
      ensures f in stepwise <==> f in added || (f.number !in D && (f.number !in deleted || f.number in Numbers(added)))
    {
    }
    forall f | f in added ensures f in batched && f in stepwise {}
    if forall f | f in files && f.number in D && f.number in Numbers(added) :: f in added {
      forall f ensures f in batched <==> f in stepwise {}
    }
  }

  /** Applying one more edit to the batch is applying it to the version, exactly when it revives no file. */
  lemma BatchingExact(b: Batch, edit: VersionEdit)
    requires ValidBatch(b)
    ensures Result(ApplyEdit(b, edit)) == VersionAfter(Result(b), edit) <==> NoRevival(b, edit)
  {
    var after := VersionAfter(Result(b), edit);
    forall l | 0 <= l < NUM_LEVELS
      ensures Result(ApplyEdit(b, edit))[l] == after[l] <==>
                forall f | f in b.base[l] + b.added[l] && f.number in b.deleted[l]
                           && f.number in Numbers(AddedAt(edit, l)) :: f in AddedAt(edit, l)
    {
      LevelBatching(b.base[l] + b.added[l], b.deleted[l], DeletedAt(edit, l), AddedAt(edit, l));
      assert b.base[l] + (b.added[l] + AddedAt(edit, l)) == b.base[l] + b.added[l] + AddedAt(edit, l);
    }
  }

  ghost predicate FreshFor(b: Batch, edit: VersionEdit)
    requires ValidBatch(b)
  {
    forall l | 0 <= l < NUM_LEVELS :: Numbers(AddedAt(edit, l)) !! Numbers(b.base[l] + b.added[l])
  }

  /** A history that adds each (level, number) at most once, and none the base already has. */
  ghost predicate WellFormedHistory(b: Batch, edits: seq<VersionEdit>)
    requires ValidBatch(b)
  {
    edits == [] ||
    (var n := |edits| - 1;
     WellFormedHistory(b, edits[..n]) && FreshFor(ApplyEdits(b, edits[..n]), edits[n]))
  }

  lemma FreshIsNoRevival(b: Batch, edit: VersionEdit)
    requires ValidBatch(b) && FreshFor(b, edit)
    ensures NoRevival(b, edit)
  {
    forall l, f | 0 <= l < NUM_LEVELS && f in b.base[l] + b.added[l] ensures f.number !in Numbers(AddedAt(edit, l)) {
      assert f.number in Numbers(b.base[l] + b.added[l]);
    }
  }

  /** Batching: building once after all the edits gives the version built edit by edit. */
  lemma {:induction false} BatchEqualsStepwise(b: Batch, edits: seq<VersionEdit>)
    requires ValidBatch(b) && WellFormedHistory(b, edits)
    ensures Result(ApplyEdits(b, edits)) == VersionAfterAll(Result(b), edits)
  {
    if edits != [] {
      var n := |edits| - 1;
      BatchEqualsStepwise(b, edits[..n]);
      FreshIsNoRevival(ApplyEdits(b, edits[..n]), edits[n]);
      BatchingExact(ApplyEdits(b, edits[..n]), edits[n]);
    }
  }

  // ---- Lists ordered by smallest key, then number ----

  predicate BySmallestKey(f: TableFile, g: TableFile) {
    Less(f.smallest, g.smallest) || (f.smallest == g.smallest && f.number < g.number)
  }

  ghost predicate StrictlyOrdered(files: seq<TableFile>) {
    forall i, j | 0 <= i < j < |files| :: BySmallestKey(files[i], files[j])
  }

  lemma BySmallestKeyTotal(f: TableFile, g: TableFile)
    ensures BySmallestKey(f, g) || BySmallestKey(g, f) || (f.smallest == g.smallest && f.number == g.number)
    ensures !(BySmallestKey(f, g) && BySmallestKey(g, f))
  {
  }

  lemma LastIsGreatest(a: seq<TableFile>, f: TableFile)
    requires StrictlyOrdered(a) && f in FileSet(a)
    ensures a != [] && (f == a[|a| - 1] || BySmallestKey(f, a[|a| - 1]))
  {
  }

  lemma LastOnly(a: seq<TableFile>)
    requires StrictlyOrdered(a) && a != []
    ensures FileSet(a[..|a| - 1]) == FileSet(a) - {a[|a| - 1]}
  {
    var n := |a| - 1;
    assert a == a[..n] + [a[n]];
    assert forall i | 0 <= i < n :: a[i] != a[n];
  }

  /** A level's list is determined by the files in it. */
  lemma {:induction false} OrderedListUnique(a: seq<TableFile>, b: seq<TableFile>)
    requires StrictlyOrdered(a) && StrictlyOrdered(b) && FileSet(a) == FileSet(b)
    ensures a == b
  {
    assert a != [] ==> a[0] in FileSet(a);
    assert b != [] ==> b[0] in FileSet(b);
    if a != [] && b != [] {
      var x, y := a[|a| - 1], b[|b| - 1];
      assert x in FileSet(a) && y in FileSet(b);
      LastIsGreatest(a, y);
      LastIsGreatest(b, x);
      BySmallestKeyTotal(x, y);
      LastOnly(a);
      LastOnly(b);
      OrderedListUnique(a[..|a| - 1], b[..|b| - 1]);
      assert a == a[..|a| - 1] + [x] && b == b[..|b| - 1] + [y];
    }
  }

  /** An ordered list of disjoint files is a sorted level. */
  lemma OrderedDisjointIsSorted(files: seq<TableFile>)
    requires StrictlyOrdered(files) && AllWellFormed(files) && Disjoint(FileSet(files))
    ensures SortedLevel(files)
  {
    forall i, j | 0 <= i < j < |files| ensures Before(files[i], files[j]) {
      assert files[i] in FileSet(files) && files[j] in FileSet(files);
      assert BySmallestKey(files[i], files[j]);
      WellFormedBounds(files[i]);
      WellFormedBounds(files[j]);
    }
  }

  /** How often a live file is listed. */
  function LiveCount(f: TableFile, files: seq<TableFile>, deleted: set<nat>): nat {
    if f.number in deleted then 0 else multiset(files)[f]
  }

  // ---- The builder itself ----

  predicate SamePlace(f: TableFile, g: TableFile) {
    f.smallest == g.smallest && f.number == g.number
  }

  ghost predicate PlaceTaken(files: set<TableFile>, f: TableFile) {
    exists g :: g in files && SamePlace(g, f)
  }

  /** `r` is `files` with `f`, unless its place in the order is taken. */
  ghost predicate Inserted(files: set<TableFile>, f: TableFile, r: set<TableFile>) {
    r == if PlaceTaken(files, f) then files else files + {f}
  }

  lemma PlaceIsFree(files: seq<TableFile>, p: nat, f: TableFile)
    requires p <= |files|
    requires forall i | 0 <= i < p :: BySmallestKey(files[i], f)
    requires forall i | p <= i < |files| :: BySmallestKey(f, files[i])
    ensures !PlaceTaken(FileSet(files), f)
  {
  }

  method InsertOrdered(files: seq<TableFile>, f: TableFile) returns (r: seq<TableFile>)
    requires StrictlyOrdered(files)
    ensures StrictlyOrdered(r) && Inserted(FileSet(files), f, FileSet(r))
  {
    var p := 0;
    while p < |files| && BySmallestKey(files[p], f)
      invariant 0 <= p <= |files|
      invariant forall i | 0 <= i < p :: BySmallestKey(files[i], f)
    {
      p := p + 1;
    }
    if p < |files| && !BySmallestKey(f, files[p]) {
      BySmallestKeyTotal(f, files[p]);
      assert files[p] in FileSet(files) && SamePlace(files[p], f);
      return files;
    }
    r := files[..p] + [f] + files[p..];
    assert files == files[..p] + files[p..];
    forall i | p <= i < |files| ensures BySmallestKey(f, files[i]) {
      assert p < i ==> BySmallestKey(files[p], files[i]);
    }
    PlaceIsFree(files, p, f);
  }

  /** Where the merge stands: everything passed on one side precedes what is left on the other. */
  ghost predicate Interleaved(base: seq<TableFile>, i: nat, added: seq<TableFile>, j: nat)
    requires i <= |base| && j <= |added|
  {
    && (forall m, n | 0 <= m < j && i <= n < |base| :: BySmallestKey(added[m], base[n]))
    && (forall n, m | 0 <= n < i && j <= m < |added| :: !BySmallestKey(added[m], base[n]))
  }

  /** A number listed on both sides is a deleted one. */
  ghost predicate NoClash(base: seq<TableFile>, added: seq<TableFile>, deleted: set<nat>) {
    forall f, g | f in base && g in added && f.number == g.number :: f.number in deleted
  }

  /** `r` lists the live files of both lists, as often as they do, in order if `ordered`. */
  ghost predicate Merged(base: seq<TableFile>, added: seq<TableFile>, deleted: set<nat>, r: seq<TableFile>,
                         ordered: bool) {
    && (forall f :: multiset(r)[f] == LiveCount(f, base, deleted) + LiveCount(f, added, deleted))
    && (ordered ==> StrictlyOrdered(r))
  }

  /** The same for the first files of both lists. */
  ghost predicate MergedTo(base: seq<TableFile>, i: nat, added: seq<TableFile>, j: nat, deleted: set<nat>,
                           r: seq<TableFile>, ordered: bool)
    requires i <= |base| && j <= |added|
  {
    Merged(base[..i], added[..j], deleted, r, ordered)
  }

  function IfLive(f: TableFile, deleted: set<nat>): seq<TableFile> {
    if f.number in deleted then [] else [f]
  }

  /** MaybeAddFile: append the file unless it is deleted. */
  method MaybeAddFile(files: seq<TableFile>, f: TableFile, deleted: set<nat>) returns (r: seq<TableFile>)
    ensures r == files + IfLive(f, deleted)
  {
    r := if f.number in deleted then files else files + [f];
    assert files + [] == files;
  }

  lemma MergeOne(a: seq<TableFile>, b: seq<TableFile>, f: TableFile, deleted: set<nat>, r: seq<TableFile>,
                 ordered: bool)
    requires Merged(a, b, deleted, r, ordered)
    requires ordered && f.number !in deleted ==> forall x | x in r :: BySmallestKey(x, f)
    ensures Merged(a + [f], b, deleted, r + IfLive(f, deleted), ordered)
  {
    var next := r + IfLive(f, deleted);
    assert r + [] == r;
    forall x ensures multiset(next)[x] == LiveCount(x, a + [f], deleted) + LiveCount(x, b, deleted) {
      assert multiset(a + [f])[x] == multiset(a)[x] + if x == f then 1 else 0;
      assert multiset(r)[x] == LiveCount(x, a, deleted) + LiveCount(x, b, deleted);
    }
  }

  lemma MergedFrom(a: seq<TableFile>, b: seq<TableFile>, deleted: set<nat>, r: seq<TableFile>, ordered: bool,
                   x: TableFile)
    requires Merged(a, b, deleted, r, ordered) && x in r
    ensures x.number !in deleted && (x in a || x in b)
  {
    assert multiset(r)[x] > 0;
  }

  lemma MergedSwap(a: seq<TableFile>, b: seq<TableFile>, deleted: set<nat>, r: seq<TableFile>, ordered: bool)
    requires Merged(a, b, deleted, r, ordered)
    ensures Merged(b, a, deleted, r, ordered)
  {
  }

  lemma MergeBase(base: seq<TableFile>, i: nat, added: seq<TableFile>, j: nat, deleted: set<nat>, r: seq<TableFile>,
                  ordered: bool)
    requires i < |base| && j <= |added| && StrictlyOrdered(base)
    requires MergedTo(base, i, added, j, deleted, r, ordered)
    requires forall m | 0 <= m < j :: BySmallestKey(added[m], base[i])
    ensures MergedTo(base, i + 1, added, j, deleted, r + IfLive(base[i], deleted), ordered)
  {
    forall x | x in r ensures BySmallestKey(x, base[i]) {
      MergedFrom(base[..i], added[..j], deleted, r, ordered, x);
      if x in base[..i] { var n :| 0 <= n < i && base[n] == x; }
    }
    MergeOne(base[..i], added[..j], base[i], deleted, r, ordered);
    assert base[..i + 1] == base[..i] + [base[i]];
  }

  lemma AllPrecede(base: seq<TableFile>, i: nat, added: seq<TableFile>, j: nat, deleted: set<nat>, r: seq<TableFile>)
    requires i <= |base| && j < |added| && StrictlyOrdered(added) && NoClash(base, added, deleted)
    requires MergedTo(base, i, added, j, deleted, r, true) && added[j].number !in deleted
    requires forall n | 0 <= n < i :: !BySmallestKey(added[j], base[n])
    ensures forall x | x in r :: BySmallestKey(x, added[j])
  {
    forall x | x in r ensures BySmallestKey(x, added[j]) {
      MergedFrom(base[..i], added[..j], deleted, r, true, x);
      if x in base[..i] {
        BySmallestKeyTotal(x, added[j]);
        assert added[j] in added && x in base;
      }
    }
  }

  lemma MergeAdded(base: seq<TableFile>, i: nat, added: seq<TableFile>, j: nat, deleted: set<nat>, r: seq<TableFile>,
                   ordered: bool)
    requires i <= |base| && j < |added| && StrictlyOrdered(added) && (ordered ==> NoClash(base, added, deleted))
    requires MergedTo(base, i, added, j, deleted, r, ordered)
    requires forall n | 0 <= n < i :: !BySmallestKey(added[j], base[n])
    ensures MergedTo(base, i, added, j + 1, deleted, r + IfLive(added[j], deleted), ordered)
  {
    if ordered && added[j].number !in deleted { AllPrecede(base, i, added, j, deleted, r); }
    MergedSwap(base[..i], added[..j], deleted, r, ordered);
    MergeOne(added[..j], base[..i], added[j], deleted, r, ordered);
    assert added[..j + 1] == added[..j] + [added[j]];
    MergedSwap(added[..j + 1], base[..i], deleted, r + IfLive(added[j], deleted), ordered);
  }

  /** What one level is saved as. */
  ghost predicate Saved(base: seq<TableFile>, added: seq<TableFile>, deleted: set<nat>, r: seq<TableFile>) {
    Merged(base, added, deleted, r, NoClash(base, added, deleted))
  }

  lemma NothingMerged(base: seq<TableFile>, added: seq<TableFile>, deleted: set<nat>, ordered: bool)
    ensures MergedTo(base, 0, added, 0, deleted, [], ordered)
  {
    assert base[..0] == [] && added[..0] == [];
  }

  lemma PassedByAll(base: seq<TableFile>, i: nat, added: seq<TableFile>, j: nat)
    requires i < |base| && j < |added| && StrictlyOrdered(added) && !BySmallestKey(added[j], base[i])
    requires Interleaved(base, i, added, j)
    ensures Interleaved(base, i + 1, added, j)
  {
    forall m | j <= m < |added| ensures !BySmallestKey(added[m], base[i]) {
      assert j < m ==> BySmallestKey(added[j], added[m]);
    }
  }

  lemma NextPrecedes(base: seq<TableFile>, i: nat, added: seq<TableFile>, j: nat)
    requires i <= |base| && j < |added| && StrictlyOrdered(base) && Interleaved(base, i, added, j)
    requires i < |base| ==> BySmallestKey(added[j], base[i])
    ensures Interleaved(base, i, added, j + 1)
    ensures forall n | 0 <= n < i :: !BySmallestKey(added[j], base[n])
  {
    forall n | i <= n < |base| ensures BySmallestKey(added[j], base[n]) {
      assert i < n ==> BySmallestKey(base[i], base[n]);
    }
  }

  lemma PassBase(base: seq<TableFile>, i: nat, added: seq<TableFile>, j: nat, deleted: set<nat>, r: seq<TableFile>,
                 ordered: bool)
    requires i < |base| && j < |added| && StrictlyOrdered(base) && StrictlyOrdered(added)
    requires !BySmallestKey(added[j], base[i])
    requires Interleaved(base, i, added, j) && MergedTo(base, i, added, j, deleted, r, ordered)
    ensures Interleaved(base, i + 1, added, j)
    ensures MergedTo(base, i + 1, added, j, deleted, r + IfLive(base[i], deleted), ordered)
  {
    MergeBase(base, i, added, j, deleted, r, ordered);
    PassedByAll(base, i, added, j);
  }

  /** The base files not beyond the next added file (std::upper_bound). */
  method MergeUpTo(base: seq<TableFile>, start: nat, added: seq<TableFile>, j: nat, deleted: set<nat>,
                   files: seq<TableFile>,
                   ghost ordered: bool) returns (i: nat, r: seq<TableFile>)
    requires start <= |base| && j < |added| && StrictlyOrdered(base) && StrictlyOrdered(added)
    requires Interleaved(base, start, added, j) && MergedTo(base, start, added, j, deleted, files, ordered)
    ensures i <= |base| && Interleaved(base, i, added, j + 1) && MergedTo(base, i, added, j, deleted, r, ordered)
    ensures forall n | 0 <= n < i :: !BySmallestKey(added[j], base[n])
  {
    i, r := start, files;
    while i < |base| && !BySmallestKey(added[j], base[i])
      invariant start <= i <= |base| && Interleaved(base, i, added, j)
      invariant MergedTo(base, i, added, j, deleted, r, ordered)
    {
      PassBase(base, i, added, j, deleted, r, ordered);
      r := MaybeAddFile(r, base[i], deleted);
      i := i + 1;
    }
    NextPrecedes(base, i, added, j);
  }

  lemma AllMerged(base: seq<TableFile>, added: seq<TableFile>, deleted: set<nat>, r: seq<TableFile>)
    requires MergedTo(base, |base|, added, |added|, deleted, r, NoClash(base, added, deleted))
    ensures Saved(base, added, deleted, r)
  {
    assert base[..|base|] == base && added[..|added|] == added;
  }

  /** Merges one level: base files and added files in order, without the deleted ones. */
  method MergeLevel(base: seq<TableFile>, added: seq<TableFile>, deleted: set<nat>) returns (r: seq<TableFile>)
    requires StrictlyOrdered(base) && StrictlyOrdered(added)
    ensures Saved(base, added, deleted, r)
  {
    r := [];
    var i: nat, j: nat := 0, 0;
    ghost var ordered := NoClash(base, added, deleted);
    NothingMerged(base, added, deleted, ordered);
    while j < |added|
      invariant i <= |base| && 0 <= j <= |added| && Interleaved(base, i, added, j)
      invariant MergedTo(base, i, added, j, deleted, r, ordered)
    {
      i, r := MergeUpTo(base, i, added, j, deleted, r, ordered);
      MergeAdded(base, i, added, j, deleted, r, ordered);
      r := MaybeAddFile(r, added[j], deleted);
      j := j + 1;
    }
    while i < |base|
      invariant i <= |base| && Interleaved(base, i, added, |added|)
      invariant MergedTo(base, i, added, |added|, deleted, r, ordered)
    {
      MergeBase(base, i, added, |added|, deleted, r, ordered);
      r := MaybeAddFile(r, base[i], deleted);
      i := i + 1;
    }
    AllMerged(base, added, deleted, r);
  }

  lemma MergedMembers(base: seq<TableFile>, added: seq<TableFile>, deleted: set<nat>, r: seq<TableFile>, ordered: bool)
    requires Merged(base, added, deleted, r, ordered)
    ensures FileSet(r) == LiveFiles(FileSet(base) + FileSet(added), deleted)
  {
    forall f ensures f in FileSet(r) <==> f in LiveFiles(FileSet(base) + FileSet(added), deleted) {
      assert f in r <==> multiset(r)[f] > 0;
    }
  }

  ghost predicate OrderedLists(levels: seq<seq<TableFile>>) {
    |levels| == NUM_LEVELS && forall l | 0 <= l < NUM_LEVELS :: StrictlyOrdered(levels[l])
  }

  /** A file number names one file among those added to a level. */
  ghost predicate NumbersName(added: set<TableFile>) {
    forall f, g | f in added && g in added && f.number == g.number :: f == g
  }

  method DeleteFiles(deleted: seq<set<nat>>, deletions: seq<(nat, nat)>) returns (r: seq<set<nat>>)
    requires forall d | d in deletions :: d.0 < |deleted|
    ensures |r| == |deleted| && forall l | 0 <= l < |r| :: r[l] == deleted[l] + DeletedBy(deletions, l)
  {
    r := deleted;
    for i := 0 to |deletions|
      invariant |r| == |deleted|
      invariant forall l | 0 <= l < |r| :: r[l] == deleted[l] + DeletedBy(deletions[..i], l)
    {
      var d := deletions[i];
      assert deletions[..i + 1] == deletions[..i] + [d];
      assert forall l: nat ::
          DeletedBy(deletions[..i + 1], l) == DeletedBy(deletions[..i], l) + if d.0 == l then {d.1} else {};
      r := r[d.0 := r[d.0] + {d.1}];
    }
    assert deletions[..|deletions|] == deletions;
  }

  lemma AddedByNext(files: seq<(nat, TableFile)>, i: nat, l: nat)
    requires i < |files|
    ensures AddedBy(files[..i + 1], l) == AddedBy(files[..i], l) + if files[i].0 == l then {files[i].1} else {}
    ensures AddedBy(files[..i], l) <= AddedBy(files, l) && files[i].1 in AddedBy(files, files[i].0)
  {
    assert files[..i + 1] == files[..i] + [files[i]];
    forall a | a in files[..i] ensures a in files {}
  }

  /** No two files of the set share a place in the order, as two with the same number and smallest key would. */
  ghost predicate PlacesName(files: set<TableFile>) {
    forall f, g | f in files && g in files && SamePlace(f, g) :: f == g
  }

  lemma NumbersNamePlaces(files: set<TableFile>)
    requires NumbersName(files)
    ensures PlacesName(files)
  {
  }

  /** `r` holds one file for every place that `all` names, the `first` ones before others. */
  ghost predicate OnePerPlace(first: set<TableFile>, all: set<TableFile>, r: set<TableFile>) {
    first <= r <= all && forall f {:trigger PlaceTaken(r, f)} | f in all :: PlaceTaken(r, f)
  }

  lemma OnePerPlaceIsAll(first: set<TableFile>, all: set<TableFile>, r: set<TableFile>)
    requires OnePerPlace(first, all, r) && PlacesName(all)
    ensures r == all
  {
    forall f | f in all ensures f in r {
      assert PlaceTaken(r, f);
    }
  }

  lemma StaysTaken(r: set<TableFile>, s: set<TableFile>, f: TableFile)
    requires PlaceTaken(r, f) && r <= s
    ensures PlaceTaken(s, f)
  {
  }

  lemma OnePlaceMore(first: set<TableFile>, all: set<TableFile>, r: set<TableFile>, f: TableFile, s: set<TableFile>)
    requires OnePerPlace(first, all, r) && Inserted(r, f, s)
    ensures OnePerPlace(first, all + {f}, s)
  {
    forall g | g in all + {f} ensures PlaceTaken(s, g) {
      if g in all {
        assert PlaceTaken(r, g);
        StaysTaken(r, s, g);
      } else if PlaceTaken(r, f) {
        assert s == r;
      } else {
        assert f in s && SamePlace(f, f);
      }
    }
  }

  /** One added file: no longer deleted, and in its place in the ordered set. */
  method AddFile(deleted: set<nat>, added: seq<TableFile>, f: TableFile, ghost before: set<TableFile>,
                 ghost gone: set<nat>, ghost done: set<TableFile>)
    returns (d: set<nat>, a: seq<TableFile>)
    requires StrictlyOrdered(added) && OnePerPlace(before, before + done, FileSet(added))
    requires deleted == gone - Numbers(done)
    ensures StrictlyOrdered(a) && OnePerPlace(before, before + (done + {f}), FileSet(a))
    ensures d == gone - Numbers(done + {f})
  {
    d := deleted - {f.number};
    a := InsertOrdered(added, f);
    OnePlaceMore(before, before + done, FileSet(added), f, FileSet(a));
    assert before + done + {f} == before + (done + {f});
    assert Numbers(done + {f}) == Numbers(done) + {f.number};
  }

  ghost predicate AddedSoFar(deleted: seq<set<nat>>, added: seq<seq<TableFile>>, done: seq<(nat, TableFile)>,
                             d: seq<set<nat>>, a: seq<seq<TableFile>>)
    requires |deleted| == |added|
  {
    && |d| == |a| == |added|
    && forall l | 0 <= l < |added| ::
         && StrictlyOrdered(a[l])
         && OnePerPlace(FileSet(added[l]), FileSet(added[l]) + AddedBy(done, l), FileSet(a[l]))
         && d[l] == deleted[l] - Numbers(AddedBy(done, l))
  }

  lemma NothingAdded(deleted: seq<set<nat>>, added: seq<seq<TableFile>>)
    requires |deleted| == |added| && forall l | 0 <= l < |added| :: StrictlyOrdered(added[l])
    ensures AddedSoFar(deleted, added, [], deleted, added)
  {
    forall l | 0 <= l < |added|
      ensures OnePerPlace(FileSet(added[l]), FileSet(added[l]) + AddedBy([], l), FileSet(added[l]))
    {
      assert AddedBy([], l) == {};
      forall f | f in added[l] ensures PlaceTaken(FileSet(added[l]), f) {
        assert f in FileSet(added[l]) && SamePlace(f, f);
      }
    }
    assert Numbers({}) == {};
  }

  method AddFiles(deleted: seq<set<nat>>, added: seq<seq<TableFile>>, files: seq<(nat, TableFile)>)
    returns (d: seq<set<nat>>, a: seq<seq<TableFile>>)
    requires |deleted| == |added| && forall l | 0 <= l < |added| :: StrictlyOrdered(added[l])
    requires forall f | f in files :: f.0 < |added|
    ensures AddedSoFar(deleted, added, files, d, a)
  {
    d, a := deleted, added;
    NothingAdded(deleted, added);
    assert files[..0] == [];
    for i := 0 to |files|
      invariant AddedSoFar(deleted, added, files[..i], d, a)
    {
      var l, f := files[i].0, files[i].1;
      AddedByNext(files, i, l);
      var dl, al := AddFile(d[l], a[l], f, FileSet(added[l]), deleted[l], AddedBy(files[..i], l));
      forall m | 0 <= m < |added| && m != l ensures AddedBy(files[..i + 1], m) == AddedBy(files[..i], m) {
        AddedByNext(files, i, m);
      }
      d, a := d[l := dl], a[l := al];
    }
    assert files[..|files|] == files;
  }

  lemma SavedMore(base: seq<seq<TableFile>>, added: seq<seq<TableFile>>, deleted: seq<set<nat>>,
                  files: seq<seq<TableFile>>,
                  list: seq<TableFile>)
    requires |files| < |base| == |added| == |deleted|
    requires forall l | 0 <= l < |files| :: Saved(base[l], added[l], deleted[l], files[l])
    requires Saved(base[|files|], added[|files|], deleted[|files|], list)
    ensures forall l | 0 <= l <= |files| :: Saved(base[l], added[l], deleted[l], (files + [list])[l])
  {
    forall l | 0 <= l <= |files| ensures Saved(base[l], added[l], deleted[l], (files + [list])[l]) {
      if l < |files| { assert (files + [list])[l] == files[l]; }
    }
  }

  lemma SavedSets(base: seq<seq<TableFile>>, added: seq<seq<TableFile>>, deleted: seq<set<nat>>,
                  files: seq<seq<TableFile>>)
    requires |base| == |added| == |deleted| == |files| == NUM_LEVELS
    requires forall l | 0 <= l < NUM_LEVELS :: Saved(base[l], added[l], deleted[l], files[l])
    ensures LevelSets(files) == Result(Batch(LevelSets(base), deleted, LevelSets(added)))
  {
    forall l | 0 <= l < NUM_LEVELS
      ensures FileSet(files[l]) == LiveFiles(FileSet(base[l]) + FileSet(added[l]), deleted[l])
    {
      MergedMembers(base[l], added[l], deleted[l], files[l], NoClash(base[l], added[l], deleted[l]));
    }
  }

  class Builder {
    const base: seq<seq<TableFile>>
    var deleted: seq<set<nat>>
    var added: seq<seq<TableFile>>

    constructor (base: seq<seq<TableFile>>)
      requires OrderedLists(base)
      ensures Valid() && View() == EmptyBatch(LevelSets(base)) && this.base == base
    {
      this.base := base;
      deleted := seq(NUM_LEVELS, _ => {});
      added := seq(NUM_LEVELS, _ => []);
      new;
      forall l | 0 <= l < NUM_LEVELS ensures LevelSets(added)[l] == {} {
        assert added[l] == [];
      }
    }

    ghost predicate Valid()
      reads this
    {
      OrderedLists(base) && OrderedLists(added) && |deleted| == NUM_LEVELS
    }

    ghost function View(): Batch
      reads this
    {
      Batch(LevelSets(base), deleted, LevelSets(added))
    }

    /** Accumulates one edit: first its deletions, then its files, each of which stops being deleted. The
        ordered sets take one file for each place, which is all of them unless two files with the same number
        and smallest key are added. */
    method Apply(edit: VersionEdit)
      requires Valid() && ValidEdit(edit)
      modifies this
      ensures Valid() && View().base == old(View()).base && View().deleted == ApplyEdit(old(View()), edit).deleted
      ensures forall l | 0 <= l < NUM_LEVELS ::
                OnePerPlace(old(View()).added[l], ApplyEdit(old(View()), edit).added[l], View().added[l])
      ensures (forall l | 0 <= l < NUM_LEVELS :: PlacesName(ApplyEdit(old(View()), edit).added[l])) ==>
                View() == ApplyEdit(old(View()), edit)
    {
      ghost var before := View();
      ghost var after := ApplyEdit(before, edit);
      var d := DeleteFiles(deleted, edit.deletedFiles);
      deleted, added := AddFiles(d, added, edit.newFiles);
      forall l | 0 <= l < NUM_LEVELS
        ensures deleted[l] == after.deleted[l]
        ensures OnePerPlace(before.added[l], after.added[l], FileSet(added[l]))
        ensures PlacesName(after.added[l]) ==> FileSet(added[l]) == after.added[l]
      {
        assert AddedBy(edit.newFiles, l) == AddedAt(edit, l) && DeletedBy(edit.deletedFiles, l) == DeletedAt(edit, l);
        if PlacesName(after.added[l]) { OnePerPlaceIsAll(before.added[l], after.added[l], FileSet(added[l])); }
      }
    }

    /** The version the accumulated edits lead to. */
    method SaveTo() returns (files: seq<seq<TableFile>>)
      requires Valid()
      ensures |files| == NUM_LEVELS && LevelSets(files) == Result(View())
      ensures forall l | 0 <= l < NUM_LEVELS :: Saved(base[l], added[l], deleted[l], files[l])
    {
      files := [];
      for level := 0 to NUM_LEVELS
        invariant |files| == level
        invariant forall l | 0 <= l < level :: Saved(base[l], added[l], deleted[l], files[l])
      {
        var list := MergeLevel(base[level], added[level], deleted[level]);
        SavedMore(base, added, deleted, files, list);
        files := files + [list];
      }
      SavedSets(base, added, deleted, files);
    }
  }

  lemma {:induction false} ListedOnce(files: seq<TableFile>, f: TableFile)
    requires StrictlyOrdered(files)
    ensures multiset(files)[f] == if f in files then 1 else 0
  {
    if files != [] {
      var n := |files| - 1;
      ListedOnce(files[..n], f);
      assert files == files[..n] + [files[n]];
      assert forall i | 0 <= i < n :: BySmallestKey(files[i], files[n]);
      assert f in files[..n] ==> BySmallestKey(f, files[n]);
    }
  }

  /** Why the history must not re-add: a live file is listed once unless it was in the base and is added again. */
  lemma ReaddedIsListedTwice(base: seq<TableFile>, added: seq<TableFile>, deleted: set<nat>, f: TableFile,
                             r: seq<TableFile>)
    requires StrictlyOrdered(base) && StrictlyOrdered(added) && Saved(base, added, deleted, r)
    ensures multiset(r)[f] == 2 <==> f in base && f in added && f.number !in deleted
    ensures multiset(r)[f] <= 2
  {
    ListedOnce(base, f);
    ListedOnce(added, f);
  }
}
