/** Table files as a Version lists them, and the user-key ranges the selection code compares.
    A table file is immutable, so its metadata carries the entries it holds. */
module TableFiles {
  import opened InternalKeys

  datatype TableFile = TableFile(
    number: nat, size: nat, smallest: InternalKey, largest: InternalKey, entries: seq<Entry>)

  const NUM_LEVELS: nat := 7

  predicate WellFormed(f: TableFile) {
    && |f.entries| > 0
    && SortedEntries(f.entries)
    && f.smallest == f.entries[0].key
    && f.largest == f.entries[|f.entries| - 1].key
  }

  ghost predicate AllWellFormed(files: seq<TableFile>) {
    forall f | f in files :: WellFormed(f)
  }

  /** All of `f` precedes all of `g`. */
  predicate Before(f: TableFile, g: TableFile) {
    Less(f.largest, g.smallest)
  }

  /** A level above 0: pairwise disjoint files in key order. */
  ghost predicate SortedLevel(files: seq<TableFile>) {
    && AllWellFormed(files)
    && forall i, j | 0 <= i < j < |files| :: Before(files[i], files[j])
  }

  lemma WellFormedBounds(f: TableFile)
    requires WellFormed(f)
    ensures AtMost(f.smallest, f.largest)
    ensures f.smallest.user <= f.largest.user
    ensures forall e | e in f.entries :: AtMost(f.smallest, e.key) && AtMost(e.key, f.largest)
    ensures forall e | e in f.entries :: f.smallest.user <= e.key.user <= f.largest.user
  {
    var n := |f.entries| - 1;
    if n > 0 { assert Less(f.entries[0].key, f.entries[n].key); }
    forall e | e in f.entries
      ensures AtMost(f.smallest, e.key) && AtMost(e.key, f.largest)
    {
      var i :| 0 <= i < |f.entries| && f.entries[i] == e;
      if 0 < i { assert Less(f.entries[0].key, f.entries[i].key); }
      if i < n { assert Less(f.entries[i].key, f.entries[n].key); }
    }
  }

  /** A range of user keys; an absent end is unbounded (the source's null pointer). */
  datatype Range = Range(lo: Option<UserKey>, hi: Option<UserKey>)

  predicate InRange(x: UserKey, r: Range) {
    (r.lo.Some? ==> r.lo.value <= x) && (r.hi.Some? ==> x <= r.hi.value)
  }

  predicate AfterFile(key: Option<UserKey>, f: TableFile) {
    key.Some? && key.value > f.largest.user
  }

  predicate BeforeFile(key: Option<UserKey>, f: TableFile) {
    key.Some? && key.value < f.smallest.user
  }

  predicate Overlaps(f: TableFile, r: Range) {
    !AfterFile(r.lo, f) && !BeforeFile(r.hi, f)
  }

  /** `f` lies inside `r`. */
  predicate Within(f: TableFile, r: Range) {
    (r.lo.Some? ==> r.lo.value <= f.smallest.user) && (r.hi.Some? ==> f.largest.user <= r.hi.value)
  }

  predicate Contains(f: TableFile, x: UserKey) {
    f.smallest.user <= x <= f.largest.user
  }

  /** `outer` contains `inner`. */
  predicate Covers(outer: Range, inner: Range) {
    && (outer.lo.Some? ==> inner.lo.Some? && outer.lo.value <= inner.lo.value)
    && (outer.hi.Some? ==> inner.hi.Some? && inner.hi.value <= outer.hi.value)
  }

  /** No file sticks out of `r`. */
  ghost predicate Closed(files: seq<TableFile>, r: Range) {
    forall f | f in files && Overlaps(f, r) :: Within(f, r)
  }

  function FileRange(f: TableFile): Range {
    Range(Some(f.smallest.user), Some(f.largest.user))
  }

  /** The files that overlap `r`, in order. */
  function Select(files: seq<TableFile>, r: Range): seq<TableFile> {
    if files == [] then []
    else
      var n := |files| - 1;
      Select(files[..n], r) + if Overlaps(files[n], r) then [files[n]] else []
  }

  lemma {:induction false} SelectMembers(files: seq<TableFile>, r: Range)
    ensures forall f :: f in Select(files, r) <==> f in files && Overlaps(f, r)
  {
    if files != [] {
      var n := |files| - 1;
      SelectMembers(files[..n], r);
      assert files == files[..n] + [files[n]];
    }
  }

  function TotalFileSize(files: seq<TableFile>): nat {
    if files == [] then 0 else TotalFileSize(files[..|files| - 1]) + files[|files| - 1].size
  }

  function FileSet(files: seq<TableFile>): set<TableFile> {
    set f | f in files
  }

  /** The file lists of a Version, one per level; level 0 may overlap, deeper levels may not. */
  ghost predicate ValidLevels(levels: seq<seq<TableFile>>) {
    && |levels| == NUM_LEVELS
    && AllWellFormed(levels[0])
    && forall l | 1 <= l < NUM_LEVELS :: SortedLevel(levels[l])
  }

  // ---- The levels as sets of files: what reads and compactions rely on ----

  /** Wherever `f` and `g` hold the same user key, `f` holds the newer entries. */
  ghost predicate Newer(f: TableFile, g: TableFile) {
    forall a, b | a in f.entries && b in g.entries && a.key.user == b.key.user :: a.key.sequence > b.key.sequence
  }

  ghost predicate Disjoint(level: set<TableFile>) {
    forall f, g | f in level && g in level && f != g :: Before(f, g) || Before(g, f)
  }

  /** Level 0: the file with the higher number holds the newer data. */
  ghost predicate NewerByNumber(level: set<TableFile>) {
    forall f, g | f in level && g in level && f != g ::
      f.number != g.number && (f.number > g.number ==> Newer(f, g))
  }

  ghost predicate ShallowerNewer(levels: seq<set<TableFile>>) {
    forall i, j, f, g | 0 <= i < j < |levels| && f in levels[i] && g in levels[j] :: Newer(f, g)
  }

  /** The invariant behind every early-stopping read. */
  ghost predicate OrderedLevels(levels: seq<set<TableFile>>) {
    && |levels| == NUM_LEVELS
    && (forall l, f | 0 <= l < NUM_LEVELS && f in levels[l] :: WellFormed(f))
    && (forall l | 1 <= l < NUM_LEVELS :: Disjoint(levels[l]))
    && NewerByNumber(levels[0])
    && ShallowerNewer(levels)
  }

  function LevelSets(levels: seq<seq<TableFile>>): (r: seq<set<TableFile>>)
    ensures |r| == |levels|
    ensures forall l | 0 <= l < |levels| :: r[l] == FileSet(levels[l])
  {
    seq(|levels|, l requires 0 <= l < |levels| => FileSet(levels[l]))
  }

  /** Everything the table files of the levels hold. */
  ghost function EntriesOf(levels: seq<set<TableFile>>): set<Entry> {
    set l, f, e | 0 <= l < |levels| && f in levels[l] && e in f.entries :: e
  }
}
