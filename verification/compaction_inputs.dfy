/** Choosing the inputs of a compaction: GetRange, AddBoundaryInputs, SetupOtherInputs,
    PickCompaction and CompactRange of project/version_set.cc. */
module CompactionInputs {
  import opened InternalKeys
  import opened TableFiles
  import opened FileSearch

  // ---- Ranges of user keys ----

  /** The user-key ranges of the two files have a point in common. */
  predicate RangesMeet(f: TableFile, g: TableFile) {
    f.smallest.user <= g.largest.user && g.smallest.user <= f.largest.user
  }

  ghost predicate IsHull(files: seq<TableFile>, smallest: InternalKey, largest: InternalKey) {
    && (exists f :: f in files && f.smallest == smallest)
    && (exists f :: f in files && f.largest == largest)
    && (forall f | f in files :: AtMost(smallest, f.smallest) && AtMost(f.largest, largest))
  }

  lemma HullGrows(files: seq<TableFile>, f: TableFile, more: seq<TableFile>,
                  smallest: InternalKey, largest: InternalKey)
    requires IsHull(files, smallest, largest) && more == files + [f]
    ensures IsHull(more, if Less(f.smallest, smallest) then f.smallest else smallest,
                   if Less(largest, f.largest) then f.largest else largest)
  {
    assert f in more && forall g | g in files :: g in more;
  }

  /** GetRange: the least range of internal keys that covers all the files. */
  method GetRange(inputs: seq<TableFile>) returns (smallest: InternalKey, largest: InternalKey)
    requires inputs != []
    ensures IsHull(inputs, smallest, largest)
  {
    smallest, largest := inputs[0].smallest, inputs[0].largest;
    for i := 1 to |inputs|
      invariant IsHull(inputs[..i], smallest, largest)
    {
      var f := inputs[i];
      HullGrows(inputs[..i], f, inputs[..i + 1], smallest, largest);
      if Less(f.smallest, smallest) {
        smallest := f.smallest;
      }
      if Less(largest, f.largest) {
        largest := f.largest;
      }
    }
    assert inputs[..|inputs|] == inputs;
  }

  ghost predicate InHull(files: set<TableFile>, x: UserKey) {
    exists f, g :: f in files && g in files && f.smallest.user <= x <= g.largest.user
  }

  ghost predicate Covered(files: set<TableFile>, x: UserKey) {
    exists f :: f in files && Contains(f, x)
  }

  /** Every user key between two points of the files is inside one of the files. */
  ghost predicate Gapless(files: set<TableFile>) {
    forall x: UserKey | InHull(files, x) :: Covered(files, x)
  }

  // ---- Boundary files ----

  /** `f` begins right after `key` inside the same user key. */
  predicate IsBoundary(f: TableFile, key: InternalKey) {
    Less(key, f.smallest) && f.smallest.user == key.user
  }

  ghost predicate IsSmallestBoundary(files: seq<TableFile>, key: InternalKey, f: TableFile) {
    && f in files && IsBoundary(f, key)
    && forall g | g in files && IsBoundary(g, key) :: AtMost(f.smallest, g.smallest)
  }

  method FindSmallestBoundaryFile(files: seq<TableFile>, key: InternalKey) returns (r: Option<TableFile>)
    ensures r.Some? ==> IsSmallestBoundary(files, key, r.value)
    ensures r.None? ==> forall g | g in files :: !IsBoundary(g, key)
  {
    r := None;
    for i := 0 to |files|
      invariant r.Some? ==> IsSmallestBoundary(files[..i], key, r.value)
      invariant r.None? ==> forall g | g in files[..i] :: !IsBoundary(g, key)
    {
      assert files[..i + 1] == files[..i] + [files[i]];
      if IsBoundary(files[i], key) && (r.None? || Less(files[i].smallest, r.value.smallest)) {
        r := Some(files[i]);
      }
    }
    assert files[..|files|] == files;
  }

  ghost predicate IsLargestKey(files: seq<TableFile>, key: InternalKey) {
    && (exists f :: f in files && f.largest == key)
    && forall f | f in files :: AtMost(f.largest, key)
  }

  method FindLargestKey(files: seq<TableFile>) returns (r: Option<InternalKey>)
    ensures r.None? <==> files == []
    ensures r.Some? ==> IsLargestKey(files, r.value)
  {
    if files == [] {
      return None;
    }
    var key := files[0].largest;
    for i := 1 to |files|
      invariant IsLargestKey(files[..i], key)
    {
      assert files[..i + 1] == files[..i] + [files[i]];
      assert files[i] in files[..i + 1];
      if Less(key, files[i].largest) {
        key := files[i].largest;
      }
    }
    assert files[..|files|] == files;
    r := Some(key);
  }

  function KeyBefore(key: InternalKey, added: seq<TableFile>, i: nat): InternalKey
    requires i <= |added|
  {
    if i == 0 then key else added[i - 1].largest
  }

  /** Each added file is the smallest boundary file of the one before it, and the last has none. */
  ghost predicate BoundaryChain(files: seq<TableFile>, key: InternalKey, added: seq<TableFile>) {
    && (forall i {:trigger KeyBefore(key, added, i)} | 0 <= i < |added| ::
         IsSmallestBoundary(files, KeyBefore(key, added, i), added[i]))
    && forall g | g in files :: !IsBoundary(g, KeyBefore(key, added, |added|))
  }

  /** Every added file lies beyond all files listed before it. */
  ghost predicate Ascending(files: seq<TableFile>, added: seq<TableFile>) {
    && (forall f, g | f in files && g in added :: Before(f, g))
    && (forall i, j | 0 <= i < j < |added| :: Before(added[i], added[j]))
  }

  ghost predicate BoundarySearch(levelFiles: seq<TableFile>, files: seq<TableFile>, key: InternalKey,
                                 added: seq<TableFile>) {
    && (forall f | f in files :: AtMost(f.largest, KeyBefore(key, added, |added|)))
    && (forall i | 0 <= i < |added| :: AtMost(added[i].largest, KeyBefore(key, added, |added|)))
    && (forall i {:trigger KeyBefore(key, added, i)} | 0 <= i < |added| ::
         IsSmallestBoundary(levelFiles, KeyBefore(key, added, i), added[i]))
    && Ascending(files, added)
  }

  ghost function Beyond(files: seq<TableFile>, key: InternalKey): set<nat> {
    set i: nat | i < |files| && Less(key, files[i].smallest)
  }

  lemma BeyondShrinks(files: seq<TableFile>, key: InternalKey, f: TableFile)
    requires f in files && WellFormed(f) && Less(key, f.smallest)
    ensures Beyond(files, f.largest) < Beyond(files, key)
  {
    WellFormedBounds(f);
    var n :| 0 <= n < |files| && files[n] == f;
    assert n in Beyond(files, key) && n !in Beyond(files, f.largest);
  }

  lemma AscendingStep(files: seq<TableFile>, added: seq<TableFile>, f: TableFile)
    requires Ascending(files, added)
    requires forall g | g in files :: Before(g, f)
    requires forall i | 0 <= i < |added| :: Before(added[i], f)
    ensures Ascending(files, added + [f])
  {
  }

  lemma BoundaryStep(levelFiles: seq<TableFile>, files: seq<TableFile>, key: InternalKey, added: seq<TableFile>,
                     f: TableFile)
    requires WellFormed(f) && BoundarySearch(levelFiles, files, key, added)
    requires IsSmallestBoundary(levelFiles, KeyBefore(key, added, |added|), f)
    ensures BoundarySearch(levelFiles, files, key, added + [f])
  {
    WellFormedBounds(f);
    var last := KeyBefore(key, added, |added|);
    var more := added + [f];
    assert KeyBefore(key, more, |more|) == f.largest;
    forall g: TableFile | AtMost(g.largest, last)
      ensures Before(g, f) && AtMost(g.largest, f.largest)
    {
    }
    AscendingStep(files, added, f);
    forall i | 0 <= i < |more|
      ensures IsSmallestBoundary(levelFiles, KeyBefore(key, more, i), more[i])
    {
      if i < |added| {
        assert more[i] == added[i] && KeyBefore(key, more, i) == KeyBefore(key, added, i);
      } else {
        assert more[i] == f && KeyBefore(key, more, i) == last;
      }
    }
  }

  lemma AddedFromLevel(files: seq<TableFile>, key: InternalKey, added: seq<TableFile>)
    requires BoundaryChain(files, key, added)
    ensures forall f | f in added :: f in files
  {
    forall f | f in added ensures f in files {
      var i :| 0 <= i < |added| && added[i] == f;
      assert IsSmallestBoundary(files, KeyBefore(key, added, i), added[i]);
    }
  }

  /** The added files continue the inputs' last user key, each beyond everything before it:
      the search stops, and nothing is listed twice. */
  method AddBoundaryInputs(levelFiles: seq<TableFile>, compactionFiles: seq<TableFile>)
    returns (r: seq<TableFile>, ghost added: seq<TableFile>)
    requires AllWellFormed(levelFiles)
    ensures r == compactionFiles + added && Ascending(compactionFiles, added)
    ensures compactionFiles <= r && forall f | f in r[|compactionFiles|..] :: f in levelFiles
    ensures compactionFiles == [] ==> r == []
    ensures compactionFiles != [] ==>
              exists key :: IsLargestKey(compactionFiles, key) && BoundaryChain(levelFiles, key, added)
  {
    r, added := compactionFiles, [];
    var largest := FindLargestKey(compactionFiles);
    if largest.None? {
      return;
    }
    ghost var start := largest.value;
    var key := largest.value;
    var searching := true;
    while searching
      invariant r == compactionFiles + added && key == KeyBefore(start, added, |added|)
      invariant BoundarySearch(levelFiles, compactionFiles, start, added)
      invariant !searching ==> forall g | g in levelFiles :: !IsBoundary(g, key)
      decreases searching, Beyond(levelFiles, key)
    {
      var f := FindSmallestBoundaryFile(levelFiles, key);
      if f.Some? {
        BoundaryStep(levelFiles, compactionFiles, start, added, f.value);
        BeyondShrinks(levelFiles, key, f.value);
        r, added := r + [f.value], added + [f.value];
        key := f.value.largest;
      } else {
        searching := false;
      }
    }
    assert BoundaryChain(levelFiles, start, added);
    AddedFromLevel(levelFiles, start, added);
    assert r[|compactionFiles|..] == added;
  }

  // ---- Runs of neighbouring files in a sorted level ----

  lemma OverlapConvex(files: seq<TableFile>, r: Range, i: nat, j: nat, k: nat)
    requires SortedLevel(files) && i <= j <= k < |files|
    requires Overlaps(files[i], r) && Overlaps(files[k], r)
    ensures Overlaps(files[j], r)
  {
    SortedLevelBounds(files);
  }

  /** Of the first `n` files, those from `a` to before `b` overlap the range. */
  ghost predicate IsOverlapRun(files: seq<TableFile>, r: Range, n: nat, a: nat, b: nat) {
    && a <= b <= n <= |files|
    && forall i | 0 <= i < n :: a <= i < b <==> Overlaps(files[i], r)
  }

  lemma NoRun(files: seq<TableFile>, r: Range)
    ensures IsOverlapRun(files, r, 0, 0, 0) && Select(files[..0], r) == files[0..0]
  {
  }

  /** The run of `n` files is what is selected from them. */
  ghost predicate SelectsRun(files: seq<TableFile>, r: Range, n: nat, a: nat, b: nat) {
    exists m: nat :: m == n && IsOverlapRun(files, r, m, a, b) && Select(files[..m], r) == files[a..b]
  }

  lemma RunGoesOn(files: seq<TableFile>, r: Range, n: nat, a: nat, b: nat)
    requires SortedLevel(files) && n < |files| && IsOverlapRun(files, r, n, a, b) && a < b && Overlaps(files[n], r)
    ensures b == n
  {
    if b < n { OverlapConvex(files, r, b - 1, b, n); }
  }

  lemma LongerSlice(files: seq<TableFile>, a: nat, m: nat)
    requires a <= m < |files|
    ensures files[a..m] + [files[m]] == files[a..m + 1]
  {
  }

  /** The run of one more file. */
  lemma RunNext(files: seq<TableFile>, r: Range, n: nat, a: nat, b: nat) returns (c: nat, d: nat)
    requires SortedLevel(files) && n < |files| && IsOverlapRun(files, r, n, a, b)
    ensures IsOverlapRun(files, r, n + 1, c, d)
    ensures files[c..d] == files[a..b] + if Overlaps(files[n], r) then [files[n]] else []
  {
    c, d := a, b;
    if Overlaps(files[n], r) {
      if a < b {
        RunGoesOn(files, r, n, a, b);
      } else {
        c := n;
      }
      d := n + 1;
      LongerSlice(files, c, n);
    }
  }

  lemma SelectsNext(files: seq<TableFile>, r: Range, n: nat, a: nat, b: nat) returns (c: nat, d: nat)
    requires SortedLevel(files) && n < |files| && SelectsRun(files, r, n, a, b)
    ensures SelectsRun(files, r, n + 1, c, d)
  {
    c, d := RunNext(files, r, n, a, b);
    SelectNext(files, r, n);
  }

  lemma {:induction false} SelectPrefixIsRun(files: seq<TableFile>, r: Range, n: nat) returns (a: nat, b: nat)
    requires SortedLevel(files) && n <= |files|
    ensures SelectsRun(files, r, n, a, b)
  {
    if n == 0 {
      a, b := 0, 0;
      NoRun(files, r);
    } else {
      a, b := SelectPrefixIsRun(files, r, n - 1);
      a, b := SelectsNext(files, r, n - 1, a, b);
    }
  }

  /** In a sorted level the files overlapping a range are neighbours. */
  lemma SelectIsRun(files: seq<TableFile>, r: Range) returns (a: nat, b: nat)
    requires SortedLevel(files)
    ensures a <= b <= |files| && Select(files, r) == files[a..b]
    ensures forall i | 0 <= i < |files| :: a <= i < b <==> Overlaps(files[i], r)
  {
    a, b := SelectPrefixIsRun(files, r, |files|);
    assert files[..|files|] == files;
  }

  predicate Continues(files: seq<TableFile>, i: nat)
    requires 0 < i < |files|
  {
    files[i].smallest.user == files[i - 1].largest.user
  }

  /** The run [a, b) of `files`: those overlapping `r`, then those continuing the last user key. */
  ghost predicate IsRunFor(files: seq<TableFile>, r: Range, inputs: seq<TableFile>, a: nat, m: nat, b: nat) {
    && a <= m <= b <= |files| && inputs == files[a..b]
    && (forall i | 0 <= i < |files| :: a <= i < m <==> Overlaps(files[i], r))
    && (a == m ==> m == b)
    && (forall i {:trigger Continues(files, i)} | m <= i < b && 0 < i :: Continues(files, i))
    && (a < b < |files| ==> !Continues(files, b))
  }

  lemma ContinuingIsBoundary(files: seq<TableFile>, b: nat)
    requires SortedLevel(files) && 0 < b < |files|
    ensures Continues(files, b) <==> IsBoundary(files[b], files[b - 1].largest)
  {
    assert Before(files[b - 1], files[b]);
  }

  /** The smallest boundary file of a sorted level's file is its right neighbour. */
  lemma BoundaryIsNeighbour(files: seq<TableFile>, b: nat, f: TableFile)
    requires SortedLevel(files) && 0 < b <= |files|
    requires IsSmallestBoundary(files, files[b - 1].largest, f)
    ensures b < |files| && f == files[b] && Continues(files, b)
  {
    var j :| 0 <= j < |files| && files[j] == f;
    SortedLevelBounds(files);
    if j < b {
      WellFormedBounds(f);
      assert false;
    }
    ContinuingIsBoundary(files, b);
    if b < j {
      assert Before(files[b], f);
      WellFormedBounds(files[b]);
    }
  }

  lemma ChainTail(files: seq<TableFile>, key: InternalKey, added: seq<TableFile>)
    requires added != [] && BoundaryChain(files, key, added)
    ensures BoundaryChain(files, added[0].largest, added[1..])
  {
    var rest := added[1..];
    forall i | 0 <= i <= |rest|
      ensures KeyBefore(added[0].largest, rest, i) == KeyBefore(key, added, i + 1)
    {
    }
  }

  /** On a run [a, b) of a sorted level, AddBoundaryInputs appends the neighbours that continue
      the user key, and all of them. */
  lemma {:induction false} BoundaryChainIsRun(files: seq<TableFile>, b: nat, added: seq<TableFile>)
    requires SortedLevel(files) && 0 < b <= |files|
    requires BoundaryChain(files, files[b - 1].largest, added)
    ensures b + |added| <= |files| && added == files[b..b + |added|]
    ensures forall i {:trigger Continues(files, i)} | b <= i < b + |added| :: Continues(files, i)
    ensures b + |added| < |files| ==> !Continues(files, b + |added|)
    decreases |added|
  {
    var key := files[b - 1].largest;
    assert KeyBefore(key, added, 0) == key;
    if added == [] {
      if b < |files| { ContinuingIsBoundary(files, b); }
    } else {
      BoundaryIsNeighbour(files, b, added[0]);
      ChainTail(files, key, added);
      BoundaryChainIsRun(files, b + 1, added[1..]);
      assert added == [files[b]] + added[1..];
    }
  }

  lemma RunLargestKey(files: seq<TableFile>, a: nat, b: nat, key: InternalKey)
    requires SortedLevel(files) && a < b <= |files| && IsLargestKey(files[a..b], key)
    ensures key == files[b - 1].largest
  {
    assert files[b - 1] in files[a..b];
    var f :| f in files[a..b] && f.largest == key;
    var i :| a <= i < b && files[i] == f;
    if i < b - 1 {
      assert Before(f, files[b - 1]);
      WellFormedBounds(files[b - 1]);
    }
  }

  // ---- The inputs from one level ----

  function UserHull(smallest: InternalKey, largest: InternalKey): Range {
    Range(Some(smallest.user), Some(largest.user))
  }

  /** What one level contributes for the range `r`: level 0 the files overlapping the closure of `r`,
      a deeper level the run of files overlapping `r` and those continuing its last user key. */
  ghost predicate IsLevelInputs(level: nat, files: seq<TableFile>, r: Range, inputs: seq<TableFile>) {
    if level == 0 then exists c :: IsClosure(files, r, c) && NoNewGap(files, r, c) && inputs == Select(files, c)
    else exists a, m, b :: IsRunFor(files, r, inputs, a, m, b)
  }

  /** `inputs` are the neighbours [a, b) of `files`. */
  ghost predicate IsRun(files: seq<TableFile>, inputs: seq<TableFile>, a: nat, b: nat) {
    a < b <= |files| && inputs == files[a..b]
  }

  ghost predicate IsClosedRun(files: seq<TableFile>, inputs: seq<TableFile>, a: nat, b: nat) {
    IsRun(files, inputs, a, b) && (b < |files| ==> !Continues(files, b))
  }

  /** Files a compaction of `level` may start from: all that overlap a range nothing sticks out of at
      level 0, neighbours below. */
  ghost predicate StartsFrom(level: nat, files: seq<TableFile>, inputs: seq<TableFile>) {
    && inputs != []
    && if level == 0 then exists c :: Closed(files, c) && inputs == Select(files, c)
       else exists a, b :: IsRun(files, inputs, a, b)
  }

  /** The same, and no file left behind continues the last user key. */
  ghost predicate IsClosedChoice(level: nat, files: seq<TableFile>, inputs: seq<TableFile>) {
    && inputs != []
    && if level == 0 then exists c :: Closed(files, c) && inputs == Select(files, c)
       else exists a, b :: IsClosedRun(files, inputs, a, b)
  }

  /** At level 0 a closed choice already holds every boundary file. */
  lemma NoBoundaryAtLevel0(files: seq<TableFile>, c: Range, key: InternalKey, added: seq<TableFile>)
    requires AllWellFormed(files) && Closed(files, c)
    requires IsLargestKey(Select(files, c), key) && BoundaryChain(files, key, added)
    ensures added == []
  {
    SelectMembers(files, c);
    if added != [] {
      var f := added[0];
      assert KeyBefore(key, added, 0) == key;
      var g :| g in Select(files, c) && g.largest == key;
      WellFormedBounds(f);
      WellFormedBounds(g);
      assert Overlaps(f, c);
      assert false;
    }
  }

  lemma SliceJoin(files: seq<TableFile>, a: nat, b: nat, c: nat)
    requires a <= b <= c <= |files|
    ensures files[a..b] + files[b..c] == files[a..c]
  {
  }

  lemma ChainExtendsRun(files: seq<TableFile>, inputs: seq<TableFile>, a: nat, b: nat, key: InternalKey,
                        added: seq<TableFile>)
    requires SortedLevel(files) && IsRun(files, inputs, a, b)
    requires IsLargestKey(inputs, key) && BoundaryChain(files, key, added)
    ensures IsClosedRun(files, inputs + added, a, b + |added|)
    ensures forall i {:trigger Continues(files, i)} | b <= i < b + |added| :: Continues(files, i)
  {
    RunLargestKey(files, a, b, key);
    BoundaryChainIsRun(files, b, added);
    SliceJoin(files, a, b, b + |added|);
  }

  /** The files overlapping a range, with what AddBoundaryInputs appends to them. */
  lemma SelectedRunGrows(files: seq<TableFile>, r: Range, selected: seq<TableFile>, added: seq<TableFile>)
    requires SortedLevel(files) && selected == Select(files, r)
    requires selected == [] ==> added == []
    requires selected != [] ==> exists key :: IsLargestKey(selected, key) && BoundaryChain(files, key, added)
    ensures IsLevelInputs(1, files, r, selected + added)
  {
    var a, m := SelectIsRun(files, r);
    if a == m {
      assert IsRunFor(files, r, selected + added, a, m, m);
    } else {
      var key :| IsLargestKey(selected, key) && BoundaryChain(files, key, added);
      ChainExtendsRun(files, selected, a, m, key, added);
      assert IsRunFor(files, r, selected + added, a, m, m + |added|);
    }
  }

  method LevelInputs(level: nat, files: seq<TableFile>, smallest: InternalKey, largest: InternalKey)
    returns (inputs: seq<TableFile>)
    requires AllWellFormed(files) && (level > 0 ==> SortedLevel(files))
    ensures IsLevelInputs(level, files, UserHull(smallest, largest), inputs)
  {
    ghost var r, added;
    inputs, r := GetOverlappingInputs(level, files, Some(smallest), Some(largest));
    ghost var selected := inputs;
    inputs, added := AddBoundaryInputs(files, inputs);
    if level == 0 {
      if selected != [] {
        ghost var key :| IsLargestKey(selected, key) && BoundaryChain(files, key, added);
        NoBoundaryAtLevel0(files, r, key, added);
      }
      assert inputs == Select(files, r);
    } else {
      SelectedRunGrows(files, r, selected, added);
    }
  }

  ghost predicate Ordered(files: set<TableFile>) {
    forall f | f in files :: f.smallest.user <= f.largest.user
  }

  ghost predicate AllBelow(files: set<TableFile>, y: UserKey) {
    forall f | f in files :: f.largest.user < y
  }

  ghost predicate AllAbove(files: set<TableFile>, y: UserKey) {
    forall f | f in files :: y < f.smallest.user
  }

  /** A point no file of a gapless set covers has the whole set on one side. */
  lemma OneSided(S: set<TableFile>, y: UserKey)
    requires Ordered(S) && Gapless(S) && !Covered(S, y)
    ensures AllBelow(S, y) || AllAbove(S, y)
  {
    if f, g :| f in S && g in S && f.largest.user >= y && y >= g.smallest.user {
      assert InHull(S, y);
    }
  }

  lemma OneSidedJoin(S: set<TableFile>, T: set<TableFile>, y: UserKey)
    requires S != {} && Gapless(S) && Ordered(S + T) && !Covered(S + T, y)
    requires forall g | g in T :: exists x :: InHull(S, x) && Contains(g, x)
    ensures AllBelow(S + T, y) || AllAbove(S + T, y)
  {
    assert Covered(S, y) ==> Covered(S + T, y);
    OneSided(S, y);
    var s :| s in S;
    forall g | g in T
      ensures AllBelow(S, y) ==> g.largest.user < y
      ensures AllAbove(S, y) ==> y < g.smallest.user
    {
      var x :| InHull(S, x) && Contains(g, x);
      assert g in S + T;
      assert !Contains(g, y);
    }
  }

  /** Files that each touch the hull of a gapless set leave it gapless. */
  lemma GaplessJoin(S: set<TableFile>, T: set<TableFile>)
    requires S != {} && Gapless(S) && Ordered(S + T)
    requires forall g | g in T :: exists x :: InHull(S, x) && Contains(g, x)
    ensures Gapless(S + T)
  {
    forall y: UserKey | InHull(S + T, y)
      ensures Covered(S + T, y)
    {
      if !Covered(S + T, y) {
        OneSidedJoin(S, T, y);
      }
    }
  }

  lemma GaplessNeighbour(files: seq<TableFile>, S: set<TableFile>, a: nat, m: nat)
    requires AllWellFormed(files) && Ordered(S) && a < m < |files| && Continues(files, m)
    requires Gapless(S + FileSet(files[a..m]))
    ensures Gapless(S + FileSet(files[a..m + 1]))
  {
    var before := S + FileSet(files[a..m]);
    var last, next := files[m - 1], files[m];
    assert last in files[a..m];
    forall f | f in files ensures f.smallest.user <= f.largest.user { WellFormedBounds(f); }
    assert InHull(before, last.largest.user) && Contains(next, last.largest.user);
    GaplessJoin(before, {next});
    assert files[a..m + 1] == files[a..m] + [next];
    assert S + FileSet(files[a..m + 1]) == before + {next};
  }

  /** Extending a run by the files that continue its last user key opens no gap. */
  lemma {:induction false} GaplessRun(files: seq<TableFile>, S: set<TableFile>, a: nat, m: nat, b: nat)
    requires AllWellFormed(files) && Ordered(S) && a < m <= b <= |files|
    requires Gapless(S + FileSet(files[a..m]))
    requires forall i {:trigger Continues(files, i)} | m <= i < b :: Continues(files, i)
    ensures Gapless(S + FileSet(files[a..b]))
    decreases b - m
  {
    if m < b {
      GaplessNeighbour(files, S, a, m);
      GaplessRun(files, S, a, m + 1, b);
    }
  }

  lemma GaplessPrefix(files: seq<TableFile>, a: nat, b: nat, end: nat)
    requires AllWellFormed(files) && a < b <= end <= |files| && Gapless(FileSet(files[a..b]))
    requires forall i {:trigger Continues(files, i)} | b <= i < end :: Continues(files, i)
    ensures Gapless(FileSet(files[a..end]))
  {
    assert {} + FileSet(files[a..b]) == FileSet(files[a..b]);
    GaplessRun(files, {}, a, b, end);
    assert {} + FileSet(files[a..end]) == FileSet(files[a..end]);
  }

  lemma ClosedRunIsGapless(files: seq<TableFile>, inputs: seq<TableFile>, r: seq<TableFile>, a: nat, b: nat, end: nat)
    requires AllWellFormed(files) && IsRun(files, inputs, a, b) && IsRun(files, r, a, end) && b <= end
    requires forall i {:trigger Continues(files, i)} | b <= i < end :: Continues(files, i)
    ensures Gapless(FileSet(inputs)) ==> Gapless(FileSet(r))
  {
    if Gapless(FileSet(inputs)) {
      GaplessPrefix(files, a, b, end);
    }
  }

  lemma StartedRunCloses(level: nat, files: seq<TableFile>, inputs: seq<TableFile>, added: seq<TableFile>,
                         r: seq<TableFile>)
    requires level > 0 && SortedLevel(files) && inputs != [] && StartsFrom(level, files, inputs)
    requires r == inputs + added && exists key :: IsLargestKey(inputs, key) && BoundaryChain(files, key, added)
    ensures IsClosedChoice(level, files, r)
    ensures Gapless(FileSet(inputs)) ==> Gapless(FileSet(r))
  {
    var key :| IsLargestKey(inputs, key) && BoundaryChain(files, key, added);
    var a: nat, b: nat :| IsRun(files, inputs, a, b);
    ChainExtendsRun(files, inputs, a, b, key, added);
    ClosedRunIsGapless(files, inputs, r, a, b, b + |added|);
  }

  method CloseChoice(level: nat, files: seq<TableFile>, inputs: seq<TableFile>) returns (r: seq<TableFile>)
    requires AllWellFormed(files) && (level > 0 ==> SortedLevel(files))
    requires StartsFrom(level, files, inputs)
    ensures IsClosedChoice(level, files, r)
    ensures FileSet(inputs) <= FileSet(r)
    ensures Gapless(FileSet(inputs)) ==> Gapless(FileSet(r))
  {
    ghost var added;
    r, added := AddBoundaryInputs(files, inputs);
    if level == 0 {
      ghost var key :| IsLargestKey(inputs, key) && BoundaryChain(files, key, added);
      ghost var c :| Closed(files, c) && inputs == Select(files, c);
      NoBoundaryAtLevel0(files, c, key, added);
      assert r == inputs;
    } else {
      StartedRunCloses(level, files, inputs, added, r);
    }
  }

  // ---- Closure of the chosen inputs ----

  /** `f` lies before, or after, every file of `S`. */
  ghost predicate OutsideOf(f: TableFile, S: set<TableFile>) {
    (forall g | g in S :: Before(f, g)) || (forall g | g in S :: Before(g, f))
  }

  ghost predicate UpperClosed(level: nat, left: set<TableFile>, in0: set<TableFile>) {
    forall f, g | f in left && g in in0 && RangesMeet(f, g) :: level > 0 && Before(f, g)
  }

  ghost predicate LowerClosed(left: set<TableFile>, in0: set<TableFile>, in1: set<TableFile>) {
    && (forall f, g | f in left && g in in0 :: !RangesMeet(f, g))
    && (forall f, g | f in left && g in in1 && RangesMeet(f, g) :: Before(f, g))
    && (forall f | f in left :: OutsideOf(f, in0 + in1))
  }

  /** What moving `in0` and `in1` out of the way must leave behind: wherever a file left in `level` or
      in `level` + 1 can hold a user key of the inputs of its level, it holds only newer entries for it;
      no file left in `level` + 1 meets an input of `level`, and none sits between the inputs. */
  ghost predicate InputsClosed(levels: seq<set<TableFile>>, level: nat, in0: set<TableFile>, in1: set<TableFile>) {
    && level + 1 < |levels| && in0 != {} && in0 <= levels[level] && in1 <= levels[level + 1]
    && UpperClosed(level, levels[level] - in0, in0)
    && LowerClosed(levels[level + 1] - in1, in0, in1)
  }

  lemma LeftOfClosedRun(files: seq<TableFile>, inputs: seq<TableFile>, a: nat, b: nat, i: nat, j: nat)
    requires SortedLevel(files) && IsClosedRun(files, inputs, a, b)
    requires i < |files| && !(a <= i < b) && a <= j < b && RangesMeet(files[i], files[j])
    ensures Before(files[i], files[j])
  {
    SortedLevelBounds(files);
    assert b < |files| ==> Before(files[b - 1], files[b]);
  }

  lemma LeftBehindIsNewer(level: nat, files: seq<TableFile>, inputs: seq<TableFile>, f: TableFile, g: TableFile)
    requires AllWellFormed(files) && (level > 0 ==> SortedLevel(files)) && IsClosedChoice(level, files, inputs)
    requires f in files && f !in inputs && g in inputs && RangesMeet(f, g)
    ensures level > 0 && Before(f, g)
  {
    if level == 0 {
      var c :| Closed(files, c) && inputs == Select(files, c);
      SelectMembers(files, c);
    } else {
      var a: nat, b: nat :| IsClosedRun(files, inputs, a, b);
      assert forall n | a <= n < b :: files[n] == inputs[n - a];
      var i :| 0 <= i < |files| && files[i] == f;
      var j :| a <= j < b && files[j] == g;
      LeftOfClosedRun(files, inputs, a, b, i, j);
    }
  }

  /** The two ways a file of level + 1 can miss the run picked for the hull of `in0`. */
  lemma LeftOfRun(files: seq<TableFile>, r: Range, in1: seq<TableFile>, a: nat, m: nat, b: nat, i: nat)
    requires SortedLevel(files) && IsRunFor(files, r, in1, a, m, b)
    requires r.lo.Some? && r.hi.Some? && r.lo.value <= r.hi.value && i < |files| && !(a <= i < b)
    ensures files[i].largest.user < r.lo.value || r.hi.value < files[i].smallest.user
    ensures files[i].largest.user < r.lo.value ==> forall g | g in in1 :: Before(files[i], g)
    ensures r.hi.value < files[i].smallest.user ==>
              forall g | g in in1 :: Before(g, files[i]) && !RangesMeet(files[i], g)
  {
    var f := files[i];
    assert !Overlaps(f, r);
    WellFormedBounds(f);
    if a < b {
      SortedLevelBounds(files);
      assert a < m && Overlaps(files[a], r);
      if i < a { assert f.largest.user <= files[a].smallest.user; }
      if b <= i { assert !Continues(files, b) && Before(files[b - 1], files[b]); }
      forall g | g in in1
        ensures if i < a then Before(f, g) else Before(g, f) && !RangesMeet(f, g)
      {
        var j :| a <= j < b && files[j] == g;
      }
    }
  }

  lemma LeftBelowIsOutside(files: seq<TableFile>, in0: set<TableFile>, r: Range,
                           in1: seq<TableFile>, a: nat, m: nat, b: nat, i: nat)
    requires SortedLevel(files) && IsRunFor(files, r, in1, a, m, b)
    requires r.lo.Some? && r.hi.Some? && r.lo.value <= r.hi.value && i < |files| && !(a <= i < b)
    requires forall g | g in in0 :: r.lo.value <= g.smallest.user <= g.largest.user <= r.hi.value
    ensures forall g | g in in0 :: !RangesMeet(files[i], g)
    ensures forall g | g in in1 && RangesMeet(files[i], g) :: Before(files[i], g)
    ensures OutsideOf(files[i], in0 + FileSet(in1))
  {
    LeftOfRun(files, r, in1, a, m, b, i);
    WellFormedBounds(files[i]);
  }

  lemma LowerInputsClosed(files: seq<TableFile>, in0: set<TableFile>, in1: seq<TableFile>, r: Range)
    requires SortedLevel(files) && r.lo.Some? && r.hi.Some? && r.lo.value <= r.hi.value
    requires forall g | g in in0 :: r.lo.value <= g.smallest.user <= g.largest.user <= r.hi.value
    requires IsLevelInputs(1, files, r, in1)
    ensures FileSet(in1) <= FileSet(files)
    ensures LowerClosed(FileSet(files) - FileSet(in1), in0, FileSet(in1))
  {
    var a: nat, m: nat, b: nat :| IsRunFor(files, r, in1, a, m, b);
    assert forall j | a <= j < b :: files[j] == in1[j - a];
    forall f | f in FileSet(files) - FileSet(in1)
      ensures forall g | g in in0 :: !RangesMeet(f, g)
      ensures forall g | g in FileSet(in1) && RangesMeet(f, g) :: Before(f, g)
      ensures OutsideOf(f, in0 + FileSet(in1))
    {
      var i :| 0 <= i < |files| && files[i] == f;
      LeftBelowIsOutside(files, in0, r, in1, a, m, b, i);
    }
  }

  lemma ChoiceFromLevel(level: nat, files: seq<TableFile>, inputs: seq<TableFile>)
    requires IsClosedChoice(level, files, inputs)
    ensures FileSet(inputs) <= FileSet(files)
  {
    if level == 0 {
      var c :| Closed(files, c) && inputs == Select(files, c);
      SelectMembers(files, c);
    }
  }

  lemma ChoiceIsUpperClosed(level: nat, files: seq<TableFile>, in0: seq<TableFile>)
    requires AllWellFormed(files) && (level > 0 ==> SortedLevel(files)) && IsClosedChoice(level, files, in0)
    ensures UpperClosed(level, FileSet(files) - FileSet(in0), FileSet(in0))
  {
    forall f, g | f in FileSet(files) - FileSet(in0) && g in FileSet(in0) && RangesMeet(f, g)
      ensures level > 0 && Before(f, g)
    {
      LeftBehindIsNewer(level, files, in0, f, g);
    }
  }

  lemma InputsInHull(files: seq<TableFile>, smallest: InternalKey, largest: InternalKey)
    requires AllWellFormed(files) && IsHull(files, smallest, largest)
    ensures forall g | g in FileSet(files) :: smallest.user <= g.smallest.user <= g.largest.user <= largest.user
  {
    forall g | g in FileSet(files) ensures smallest.user <= g.smallest.user <= g.largest.user <= largest.user {
      WellFormedBounds(g);
    }
  }

  lemma ChosenInputsClosed(levels: seq<seq<TableFile>>, level: nat, in0: seq<TableFile>, in1: seq<TableFile>,
                           smallest: InternalKey, largest: InternalKey)
    requires ValidLevels(levels) && level + 1 < NUM_LEVELS
    requires IsClosedChoice(level, levels[level], in0) && IsHull(in0, smallest, largest)
    requires IsLevelInputs(level + 1, levels[level + 1], UserHull(smallest, largest), in1)
    ensures InputsClosed(LevelSets(levels), level, FileSet(in0), FileSet(in1))
  {
    ChoiceFromLevel(level, levels[level], in0);
    assert in0[0] in FileSet(in0);
    ChoiceIsUpperClosed(level, levels[level], in0);
    assert forall f | f in in0 :: f in FileSet(levels[level]);
    InputsInHull(in0, smallest, largest);
    LowerInputsClosed(levels[level + 1], FileSet(in0), in1, UserHull(smallest, largest));
  }

  // ---- Growth ----

  lemma RunGrows(files: seq<TableFile>, r: Range, inputs: seq<TableFile>, a: nat, m: nat, b: nat,
                 wider: Range, expanded: seq<TableFile>, a': nat, m': nat, b': nat)
    requires SortedLevel(files) && Covers(wider, r)
    requires IsRunFor(files, r, inputs, a, m, b) && IsRunFor(files, wider, expanded, a', m', b')
    ensures a < b ==> a' <= a && b <= b'
  {
    if a < m {
      assert Overlaps(files[a], r) && Overlaps(files[m - 1], r);
      assert Overlaps(files[a], wider) && Overlaps(files[m - 1], wider);
      assert b' < |files| ==> !Continues(files, b');
    }
  }

  lemma SliceInSlice(files: seq<TableFile>, a: nat, b: nat, a': nat, b': nat)
    requires a <= b <= |files| && a' <= b' <= |files| && (a < b ==> a' <= a && b <= b')
    ensures FileSet(files[a..b]) <= FileSet(files[a'..b'])
    ensures b - a == b' - a' ==> files[a..b] == files[a'..b']
  {
    assert forall i | a <= i < b :: files[i] == files[a'..b'][i - a'];
  }

  /** A wider range picks a longer run, and a run of the same length is the same run. */
  lemma GrowthIsConservative(files: seq<TableFile>, r: Range, inputs: seq<TableFile>, wider: Range,
                             expanded: seq<TableFile>)
    requires SortedLevel(files) && Covers(wider, r)
    requires IsLevelInputs(1, files, r, inputs) && IsLevelInputs(1, files, wider, expanded)
    ensures FileSet(inputs) <= FileSet(expanded)
    ensures |expanded| == |inputs| ==> expanded == inputs
  {
    var a: nat, m: nat, b: nat :| IsRunFor(files, r, inputs, a, m, b);
    var a': nat, m': nat, b': nat :| IsRunFor(files, wider, expanded, a', m', b');
    RunGrows(files, r, inputs, a, m, b, wider, expanded, a', m', b');
    SliceInSlice(files, a, b, a', b');
  }

  /** The range of the chosen files covers them, so picking again from their level keeps them. */
  lemma ExpansionKeepsInputs(level: nat, files: seq<TableFile>, in0: seq<TableFile>, r: Range, expanded: seq<TableFile>)
    requires AllWellFormed(files) && FileSet(in0) <= FileSet(files) && in0 != []
    requires forall f | f in in0 :: Overlaps(f, r)
    requires IsLevelInputs(level, files, r, expanded)
    ensures FileSet(in0) <= FileSet(expanded)
    ensures IsClosedChoice(level, files, expanded)
  {
    assert in0[0] in FileSet(in0);
    if level == 0 {
      var c :| IsClosure(files, r, c) && NoNewGap(files, r, c) && expanded == Select(files, c);
      SelectMembers(files, c);
      forall f | f in in0 ensures f in expanded { assert f in FileSet(in0); }
    } else {
      var a: nat, m: nat, b: nat :| IsRunFor(files, r, expanded, a, m, b);
      forall f | f in in0 ensures f in expanded {
        assert f in FileSet(in0);
        var i :| 0 <= i < |files| && files[i] == f;
        assert expanded[i - a] == f;
      }
      assert IsClosedRun(files, expanded, a, b);
    }
  }

  lemma GaplessClosure(files: seq<TableFile>, S: set<TableFile>, r: Range, inputs: seq<TableFile>)
    requires Gapless(S) && AllWellFormed(files) && IsLevelInputs(0, files, r, inputs)
    requires r.lo.Some? && r.hi.Some?
    requires forall f | f in S :: r.lo.value <= f.smallest.user && f.largest.user <= r.hi.value
    requires forall x: UserKey | InRange(x, r) :: InHull(S, x)
    ensures Gapless(S + FileSet(inputs))
  {
    var c :| IsClosure(files, r, c) && NoNewGap(files, r, c) && inputs == Select(files, c);
    SelectMembers(files, c);
    forall y: UserKey | InHull(S + FileSet(inputs), y)
      ensures Covered(S + FileSet(inputs), y)
    {
      var f, g :| f in S + FileSet(inputs) && g in S + FileSet(inputs) && f.smallest.user <= y <= g.largest.user;
      assert InRange(y, c) by {
        assert f in inputs ==> Within(f, c);
        assert g in inputs ==> Within(g, c);
      }
      if InRange(y, r) {
        var h :| h in S && Contains(h, y);
        assert h in S + FileSet(inputs);
      } else {
        var h :| h in files && Overlaps(h, c) && Contains(h, y);
        assert h in S + FileSet(inputs);
      }
    }
  }

  lemma TouchesRange(g: TableFile, r: Range, S: set<TableFile>)
    requires WellFormed(g) && Overlaps(g, r) && r.lo.Some? && r.hi.Some? && r.lo.value <= r.hi.value
    requires forall x: UserKey | InRange(x, r) :: InHull(S, x)
    ensures g.smallest.user <= g.largest.user
    ensures exists x :: InHull(S, x) && Contains(g, x)
  {
    WellFormedBounds(g);
    var x := if g.smallest.user < r.lo.value then r.lo.value else g.smallest.user;
    assert InRange(x, r) && Contains(g, x);
  }

  lemma GaplessRunInputs(files: seq<TableFile>, S: set<TableFile>, r: Range, inputs: seq<TableFile>)
    requires AllWellFormed(files) && S != {} && Gapless(S) && Ordered(S) && IsLevelInputs(1, files, r, inputs)
    requires r.lo.Some? && r.hi.Some? && r.lo.value <= r.hi.value
    requires forall x: UserKey | InRange(x, r) :: InHull(S, x)
    ensures Gapless(S + FileSet(inputs))
  {
    var a: nat, m: nat, b: nat :| IsRunFor(files, r, inputs, a, m, b);
    if a == m {
      assert S + FileSet(inputs) == S;
    } else {
      var T := FileSet(files[a..m]);
      forall g | g in T
        ensures exists x :: InHull(S, x) && Contains(g, x)
        ensures g.smallest.user <= g.largest.user
      {
        var i :| a <= i < m && files[i] == g;
        TouchesRange(g, r, S);
      }
      GaplessJoin(S, T);
      GaplessRun(files, S, a, m, b);
    }
  }

  /** Picking from a level for the hull of a gapless set leaves no gap. */
  lemma GaplessLevelInputs(level: nat, files: seq<TableFile>, chosen: seq<TableFile>,
                           smallest: InternalKey, largest: InternalKey, inputs: seq<TableFile>)
    requires AllWellFormed(files) && AllWellFormed(chosen) && chosen != []
    requires IsHull(chosen, smallest, largest) && Gapless(FileSet(chosen))
    requires IsLevelInputs(level, files, UserHull(smallest, largest), inputs)
    ensures Gapless(FileSet(chosen) + FileSet(inputs))
  {
    var S := FileSet(chosen);
    var first :| first in chosen && first.smallest == smallest;
    var last :| last in chosen && last.largest == largest;
    assert first in S && last in S;
    assert forall x: UserKey | smallest.user <= x <= largest.user :: InHull(S, x);
    forall f | f in S ensures smallest.user <= f.smallest.user <= f.largest.user <= largest.user {
      WellFormedBounds(f);
    }
    assert forall x: UserKey | InRange(x, UserHull(smallest, largest)) :: InHull(S, x);
    if level == 0 {
      GaplessClosure(files, S, UserHull(smallest, largest), inputs);
    } else {
      GaplessRunInputs(files, S, UserHull(smallest, largest), inputs);
    }
  }
}
