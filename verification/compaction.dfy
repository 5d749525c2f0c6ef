/** The Compaction object of project/version_set.cc: its inputs, and the two cursors the output loop asks. */
module Compactions {
  import opened InternalKeys
  import opened TableFiles
  import opened FileSearch
  import opened CompactionInputs

  function ExpandedCompactionByteSizeLimit(maxFileSize: nat): nat {
    25 * maxFileSize
  }

  /** No file two or more levels below `level` can hold the user key. */
  ghost predicate BaseLevel(levels: seq<seq<TableFile>>, level: nat, k: UserKey) {
    forall l, f | level + 2 <= l < |levels| && f in levels[l] :: !Contains(f, k)
  }

  /** How many of the files end before `key`. */
  function CountBelow(files: seq<TableFile>, key: InternalKey): (n: nat)
    ensures n <= |files|
    ensures LargestNondecreasing(files) ==> forall i | 0 <= i < |files| :: i < n <==> Less(files[i].largest, key)
  {
    if files == [] then 0
    else if Less(files[|files| - 1].largest, key) then |files|
    else CountBelow(files[..|files| - 1], key)
  }

  predicate IsSlice(files: seq<TableFile>, inputs: seq<TableFile>, a: nat, b: nat) {
    a <= b <= |files| && inputs == files[a..b]
  }

  predicate IsSelection(files: seq<TableFile>, inputs: seq<TableFile>, r: Range) {
    inputs == Select(files, r)
  }

  /** Inputs are listed as their level lists them: at level 0 those meeting a range, below neighbours. */
  ghost predicate AsListed(level: nat, files: seq<TableFile>, inputs: seq<TableFile>) {
    if level == 0 then exists r :: IsSelection(files, inputs, r) else exists a, b :: IsSlice(files, inputs, a, b)
  }

  lemma ChoiceAsListed(level: nat, files: seq<TableFile>, inputs: seq<TableFile>)
    requires IsClosedChoice(level, files, inputs)
    ensures AsListed(level, files, inputs)
  {
    if level == 0 {
      var c :| Closed(files, c) && inputs == Select(files, c);
      assert IsSelection(files, inputs, c);
    } else {
      var a: nat, b: nat :| IsClosedRun(files, inputs, a, b);
      assert IsSlice(files, inputs, a, b);
    }
  }

  lemma LevelInputsAsListed(level: nat, files: seq<TableFile>, r: Range, inputs: seq<TableFile>)
    requires IsLevelInputs(level, files, r, inputs)
    ensures AsListed(level, files, inputs)
  {
    if level == 0 {
      var c :| IsClosure(files, r, c) && NoNewGap(files, r, c) && inputs == Select(files, c);
      assert IsSelection(files, inputs, c);
    } else {
      var a: nat, m: nat, b: nat :| IsRunFor(files, r, inputs, a, m, b);
      assert IsSlice(files, inputs, a, b);
    }
  }

  ghost predicate IsGrandparents(levels: seq<seq<TableFile>>, level: nat, inputs: seq<TableFile>, files: seq<TableFile>)
    requires |levels| == NUM_LEVELS
  {
    if level + 2 < NUM_LEVELS then
      exists start, limit :: IsHull(inputs, start, limit) && files == Select(levels[level + 2], UserHull(start, limit))
    else files == []
  }

  /** The inputs may be moved out of the way, and the grandparents are the files below that they overlap. */
  ghost predicate SetUp(levels: seq<seq<TableFile>>, level: nat, in0: seq<TableFile>, in1: seq<TableFile>,
                        grandparents: seq<TableFile>)
  {
    && |levels| == NUM_LEVELS && level + 1 < NUM_LEVELS && in0 != []
    && InputsClosed(LevelSets(levels), level, FileSet(in0), FileSet(in1))
    && AsListed(level, levels[level], in0) && AsListed(level + 1, levels[level + 1], in1)
    && IsGrandparents(levels, level, in0 + in1, grandparents)
  }

  /** The first `n` files reach `limit` bytes and no fewer do, or they are all. */
  ghost predicate IsShortest(files: seq<TableFile>, limit: nat, n: nat) {
    && 0 < n <= |files|
    && (n < |files| ==> TotalFileSize(files[..n]) >= limit)
    && (forall i | 0 < i < n :: TotalFileSize(files[..i]) < limit)
  }

  /** The files to start from: at level 0 all that overlap the range, and what they overlap; below, of
      those that overlap the range, as many as reach the limit. */
  ghost predicate TakesRange(level: nat, files: seq<TableFile>, range: Range, limit: nat, taken: set<TableFile>) {
    if level == 0 then forall f | f in files && Overlaps(f, range) :: f in taken
    else exists n: nat :: IsShortest(Select(files, range), limit, n) && FileSet(Select(files, range)[..n]) <= taken
  }

  /** In a sorted level a file is where it is listed. */
  lemma PlacesAreUnique(files: seq<TableFile>, i: nat, j: nat)
    requires SortedLevel(files) && i < |files| && j < |files| && AtMost(files[i].largest, files[j].largest)
    ensures i <= j
  {
    if j < i {
      assert Before(files[j], files[i]);
      WellFormedBounds(files[i]);
    }
  }

  lemma SliceAt(files: seq<TableFile>, taken: seq<TableFile>, a: nat, b: nat, i: nat)
    requires IsSlice(files, taken, a, b) && a <= i < b
    ensures files[i] in taken
  {
    assert taken[i - a] == files[i];
  }

  lemma InSlice(files: seq<TableFile>, taken: seq<TableFile>, a: nat, b: nat, i: nat)
    requires SortedLevel(files) && IsSlice(files, taken, a, b) && i < |files|
    ensures files[i] in taken <==> a <= i < b
  {
    if files[i] in taken {
      var j :| 0 <= j < |taken| && taken[j] == files[i];
      assert files[a + j] == files[i];
      PlacesAreUnique(files, i, a + j);
      PlacesAreUnique(files, a + j, i);
    }
    if a <= i < b { SliceAt(files, taken, a, b, i); }
  }

  lemma FirstSelected(files: seq<TableFile>, range: Range, n: nat) returns (x: nat)
    requires SortedLevel(files) && 0 < n <= |Select(files, range)|
    ensures x < |files| && files[x] in FileSet(Select(files, range)[..n])
    ensures forall i | 0 <= i < |files| && Overlaps(files[i], range) :: x <= i
  {
    var y;
    x, y := SelectIsRun(files, range);
    assert files[x] == Select(files, range)[..n][0];
  }

  lemma RunReaches(files: seq<TableFile>, range: Range, n: nat, taken: seq<TableFile>, a: nat, b: nat, i: nat)
    requires SortedLevel(files) && IsSlice(files, taken, a, b) && a < b && 0 < n <= |Select(files, range)|
    requires FileSet(Select(files, range)[..n]) <= FileSet(taken)
    requires i < |files| && Overlaps(files[i], range) && AtMost(files[i].largest, files[b - 1].largest)
    ensures files[i] in taken
  {
    var x := FirstSelected(files, range, n);
    assert files[x] in FileSet(taken);
    InSlice(files, taken, a, b, x);
    PlacesAreUnique(files, i, b - 1);
    InSlice(files, taken, a, b, i);
  }

  ghost function Skipped(files: seq<TableFile>, range: Range, taken: seq<TableFile>,
                         last: InternalKey): set<TableFile> {
    set f | f in files && Overlaps(f, range) && AtMost(f.largest, last) && f !in taken
  }

  /** Of the files in the range, all that end no later than the last input are inputs: what a manual
      compaction leaves for the next turn ends after it. */
  ghost predicate Reaches(files: seq<TableFile>, range: Range, taken: seq<TableFile>) {
    taken != [] && Skipped(files, range, taken, taken[|taken| - 1].largest) == {}
  }

  lemma NothingSkipped(level: nat, files: seq<TableFile>, range: Range, limit: nat, taken: seq<TableFile>)
    requires AllWellFormed(files) && (level > 0 ==> SortedLevel(files))
    requires taken != [] && AsListed(level, files, taken) && TakesRange(level, files, range, limit, FileSet(taken))
    ensures Reaches(files, range, taken)
  {
    if level > 0 {
      var n: nat :| IsShortest(Select(files, range), limit, n) && FileSet(Select(files, range)[..n]) <= FileSet(taken);
      var a: nat, b: nat :| IsSlice(files, taken, a, b);
      assert taken[|taken| - 1] == files[b - 1];
      forall f | f in files && Overlaps(f, range) && AtMost(f.largest, taken[|taken| - 1].largest)
        ensures f in taken
      {
        var i :| 0 <= i < |files| && files[i] == f;
        RunReaches(files, range, n, taken, a, b, i);
      }
    }
  }

  /** Inputs that a choice for some range has grown to. */
  ghost predicate StillReaches(level: nat, files: seq<TableFile>, given: set<TableFile>, taken: seq<TableFile>) {
    forall range, limit | TakesRange(level, files, range, limit, given) ::
      TakesRange(level, files, range, limit, FileSet(taken)) && Reaches(files, range, taken)
  }

  lemma GrownStillReaches(level: nat, files: seq<TableFile>, given: set<TableFile>, taken: seq<TableFile>)
    requires AllWellFormed(files) && (level > 0 ==> SortedLevel(files))
    requires taken != [] && AsListed(level, files, taken) && given <= FileSet(taken)
    ensures StillReaches(level, files, given, taken)
  {
    forall range, limit | TakesRange(level, files, range, limit, given)
      ensures TakesRange(level, files, range, limit, FileSet(taken)) && Reaches(files, range, taken)
    {
      if level > 0 {
        var n: nat :| IsShortest(Select(files, range), limit, n) && FileSet(Select(files, range)[..n]) <= given;
        assert FileSet(Select(files, range)[..n]) <= FileSet(taken);
      }
      NothingSkipped(level, files, range, limit, taken);
    }
  }

  lemma ChoiceWellFormed(levels: seq<seq<TableFile>>, level: nat, in0: seq<TableFile>, in1: seq<TableFile>,
                         smallest: InternalKey, largest: InternalKey)
    requires ValidLevels(levels) && level + 1 < NUM_LEVELS && IsClosedChoice(level, levels[level], in0)
    requires IsLevelInputs(level + 1, levels[level + 1], UserHull(smallest, largest), in1)
    ensures FileSet(in0) <= FileSet(levels[level]) && AllWellFormed(in0 + in1)
  {
    ChoiceFromLevel(level, levels[level], in0);
    forall f | f in in0 + in1 ensures WellFormed(f) {
      assert f in in0 ==> f in FileSet(in0);
    }
  }

  lemma HullOverlaps(in0: seq<TableFile>, in1: seq<TableFile>, start: InternalKey, limit: InternalKey)
    requires AllWellFormed(in0 + in1) && IsHull(in0 + in1, start, limit)
    ensures forall f | f in in0 :: Overlaps(f, UserHull(start, limit))
  {
    forall f | f in in0 ensures Overlaps(f, UserHull(start, limit)) {
      assert f in in0 + in1;
      WellFormedBounds(f);
    }
  }

  lemma HullCovers(inner: seq<TableFile>, smallest: InternalKey, largest: InternalKey,
                   outer: seq<TableFile>, start: InternalKey, limit: InternalKey)
    requires IsHull(inner, smallest, largest) && IsHull(outer, start, limit) && FileSet(inner) <= FileSet(outer)
    ensures Covers(UserHull(start, limit), UserHull(smallest, largest))
  {
    var f :| f in inner && f.smallest == smallest;
    var g :| g in inner && g.largest == largest;
    assert f in FileSet(inner) && g in FileSet(inner);
  }

  lemma GrownIsGapless(level: nat, files: seq<TableFile>, in0: seq<TableFile>, in1: seq<TableFile>,
                       start: InternalKey, limit: InternalKey, grown: seq<TableFile>)
    requires AllWellFormed(files) && AllWellFormed(in0 + in1) && in0 != [] && IsHull(in0 + in1, start, limit)
    requires IsLevelInputs(level, files, UserHull(start, limit), grown) && FileSet(in0) <= FileSet(grown)
    requires Gapless(FileSet(in0) + FileSet(in1))
    ensures Gapless(FileSet(grown) + FileSet(in1))
  {
    assert FileSet(in0) + FileSet(in1) == FileSet(in0 + in1);
    GaplessLevelInputs(level, files, in0 + in1, start, limit, grown);
    assert FileSet(in0 + in1) + FileSet(grown) == FileSet(grown) + FileSet(in1);
  }

  /** Takes more files of `level` if that leaves the files of level + 1 as they are and the total small. */
  method GrowInputs(levels: seq<seq<TableFile>>, level: nat, maxFileSize: nat, in0: seq<TableFile>, in1: seq<TableFile>,
                    smallest: InternalKey, largest: InternalKey) returns (new0: seq<TableFile>, new1: seq<TableFile>)
    requires ValidLevels(levels) && level + 1 < NUM_LEVELS && IsClosedChoice(level, levels[level], in0)
    requires IsHull(in0, smallest, largest)
    requires IsLevelInputs(level + 1, levels[level + 1], UserHull(smallest, largest), in1)
    ensures new0 != [] && FileSet(in0) <= FileSet(new0) && new1 == in1 && AsListed(level, levels[level], new0)
    ensures InputsClosed(LevelSets(levels), level, FileSet(new0), FileSet(new1))
    ensures Gapless(FileSet(in0) + FileSet(in1)) ==> Gapless(FileSet(new0) + FileSet(new1))
    ensures |new0| > |in0| ==> TotalFileSize(new0) + TotalFileSize(new1) < ExpandedCompactionByteSizeLimit(maxFileSize)
  {
    new0, new1 := in0, in1;
    ChosenInputsClosed(levels, level, in0, in1, smallest, largest);
    ChoiceAsListed(level, levels[level], in0);
    if in1 == [] {
      return;
    }
    ChoiceWellFormed(levels, level, in0, in1, smallest, largest);
    var allStart, allLimit := GetRange(in0 + in1);
    var expanded0 := LevelInputs(level, levels[level], allStart, allLimit);
    HullOverlaps(in0, in1, allStart, allLimit);
    ExpansionKeepsInputs(level, levels[level], in0, UserHull(allStart, allLimit), expanded0);
    if |expanded0| > |in0| &&
       TotalFileSize(in1) + TotalFileSize(expanded0) < ExpandedCompactionByteSizeLimit(maxFileSize) {
      var newStart, newLimit := GetRange(expanded0);
      var expanded1 := LevelInputs(level + 1, levels[level + 1], newStart, newLimit);
      if |expanded1| == |in1| {
        HullCovers(in0, smallest, largest, expanded0, newStart, newLimit);
        GrowthIsConservative(levels[level + 1], UserHull(smallest, largest), in1, UserHull(newStart, newLimit),
                             expanded1);
        ChosenInputsClosed(levels, level, expanded0, expanded1, newStart, newLimit);
        if Gapless(FileSet(in0) + FileSet(in1)) {
          GrownIsGapless(level, levels[level], in0, in1, allStart, allLimit, expanded0);
        }
        ChoiceAsListed(level, levels[level], expanded0);
        new0, new1 := expanded0, expanded1;
      }
    }
  }

  /** The level + 1 inputs are those of the original choice, though the inputs above them may grow. */
  method CompleteInputs(levels: seq<seq<TableFile>>, level: nat, maxFileSize: nat, chosen: seq<TableFile>)
    returns (in0: seq<TableFile>, in1: seq<TableFile>, ghost smallest: InternalKey, ghost largest: InternalKey)
    requires ValidLevels(levels) && level + 1 < NUM_LEVELS && IsClosedChoice(level, levels[level], chosen)
    ensures in0 != [] && FileSet(chosen) <= FileSet(in0)
    ensures InputsClosed(LevelSets(levels), level, FileSet(in0), FileSet(in1))
    ensures Gapless(FileSet(chosen)) ==> Gapless(FileSet(in0) + FileSet(in1))
    ensures IsHull(chosen, smallest, largest) && AsListed(level, levels[level], in0)
    ensures IsLevelInputs(level + 1, levels[level + 1], UserHull(smallest, largest), in1)
  {
    var s, l := GetRange(chosen);
    in1 := LevelInputs(level + 1, levels[level + 1], s, l);
    ChoiceWellFormed(levels, level, chosen, in1, s, l);
    if Gapless(FileSet(chosen)) {
      GaplessLevelInputs(level + 1, levels[level + 1], chosen, s, l, in1);
    }
    in0, in1 := GrowInputs(levels, level, maxFileSize, chosen, in1, s, l);
    smallest, largest := s, l;
  }

  lemma ClosedAreWellFormed(levels: seq<seq<TableFile>>, level: nat, in0: seq<TableFile>, in1: seq<TableFile>)
    requires ValidLevels(levels) && InputsClosed(LevelSets(levels), level, FileSet(in0), FileSet(in1))
    ensures AllWellFormed(in0 + in1)
  {
    forall f | f in in0 + in1 ensures WellFormed(f) {
      assert f in FileSet(in0) || f in FileSet(in1);
      assert f in LevelSets(levels)[level] || f in LevelSets(levels)[level + 1];
    }
  }

  method Grandparents(levels: seq<seq<TableFile>>, level: nat, in0: seq<TableFile>, in1: seq<TableFile>)
    returns (files: seq<TableFile>)
    requires ValidLevels(levels) && in0 != []
    ensures IsGrandparents(levels, level, in0 + in1, files)
  {
    files := [];
    var allStart, allLimit := GetRange(in0 + in1);
    if level + 2 < NUM_LEVELS {
      ghost var r;
      files, r := GetOverlappingInputs(level + 2, levels[level + 2], Some(allStart), Some(allLimit));
    }
  }

  method ChooseInputs(levels: seq<seq<TableFile>>, level: nat, maxFileSize: nat, given: seq<TableFile>)
    returns (in0: seq<TableFile>, in1: seq<TableFile>, grandparents: seq<TableFile>, last: InternalKey)
    requires ValidLevels(levels) && level + 1 < NUM_LEVELS && StartsFrom(level, levels[level], given)
    ensures SetUp(levels, level, in0, in1, grandparents) && FileSet(given) <= FileSet(in0)
    ensures Gapless(FileSet(given)) ==> Gapless(FileSet(in0) + FileSet(in1))
    ensures IsLargestKey(in0, last) && StillReaches(level, levels[level], FileSet(given), in0)
  {
    var chosen := CloseChoice(level, levels[level], given);
    ghost var smallest, largest;
    in0, in1, smallest, largest := CompleteInputs(levels, level, maxFileSize, chosen);
    var first;
    first, last := GetRange(in0);
    GrownStillReaches(level, levels[level], FileSet(given), in0);
    ClosedAreWellFormed(levels, level, in0, in1);
    LevelInputsAsListed(level + 1, levels[level + 1], UserHull(smallest, largest), in1);
    grandparents := Grandparents(levels, level, in0, in1);
  }

  lemma NoneContains(files: seq<TableFile>, n: nat, k: UserKey)
    requires SortedLevel(files) && n <= |files|
    requires forall i | 0 <= i < n :: files[i].largest.user < k
    requires n < |files| ==> k < files[n].smallest.user
    ensures forall f | f in files :: !Contains(f, k)
  {
    SortedLevelBounds(files);
  }

  /** What passing the files from `a` up to `b` is charged; nothing before the first key has been seen. */
  function Charge(files: seq<TableFile>, a: nat, b: nat, seen: bool): nat
    requires a <= b <= |files|
  {
    if seen then TotalFileSize(files[a..b]) else 0
  }

  lemma ChargeNext(files: seq<TableFile>, a: nat, b: nat, seen: bool)
    requires a <= b < |files|
    ensures Charge(files, a, b + 1, seen) == Charge(files, a, b, seen) + if seen then files[b].size else 0
  {
    assert files[a..b + 1][..b - a] == files[a..b];
  }

  class Compaction {
    const levels: seq<seq<TableFile>>   // the file lists of the input version
    const level: nat
    const maxFileSize: nat
    var inputs0: seq<TableFile>
    var inputs1: seq<TableFile>
    var grandparents: seq<TableFile>
    var grandparentIndex: nat
    var seenKey: bool
    var overlappedBytes: nat
    const levelPtrs: array<nat>

    constructor (levels: seq<seq<TableFile>>, level: nat, maxFileSize: nat, inputs: seq<TableFile>)
      requires |levels| == NUM_LEVELS
      ensures this.levels == levels && this.level == level && this.maxFileSize == maxFileSize
      ensures inputs0 == inputs && inputs1 == [] && fresh(levelPtrs)
      ensures CursorsStart()
    {
      this.levels, this.level, this.maxFileSize := levels, level, maxFileSize;
      inputs0, inputs1, grandparents := inputs, [], [];
      grandparentIndex, seenKey, overlappedBytes := 0, false, 0;
      levelPtrs := new nat[NUM_LEVELS](_ => 0);
    }

    ghost predicate CursorsStart()
      reads this, levelPtrs
    {
      && levelPtrs.Length == NUM_LEVELS
      && (forall l | 0 <= l < NUM_LEVELS :: levelPtrs[l] == 0)
      && grandparentIndex == 0 && !seenKey && overlappedBytes == 0
    }

    /** The inputs are set up and the cursors are at the start. */
    ghost predicate Ready()
      reads this, levelPtrs
    {
      CursorsStart() && SetUp(levels, level, inputs0, inputs1, grandparents)
    }

    /** SetupOtherInputs: nothing older is left behind in either level, the given inputs stay inputs, and
        inputs that had no gap still have none. `largest` is where the next compaction of the level starts. */
    method SetupOtherInputs() returns (largest: InternalKey)
      requires ValidLevels(levels) && level + 1 < NUM_LEVELS
      requires StartsFrom(level, levels[level], inputs0) && CursorsStart()
      modifies this`inputs0, this`inputs1, this`grandparents
      ensures Ready() && FileSet(old(inputs0)) <= FileSet(inputs0)
      ensures Gapless(FileSet(old(inputs0))) ==> Gapless(FileSet(inputs0) + FileSet(inputs1))
      ensures IsLargestKey(inputs0, largest)
      ensures StillReaches(level, levels[level], FileSet(old(inputs0)), inputs0)
    {
      var in0, in1, below;
      in0, in1, below, largest := ChooseInputs(levels, level, maxFileSize, inputs0);
      Take(in0, in1, below);
    }

    method Take(in0: seq<TableFile>, in1: seq<TableFile>, below: seq<TableFile>)
      requires SetUp(levels, level, in0, in1, below) && CursorsStart()
      modifies this`inputs0, this`inputs1, this`grandparents
      ensures Ready() && inputs0 == in0 && inputs1 == in1
    {
      inputs0, inputs1, grandparents := in0, in1, below;
    }

    // ---- IsBaseLevelForKey ----

    /** The cursors have passed only files that end before `k`. */
    ghost predicate Behind(k: UserKey)
      reads levelPtrs
    {
      && levelPtrs.Length == NUM_LEVELS == |levels|
      && forall l | level + 2 <= l < NUM_LEVELS ::
           levelPtrs[l] <= |levels[l]| && forall i | 0 <= i < levelPtrs[l] :: levels[l][i].largest.user < k
    }

    /** Asked about nondecreasing keys, the cursors give the answer of a fresh search of all deeper levels. */
    method IsBaseLevelForKey(k: UserKey) returns (base: bool)
      requires ValidLevels(levels) && Behind(k)
      modifies levelPtrs
      ensures Behind(k)
      ensures base <==> BaseLevel(levels, level, k)
    {
      var l := level + 2;
      while l < NUM_LEVELS
        invariant Behind(k)
        invariant forall m, f | level + 2 <= m < l && m < NUM_LEVELS && f in levels[m] :: !Contains(f, k)
      {
        var files := levels[l];
        while levelPtrs[l] < |files|
          invariant Behind(k)
          decreases |files| - levelPtrs[l]
        {
          var f := files[levelPtrs[l]];
          if k <= f.largest.user {
            if k >= f.smallest.user {
              assert f in levels[l] && Contains(f, k);
              return false;
            }
            break;
          }
          levelPtrs[l] := levelPtrs[l] + 1;
        }
        NoneContains(files, levelPtrs[l], k);
        l := l + 1;
      }
      base := true;
    }

    // ---- ShouldStopBefore ----

    function MaxOverlap(): nat {
      MaxGrandParentOverlapBytes(maxFileSize)
    }

    /** Moves the grandparent cursor up to `key`, charging the files passed since the last stop; says
        whether they exceed the budget, and then starts a new count. */
    method ShouldStopBefore(key: InternalKey) returns (stop: bool)
      requires LargestNondecreasing(grandparents)
      requires grandparentIndex <= CountBelow(grandparents, key)
      modifies this`grandparentIndex, this`seenKey, this`overlappedBytes
      ensures grandparentIndex == CountBelow(grandparents, key) && seenKey
      ensures var charged := old(overlappedBytes)
                + if old(seenKey) then TotalFileSize(grandparents[old(grandparentIndex)..grandparentIndex]) else 0;
              stop == (charged > MaxOverlap()) && overlappedBytes == if stop then 0 else charged
    {
      ghost var start := grandparentIndex;
      assert grandparents[start..start] == [];
      while grandparentIndex < |grandparents| && Less(grandparents[grandparentIndex].largest, key)
        invariant start <= grandparentIndex <= CountBelow(grandparents, key)
        invariant overlappedBytes == old(overlappedBytes) + Charge(grandparents, start, grandparentIndex, seenKey)
        invariant seenKey == old(seenKey)
      {
        ChargeNext(grandparents, start, grandparentIndex, seenKey);
        if seenKey {
          overlappedBytes := overlappedBytes + grandparents[grandparentIndex].size;
        }
        grandparentIndex := grandparentIndex + 1;
      }
      seenKey := true;
      if overlappedBytes > MaxOverlap() {
        overlappedBytes := 0;
        stop := true;
      } else {
        stop := false;
      }
    }
  }

  predicate IsTrivialMove(in0: seq<TableFile>, in1: seq<TableFile>, grandparents: seq<TableFile>, maxFileSize: nat) {
    |in0| == 1 && |in1| == 0 && TotalFileSize(grandparents) <= MaxGrandParentOverlapBytes(maxFileSize)
  }

  ghost predicate IsVersionOf(c: Compaction, levels: seq<seq<TableFile>>) {
    c.levels == levels
  }

  /** `c` is a compaction of that version, with its inputs set up and its cursors at the start. */
  ghost predicate Chosen(c: Compaction, levels: seq<seq<TableFile>>)
    reads c, c.levelPtrs
  {
    exists version :: IsVersionOf(c, version) && version == levels && c.Ready()
  }

  /** A picked compaction; a single input without anything below it may be moved. */
  ghost predicate Picked(c: Compaction, levels: seq<seq<TableFile>>, maxFileSize: nat)
    reads c, c.levelPtrs
  {
    exists version ::
      && IsVersionOf(c, version) && version == levels && c.Ready() && c.level + 1 < NUM_LEVELS
      && Gapless(FileSet(c.inputs0) + FileSet(c.inputs1))
      && (IsTrivialMove(c.inputs0, c.inputs1, c.grandparents, maxFileSize) ==>
            InputsClosed(LevelSets(levels), c.level, {c.inputs0[0]}, {}))
  }

  lemma OneFile(in0: seq<TableFile>, in1: seq<TableFile>)
    requires |in0| == 1 && |in1| == 0
    ensures FileSet(in0) == {in0[0]} && FileSet(in1) == {}
  {
  }

  // ---- Which file to compact ----

  function MaxBytesForLevel(level: nat): (r: real)
    ensures r > 0.0
  {
    if level <= 1 then 10485760.0 else 10.0 * MaxBytesForLevel(level - 1)
  }

  /** By which factor a level exceeds its limit: files count at level 0, bytes below. */
  function Score(levels: seq<seq<TableFile>>, level: nat, level0Trigger: nat): real
    requires level < |levels| && level0Trigger > 0
  {
    if level == 0 then |levels[0]| as real / level0Trigger as real
    else TotalFileSize(levels[level]) as real / MaxBytesForLevel(level)
  }

  /** The first level, of those that have a next one, with the largest score. */
  ghost predicate IsBestLevel(levels: seq<seq<TableFile>>, level: nat, level0Trigger: nat)
    requires |levels| == NUM_LEVELS && level0Trigger > 0
  {
    && level + 1 < NUM_LEVELS
    && (forall l | 0 <= l < NUM_LEVELS - 1 :: Score(levels, l, level0Trigger) <= Score(levels, level, level0Trigger))
    && (forall l | 0 <= l < level :: Score(levels, l, level0Trigger) < Score(levels, level, level0Trigger))
  }

  /** No level asks for a compaction by its size. */
  ghost predicate AllBelowLimit(levels: seq<seq<TableFile>>, level0Trigger: nat)
    requires |levels| == NUM_LEVELS && level0Trigger > 0
  {
    forall l | 0 <= l < NUM_LEVELS - 1 :: Score(levels, l, level0Trigger) < 1.0
  }

  lemma ScoreOfLevel0(levels: seq<seq<TableFile>>, level0Trigger: nat)
    requires |levels| == NUM_LEVELS && level0Trigger > 0
    ensures Score(levels, 0, level0Trigger) >= 0.0
  {
  }

  /** Finalize. */
  method Finalize(levels: seq<seq<TableFile>>, level0Trigger: nat) returns (bestLevel: nat, bestScore: real)
    requires |levels| == NUM_LEVELS && level0Trigger > 0
    ensures IsBestLevel(levels, bestLevel, level0Trigger) && bestScore == Score(levels, bestLevel, level0Trigger)
  {
    bestLevel, bestScore := 0, -1.0;
    for level := 0 to NUM_LEVELS - 1
      invariant if level == 0 then bestScore < 0.0
                else bestLevel < level && bestScore == Score(levels, bestLevel, level0Trigger)
      invariant forall l | 0 <= l < level :: Score(levels, l, level0Trigger) <= bestScore
      invariant forall l | 0 <= l < level && l < bestLevel :: Score(levels, l, level0Trigger) < bestScore
    {
      var score := Score(levels, level, level0Trigger);
      if level == 0 { ScoreOfLevel0(levels, level0Trigger); }
      if score > bestScore {
        bestLevel, bestScore := level, score;
      }
    }
  }

  /** A level over its limit has a file to pick. */
  lemma FullIsNotEmpty(levels: seq<seq<TableFile>>, level: nat, level0Trigger: nat)
    requires level < |levels| && level0Trigger > 0 && Score(levels, level, level0Trigger) >= 1.0
    ensures levels[level] != []
  {
  }

  /** The first file that ends after the pointer, or the first of all if there is none. */
  ghost predicate IsNextFile(files: seq<TableFile>, pointer: Option<InternalKey>, index: nat) {
    && index < |files|
    && if pointer.None? || forall f | f in files :: AtMost(f.largest, pointer.value) then index == 0
       else Less(pointer.value, files[index].largest)
            && forall i | 0 <= i < index :: AtMost(files[i].largest, pointer.value)
  }

  method PickFile(files: seq<TableFile>, pointer: Option<InternalKey>) returns (index: nat)
    requires files != []
    ensures IsNextFile(files, pointer, index)
  {
    for i := 0 to |files|
      invariant pointer.None? ==> i == 0
      invariant pointer.Some? ==> forall j | 0 <= j < i :: AtMost(files[j].largest, pointer.value)
    {
      if pointer.None? || Less(pointer.value, files[i].largest) {
        assert files[i] in files;
        return i;
      }
    }
    index := 0;
  }

  /** Unless the search wraps around, the next file picked is none of those compacted the last time. */
  lemma NextFileIsBeyond(files: seq<TableFile>, inputs: seq<TableFile>, pointer: InternalKey, index: nat)
    requires IsLargestKey(inputs, pointer) && IsNextFile(files, Some(pointer), index)
    requires exists f :: f in files && Less(pointer, f.largest)
    ensures files[index] !in inputs
  {
  }

  /** The level that size asks to compact, if one does. */
  ghost predicate IsSizeLevel(levels: seq<seq<TableFile>>, level0Trigger: nat, sizeLevel: Option<nat>)
    requires |levels| == NUM_LEVELS && level0Trigger > 0
  {
    if sizeLevel.None? then AllBelowLimit(levels, level0Trigger)
    else IsBestLevel(levels, sizeLevel.value, level0Trigger) && Score(levels, sizeLevel.value, level0Trigger) >= 1.0
  }

  /** Size comes before seeks: in the level that size asks for, the file after the pointer, and if none does,
      the file that seeks point at. */
  ghost predicate IsPick(levels: seq<seq<TableFile>>, level0Trigger: nat, pointers: seq<Option<InternalKey>>,
                         seekFile: Option<(nat, nat)>, choice: Option<(nat, nat)>)
    requires |levels| == NUM_LEVELS == |pointers| && level0Trigger > 0
  {
    exists sizeLevel: Option<nat> ::
      && IsSizeLevel(levels, level0Trigger, sizeLevel)
      && if sizeLevel.None? then choice == seekFile
         else && choice.Some? && choice.value.0 == sizeLevel.value
              && IsNextFile(levels[sizeLevel.value], pointers[sizeLevel.value], choice.value.1)
  }

  // The quantifier over one value keeps the definition folded where it is only passed on.
  ghost predicate PicksFile(levels: seq<seq<TableFile>>, level0Trigger: nat, pointers: seq<Option<InternalKey>>,
                            seekFile: Option<(nat, nat)>, choice: Option<(nat, nat)>)
    requires |levels| == NUM_LEVELS == |pointers| && level0Trigger > 0
  {
    forall place | place == choice :: IsPick(levels, level0Trigger, pointers, seekFile, place)
  }

  /** A file by its level and its place there. */
  ghost predicate IsFileAt(levels: seq<seq<TableFile>>, place: Option<(nat, nat)>) {
    place.Some? ==> var (level, index) := place.value; level + 1 < NUM_LEVELS <= |levels| && index < |levels[level]|
  }

  method ChooseFile(levels: seq<seq<TableFile>>, level0Trigger: nat, pointers: seq<Option<InternalKey>>,
                    seekFile: Option<(nat, nat)>) returns (choice: Option<(nat, nat)>)
    requires |levels| == NUM_LEVELS == |pointers| && level0Trigger > 0 && IsFileAt(levels, seekFile)
    ensures IsFileAt(levels, choice) && PicksFile(levels, level0Trigger, pointers, seekFile, choice)
  {
    var level, score := Finalize(levels, level0Trigger);
    assert IsSizeLevel(levels, level0Trigger, if score >= 1.0 then Some(level) else None);
    if score >= 1.0 {
      FullIsNotEmpty(levels, level, level0Trigger);
      var index := PickFile(levels[level], pointers[level]);
      return Some((level, index));
    }
    choice := seekFile;
  }

  // ---- Picking a compaction ----

  /** The next compaction of the level starts after these inputs. */
  ghost predicate PointsBeyond(pointers: seq<Option<InternalKey>>, level: nat, inputs: seq<TableFile>,
                               newPointers: seq<Option<InternalKey>>)
    requires level < |pointers|
  {
    exists key :: IsLargestKey(inputs, key) && newPointers == pointers[level := Some(key)]
  }

  lemma SingleIsGapless(levels: seq<seq<TableFile>>, level: nat, index: nat)
    requires ValidLevels(levels) && level < NUM_LEVELS && index < |levels[level]|
    ensures WellFormed(levels[level][index])
    ensures Gapless(FileSet([levels[level][index]]))
    ensures level > 0 ==> StartsFrom(level, levels[level], [levels[level][index]])
  {
    var f := levels[level][index];
    forall x: UserKey | InHull(FileSet([f]), x) ensures Covered(FileSet([f]), x) {
      assert f in FileSet([f]);
    }
    assert IsRun(levels[level], [f], index, index + 1);
  }

  lemma Level0Start(files: seq<TableFile>, f: TableFile, r: Range, inputs: seq<TableFile>)
    requires AllWellFormed(files) && f in files
    requires IsClosure(files, FileRange(f), r) && NoNewGap(files, FileRange(f), r) && inputs == Select(files, r)
    ensures f in inputs && StartsFrom(0, files, inputs) && Gapless(FileSet(inputs))
  {
    SelectMembers(files, r);
    WellFormedBounds(f);
    assert Overlaps(f, r);
    forall x: UserKey | InHull(FileSet(inputs), x) ensures Covered(FileSet(inputs), x) {
      var g, h :| g in FileSet(inputs) && h in FileSet(inputs) && g.smallest.user <= x <= h.largest.user;
      assert Within(g, r) && Within(h, r);
      if InRange(x, FileRange(f)) {
        assert f in FileSet(inputs) && Contains(f, x);
      } else {
        var w :| w in files && Overlaps(w, r) && Contains(w, x);
        assert w in FileSet(inputs);
      }
    }
  }

  /** The inputs that PickCompaction starts from: the file, and at level 0 all files reachable from it by
      overlap. */
  method StartingInputs(levels: seq<seq<TableFile>>, level: nat, index: nat) returns (inputs: seq<TableFile>)
    requires ValidLevels(levels) && level + 1 < NUM_LEVELS && index < |levels[level]|
    ensures levels[level][index] in inputs && StartsFrom(level, levels[level], inputs) && Gapless(FileSet(inputs))
  {
    var f := levels[level][index];
    inputs := [f];
    SingleIsGapless(levels, level, index);
    if level == 0 {
      var smallest, largest := GetRange(inputs);
      ghost var r;
      inputs, r := GetOverlappingInputs(0, levels[0], Some(smallest), Some(largest));
      Level0Start(levels[0], f, r, inputs);
    }
  }

  /** PickCompaction: the level that most exceeds its limit, there the file after the compact pointer; else
      the file that seeks point at. The inputs are closed and, being reached by overlap, gapless. */
  method PickCompaction(levels: seq<seq<TableFile>>, level0Trigger: nat, pointers: seq<Option<InternalKey>>,
                        seekFile: Option<(nat, nat)>, maxFileSize: nat)
    returns (c: Option<Compaction>, choice: Option<(nat, nat)>, newPointers: seq<Option<InternalKey>>)
    requires ValidLevels(levels) && |pointers| == NUM_LEVELS && level0Trigger > 0 && IsFileAt(levels, seekFile)
    ensures PicksFile(levels, level0Trigger, pointers, seekFile, choice) && IsFileAt(levels, choice)
    ensures c.None? <==> choice.None?
    ensures c.None? ==> newPointers == pointers
    ensures c.Some? ==>
              var p := c.value;
              && fresh(p) && fresh(p.levelPtrs) && p.maxFileSize == maxFileSize && Picked(p, levels, maxFileSize)
              && p.level == choice.value.0 && levels[p.level][choice.value.1] in p.inputs0
              && PointsBeyond(pointers, p.level, p.inputs0, newPointers)
  {
    choice := ChooseFile(levels, level0Trigger, pointers, seekFile);
    if choice.None? {
      return None, None, pointers;
    }
    var level, index := choice.value.0, choice.value.1;
    var inputs := StartingInputs(levels, level, index);
    var p := new Compaction(levels, level, maxFileSize, inputs);
    var largest := p.SetupOtherInputs();
    assert levels[level][index] in FileSet(inputs) && IsVersionOf(p, levels);
    if IsTrivialMove(p.inputs0, p.inputs1, p.grandparents, maxFileSize) { OneFile(p.inputs0, p.inputs1); }
    c, newPointers := Some(p), pointers[level := Some(largest)];
  }

  // ---- Compacting a range ----

  lemma PrefixOfRun(files: seq<TableFile>, inputs: seq<TableFile>, a: nat, b: nat, n: nat)
    requires IsRun(files, inputs, a, b) && 0 < n <= |inputs|
    ensures IsRun(files, inputs[..n], a, a + n)
  {
    assert files[a..b][..n] == files[a..a + n];
  }

  /** The shortest prefix whose files reach `limit` bytes, or all of them. */
  method PrefixReaching(files: seq<TableFile>, limit: nat) returns (n: nat)
    requires files != []
    ensures IsShortest(files, limit, n)
  {
    var total := 0;
    n := 0;
    while n < |files|
      invariant n <= |files| && total == TotalFileSize(files[..n])
      invariant forall i | 0 < i <= n :: TotalFileSize(files[..i]) < limit
    {
      assert files[..n + 1][..n] == files[..n];
      total := total + files[n].size;
      n := n + 1;
      if total >= limit {
        break;
      }
    }
  }

  lemma NothingSelected(files: seq<TableFile>, r: Range)
    ensures Select(files, r) == [] <==> forall f | f in files :: !Overlaps(f, r)
  {
    SelectMembers(files, r);
    if Select(files, r) != [] {
      assert Select(files, r)[0] in Select(files, r);
    }
  }

  lemma WiderTakesMore(files: seq<TableFile>, asked: Range, r: Range)
    requires Covers(r, asked)
    ensures forall f | f in files && Overlaps(f, asked) :: Overlaps(f, r)
  {
  }

  lemma NothingToWiden(files: seq<TableFile>, asked: Range, r: Range)
    requires IsClosure(files, asked, r) && forall f | f in files :: !Overlaps(f, asked)
    ensures forall f | f in files :: !Overlaps(f, r)
  {
    assert Covers(asked, asked) && Closed(files, asked);
  }

  method RangeInputs(level: nat, files: seq<TableFile>, begin: Option<InternalKey>, end: Option<InternalKey>,
                     maxFileSize: nat) returns (inputs: seq<TableFile>)
    requires AllWellFormed(files) && (level > 0 ==> SortedLevel(files))
    ensures inputs == [] <==> Select(files, Range(UserOf(begin), UserOf(end))) == []
    ensures inputs != [] ==> StartsFrom(level, files, inputs)
    ensures inputs != [] ==> TakesRange(level, files, Range(UserOf(begin), UserOf(end)), maxFileSize, FileSet(inputs))
  {
    ghost var range, asked;
    inputs, range := GetOverlappingInputs(level, files, begin, end);
    asked := Range(UserOf(begin), UserOf(end));
    SelectMembers(files, range);
    NothingSelected(files, range);
    if level == 0 {
      WiderTakesMore(files, asked, range);
      NothingSelected(files, asked);
      if Select(files, asked) == [] { NothingToWiden(files, asked, range); }
    } else if inputs != [] {
      ghost var a, b := SelectIsRun(files, range);
      var n := PrefixReaching(inputs, maxFileSize);
      PrefixOfRun(files, inputs, a, b, n);
      inputs := inputs[..n];
      assert IsShortest(Select(files, asked), maxFileSize, n) && FileSet(Select(files, asked)[..n]) <= FileSet(inputs);
    }
  }

  /** CompactRange: the files of the level that overlap a range, below level 0 only as many as reach the
      size limit. The inputs are closed; they may leave gaps. */
  method CompactRange(levels: seq<seq<TableFile>>, level: nat, begin: Option<InternalKey>, end: Option<InternalKey>,
                      pointers: seq<Option<InternalKey>>, maxFileSize: nat)
    returns (r: Option<Compaction>, newPointers: seq<Option<InternalKey>>)
    requires ValidLevels(levels) && level + 1 < NUM_LEVELS == |pointers|
    ensures r.None? <==> Select(levels[level], Range(UserOf(begin), UserOf(end))) == []
    ensures r.None? ==> newPointers == pointers
    ensures r.Some? ==> var c := r.value;
              && fresh(c) && fresh(c.levelPtrs) && c.level == level && c.maxFileSize == maxFileSize && Chosen(c, levels)
              && TakesRange(level, levels[level], Range(UserOf(begin), UserOf(end)), maxFileSize, FileSet(c.inputs0))
              && Reaches(levels[level], Range(UserOf(begin), UserOf(end)), c.inputs0)
              && PointsBeyond(pointers, level, c.inputs0, newPointers)
  {
    newPointers := pointers;
    var inputs := RangeInputs(level, levels[level], begin, end, maxFileSize);
    if inputs == [] {
      return None, newPointers;
    }
    var c := new Compaction(levels, level, maxFileSize, inputs);
    var largest := c.SetupOtherInputs();
    assert IsVersionOf(c, levels);
    r, newPointers := Some(c), pointers[level := Some(largest)];
  }
}
