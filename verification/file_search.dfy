/** Searches over one level's file list: FindFile, SomeFileOverlapsRange,
    GetOverlappingInputs and PickLevelForMemTableOutput of project/version_set.cc. */
module FileSearch {
  import opened InternalKeys
  import opened TableFiles

  ghost predicate LargestNondecreasing(files: seq<TableFile>) {
    forall i, j | 0 <= i < j < |files| :: AtMost(files[i].largest, files[j].largest)
  }

  lemma SortedLevelBounds(files: seq<TableFile>)
    requires SortedLevel(files)
    ensures LargestNondecreasing(files)
    ensures forall i, j | 0 <= i < j < |files| ::
              files[i].smallest.user <= files[i].largest.user <= files[j].smallest.user <= files[j].largest.user
  {
    forall f | f in files { WellFormedBounds(f); }
  }

  /** The file before `index` ends before `key`, the one at `index` does not. */
  predicate IsCut(files: seq<TableFile>, key: InternalKey, index: nat) {
    && index <= |files|
    && (index > 0 ==> Less(files[index - 1].largest, key))
    && (index < |files| ==> !Less(files[index].largest, key))
  }

  /** Binary search: on files whose largest keys ascend, for the first one whose largest key is at least
      `key`; on any list, for some point where that changes. */
  method FindFile(files: seq<TableFile>, key: InternalKey) returns (right: nat)
    ensures IsCut(files, key, right)
    ensures LargestNondecreasing(files) ==> forall i | 0 <= i < |files| :: i < right <==> Less(files[i].largest, key)
  {
    var left := 0;
    right := |files|;
    while left < right
      invariant 0 <= left <= right <= |files|
      invariant left > 0 ==> Less(files[left - 1].largest, key)
      invariant right < |files| ==> !Less(files[right].largest, key)
    {
      var mid := (left + right) / 2;
      if Less(files[mid].largest, key) {
        left := mid + 1;
      } else {
        right := mid;
      }
    }
  }

  /** The binary search over a sorted level answers what the linear scan answers:
      whether some file overlaps the user-key range. */
  method SomeFileOverlapsRange(disjointSortedFiles: bool, files: seq<TableFile>, r: Range)
    returns (overlap: bool)
    requires disjointSortedFiles ==> SortedLevel(files)
    ensures overlap <==> exists f :: f in files && Overlaps(f, r)
  {
    if !disjointSortedFiles {
      for i := 0 to |files|
        invariant forall j | 0 <= j < i :: !Overlaps(files[j], r)
      {
        var f := files[i];
        if AfterFile(r.lo, f) || BeforeFile(r.hi, f) {
        } else {
          assert f in files && Overlaps(f, r);
          return true;
        }
      }
      return false;
    }
    SortedLevelBounds(files);
    var index := 0;
    if r.lo.Some? {
      index := FindFile(files, FirstKeyOf(r.lo.value));
      assert forall i | 0 <= i < |files| :: i < index <==> files[i].largest.user < r.lo.value;
    }
    if index >= |files| {
      return false;
    }
    overlap := !BeforeFile(r.hi, files[index]);
    if overlap { assert Overlaps(files[index], r); }
  }

  function UserOf(key: Option<InternalKey>): Option<UserKey> {
    if key.Some? then Some(key.value.user) else None
  }

  /** Every point of `r` lies in the original range or inside some overlapping file. */
  ghost predicate NoNewGap(files: seq<TableFile>, original: Range, r: Range) {
    forall x: UserKey | InRange(x, r) && !InRange(x, original) ::
      exists f :: f in files && Overlaps(f, r) && Contains(f, x)
  }

  /** `r` is the least range that contains `original` and that no file sticks out of. */
  ghost predicate IsClosure(files: seq<TableFile>, original: Range, r: Range) {
    && Covers(r, original)
    && Closed(files, r)
    && forall q | Covers(q, original) && Closed(files, q) :: Covers(q, r)
  }

  /** `r` was reached from `original` by widening to overlapping files only. */
  ghost predicate Widened(files: seq<TableFile>, original: Range, r: Range) {
    && Covers(r, original)
    && NoNewGap(files, original, r)
    && forall q | Covers(q, original) && Closed(files, q) :: Covers(q, r)
  }

  ghost function StartsBelow(files: seq<TableFile>, r: Range): set<nat> {
    set i: nat | i < |files| && r.lo.Some? && files[i].smallest.user < r.lo.value
  }

  ghost function EndsAbove(files: seq<TableFile>, r: Range): set<nat> {
    set i: nat | i < |files| && r.hi.Some? && files[i].largest.user > r.hi.value
  }

  lemma SelectNext(files: seq<TableFile>, r: Range, i: nat)
    requires i < |files|
    ensures Select(files[..i + 1], r) == Select(files[..i], r) + if Overlaps(files[i], r) then [files[i]] else []
    ensures Closed(files[..i + 1], r) <==> Closed(files[..i], r) && (Overlaps(files[i], r) ==> Within(files[i], r))
  {
    assert files[..i + 1][..i] == files[..i];
    assert files[..i + 1] == files[..i] + [files[i]];
  }

  /** Widening the start to that of an overlapping file stays below every closed range, leaves no new
      gap, and takes that file out of the files starting below. */
  lemma WidenedStart(files: seq<TableFile>, original: Range, r: Range, i: nat)
    requires i < |files| && WellFormed(files[i]) && Overlaps(files[i], r)
    requires r.lo.Some? && files[i].smallest.user < r.lo.value
    requires Widened(files, original, r)
    ensures var w := r.(lo := Some(files[i].smallest.user));
            && Widened(files, original, w)
            && StartsBelow(files, w) < StartsBelow(files, r)
  {
    var f := files[i];
    var w := r.(lo := Some(f.smallest.user));
    forall x: UserKey | InRange(x, w) && !InRange(x, original)
      ensures exists g :: g in files && Overlaps(g, w) && Contains(g, x)
    {
      if InRange(x, r) {
        var g :| g in files && Overlaps(g, r) && Contains(g, x);
        assert Overlaps(g, w);
      } else {
        assert f in files && Overlaps(f, w) && Contains(f, x);
      }
    }
    forall q | Covers(q, original) && Closed(files, q)
      ensures Covers(q, w)
    {
      assert f in files && Overlaps(f, q);
    }
    assert i in StartsBelow(files, r) && i !in StartsBelow(files, w);
  }

  lemma WidenedEnd(files: seq<TableFile>, original: Range, r: Range, i: nat)
    requires i < |files| && WellFormed(files[i]) && Overlaps(files[i], r)
    requires r.hi.Some? && files[i].largest.user > r.hi.value
    requires Widened(files, original, r)
    ensures var w := r.(hi := Some(files[i].largest.user));
            && Widened(files, original, w)
            && StartsBelow(files, w) == StartsBelow(files, r) && EndsAbove(files, w) < EndsAbove(files, r)
  {
    var f := files[i];
    var w := r.(hi := Some(f.largest.user));
    forall x: UserKey | InRange(x, w) && !InRange(x, original)
      ensures exists g :: g in files && Overlaps(g, w) && Contains(g, x)
    {
      if InRange(x, r) {
        var g :| g in files && Overlaps(g, r) && Contains(g, x);
        assert Overlaps(g, w);
      } else {
        assert f in files && Overlaps(f, w) && Contains(f, x);
      }
    }
    forall q | Covers(q, original) && Closed(files, q)
      ensures Covers(q, w)
    {
      assert f in files && Overlaps(f, q);
    }
    assert i in EndsAbove(files, r) && i !in EndsAbove(files, w);
  }

  /** Level 0 restarts whenever an overlapping file sticks out of the range, and so returns the files
      that overlap the closure of the range; a deeper level returns the files that overlap the range. */
  method GetOverlappingInputs(level: nat, files: seq<TableFile>, begin: Option<InternalKey>, end: Option<InternalKey>)
    returns (inputs: seq<TableFile>, ghost r: Range)
    requires AllWellFormed(files)
    ensures inputs == Select(files, r)
    ensures level > 0 ==> r == Range(UserOf(begin), UserOf(end))
    ensures level > 0 ==> inputs == Select(files, Range(UserOf(begin), UserOf(end)))
    ensures level == 0 ==> IsClosure(files, Range(UserOf(begin), UserOf(end)), r)
    ensures NoNewGap(files, Range(UserOf(begin), UserOf(end)), r)
  {
    inputs := [];
    var userBegin, userEnd := UserOf(begin), UserOf(end);
    ghost var original := Range(userBegin, userEnd);
    var i := 0;
    while i < |files|
      invariant 0 <= i <= |files|
      invariant inputs == Select(files[..i], Range(userBegin, userEnd))
      invariant Widened(files, original, Range(userBegin, userEnd))
      invariant level > 0 ==> Range(userBegin, userEnd) == original
      invariant level == 0 ==> Closed(files[..i], Range(userBegin, userEnd))
      decreases StartsBelow(files, Range(userBegin, userEnd)), EndsAbove(files, Range(userBegin, userEnd)), |files| - i
    {
      ghost var before := Range(userBegin, userEnd);
      var f := files[i];
      SelectNext(files, before, i);
      i := i + 1;
      var start, limit := f.smallest.user, f.largest.user;
      WellFormedBounds(f);
      if userBegin.Some? && limit < userBegin.value {
      } else if userEnd.Some? && start > userEnd.value {
      } else {
        inputs := inputs + [f];
        if level == 0 {
          if userBegin.Some? && start < userBegin.value {
            userBegin := Some(start);
            inputs := [];
            WidenedStart(files, original, before, i - 1);
            i := 0;
          } else if userEnd.Some? && limit > userEnd.value {
            userEnd := Some(limit);
            inputs := [];
            WidenedEnd(files, original, before, i - 1);
            i := 0;
          }
        }
      }
    }
    r := Range(userBegin, userEnd);
    assert files[..|files|] == files;
  }

  function MaxGrandParentOverlapBytes(maxFileSize: nat): nat {
    10 * maxFileSize
  }

  ghost predicate OverlapInLevel(levels: seq<seq<TableFile>>, level: nat, r: Range)
    requires level < |levels|
  {
    exists f :: f in levels[level] && Overlaps(f, r)
  }

  /** A new file may move from `level` to the next: nothing in its way there, and not too much below. */
  ghost predicate MayPush(levels: seq<seq<TableFile>>, level: nat, r: Range, maxFileSize: nat)
    requires |levels| == NUM_LEVELS && level + 1 < NUM_LEVELS
  {
    && !OverlapInLevel(levels, level + 1, r)
    && (level + 2 < NUM_LEVELS ==>
          TotalFileSize(Select(levels[level + 2], r)) <= MaxGrandParentOverlapBytes(maxFileSize))
  }

  /** The chosen level, if above 0, and every level before it hold nothing in the range;
      and it is the first level the file may not be pushed past. */
  method PickLevelForMemTableOutput(levels: seq<seq<TableFile>>, smallest: UserKey, largest: UserKey,
                                    maxMemCompactLevel: nat, maxFileSize: nat) returns (level: nat)
    requires ValidLevels(levels) && maxMemCompactLevel < NUM_LEVELS
    ensures level <= maxMemCompactLevel
    ensures level > 0 ==>
              forall l | 0 <= l <= level :: !OverlapInLevel(levels, l, Range(Some(smallest), Some(largest)))
    ensures var r := Range(Some(smallest), Some(largest));
            if OverlapInLevel(levels, 0, r) then level == 0
            else (forall l | 0 <= l < level :: MayPush(levels, l, r, maxFileSize))
                 && (level < maxMemCompactLevel ==> !MayPush(levels, level, r, maxFileSize))
  {
    var r := Range(Some(smallest), Some(largest));
    level := 0;
    var overlap := SomeFileOverlapsRange(false, levels[0], r);
    if !overlap {
      while level < maxMemCompactLevel
        invariant level <= maxMemCompactLevel
        invariant forall l | 0 <= l <= level :: !OverlapInLevel(levels, l, r)
        invariant forall l | 0 <= l < level :: MayPush(levels, l, r, maxFileSize)
      {
        overlap := SomeFileOverlapsRange(true, levels[level + 1], r);
        if overlap {
          break;
        }
        if level + 2 < NUM_LEVELS {
          var overlaps, _ := GetOverlappingInputs(level + 2, levels[level + 2],
                                                  Some(FirstKeyOf(smallest)), Some(LastKeyOf(largest)));
          if TotalFileSize(overlaps) > MaxGrandParentOverlapBytes(maxFileSize) {
            break;
          }
        }
        level := level + 1;
      }
    }
  }
}
