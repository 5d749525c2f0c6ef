/** Version::Get of project/version_set.cc: level-0 files newest first, then at most one file per level. */
module ReadPath {
  import opened InternalKeys
  import opened TableFiles
  import opened FileSearch

  /** What SaveValue leaves behind after a table lookup. */
  datatype SaverState = NotFound | Found(value: Value) | Deleted

  /** TableCache::Get followed by SaveValue: look at the first entry at or after the lookup key. */
  function SaveValue(f: TableFile, k: UserKey, s: Sequence): SaverState
    requires WellFormed(f)
  {
    var i := LowerBound(f.entries, LookupKey(k, s));
    if i == |f.entries| || f.entries[i].key.user != k then NotFound
    else if f.entries[i].key.kind.TypeValue? then Found(f.entries[i].value) else Deleted
  }

  function ResultOf(state: SaverState): Option<Value> {
    if state.Found? then Some(state.value) else None
  }

  ghost predicate NothingVisible(f: TableFile, k: UserKey, s: Sequence) {
    forall e | e in f.entries :: !Visible(e, k, s)
  }

  /** The seek finds the newest visible entry of the file, or there is none. */
  lemma SeekFindsNewest(f: TableFile, k: UserKey, s: Sequence)
    requires WellFormed(f)
    ensures SaveValue(f, k, s).NotFound? <==> NothingVisible(f, k, s)
    ensures !SaveValue(f, k, s).NotFound? ==>
              exists e :: IsNewest(EntrySet(f.entries), e, k, s) && ValueOf(e) == ResultOf(SaveValue(f, k, s))
    ensures !SaveValue(f, k, s).NotFound? || Less(f.largest, LookupKey(k, s)) || f.largest.user > k
  {
    var i := LowerBound(f.entries, LookupKey(k, s));
    if i < |f.entries| && f.entries[i].key.user == k {
      assert IsNewest(EntrySet(f.entries), f.entries[i], k, s);
      assert Visible(f.entries[i], k, s);
    } else {
      forall j | 0 <= j < |f.entries|
        ensures !Visible(f.entries[j], k, s)
      {
        if i < j { assert Less(f.entries[i].key, f.entries[j].key); }
      }
    }
  }

  /** Wherever `f` and `g` hold the same user key, `f` holds nothing older. */
  ghost predicate NotOlder(f: TableFile, g: TableFile) {
    forall a, b | a in f.entries && b in g.entries && a.key.user == b.key.user :: a.key.sequence >= b.key.sequence
  }

  /** `f` is where a search of `files` may stop: no other file shows anything newer for the key. */
  ghost predicate StopsAt(files: set<TableFile>, f: TableFile, k: UserKey, s: Sequence) {
    && f in files
    && forall g | g in files && g != f :: NothingVisible(g, k, s) || NotOlder(f, g)
  }

  ghost predicate AllHidden(files: set<TableFile>, k: UserKey, s: Sequence) {
    forall g | g in files :: NothingVisible(g, k, s)
  }

  /** A hit in one file answers for the whole version once its level may stop there and the
      levels above showed nothing. */
  lemma HitIsNewest(levels: seq<set<TableFile>>, l: nat, f: TableFile, k: UserKey, s: Sequence)
    requires OrderedLevels(levels) && l < NUM_LEVELS && StopsAt(levels[l], f, k, s)
    requires forall m | 0 <= m < l :: AllHidden(levels[m], k, s)
    requires !SaveValue(f, k, s).NotFound?
    ensures Yields(EntriesOf(levels), k, s, ResultOf(SaveValue(f, k, s)))
  {
    SeekFindsNewest(f, k, s);
    var e :| IsNewest(EntrySet(f.entries), e, k, s) && ValueOf(e) == ResultOf(SaveValue(f, k, s));
    forall x | x in EntriesOf(levels) && Visible(x, k, s)
      ensures x.key.sequence <= e.key.sequence
    {
      var m, g :| 0 <= m < |levels| && g in levels[m] && x in g.entries;
      if m == l && g == f {
        assert x in EntrySet(f.entries);
      } else if m > l {
        assert Newer(f, g);
      }
    }
    assert IsNewest(EntriesOf(levels), e, k, s);
  }

  /** In a sorted level, the file found by binary search decides for the whole level. */
  lemma OneFilePerLevel(files: seq<TableFile>, index: nat, k: UserKey, s: Sequence)
    requires SortedLevel(files) && index <= |files|
    requires forall i | 0 <= i < |files| :: i < index <==> Less(files[i].largest, LookupKey(k, s))
    ensures index == |files| || k < files[index].smallest.user || SaveValue(files[index], k, s).NotFound? ==>
              AllHidden(FileSet(files), k, s)
    ensures index < |files| && !SaveValue(files[index], k, s).NotFound? ==>
              StopsAt(FileSet(files), files[index], k, s)
  {
    if index < |files| { SeekFindsNewest(files[index], k, s); }
    forall g | g in files
      ensures index == |files| || k < files[index].smallest.user || SaveValue(files[index], k, s).NotFound? ==>
                NothingVisible(g, k, s)
      ensures index < |files| && g != files[index] ==> NothingVisible(g, k, s) || NotOlder(files[index], g)
    {
      var i :| 0 <= i < |files| && files[i] == g;
      WellFormedBounds(g);
      if i < index {
        assert NothingVisible(g, k, s);
      } else if i > index {
        WellFormedBounds(files[index]);
        assert Before(files[index], g);
        assert NotOlder(files[index], g);
      }
    }
  }

  ghost predicate NewestFirst(files: seq<TableFile>) {
    forall i, j | 0 <= i < j < |files| :: files[i].number >= files[j].number
  }

  lemma InsertedNewestFirst(sorted: seq<TableFile>, p: nat, f: TableFile, r: seq<TableFile>)
    requires NewestFirst(sorted) && p <= |sorted| && forall i | 0 <= i < p :: sorted[i].number > f.number
    requires p < |sorted| ==> sorted[p].number <= f.number
    requires r == sorted[..p] + [f] + sorted[p..]
    ensures NewestFirst(r)
  {
    forall i, j | 0 <= i < j < |r| ensures r[i].number >= r[j].number {
      assert forall m | p <= m < |sorted| :: sorted[m].number <= f.number;
    }
  }

  method InsertNewestFirst(sorted: seq<TableFile>, f: TableFile) returns (r: seq<TableFile>)
    requires NewestFirst(sorted)
    ensures NewestFirst(r) && multiset(r) == multiset(sorted) + multiset{f}
  {
    var p := 0;
    while p < |sorted| && sorted[p].number > f.number
      invariant 0 <= p <= |sorted|
      invariant forall i | 0 <= i < p :: sorted[i].number > f.number
    {
      p := p + 1;
    }
    r := sorted[..p] + [f] + sorted[p..];
    InsertedNewestFirst(sorted, p, f, r);
    assert sorted == sorted[..p] + sorted[p..];
  }

  method SortNewestFirst(files: seq<TableFile>) returns (sorted: seq<TableFile>)
    ensures NewestFirst(sorted) && multiset(sorted) == multiset(files)
  {
    sorted := [];
    for n := 0 to |files|
      invariant NewestFirst(sorted) && multiset(sorted) == multiset(files[..n])
    {
      assert files[..n + 1] == files[..n] + [files[n]];
      sorted := InsertNewestFirst(sorted, files[n]);
    }
    assert files[..|files|] == files;
  }

  /** Level 0 of ForEachOverlapping: the files holding the key in range, newest first. */
  method SearchLevel0(files: seq<TableFile>, k: UserKey, s: Sequence)
    returns (state: SaverState, ghost hit: Option<TableFile>)
    requires AllWellFormed(files)
    ensures state.NotFound? ==> AllHidden(FileSet(files), k, s)
    ensures !state.NotFound? ==> hit.Some? && hit.value in files && state == SaveValue(hit.value, k, s)
    ensures !state.NotFound? && NewerByNumber(FileSet(files)) ==> StopsAt(FileSet(files), hit.value, k, s)
  {
    var tmp := [];
    for i := 0 to |files|
      invariant forall f :: f in tmp <==> f in files[..i] && Contains(f, k)
    {
      if Contains(files[i], k) {
        tmp := tmp + [files[i]];
      }
    }
    assert files[..|files|] == files;
    var sorted := SortNewestFirst(tmp);
    assert forall f :: f in sorted <==> f in tmp by {
      assert forall f :: f in sorted <==> f in multiset(sorted);
      assert forall f :: f in tmp <==> f in multiset(tmp);
    }
    forall g | g in files && g !in sorted
      ensures NothingVisible(g, k, s)
    {
      WellFormedBounds(g);
    }
    for i := 0 to |sorted|
      invariant forall j | 0 <= j < i :: NothingVisible(sorted[j], k, s)
    {
      state := SaveValue(sorted[i], k, s);
      if !state.NotFound? {
        forall g | NewerByNumber(FileSet(files)) && g in files && g != sorted[i]
          ensures NothingVisible(g, k, s) || NotOlder(sorted[i], g)
        {
          if g in sorted {
            var j :| 0 <= j < |sorted| && sorted[j] == g;
            assert i < j ==> Newer(sorted[i], g);
          }
        }
        return state, Some(sorted[i]);
      }
      SeekFindsNewest(sorted[i], k, s);
    }
    return NotFound, None;
  }

  /** What a look into the file at `index` gives. */
  function LookAt(files: seq<TableFile>, index: nat, k: UserKey, s: Sequence): SaverState
    requires AllWellFormed(files) && index <= |files|
  {
    if index < |files| && files[index].smallest.user <= k then SaveValue(files[index], k, s) else NotFound
  }

  /** A deeper level of ForEachOverlapping: binary search, one file at most. On a sorted level that one
      file decides. */
  method SearchLevel(files: seq<TableFile>, k: UserKey, s: Sequence)
    returns (state: SaverState, ghost index: nat)
    requires AllWellFormed(files)
    ensures IsCut(files, LookupKey(k, s), index) && state == LookAt(files, index, k, s)
    ensures SortedLevel(files) && state.NotFound? ==> AllHidden(FileSet(files), k, s)
    ensures SortedLevel(files) && !state.NotFound? ==> index < |files| && StopsAt(FileSet(files), files[index], k, s)
  {
    var right := FindFile(files, LookupKey(k, s));
    index := right;
    if SortedLevel(files) {
      SortedLevelBounds(files);
      OneFilePerLevel(files, right, k, s);
    }
    if right < |files| && files[right].smallest.user <= k {
      return SaveValue(files[right], k, s), right;
    }
    return NotFound, right;
  }

  /** Wherever the binary search may end up in the list, it sees nothing. */
  ghost predicate Silent(files: seq<TableFile>, k: UserKey, s: Sequence)
    requires AllWellFormed(files)
  {
    forall index: nat | IsCut(files, LookupKey(k, s), index) :: LookAt(files, index, k, s).NotFound?
  }

  class Version {
    var files: seq<seq<TableFile>>

    constructor (files: seq<seq<TableFile>>)
      ensures this.files == files
    {
      this.files := files;
    }

    /** The early-stopping read returns what the newest visible entry of all files says, if the levels are in
        order; levels that are not may hide what they hold. */
    method Get(k: UserKey, s: Sequence) returns (r: Option<Value>)
      requires |files| == NUM_LEVELS && forall l | 0 <= l < NUM_LEVELS :: AllWellFormed(files[l])
      ensures ValidLevels(files) && OrderedLevels(LevelSets(files)) ==> Yields(EntriesOf(LevelSets(files)), k, s, r)
      ensures files[0] == [] && (forall l | 1 <= l < NUM_LEVELS :: Silent(files[l], k, s)) ==> r.None?
    {
      ghost var levels := LevelSets(files);
      ghost var ordered := ValidLevels(files) && OrderedLevels(levels);
      var state, hit := SearchLevel0(files[0], k, s);
      if !state.NotFound? {
        if ordered { HitIsNewest(levels, 0, hit.value, k, s); }
        return ResultOf(state);
      }
      for level := 1 to NUM_LEVELS
        invariant ordered ==> forall m | 0 <= m < level :: AllHidden(levels[m], k, s)
      {
        ghost var index;
        state, index := SearchLevel(files[level], k, s);
        if !state.NotFound? {
          if ordered { HitIsNewest(levels, level, files[level][index], k, s); }
          return ResultOf(state);
        }
      }
      r := None;
    }
  }
}
