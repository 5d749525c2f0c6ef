/** Version::AddIterators with range bounds, and the merge over the iterators it adds: between the bounds,
    pruning tables leaves no trace. The merging iterator (table/merger.cc) is not part of the repository;
    it is specified as the ordered merge of its children, the first child winning ties. */
module Pruning {
  import opened InternalKeys
  import opened TableFiles
  import opened TwoLevelIterators
  import opened FilterBlocks
  import opened Tables

  // ---- Merging ----

  /** No entry comes after a larger one. */
  ghost predicate Nondecreasing(es: seq<Entry>) {
    forall i, j | 0 <= i < j < |es| :: AtMost(es[i].key, es[j].key)
  }

  function Merge(a: seq<Entry>, b: seq<Entry>): seq<Entry> {
    if a == [] then b
    else if b == [] then a
    else if Less(b[0].key, a[0].key) then [b[0]] + Merge(a, b[1..])
    else [a[0]] + Merge(a[1..], b)
  }

  /** What the merging iterator yields over its children, front to back. */
  function MergeAll(children: seq<seq<Entry>>): seq<Entry> {
    if children == [] then [] else Merge(children[0], MergeAll(children[1..]))
  }

  lemma {:induction false} MergeMembers(a: seq<Entry>, b: seq<Entry>)
    ensures forall e :: e in Merge(a, b) <==> e in a || e in b
  {
    if a != [] && b != [] {
      if Less(b[0].key, a[0].key) {
        MergeMembers(a, b[1..]);
        assert b == [b[0]] + b[1..];
      } else {
        MergeMembers(a[1..], b);
        assert a == [a[0]] + a[1..];
      }
    }
  }

  /** An entry in front of a list that holds nothing smaller. */
  lemma PutInFront(e: Entry, es: seq<Entry>)
    requires Nondecreasing(es) && forall x | x in es :: AtMost(e.key, x.key)
    ensures Nondecreasing([e] + es)
  {
  }

  lemma HeadIsLeast(es: seq<Entry>)
    requires Nondecreasing(es) && es != []
    ensures forall x | x in es :: AtMost(es[0].key, x.key)
    ensures Nondecreasing(es[1..])
  {
  }

  lemma {:induction false} MergeNondecreasing(a: seq<Entry>, b: seq<Entry>)
    requires Nondecreasing(a) && Nondecreasing(b)
    ensures Nondecreasing(Merge(a, b))
  {
    if a != [] && b != [] {
      HeadIsLeast(a);
      HeadIsLeast(b);
      if Less(b[0].key, a[0].key) {
        MergeNondecreasing(a, b[1..]);
        MergeMembers(a, b[1..]);
        PutInFront(b[0], Merge(a, b[1..]));
      } else {
        MergeNondecreasing(a[1..], b);
        MergeMembers(a[1..], b);
        PutInFront(a[0], Merge(a[1..], b));
      }
    }
  }

  lemma {:induction false} MergeAllNondecreasing(children: seq<seq<Entry>>)
    requires forall c | c in children :: Nondecreasing(c)
    ensures Nondecreasing(MergeAll(children))
  {
    if children != [] {
      MergeAllNondecreasing(children[1..]);
      MergeNondecreasing(children[0], MergeAll(children[1..]));
    }
  }

  ghost predicate InSome(lists: seq<seq<Entry>>, e: Entry) {
    exists c :: c in lists && e in c
  }

  lemma {:induction false} MergeAllMembers(children: seq<seq<Entry>>)
    ensures forall e :: e in MergeAll(children) <==> InSome(children, e)
  {
    if children != [] {
      MergeAllMembers(children[1..]);
      MergeMembers(children[0], MergeAll(children[1..]));
      assert children == [children[0]] + children[1..];
    }
  }

  // ---- Bounds ----

  lemma {:induction false} InBoundsMembers(es: seq<Entry>, lo: UserKey, hi: UserKey)
    ensures forall e :: e in InBounds(es, lo, hi) <==> e in es && lo <= e.key.user <= hi
  {
    if es != [] {
      InBoundsMembers(es[1..], lo, hi);
      assert es == [es[0]] + es[1..];
    }
  }

  function Keep(e: Entry, lo: UserKey, hi: UserKey): seq<Entry> {
    if lo <= e.key.user <= hi then [e] else []
  }

  lemma InBoundsCons(e: Entry, es: seq<Entry>, lo: UserKey, hi: UserKey)
    ensures InBounds([e] + es, lo, hi) == Keep(e, lo, hi) + InBounds(es, lo, hi)
  {
    assert ([e] + es)[1..] == es;
  }

  lemma {:induction false} InBoundsConcat(a: seq<Entry>, b: seq<Entry>, lo: UserKey, hi: UserKey)
    ensures InBounds(a + b, lo, hi) == InBounds(a, lo, hi) + InBounds(b, lo, hi)
  {
    if a == [] {
      assert a + b == b;
    } else {
      InBoundsConcat(a[1..], b, lo, hi);
      InBoundsCons(a[0], a[1..] + b, lo, hi);
      assert a + b == [a[0]] + (a[1..] + b);
      Regroup(Keep(a[0], lo, hi), InBounds(a[1..], lo, hi), InBounds(b, lo, hi));
    }
  }

  /** If `x` is at most every entry of `es`, it is at most the first of them between the bounds. */
  lemma FirstInBounds(es: seq<Entry>, lo: UserKey, hi: UserKey, x: Entry)
    requires forall e | e in es :: AtMost(x.key, e.key)
    ensures var kept := InBounds(es, lo, hi); kept != [] ==> AtMost(x.key, kept[0].key)
  {
    InBoundsMembers(es, lo, hi);
    var kept := InBounds(es, lo, hi);
    assert kept != [] ==> kept[0] in kept;
  }

  lemma KeepLeft(x: Entry, a: seq<Entry>, b: seq<Entry>, lo: UserKey, hi: UserKey)
    requires b != [] ==> AtMost(x.key, b[0].key)
    ensures Merge(Keep(x, lo, hi) + a, b) == Keep(x, lo, hi) + Merge(a, b)
  {
    assert [] + a == a && [] + Merge(a, b) == Merge(a, b) && ([x] + a)[1..] == a;
    if b == [] { assert Merge(a, b) == a; }
  }

  lemma KeepRight(x: Entry, a: seq<Entry>, b: seq<Entry>, lo: UserKey, hi: UserKey)
    requires a != [] ==> Less(x.key, a[0].key)
    ensures Merge(a, Keep(x, lo, hi) + b) == Keep(x, lo, hi) + Merge(a, b)
  {
    assert [] + b == b && [] + Merge(a, b) == Merge(a, b) && ([x] + b)[1..] == b;
  }

  /** Cutting to the bounds and merging commute. */
  lemma {:induction false} InBoundsMerge(a: seq<Entry>, b: seq<Entry>, lo: UserKey, hi: UserKey)
    requires Nondecreasing(a) && Nondecreasing(b)
    ensures InBounds(Merge(a, b), lo, hi) == Merge(InBounds(a, lo, hi), InBounds(b, lo, hi))
  {
    if a != [] && b != [] {
      HeadIsLeast(a);
      HeadIsLeast(b);
      if Less(b[0].key, a[0].key) {
        InBoundsMerge(a, b[1..], lo, hi);
        InBoundsCons(b[0], Merge(a, b[1..]), lo, hi);
        FirstInBounds(a, lo, hi, a[0]);
        KeepRight(b[0], InBounds(a, lo, hi), InBounds(b[1..], lo, hi), lo, hi);
      } else {
        InBoundsMerge(a[1..], b, lo, hi);
        InBoundsCons(a[0], Merge(a[1..], b), lo, hi);
        FirstInBounds(b, lo, hi, a[0]);
        KeepLeft(a[0], InBounds(a[1..], lo, hi), InBounds(b, lo, hi), lo, hi);
      }
    }
  }

  /** The children agree, one by one, between the bounds. */
  ghost predicate AgreeInBounds(c: seq<seq<Entry>>, d: seq<seq<Entry>>, lo: UserKey, hi: UserKey) {
    |c| == |d| && forall i | 0 <= i < |c| :: InBounds(c[i], lo, hi) == InBounds(d[i], lo, hi)
  }

  /** Then so does the merge. */
  lemma {:induction false} MergeAgrees(c: seq<seq<Entry>>, d: seq<seq<Entry>>, lo: UserKey, hi: UserKey)
    requires AgreeInBounds(c, d, lo, hi)
    requires forall x | x in c + d :: Nondecreasing(x)
    ensures InBounds(MergeAll(c), lo, hi) == InBounds(MergeAll(d), lo, hi)
  {
    if c != [] {
      MergeAgrees(c[1..], d[1..], lo, hi);
      MergeAllNondecreasing(c[1..]);
      MergeAllNondecreasing(d[1..]);
      InBoundsMerge(c[0], MergeAll(c[1..]), lo, hi);
      InBoundsMerge(d[0], MergeAll(d[1..]), lo, hi);
    }
  }

  // ---- The iterators of a version ----

  /** LevelFileNumIterator: one line per file, its largest key and its number. */
  function LevelIndex(files: seq<TableFile>): (index: seq<IndexEntry>)
    ensures |index| == |files|
    ensures forall i | 0 <= i < |files| :: index[i] == IndexEntry(files[i].largest, files[i].number)
  {
    seq(|files|, i requires 0 <= i < |files| => IndexEntry(files[i].largest, files[i].number))
  }

  /** Each file of the list is fetched by its number, whole or pruned away. */
  ghost predicate Fetches(files: seq<TableFile>, fetch: Handle -> seq<Entry>) {
    forall f | f in files :: fetch(f.number) == f.entries || fetch(f.number) == []
  }

  ghost predicate InFirst(files: seq<TableFile>, n: nat, e: Entry)
    requires n <= |files|
  {
    exists i :: 0 <= i < n && e in files[i].entries
  }

  lemma EarlierFile(files: seq<TableFile>, n: nat, a: Entry, b: Entry)
    requires SortedLevel(files) && 0 < n <= |files| && InFirst(files, n - 1, a) && b in files[n - 1].entries
    ensures Less(a.key, b.key)
  {
    var i :| 0 <= i < n - 1 && a in files[i].entries;
    assert Before(files[i], files[n - 1]);
    WellFormedBounds(files[i]);
    WellFormedBounds(files[n - 1]);
  }

  lemma JoinSorted(a: seq<Entry>, b: seq<Entry>)
    requires SortedEntries(a) && SortedEntries(b) && forall x, y | x in a && y in b :: Less(x.key, y.key)
    ensures SortedEntries(a + b)
  {
  }

  lemma {:induction false} FlatFromFiles(files: seq<TableFile>, fetch: Handle -> seq<Entry>, n: nat)
    requires SortedLevel(files) && Fetches(files, fetch) && n <= |files|
    ensures SortedEntries(FlatTo(LevelIndex(files), fetch, n))
    ensures forall e | e in FlatTo(LevelIndex(files), fetch, n) :: InFirst(files, n, e)
  {
    if n > 0 {
      FlatFromFiles(files, fetch, n - 1);
      var before, f := FlatTo(LevelIndex(files), fetch, n - 1), files[n - 1];
      var last := fetch(f.number);
      assert FlatTo(LevelIndex(files), fetch, n) == before + last;
      forall e | e in before + last ensures InFirst(files, n, e) {
        if e in last { assert e in files[n - 1].entries; }
      }
      forall a, b | a in before && b in last ensures Less(a.key, b.key) { EarlierFile(files, n, a, b); }
      assert f in files && WellFormed(f);
      assert SortedEntries(last);
      JoinSorted(before, last);
    }
  }

  /** A sorted level, read through any pruning, is a sorted two-level table: a Seek in it lands on the
      lower bound of what is left. */
  lemma LevelIsSorted(files: seq<TableFile>, fetch: Handle -> seq<Entry>)
    requires SortedLevel(files) && Fetches(files, fetch)
    ensures SortedIndex(LevelIndex(files), fetch)
  {
    var index := LevelIndex(files);
    FlatFromFiles(files, fetch, |files|);
    forall i, j | 0 <= i < j < |index| ensures Less(index[i].key, files[j].smallest)
        && AtMost(index[i].key, index[j].key) {
      assert Before(files[i], files[j]);
      WellFormedBounds(files[j]);
    }
    forall i, e | 0 <= i < |index| && e in BlockAt(index, fetch, i)
      ensures AtMost(files[i].smallest, e.key) && AtMost(e.key, index[i].key)
    {
      WellFormedBounds(files[i]);
    }
  }

  datatype Child = TableChild(entries: seq<Entry>) | LevelChild(cursor: TwoLevelIterator)

  /** What a child yields, front to back. */
  function Contents(c: Child): seq<Entry> {
    if c.TableChild? then c.entries else Flat(c.cursor.index, c.cursor.fetch)
  }

  function Level0Children(files: seq<TableFile>, fetch: Handle -> seq<Entry>): seq<seq<Entry>> {
    seq(|files|, i requires 0 <= i < |files| => fetch(files[i].number))
  }

  function DeeperChildren(levels: seq<seq<TableFile>>, fetch: Handle -> seq<Entry>, n: nat): seq<seq<Entry>>
    requires 1 <= n <= |levels|
  {
    if n == 1 then []
    else DeeperChildren(levels, fetch, n - 1)
         + if levels[n - 1] == [] then [] else [Flat(LevelIndex(levels[n - 1]), fetch)]
  }

  /** What the added iterators yield, one list each. */
  function Children(levels: seq<seq<TableFile>>, fetch: Handle -> seq<Entry>): seq<seq<Entry>>
    requires |levels| == NUM_LEVELS
  {
    Level0Children(levels[0], fetch) + DeeperChildren(levels, fetch, NUM_LEVELS)
  }

  ghost predicate Yield(children: seq<Child>, lists: seq<seq<Entry>>) {
    |children| == |lists| && forall i | 0 <= i < |lists| :: Contents(children[i]) == lists[i]
  }

  ghost predicate Ready(children: seq<Child>)
    reads set c | c in children && c.LevelChild? :: c.cursor
  {
    forall c | c in children && c.LevelChild? :: c.cursor.Valid()
  }

  /** Level 0 file by file, and one lazy iterator for each deeper level that has files. */
  method AddIterators(levels: seq<seq<TableFile>>, fetch: Handle -> seq<Entry>) returns (children: seq<Child>)
    requires |levels| == NUM_LEVELS
    ensures Yield(children, Children(levels, fetch)) && Ready(children)
  {
    children := [];
    for i := 0 to |levels[0]|
      invariant Yield(children, Level0Children(levels[0], fetch)[..i])
      invariant forall c | c in children :: c.TableChild?
    {
      children := children + [TableChild(fetch(levels[0][i].number))];
    }
    ghost var level0 := Level0Children(levels[0], fetch);
    for level := 1 to NUM_LEVELS
      invariant Yield(children, level0 + DeeperChildren(levels, fetch, level)) && Ready(children)
    {
      if levels[level] != [] {
        var cursor := new TwoLevelIterator(LevelIndex(levels[level]), fetch);
        children := children + [LevelChild(cursor)];
      }
    }
  }

  // ---- With bounds and without ----

  /** The table files of a version, opened. */
  ghost predicate Opened(levels: seq<seq<TableFile>>, tables: Handle -> Table, policy: Policy,
                         bytes: UserKey -> Bytes) {
    forall l, f | 0 <= l < |levels| && f in levels[l] ::
      WellBuilt(tables(f.number), policy, bytes) && EntriesOfTable(tables(f.number)) == f.entries
  }

  ghost function Bounded(tables: Handle -> Table, policy: Policy, bytes: UserKey -> Bytes, lo: UserKey, hi: UserKey)
    : Handle -> seq<Entry>
  {
    (n: Handle) => TableContents(tables(n), policy, bytes, lo, hi)
  }

  ghost function Unbounded(tables: Handle -> Table): Handle -> seq<Entry> {
    (n: Handle) => EntriesOfTable(tables(n))
  }

  lemma {:induction false} FlatAgrees(index: seq<IndexEntry>, p: Handle -> seq<Entry>, q: Handle -> seq<Entry>, n: nat,
                                      lo: UserKey, hi: UserKey)
    requires n <= |index|
    requires forall h :: InBounds(p(h), lo, hi) == InBounds(q(h), lo, hi)
    ensures InBounds(FlatTo(index, p, n), lo, hi) == InBounds(FlatTo(index, q, n), lo, hi)
  {
    if n > 0 {
      FlatAgrees(index, p, q, n - 1, lo, hi);
      InBoundsConcat(FlatTo(index, p, n - 1), BlockAt(index, p, n - 1), lo, hi);
      InBoundsConcat(FlatTo(index, q, n - 1), BlockAt(index, q, n - 1), lo, hi);
    }
  }

  lemma {:induction false} DeeperAgree(levels: seq<seq<TableFile>>, p: Handle -> seq<Entry>, q: Handle -> seq<Entry>,
                                       n: nat,
                                       lo: UserKey, hi: UserKey)
    requires 1 <= n <= |levels|
    requires forall h :: InBounds(p(h), lo, hi) == InBounds(q(h), lo, hi)
    ensures AgreeInBounds(DeeperChildren(levels, p, n), DeeperChildren(levels, q, n), lo, hi)
  {
    if n > 1 {
      DeeperAgree(levels, p, q, n - 1, lo, hi);
      FlatAgrees(LevelIndex(levels[n - 1]), p, q, |levels[n - 1]|, lo, hi);
    }
  }

  lemma {:induction false} DeeperNondecreasing(levels: seq<seq<TableFile>>, fetch: Handle -> seq<Entry>, n: nat)
    requires ValidLevels(levels) && 1 <= n <= NUM_LEVELS
    requires forall l | 0 <= l < NUM_LEVELS :: Fetches(levels[l], fetch)
    ensures forall c | c in DeeperChildren(levels, fetch, n) :: Nondecreasing(c)
  {
    if n > 1 {
      DeeperNondecreasing(levels, fetch, n - 1);
      LevelIsSorted(levels[n - 1], fetch);
    }
  }

  lemma ChildrenNondecreasing(levels: seq<seq<TableFile>>, fetch: Handle -> seq<Entry>)
    requires ValidLevels(levels)
    requires forall l | 0 <= l < NUM_LEVELS :: Fetches(levels[l], fetch)
    ensures forall c | c in Children(levels, fetch) :: Nondecreasing(c)
  {
    DeeperNondecreasing(levels, fetch, NUM_LEVELS);
    forall i | 0 <= i < |levels[0]| ensures Nondecreasing(fetch(levels[0][i].number)) {
      assert levels[0][i] in levels[0];
    }
  }

  /** Two ways to read the files that agree on a range, table by table, agree on it in the merge. */
  lemma MergesAgree(levels: seq<seq<TableFile>>, p: Handle -> seq<Entry>, q: Handle -> seq<Entry>,
                    lo: UserKey, hi: UserKey)
    requires ValidLevels(levels)
    requires forall l | 0 <= l < NUM_LEVELS :: Fetches(levels[l], p) && Fetches(levels[l], q)
    requires forall h :: InBounds(p(h), lo, hi) == InBounds(q(h), lo, hi)
    ensures InBounds(MergeAll(Children(levels, p)), lo, hi) == InBounds(MergeAll(Children(levels, q)), lo, hi)
  {
    DeeperAgree(levels, p, q, NUM_LEVELS, lo, hi);
    ChildrenNondecreasing(levels, p);
    ChildrenNondecreasing(levels, q);
    assert AgreeInBounds(Children(levels, p), Children(levels, q), lo, hi);
    MergeAgrees(Children(levels, p), Children(levels, q), lo, hi);
  }

  /** A scan with bounds and one without meet the same entries between the bounds, deletions included, in
      the same order, for any sound policy. */
  lemma PruningIsInvisible(levels: seq<seq<TableFile>>, tables: Handle -> Table, policy: Policy,
                           bytes: UserKey -> Bytes,
                           lo: UserKey, hi: UserKey)
    requires ValidLevels(levels) && Opened(levels, tables, policy, bytes) && SoundForRanges(policy, bytes)
    ensures InBounds(MergeAll(Children(levels, Bounded(tables, policy, bytes, lo, hi))), lo, hi)
         == InBounds(MergeAll(Children(levels, Unbounded(tables))), lo, hi)
  {
    var p, q := Bounded(tables, policy, bytes, lo, hi), Unbounded(tables);
    forall h ensures InBounds(p(h), lo, hi) == InBounds(q(h), lo, hi) {
      PrunedHasNothing(tables(h), policy, bytes, lo, hi);
    }
    MergesAgree(levels, p, q, lo, hi);
  }

  ghost predicate InFiles(levels: seq<seq<TableFile>>, from: nat, to: nat, e: Entry)
    requires to <= |levels|
  {
    exists l, f :: from <= l < to && f in levels[l] && e in f.entries
  }

  lemma InOneMore(lists: seq<seq<Entry>>, more: seq<seq<Entry>>, e: Entry)
    ensures InSome(lists + more, e) <==> InSome(lists, e) || InSome(more, e)
  {
  }

  lemma {:induction false} LevelMembers(files: seq<TableFile>, fetch: Handle -> seq<Entry>, n: nat, e: Entry)
    requires n <= |files| && forall f | f in files :: fetch(f.number) == f.entries
    ensures e in FlatTo(LevelIndex(files), fetch, n) <==> exists i :: 0 <= i < n && e in files[i].entries
  {
    if n > 0 { LevelMembers(files, fetch, n - 1, e); }
  }

  lemma InLevel(files: seq<TableFile>, fetch: Handle -> seq<Entry>, e: Entry)
    requires forall f | f in files :: fetch(f.number) == f.entries
    ensures e in Flat(LevelIndex(files), fetch) <==> exists f :: f in files && e in f.entries
  {
    LevelMembers(files, fetch, |files|, e);
  }

  lemma {:induction false} DeeperMembers(levels: seq<seq<TableFile>>, fetch: Handle -> seq<Entry>, n: nat, e: Entry)
    requires 1 <= n <= |levels|
    requires forall l, f | 0 <= l < |levels| && f in levels[l] :: fetch(f.number) == f.entries
    ensures InSome(DeeperChildren(levels, fetch, n), e) <==> InFiles(levels, 1, n, e)
  {
    if n > 1 {
      DeeperMembers(levels, fetch, n - 1, e);
      var files := levels[n - 1];
      InLevel(files, fetch, e);
      var last := if files == [] then [] else [Flat(LevelIndex(files), fetch)];
      InOneMore(DeeperChildren(levels, fetch, n - 1), last, e);
      assert InSome(last, e) <==> e in Flat(LevelIndex(files), fetch) by {
        assert files != [] ==> last[0] in last;
      }
      assert InFiles(levels, 1, n, e) <==> InFiles(levels, 1, n - 1, e) || exists f :: f in files && e in f.entries;
    }
  }

  lemma Level0Members(files: seq<TableFile>, fetch: Handle -> seq<Entry>, e: Entry)
    requires forall f | f in files :: fetch(f.number) == f.entries
    ensures InSome(Level0Children(files, fetch), e) <==> exists f :: f in files && e in f.entries
  {
    if f :| f in files && e in f.entries {
      var i :| 0 <= i < |files| && files[i] == f;
      assert Level0Children(files, fetch)[i] == f.entries;
    }
  }

  lemma InFilesOfSets(levels: seq<seq<TableFile>>, e: Entry)
    requires |levels| == NUM_LEVELS
    ensures e in EntriesOf(LevelSets(levels)) <==>
              (exists f :: f in levels[0] && e in f.entries) || InFiles(levels, 1, NUM_LEVELS, e)
  {
    if e in EntriesOf(LevelSets(levels)) {
      var l, f :| 0 <= l < NUM_LEVELS && f in LevelSets(levels)[l] && e in f.entries;
      assert f in levels[l];
    }
    if f :| f in levels[0] && e in f.entries { assert f in LevelSets(levels)[0]; }
    if InFiles(levels, 1, NUM_LEVELS, e) {
      var l, f :| 1 <= l < NUM_LEVELS && f in levels[l] && e in f.entries;
      assert f in LevelSets(levels)[l];
    }
  }

  /** Without bounds the scan meets everything the table files hold. */
  lemma UnboundedIsEverything(levels: seq<seq<TableFile>>, tables: Handle -> Table, policy: Policy,
                              bytes: UserKey -> Bytes)
    requires |levels| == NUM_LEVELS && Opened(levels, tables, policy, bytes)
    ensures EntrySet(MergeAll(Children(levels, Unbounded(tables)))) == EntriesOf(LevelSets(levels))
  {
    var fetch := Unbounded(tables);
    MergeAllMembers(Children(levels, fetch));
    forall e ensures e in MergeAll(Children(levels, fetch)) <==> e in EntriesOf(LevelSets(levels)) {
      InOneMore(Level0Children(levels[0], fetch), DeeperChildren(levels, fetch, NUM_LEVELS), e);
      Level0Members(levels[0], fetch, e);
      DeeperMembers(levels, fetch, NUM_LEVELS, e);
      InFilesOfSets(levels, e);
    }
  }

  lemma SameKeySameReads(S: set<Entry>, T: set<Entry>, k: UserKey, s: Sequence, r: Option<Value>)
    requires forall e: Entry | e.key.user == k :: e in S <==> e in T
    requires Yields(S, k, s, r)
    ensures Yields(T, k, s, r)
  {
    if e :| IsNewest(S, e, k, s) && r == ValueOf(e) {
      assert IsNewest(T, e, k, s);
    }
  }

  lemma SameBoundsSameReads(a: seq<Entry>, b: seq<Entry>, lo: UserKey, hi: UserKey, k: UserKey, s: Sequence,
                            r: Option<Value>)
    requires InBounds(a, lo, hi) == InBounds(b, lo, hi) && lo <= k <= hi
    ensures Yields(EntrySet(a), k, s, r) <==> Yields(EntrySet(b), k, s, r)
  {
    InBoundsMembers(a, lo, hi);
    InBoundsMembers(b, lo, hi);
    assert forall e: Entry | e.key.user == k :: e in EntrySet(a) <==> e in InBounds(a, lo, hi);
    assert forall e: Entry | e.key.user == k :: e in EntrySet(b) <==> e in InBounds(b, lo, hi);
    if Yields(EntrySet(a), k, s, r) { SameKeySameReads(EntrySet(a), EntrySet(b), k, s, r); }
    if Yields(EntrySet(b), k, s, r) { SameKeySameReads(EntrySet(b), EntrySet(a), k, s, r); }
  }

  /** So a read of any key between the bounds, at any snapshot, sees through the pruned iterators what all
      table files hold. */
  lemma BoundedReads(levels: seq<seq<TableFile>>, tables: Handle -> Table, policy: Policy, bytes: UserKey -> Bytes,
                     lo: UserKey, hi: UserKey, k: UserKey, s: Sequence, r: Option<Value>)
    requires ValidLevels(levels) && Opened(levels, tables, policy, bytes) && SoundForRanges(policy, bytes)
    requires lo <= k <= hi
    ensures Yields(EntrySet(MergeAll(Children(levels, Bounded(tables, policy, bytes, lo, hi)))), k, s, r)
       <==> Yields(EntriesOf(LevelSets(levels)), k, s, r)
  {
    PruningIsInvisible(levels, tables, policy, bytes, lo, hi);
    UnboundedIsEverything(levels, tables, policy, bytes);
    SameBoundsSameReads(MergeAll(Children(levels, Bounded(tables, policy, bytes, lo, hi))),
                        MergeAll(Children(levels, Unbounded(tables))), lo, hi, k, s, r);
  }
}
