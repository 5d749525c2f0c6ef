/** A bounded scan outside its bounds: a table whose deletion is out of range may be pruned while an older table
    is not, so that an old value comes back. The keys for which this cannot happen are exactly those that the
    bytes of the bounds do not tell from the keys between them. */
module OutsideBounds {
  import opened InternalKeys
  import opened TableFiles
  import opened TwoLevelIterators
  import opened FilterBlocks
  import opened Tables
  import opened Pruning
  import opened Scans

  // ---- Where the scans must agree ----

  ghost predicate LooksLike(bytes: UserKey -> Bytes, a: UserKey, lo: UserKey, b: UserKey, hi: UserKey,
                            x: UserKey, k: UserKey) {
    bytes(a) == bytes(lo) && bytes(b) == bytes(hi) && bytes(x) == bytes(k)
  }

  /** A filter policy sees only bytes: as far as it can tell, `k` may lie between the bounds. */
  ghost predicate MayLieBetween(bytes: UserKey -> Bytes, lo: UserKey, hi: UserKey, k: UserKey) {
    exists a, b, x :: LooksLike(bytes, a, lo, b, hi, x, k) && a <= x <= b
  }

  /** Reads of `k` through the bounded scan and through the unbounded one give the same. */
  ghost predicate SameReads(mem: seq<Entry>, imm: Option<seq<Entry>>, files: seq<seq<TableFile>>,
                            tables: Handle -> Table, policy: Policy, bytes: UserKey -> Bytes,
                            lo: UserKey, hi: UserKey, k: UserKey)
    requires |files| == NUM_LEVELS
  {
    forall p, r :: Yields(EntrySet(Scan(mem, imm, files, Bounded(tables, policy, bytes, lo, hi))), k, p, r)
              <==> Yields(EntrySet(Scan(mem, imm, files, Unbounded(tables))), k, p, r)
  }

  /** Newer data in front of older, read through a policy that is sound for keys and for ranges. */
  ghost predicate MayBeScanned(mem: seq<Entry>, imm: Option<seq<Entry>>, files: seq<seq<TableFile>>,
                               tables: Handle -> Table, policy: Policy, bytes: UserKey -> Bytes) {
    && SortedEntries(mem) && (imm.Some? ==> SortedEntries(imm.value))
    && Scannable(files, tables, policy, bytes) && SoundForKeys(policy) && OrderedLevels(LevelSets(files))
  }

  /** No memtables, tables or policy make the two scans differ on `k`. */
  ghost predicate AlwaysSameReads(bytes: UserKey -> Bytes, lo: UserKey, hi: UserKey, k: UserKey) {
    forall mem, imm, files, tables, policy | MayBeScanned(mem, imm, files, tables, policy, bytes) ::
      SameReads(mem, imm, files, tables, policy, bytes, lo, hi, k)
  }

  // ---- Keys the policy may take to lie between the bounds ----

  lemma {:induction false} SameBytesSameKeys(es: seq<Entry>, fs: seq<Entry>, bytes: UserKey -> Bytes)
    requires |es| == |fs| && forall i | 0 <= i < |es| :: bytes(es[i].key.user) == bytes(fs[i].key.user)
    ensures FilterKeys(es, bytes) == FilterKeys(fs, bytes)
  {
    if es != [] { SameBytesSameKeys(es[..|es| - 1], fs[..|es| - 1], bytes); }
  }

  lemma InRangeAdmitted(es: seq<Entry>, policy: Policy, bytes: UserKey -> Bytes, a: UserKey, b: UserKey, e: Entry)
    requires SoundForRanges(policy, bytes) && e in es && a <= e.key.user <= b
    ensures FilterKeys(es, bytes) != []
    ensures var filter := policy.createFilter(FilterKeys(es, bytes));
            filter != [] && policy.rangeMayMatch(bytes(a), bytes(b), filter)
  {
    FilterKeysMembers(es, bytes, e);
  }

  /** Another key with the same bytes in the place of one key. */
  lemma Disguise(es: seq<Entry>, i: nat, x: UserKey, bytes: UserKey -> Bytes) returns (fs: seq<Entry>, e: Entry)
    requires i < |es| && bytes(x) == bytes(es[i].key.user)
    ensures e in fs && e.key.user == x && FilterKeys(fs, bytes) == FilterKeys(es, bytes)
  {
    e := es[i].(key := es[i].key.(user := x));
    fs := es[i := e];
    SameBytesSameKeys(es, fs, bytes);
    assert fs[i] == e;
  }

  lemma DisguisedAdmitted(es: seq<Entry>, policy: Policy, bytes: UserKey -> Bytes,
                          a: UserKey, b: UserKey, x: UserKey, i: nat)
    requires SoundForRanges(policy, bytes) && a <= x <= b
    requires i < |es| && bytes(x) == bytes(es[i].key.user)
    ensures var filter := FilterFor(policy, FilterKeys(es, bytes));
            filter != [] && policy.rangeMayMatch(bytes(a), bytes(b), filter)
  {
    var fs, e := Disguise(es, i, x, bytes);
    InRangeAdmitted(fs, policy, bytes, a, b, e);
  }

  /** A table with an entry of `k` has the filter of one with an entry between the bounds. */
  lemma HoldsIsAdmitted(t: Table, policy: Policy, bytes: UserKey -> Bytes, lo: UserKey, hi: UserKey, k: UserKey, i: nat)
    requires SoundForRanges(policy, bytes) && MayLieBetween(bytes, lo, hi, k)
    requires i < |EntriesOfTable(t)| && EntriesOfTable(t)[i].key.user == k
    ensures Admits(t, policy, bytes, bytes(lo), bytes(hi))
  {
    var a, b, x :| LooksLike(bytes, a, lo, b, hi, x, k) && a <= x <= b;
    DisguisedAdmitted(EntriesOfTable(t), policy, bytes, a, b, x, i);
  }

  lemma PrunedLacks(t: Table, policy: Policy, bytes: UserKey -> Bytes, lo: UserKey, hi: UserKey, k: UserKey)
    requires SoundForRanges(policy, bytes) && MayLieBetween(bytes, lo, hi, k)
    ensures LosesNothing(t, policy, bytes, lo, hi, k, k)
  {
    var es := EntriesOfTable(t);
    if TableContents(t, policy, bytes, lo, hi) != es {
      forall e | e in es ensures e.key.user != k {
        var i :| 0 <= i < |es| && es[i] == e;
        if e.key.user == k { HoldsIsAdmitted(t, policy, bytes, lo, hi, k, i); }
      }
      NothingInBounds(es, k, k);
    }
  }

  lemma BetweenSameReads(mem: seq<Entry>, imm: Option<seq<Entry>>, files: seq<seq<TableFile>>,
                         tables: Handle -> Table, policy: Policy, bytes: UserKey -> Bytes,
                         lo: UserKey, hi: UserKey, k: UserKey)
    requires MayBeScanned(mem, imm, files, tables, policy, bytes) && MayLieBetween(bytes, lo, hi, k)
    ensures SameReads(mem, imm, files, tables, policy, bytes, lo, hi, k)
  {
    var bounded, all := Bounded(tables, policy, bytes, lo, hi), Unbounded(tables);
    forall h ensures LosesNothing(tables(h), policy, bytes, lo, hi, k, k) {
      PrunedLacks(tables(h), policy, bytes, lo, hi, k);
    }
    ScansAgree(mem, imm, files, tables, policy, bytes, lo, hi, k, k);
    forall p, r ensures Yields(EntrySet(Scan(mem, imm, files, bounded)), k, p, r)
                   <==> Yields(EntrySet(Scan(mem, imm, files, all)), k, p, r)
    {
      SameBoundsSameReads(Scan(mem, imm, files, bounded), Scan(mem, imm, files, all), k, k, k, p, r);
    }
  }

  /** Empty bytes for a bound turn the filter off. */
  lemma EmptyBoundSameReads(mem: seq<Entry>, imm: Option<seq<Entry>>, files: seq<seq<TableFile>>,
                            tables: Handle -> Table, policy: Policy, bytes: UserKey -> Bytes,
                            lo: UserKey, hi: UserKey, k: UserKey)
    requires MayBeScanned(mem, imm, files, tables, policy, bytes) && (bytes(lo) == [] || bytes(hi) == [])
    ensures SameReads(mem, imm, files, tables, policy, bytes, lo, hi, k)
  {
    var bounded, all := Bounded(tables, policy, bytes, lo, hi), Unbounded(tables);
    assert forall h :: LosesNothing(tables(h), policy, bytes, lo, hi, k, k);
    ScansAgree(mem, imm, files, tables, policy, bytes, lo, hi, k, k);
    forall p, r ensures Yields(EntrySet(Scan(mem, imm, files, bounded)), k, p, r)
                   <==> Yields(EntrySet(Scan(mem, imm, files, all)), k, p, r)
    {
      SameBoundsSameReads(Scan(mem, imm, files, bounded), Scan(mem, imm, files, all), k, k, k, p, r);
    }
  }

  // ---- The other keys ----

  /** Gives the key alone a filter of its own, and denies it for exactly these bounds. */
  ghost function DenyingPolicy(bytes: UserKey -> Bytes, lo: UserKey, hi: UserKey, k: UserKey): Policy {
    Policy((keys: seq<Bytes>) => if keys == [bytes(k)] then [0] else [1],
           (key: Bytes, filter: Bytes) => true,
           (a: Bytes, b: Bytes, filter: Bytes) =>
             !(a == bytes(lo) && b == bytes(hi) && (filter == [0] || filter == [])))
  }

  lemma DenyingIsSound(bytes: UserKey -> Bytes, lo: UserKey, hi: UserKey, k: UserKey)
    requires !MayLieBetween(bytes, lo, hi, k)
    ensures SoundForKeys(DenyingPolicy(bytes, lo, hi, k)) && SoundForRanges(DenyingPolicy(bytes, lo, hi, k), bytes)
  {
    var policy := DenyingPolicy(bytes, lo, hi, k);
    forall es: seq<Entry>, a: UserKey, b: UserKey, e | e in es && a <= e.key.user <= b
      ensures policy.rangeMayMatch(bytes(a), bytes(b), policy.createFilter(FilterKeys(es, bytes)))
    {
      FilterKeysMembers(es, bytes, e);
      if FilterKeys(es, bytes) == [bytes(k)] {
        assert LooksLike(bytes, a, lo, b, hi, e.key.user, k) <==> bytes(a) == bytes(lo) && bytes(b) == bytes(hi);
      }
    }
  }

  const DELETED: string := ""

  /** The deletion of the key, and below it two older values. */
  function Deletion(k: UserKey): seq<Entry> {
    [Entry(InternalKey(k, 2, TypeDeletion), DELETED)]
  }

  function OldValues(k: UserKey): seq<Entry> {
    [Entry(InternalKey(k, 1, TypeValue), "old"), Entry(InternalKey(k, 0, TypeValue), "older")]
  }

  function FileOf(number: nat, es: seq<Entry>): TableFile
    requires es != []
  {
    TableFile(number, 1, es[0].key, es[|es| - 1].key, es)
  }

  function TwoFiles(k: UserKey): seq<seq<TableFile>> {
    [[FileOf(2, Deletion(k))], [FileOf(1, OldValues(k))], [], [], [], [], []]
  }

  /** One block, with the filter of its keys. */
  ghost function TableOf(es: seq<Entry>, policy: Policy, bytes: UserKey -> Bytes): Table
    requires es != []
  {
    Table([IndexEntry(es[|es| - 1].key, 0)], (h: Handle) => es,
          Some(FinishedBlock(policy, FilterKeys(es, bytes))))
  }

  ghost function TwoTables(k: UserKey, policy: Policy, bytes: UserKey -> Bytes): Handle -> Table {
    (n: Handle) => if n == 2 then TableOf(Deletion(k), policy, bytes) else TableOf(OldValues(k), policy, bytes)
  }

  lemma TableOfEntries(es: seq<Entry>, policy: Policy, bytes: UserKey -> Bytes)
    requires es != []
    ensures EntriesOfTable(TableOf(es, policy, bytes)) == es
  {
    var t := TableOf(es, policy, bytes);
    assert FlatTo(t.index, t.fetch, 1) == FlatTo(t.index, t.fetch, 0) + es;
  }

  lemma OneBlockSorted(es: seq<Entry>, t: Table)
    requires es != [] && SortedEntries(es) && t.index == [IndexEntry(es[|es| - 1].key, 0)] && t.fetch(0) == es
    requires EntriesOfTable(t) == es
    ensures SortedIndex(t.index, t.fetch) && GoodSeparator(t, 0)
  {
    WellFormedBounds(FileOf(0, es));
    assert BlockAt(t.index, t.fetch, 0) == es && es[|es| - 1] in es;
  }

  lemma TableOfOwnFilter(es: seq<Entry>, policy: Policy, bytes: UserKey -> Bytes)
    requires es != [] && |FilterFor(policy, FilterKeys(es, bytes))| < TWO_32
    ensures OwnFilter(TableOf(es, policy, bytes), policy, bytes)
  {
    TableOfEntries(es, policy, bytes);
  }

  lemma OneBlockWellBuilt(es: seq<Entry>, t: Table, policy: Policy, bytes: UserKey -> Bytes)
    requires es != [] && SortedEntries(es) && t.index == [IndexEntry(es[|es| - 1].key, 0)] && t.fetch(0) == es
    requires EntriesOfTable(t) == es && OwnFilter(t, policy, bytes)
    ensures WellBuilt(t, policy, bytes)
  {
    OneBlockSorted(es, t);
  }

  lemma TableOfWellBuilt(es: seq<Entry>, policy: Policy, bytes: UserKey -> Bytes)
    requires es != [] && SortedEntries(es) && |FilterFor(policy, FilterKeys(es, bytes))| < TWO_32
    ensures WellBuilt(TableOf(es, policy, bytes), policy, bytes)
  {
    var t := TableOf(es, policy, bytes);
    TableOfEntries(es, policy, bytes);
    TableOfOwnFilter(es, policy, bytes);
    OneBlockWellBuilt(es, t, policy, bytes);
  }

  lemma OldValuesSorted(k: UserKey)
    ensures SortedEntries(OldValues(k))
  {
  }

  lemma KeysOfTwo(bytes: UserKey -> Bytes, k: UserKey)
    ensures FilterKeys(Deletion(k), bytes) == [bytes(k)]
    ensures FilterKeys(OldValues(k), bytes) == [bytes(k), bytes(k)]
  {
    assert FilterKeys(Deletion(k), bytes) == [] + [bytes(k)];
    var first := OldValues(k)[..1];
    assert FilterKeys(first, bytes) == [] + [bytes(k)];
  }

  lemma FiltersOfTwo(bytes: UserKey -> Bytes, lo: UserKey, hi: UserKey, k: UserKey, policy: Policy)
    requires policy == DenyingPolicy(bytes, lo, hi, k)
    ensures FilterFor(policy, FilterKeys(Deletion(k), bytes)) == [0]
    ensures FilterFor(policy, FilterKeys(OldValues(k), bytes)) == [1]
  {
    KeysOfTwo(bytes, k);
  }

  /** The file with the deletion is pruned. */
  lemma DeletionPruned(bytes: UserKey -> Bytes, lo: UserKey, hi: UserKey, k: UserKey, policy: Policy, t: Table)
    requires bytes(lo) != [] && bytes(hi) != [] && policy == DenyingPolicy(bytes, lo, hi, k)
    requires t == TableOf(Deletion(k), policy, bytes)
    ensures WellBuilt(t, policy, bytes) && EntriesOfTable(t) == Deletion(k)
    ensures TableContents(t, policy, bytes, lo, hi) == []
  {
    FiltersOfTwo(bytes, lo, hi, k, policy);
    TableOfEntries(Deletion(k), policy, bytes);
    TableOfWellBuilt(Deletion(k), policy, bytes);
  }

  /** The one with the old values is not. */
  lemma OldValuesKept(bytes: UserKey -> Bytes, lo: UserKey, hi: UserKey, k: UserKey, policy: Policy, t: Table)
    requires policy == DenyingPolicy(bytes, lo, hi, k) && t == TableOf(OldValues(k), policy, bytes)
    ensures WellBuilt(t, policy, bytes) && EntriesOfTable(t) == OldValues(k)
    ensures TableContents(t, policy, bytes, lo, hi) == OldValues(k)
  {
    FiltersOfTwo(bytes, lo, hi, k, policy);
    OldValuesSorted(k);
    TableOfEntries(OldValues(k), policy, bytes);
    TableOfWellBuilt(OldValues(k), policy, bytes);
  }

  ghost predicate HoldsTwo(all: set<Entry>, k: UserKey) {
    forall e :: e in all <==> e in OldValues(k) || e in Deletion(k)
  }

  lemma ReadsDeleted(all: set<Entry>, k: UserKey)
    requires HoldsTwo(all, k)
    ensures forall r: Option<Value> :: r.None? <==> Yields(all, k, 2, r)
  {
    assert IsNewest(all, Deletion(k)[0], k, 2);
  }

  lemma ReadsOld(bounded: set<Entry>, k: UserKey)
    requires forall e :: e in bounded <==> e in OldValues(k)
    ensures forall r :: r == Some("old") <==> Yields(bounded, k, 2, r)
  {
    assert IsNewest(bounded, OldValues(k)[0], k, 2);
  }

  lemma TwoFilesNewer(k: UserKey, f: TableFile, g: TableFile)
    requires f == FileOf(2, Deletion(k)) && g == FileOf(1, OldValues(k))
    ensures WellFormed(f) && WellFormed(g) && Newer(f, g)
  {
    OldValuesSorted(k);
  }

  lemma TwoFilesValid(k: UserKey)
    ensures ValidLevels(TwoFiles(k))
  {
    TwoFilesNewer(k, FileOf(2, Deletion(k)), FileOf(1, OldValues(k)));
  }

  lemma TwoLevelsOrdered(levels: seq<set<TableFile>>, f: TableFile, g: TableFile)
    requires |levels| == NUM_LEVELS && levels[0] == {f} && levels[1] == {g}
    requires forall l | 2 <= l < NUM_LEVELS :: levels[l] == {}
    requires WellFormed(f) && WellFormed(g) && Newer(f, g)
    ensures OrderedLevels(levels)
  {
    assert forall l | 1 <= l < NUM_LEVELS :: levels[l] <= {g};
  }

  lemma TwoFilesOrdered(k: UserKey)
    ensures OrderedLevels(LevelSets(TwoFiles(k)))
  {
    var levels, f, g := LevelSets(TwoFiles(k)), FileOf(2, Deletion(k)), FileOf(1, OldValues(k));
    TwoFilesNewer(k, f, g);
    assert levels[0] == {f} && levels[1] == {g};
    assert forall l | 2 <= l < NUM_LEVELS :: levels[l] == {};
    TwoLevelsOrdered(levels, f, g);
  }

  lemma TwoFilesOpened(k: UserKey, tables: Handle -> Table, policy: Policy, bytes: UserKey -> Bytes)
    requires WellBuilt(tables(1), policy, bytes) && EntriesOfTable(tables(1)) == OldValues(k)
    requires WellBuilt(tables(2), policy, bytes) && EntriesOfTable(tables(2)) == Deletion(k)
    ensures Opened(TwoFiles(k), tables, policy, bytes)
  {
    var files := TwoFiles(k);
    forall l, f: TableFile | 0 <= l < |files| && f in files[l]
      ensures WellBuilt(tables(f.number), policy, bytes) && EntriesOfTable(tables(f.number)) == f.entries
    {
      assert files[0] == [FileOf(2, Deletion(k))] && files[1] == [FileOf(1, OldValues(k))];
      assert l == 0 || l == 1;
    }
  }

  lemma {:induction false} OneDeeperChild(k: UserKey, fetch: Handle -> seq<Entry>, n: nat)
    requires 2 <= n <= NUM_LEVELS
    ensures DeeperChildren(TwoFiles(k), fetch, n) == [fetch(1)]
  {
    var files := TwoFiles(k);
    if n > 2 {
      OneDeeperChild(k, fetch, n - 1);
      assert files[n - 1] == [];
      assert DeeperChildren(files, fetch, n) == [fetch(1)] + [];
    } else {
      var index := LevelIndex(files[1]);
      assert FlatTo(index, fetch, 1) == FlatTo(index, fetch, 0) + fetch(1);
      assert Flat(index, fetch) == fetch(1);
      assert DeeperChildren(files, fetch, n) == [] + [Flat(index, fetch)];
    }
  }

  lemma TwoFilesScanned(k: UserKey, fetch: Handle -> seq<Entry>, e: Entry)
    ensures e in Scan([], None, TwoFiles(k), fetch) <==> e in fetch(1) || e in fetch(2)
  {
    OneDeeperChild(k, fetch, NUM_LEVELS);
    var children := AllChildren([], None, TwoFiles(k), fetch);
    assert children == [[], fetch(2), fetch(1)];
    MergeAllMembers(children);
    assert children[1] in children && children[2] in children;
  }

  lemma TwoScans(k: UserKey, tables: Handle -> Table, policy: Policy, bytes: UserKey -> Bytes,
                 lo: UserKey, hi: UserKey)
    requires EntriesOfTable(tables(1)) == OldValues(k) && EntriesOfTable(tables(2)) == Deletion(k)
    requires TableContents(tables(1), policy, bytes, lo, hi) == OldValues(k)
    requires TableContents(tables(2), policy, bytes, lo, hi) == []
    ensures forall r: Option<Value> :: r.None? <==>
              Yields(EntrySet(Scan([], None, TwoFiles(k), Unbounded(tables))), k, 2, r)
    ensures forall r :: r == Some("old") <==>
              Yields(EntrySet(Scan([], None, TwoFiles(k), Bounded(tables, policy, bytes, lo, hi))), k, 2, r)
  {
    var p, q := Unbounded(tables), Bounded(tables, policy, bytes, lo, hi);
    var all, bounded := EntrySet(Scan([], None, TwoFiles(k), p)), EntrySet(Scan([], None, TwoFiles(k), q));
    forall e ensures e in all <==> e in OldValues(k) || e in Deletion(k) { TwoFilesScanned(k, p, e); }
    forall e ensures e in bounded <==> e in OldValues(k) { TwoFilesScanned(k, q, e); }
    ReadsDeleted(all, k);
    ReadsOld(bounded, k);
  }

  /** A deleted key reads as deleted without bounds, and has its old value again with them. */
  lemma OldValueComesBack(bytes: UserKey -> Bytes, lo: UserKey, hi: UserKey, k: UserKey) returns (policy: Policy)
    requires bytes(lo) != [] && bytes(hi) != [] && !MayLieBetween(bytes, lo, hi, k)
    ensures MayBeScanned([], None, TwoFiles(k), TwoTables(k, policy, bytes), policy, bytes)
    ensures forall r: Option<Value> :: r.None? <==>
              Yields(EntrySet(Scan([], None, TwoFiles(k), Unbounded(TwoTables(k, policy, bytes)))), k, 2, r)
    ensures forall r :: r == Some("old") <==>
              Yields(EntrySet(Scan([], None, TwoFiles(k),
                                   Bounded(TwoTables(k, policy, bytes), policy, bytes, lo, hi))), k, 2, r)
  {
    policy := DenyingPolicy(bytes, lo, hi, k);
    DenyingIsSound(bytes, lo, hi, k);
    TwoFilesValid(k);
    TwoFilesOrdered(k);
    var tables := TwoTables(k, policy, bytes);
    DeletionPruned(bytes, lo, hi, k, policy, tables(2));
    OldValuesKept(bytes, lo, hi, k, policy, tables(1));
    TwoFilesOpened(k, tables, policy, bytes);
    TwoScans(k, tables, policy, bytes, lo, hi);
  }

  // ---- Exactly where ----

  /** The two scans agree on a key, whatever is stored, exactly if the bytes of the bounds do not tell it from the
      keys between them, or are empty. */
  lemma BoundsAreExact(bytes: UserKey -> Bytes, lo: UserKey, hi: UserKey, k: UserKey)
    ensures AlwaysSameReads(bytes, lo, hi, k)
       <==> bytes(lo) == [] || bytes(hi) == [] || MayLieBetween(bytes, lo, hi, k)
  {
    if bytes(lo) == [] || bytes(hi) == [] || MayLieBetween(bytes, lo, hi, k) {
      forall mem, imm, files, tables, policy | MayBeScanned(mem, imm, files, tables, policy, bytes)
        ensures SameReads(mem, imm, files, tables, policy, bytes, lo, hi, k)
      {
        if MayLieBetween(bytes, lo, hi, k) {
          BetweenSameReads(mem, imm, files, tables, policy, bytes, lo, hi, k);
        } else {
          EmptyBoundSameReads(mem, imm, files, tables, policy, bytes, lo, hi, k);
        }
      }
    } else {
      var policy := OldValueComesBack(bytes, lo, hi, k);
      var files, tables := TwoFiles(k), TwoTables(k, policy, bytes);
      assert Yields(EntrySet(Scan([], None, files, Bounded(tables, policy, bytes, lo, hi))), k, 2, Some("old"));
      assert !SameReads([], None, files, tables, policy, bytes, lo, hi, k);
    }
  }

  /** For keys that are told apart by their bytes, exactly between the bounds. */
  lemma BoundsOfKeysAreExact(bytes: UserKey -> Bytes, lo: UserKey, hi: UserKey, k: UserKey)
    requires forall x, y | y in {lo, hi, k} && bytes(x) == bytes(y) :: x == y
    requires bytes(lo) != [] && bytes(hi) != []
    ensures AlwaysSameReads(bytes, lo, hi, k) <==> lo <= k <= hi
  {
    BoundsAreExact(bytes, lo, hi, k);
    assert LooksLike(bytes, lo, lo, hi, hi, k, k);
  }
}
