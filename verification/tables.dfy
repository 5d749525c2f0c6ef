/** Table::InternalGet and Table::RangeMayMatch of project/table.cc, and TableCache::NewIterator's range hook:
    a filter never changes what a read of the table returns. */
module Tables {
  import opened InternalKeys
  import opened TableFiles
  import opened ReadPath
  import opened TwoLevelIterators
  import opened FilterBlocks

  /** An open table: its index, the blocks behind it (named by their offsets), and its filter block. */
  datatype Table = Table(index: seq<IndexEntry>, fetch: Handle -> seq<Entry>, filterBlock: Option<Bytes>)

  function EntriesOfTable(t: Table): seq<Entry> {
    Flat(t.index, t.fetch)
  }

  /** The bytes of the user keys, which are what the filter is made from. */
  function FilterKeys(es: seq<Entry>, bytes: UserKey -> Bytes): seq<Bytes> {
    if es == [] then [] else FilterKeys(es[..|es| - 1], bytes) + [bytes(es[|es| - 1].key.user)]
  }

  /** A separator that is not its block's last key lies, by user key, before everything after the block. */
  ghost predicate GoodSeparator(t: Table, i: nat)
    requires i < |t.index|
  {
    (exists e :: e in BlockAt(t.index, t.fetch, i) && e.key == t.index[i].key)
    || forall j, e | i < j < |t.index| && e in BlockAt(t.index, t.fetch, j) :: t.index[i].key.user < e.key.user
  }

  /** The filter block is the one that the filter block builder makes from the user keys. */
  ghost predicate OwnFilter(t: Table, policy: Policy, bytes: UserKey -> Bytes) {
    t.filterBlock.Some? ==>
      var keys := FilterKeys(EntriesOfTable(t), bytes);
      t.filterBlock.value == FinishedBlock(policy, keys) && |FilterFor(policy, keys)| < TWO_32
  }

  /** What the table builder, which is not part of the repository, leaves on disk: sorted blocks under an
      index, below 4 GB, with one filter over all user keys if there is a policy. */
  ghost predicate WellBuilt(t: Table, policy: Policy, bytes: UserKey -> Bytes) {
    && SortedIndex(t.index, t.fetch) && (forall i | 0 <= i < |t.index| :: GoodSeparator(t, i))
    && (forall i | 0 <= i < |t.index| :: t.index[i].handle < TWO_32)
    && OwnFilter(t, policy, bytes)
  }

  lemma {:induction false} FilterKeysMembers(es: seq<Entry>, bytes: UserKey -> Bytes, e: Entry)
    requires e in es
    ensures bytes(e.key.user) in FilterKeys(es, bytes)
  {
    var n := |es| - 1;
    if e != es[n] {
      assert e in es[..n] by { assert es == es[..n] + [es[n]]; }
      FilterKeysMembers(es[..n], bytes, e);
    }
  }

  /** What the callback of InternalGet leaves in the saver. */
  function StateOf(found: Option<Entry>, k: UserKey): SaverState {
    if found.None? || found.value.key.user != k then NotFound
    else if found.value.key.kind.TypeValue? then Found(found.value.value) else Deleted
  }

  /** When the filter says no, the table has no entry of the key. */
  lemma FilteredOutIsAbsent(t: Table, policy: Policy, bytes: UserKey -> Bytes, reader: FilterBlockReader, n: nat,
                            k: UserKey)
    requires WellBuilt(t, policy, bytes) && SoundForKeys(policy) && n < |t.index| && t.filterBlock.Some?
    requires reader.policy == policy && reader.Valid() && reader.Parsed(t.filterBlock.value)
    requires !reader.KeyAnswer(t.index[n].handle, bytes(k))
    ensures forall e | e in EntriesOfTable(t) :: e.key.user != k
  {
    var keys := FilterKeys(EntriesOfTable(t), bytes);
    KeyAnswerExact(reader, policy, keys, t.index[n].handle, bytes(k));
    if e :| e in EntriesOfTable(t) && e.key.user == k {
      FilterKeysMembers(EntriesOfTable(t), bytes, e);
      AddedKeyMatches(reader, policy, keys, t.index[n].handle, bytes(k));
    }
  }

  /** Position `p` of the flat entries and position `d` of the block agree on the first entry of the key. */
  ghost predicate Decides(es: seq<Entry>, p: nat, block: seq<Entry>, d: nat, k: UserKey) {
    if d < |block| then p < |es| && es[p] == block[d] else p < |es| ==> es[p].key.user != k
  }

  lemma AllBefore(block: seq<Entry>, key: InternalKey)
    requires SortedEntries(block) && LowerBound(block, key) == |block|
    ensures forall e | e in block :: Less(e.key, key)
  {
  }

  /** Position `p` comes after the first `n` blocks. */
  lemma AfterBlocks(t: Table, n: nat, p: nat) returns (j: nat)
    requires n < |t.index| && p == Start(t.index, t.fetch, n + 1) < |EntriesOfTable(t)|
    ensures n < j < |t.index| && EntriesOfTable(t)[p] in BlockAt(t.index, t.fetch, j)
  {
    j := FlatEntryInBlock(t.index, t.fetch, |t.index|, p);
    if j <= n { StartMonotone(t.index, t.fetch, j + 1, n + 1); }
  }

  /** If the block ends before the lookup key, the next entry belongs to another user key. */
  lemma AfterExhaustedBlock(t: Table, n: nat, p: nat, k: UserKey, s: Sequence)
    requires n < |t.index| && GoodSeparator(t, n) && !Less(t.index[n].key, LookupKey(k, s))
    requires forall e | e in BlockAt(t.index, t.fetch, n) :: Less(e.key, LookupKey(k, s))
    requires p == Start(t.index, t.fetch, n + 1) < |EntriesOfTable(t)|
    ensures EntriesOfTable(t)[p].key.user != k
  {
    var j := AfterBlocks(t, n, p);
  }

  lemma BlockDecides(t: Table, n: nat, es: seq<Entry>, p: nat, block: seq<Entry>, d: nat, k: UserKey, s: Sequence)
    requires n < |t.index| && GoodSeparator(t, n) && !Less(t.index[n].key, LookupKey(k, s))
    requires es == EntriesOfTable(t) && block == BlockAt(t.index, t.fetch, n) && SortedEntries(block)
    requires d == LowerBound(block, LookupKey(k, s)) && p == Start(t.index, t.fetch, n) + d <= |es|
    requires d < |block| ==> p < |es| && es[p] == block[d]
    requires Start(t.index, t.fetch, n + 1) == Start(t.index, t.fetch, n) + |block|
    ensures Decides(es, p, block, d, k)
  {
    if d == |block| && p < |es| {
      AllBefore(block, LookupKey(k, s));
      AfterExhaustedBlock(t, n, p, k, s);
    }
  }

  lemma PlaceInFlat(t: Table, n: nat, d: nat)
    requires n < |t.index| && d <= |BlockAt(t.index, t.fetch, n)|
    ensures var es, block, p := EntriesOfTable(t), BlockAt(t.index, t.fetch, n), Start(t.index, t.fetch, n) + d;
            && Start(t.index, t.fetch, n + 1) == Start(t.index, t.fetch, n) + |block| && p <= |es|
            && (d < |block| ==> p < |es| && es[p] == block[d])
  {
    BlockInFlat(t.index, t.fetch, n);
  }

  /** The flat lower bound, from the one in the block. */
  lemma SoughtInBlock(t: Table, n: nat, key: InternalKey)
    requires SortedIndex(t.index, t.fetch) && n < |t.index|
    requires forall i | 0 <= i < |t.index| :: i < n <==> Less(t.index[i].key, key)
    ensures SortedEntries(BlockAt(t.index, t.fetch, n))
    ensures var es, block := EntriesOfTable(t), BlockAt(t.index, t.fetch, n);
            var d := LowerBound(block, key);
            && LowerBound(es, key) == Start(t.index, t.fetch, n) + d <= |es|
            && Start(t.index, t.fetch, n + 1) == Start(t.index, t.fetch, n) + |block|
            && (d < |block| ==> LowerBound(es, key) < |es| && es[LowerBound(es, key)] == block[d])
  {
    BlockSorted(t.index, t.fetch, n);
    SeekLandsOnLowerBound(t.index, t.fetch, n, key);
    PlaceInFlat(t, n, LowerBound(BlockAt(t.index, t.fetch, n), key));
  }

  /** Where the flat lower bound lies relative to the one block InternalGet looks into. */
  lemma OneBlockDecides(t: Table, n: nat, k: UserKey, s: Sequence)
    requires SortedIndex(t.index, t.fetch) && n < |t.index| && GoodSeparator(t, n)
    requires forall i | 0 <= i < |t.index| :: i < n <==> Less(t.index[i].key, LookupKey(k, s))
    ensures SortedEntries(BlockAt(t.index, t.fetch, n))
    ensures Decides(EntriesOfTable(t), LowerBound(EntriesOfTable(t), LookupKey(k, s)),
                    BlockAt(t.index, t.fetch, n), LowerBound(BlockAt(t.index, t.fetch, n), LookupKey(k, s)), k)
  {
    var es, block, key := EntriesOfTable(t), BlockAt(t.index, t.fetch, n), LookupKey(k, s);
    SoughtInBlock(t, n, key);
    BlockDecides(t, n, es, LowerBound(es, key), block, LowerBound(block, key), k, s);
  }

  /** Looks into at most one block, and not even that if the filter says no; the reader ends up with what a
      seek over all entries of the table gives. */
  method InternalGet(t: Table, policy: Policy, bytes: UserKey -> Bytes, k: UserKey, s: Sequence, ghost f: TableFile)
    returns (found: Option<Entry>)
    requires WellBuilt(t, policy, bytes) && SoundForKeys(policy)
    requires WellFormed(f) && f.entries == EntriesOfTable(t)
    ensures StateOf(found, k) == SaveValue(f, k, s)
  {
    var key := LookupKey(k, s);
    var n := SeekIndex(t.index, key);
    found := None;
    if n == |t.index| {
      SeekLandsOnLowerBound(t.index, t.fetch, n, key);
    } else {
      OneBlockDecides(t, n, k, s);
      var handle := t.index[n].handle;
      if t.filterBlock.Some? {
        var reader := new FilterBlockReader(policy, t.filterBlock.value);
        var mayMatch := reader.KeyMayMatch(handle, bytes(k));
        if !mayMatch {
          FilteredOutIsAbsent(t, policy, bytes, reader, n, k);
          return None;
        }
      }
      var block := t.fetch(handle);
      var d := LowerBound(block, key);
      if d < |block| {
        found := Some(block[d]);
      }
    }
  }

  // ---- The range hook ----

  /** RangeMayMatch must answer true if some key of the list lies in the range; and a filter over some
      keys has some bytes. (Without the second, the block written for a table with keys would be the one
      for a table without, which matches no range.) */
  ghost predicate SoundForRanges(policy: Policy, bytes: UserKey -> Bytes) {
    && (forall es: seq<Entry>, lo: UserKey, hi: UserKey, e | e in es && lo <= e.key.user <= hi ::
          policy.rangeMayMatch(bytes(lo), bytes(hi), policy.createFilter(FilterKeys(es, bytes))))
    && (forall keys: seq<Bytes> | keys != [] :: policy.createFilter(keys) != [])
  }

  function InBounds(es: seq<Entry>, lo: UserKey, hi: UserKey): seq<Entry> {
    if es == [] then []
    else (if lo <= es[0].key.user <= hi then [es[0]] else []) + InBounds(es[1..], lo, hi)
  }

  lemma {:induction false} NothingInBounds(es: seq<Entry>, lo: UserKey, hi: UserKey)
    requires forall e | e in es :: !(lo <= e.key.user <= hi)
    ensures InBounds(es, lo, hi) == []
  {
    if es != [] { NothingInBounds(es[1..], lo, hi); }
  }

  /** The filter's verdict on a range, for a filter block made from the table's keys. */
  ghost predicate Admits(t: Table, policy: Policy, bytes: UserKey -> Bytes, lo: Bytes, hi: Bytes) {
    t.filterBlock.None? ||
    var f := FilterFor(policy, FilterKeys(EntriesOfTable(t), bytes));
    f != [] && (policy.rangeMayMatch(lo, hi, f) || policy.rangeMayMatch(lo, hi, []))
  }

  method TableRangeMayMatch(t: Table, policy: Policy, bytes: UserKey -> Bytes, lo: Bytes, hi: Bytes) returns (r: bool)
    requires WellBuilt(t, policy, bytes)
    ensures r <==> Admits(t, policy, bytes, lo, hi)
  {
    if t.filterBlock.None? {
      return true;
    }
    var reader := new FilterBlockReader(policy, t.filterBlock.value);
    r := reader.RangeMayMatch(lo, hi);
    RangeAnswerExact(reader, policy, FilterKeys(EntriesOfTable(t), bytes), lo, hi);
  }

  /** What a table's iterator yields: all of the table, or nothing. Empty bounds turn the filter off. */
  ghost function TableContents(t: Table, policy: Policy, bytes: UserKey -> Bytes, lo: UserKey,
                               hi: UserKey): seq<Entry> {
    if bytes(lo) == [] || bytes(hi) == [] || Admits(t, policy, bytes, bytes(lo), bytes(hi)) then EntriesOfTable(t)
    else []
  }

  /** TableCache::NewIterator. */
  method NewIterator(t: Table, policy: Policy, bytes: UserKey -> Bytes, lo: UserKey, hi: UserKey)
    returns (es: seq<Entry>)
    requires WellBuilt(t, policy, bytes)
    ensures es == TableContents(t, policy, bytes, lo, hi)
  {
    if bytes(lo) != [] && bytes(hi) != [] {
      var mayMatch := TableRangeMayMatch(t, policy, bytes, bytes(lo), bytes(hi));
      if !mayMatch {
        return [];
      }
    }
    es := EntriesOfTable(t);
  }

  /** A pruned table has nothing between the bounds. */
  lemma PrunedHasNothing(t: Table, policy: Policy, bytes: UserKey -> Bytes, lo: UserKey, hi: UserKey)
    requires SoundForRanges(policy, bytes)
    ensures InBounds(TableContents(t, policy, bytes, lo, hi), lo, hi) == InBounds(EntriesOfTable(t), lo, hi)
  {
    var es := EntriesOfTable(t);
    var keys := FilterKeys(es, bytes);
    if TableContents(t, policy, bytes, lo, hi) != es {
      forall e | e in es ensures !(lo <= e.key.user <= hi) {
        FilterKeysMembers(es, bytes, e);
        assert FilterFor(policy, keys) == policy.createFilter(keys) != [];
      }
      NothingInBounds(es, lo, hi);
    }
  }
}
