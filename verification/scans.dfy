/** DBImpl::NewInternalIterator with range bounds: memtables in front of the pruned iterators of the version.
    What a bounded scan meets for a key between its bounds is what the plain versioned map says. */
module Scans {
  import opened InternalKeys
  import opened TableFiles
  import opened FilterBlocks
  import opened Tables
  import opened TwoLevelIterators
  import opened Pruning
  import L = Lsm
  import LsmWrites

  function MemTableChildren(mem: seq<Entry>, imm: Option<seq<Entry>>): seq<seq<Entry>> {
    [mem] + if imm.Some? then [imm.value] else []
  }

  function AllChildren(mem: seq<Entry>, imm: Option<seq<Entry>>, files: seq<seq<TableFile>>,
                       fetch: Handle -> seq<Entry>)
    : seq<seq<Entry>>
    requires |files| == NUM_LEVELS
  {
    MemTableChildren(mem, imm) + Children(files, fetch)
  }

  /** What the merging iterator yields, front to back. */
  function Scan(mem: seq<Entry>, imm: Option<seq<Entry>>, files: seq<seq<TableFile>>, fetch: Handle -> seq<Entry>)
    : seq<Entry>
    requires |files| == NUM_LEVELS
  {
    MergeAll(AllChildren(mem, imm, files, fetch))
  }

  /** The child iterators of a scan: the memtable, the immutable one if there is one, the version's. */
  method NewInternalIterator(mem: seq<Entry>, imm: Option<seq<Entry>>, files: seq<seq<TableFile>>,
                             fetch: Handle -> seq<Entry>)
    returns (children: seq<Child>)
    requires |files| == NUM_LEVELS
    ensures Yield(children, AllChildren(mem, imm, files, fetch)) && Ready(children)
  {
    var list := [TableChild(mem)];
    if imm.Some? {
      list := list + [TableChild(imm.value)];
    }
    var added := AddIterators(files, fetch);
    children := list + added;
  }

  /** The memtables and the file lists are those of the state. */
  ghost predicate Shown(s: L.State, mem: seq<Entry>, imm: Option<seq<Entry>>, files: seq<seq<TableFile>>) {
    && L.Inv(s) && ValidLevels(files) && LevelSets(files) == s.levels
    && SortedEntries(mem) && EntrySet(mem) == s.mem
    && (imm.Some? <==> s.imm.Some?)
    && (imm.Some? ==> SortedEntries(imm.value) && EntrySet(imm.value) == s.imm.value)
  }

  ghost predicate Scannable(files: seq<seq<TableFile>>, tables: Handle -> Table, policy: Policy,
                            bytes: UserKey -> Bytes) {
    ValidLevels(files) && Opened(files, tables, policy, bytes) && SoundForRanges(policy, bytes)
  }

  ghost predicate AllNondecreasing(lists: seq<seq<Entry>>) {
    forall x | x in lists :: Nondecreasing(x)
  }

  lemma {:induction false} MergeInFront(front: seq<seq<Entry>>, c: seq<seq<Entry>>, d: seq<seq<Entry>>,
                                        lo: UserKey, hi: UserKey)
    requires AllNondecreasing(front) && AllNondecreasing(c) && AllNondecreasing(d)
    requires InBounds(MergeAll(c), lo, hi) == InBounds(MergeAll(d), lo, hi)
    ensures InBounds(MergeAll(front + c), lo, hi) == InBounds(MergeAll(front + d), lo, hi)
  {
    if front == [] {
      assert front + c == c && front + d == d;
    } else {
      var rest := front[1..];
      MergeInFront(rest, c, d, lo, hi);
      assert (front + c)[1..] == rest + c && (front + d)[1..] == rest + d;
      MergeAllNondecreasing(rest + c);
      MergeAllNondecreasing(rest + d);
      InBoundsMerge(front[0], MergeAll(rest + c), lo, hi);
      InBoundsMerge(front[0], MergeAll(rest + d), lo, hi);
    }
  }

  lemma PrunedNondecreasing(files: seq<seq<TableFile>>, tables: Handle -> Table, policy: Policy,
                            bytes: UserKey -> Bytes, lo: UserKey, hi: UserKey)
    requires Scannable(files, tables, policy, bytes)
    ensures AllNondecreasing(Children(files, Bounded(tables, policy, bytes, lo, hi)))
    ensures AllNondecreasing(Children(files, Unbounded(tables)))
  {
    ChildrenNondecreasing(files, Bounded(tables, policy, bytes, lo, hi));
    ChildrenNondecreasing(files, Unbounded(tables));
  }

  lemma MemTablesNondecreasing(mem: seq<Entry>, imm: Option<seq<Entry>>)
    requires SortedEntries(mem) && (imm.Some? ==> SortedEntries(imm.value))
    ensures AllNondecreasing(MemTableChildren(mem, imm))
  {
    assert Nondecreasing(mem) && (imm.Some? ==> Nondecreasing(imm.value));
  }

  /** The bounds take no entry with a key from `a` to `b` away from the table. */
  ghost predicate LosesNothing(t: Table, policy: Policy, bytes: UserKey -> Bytes, lo: UserKey, hi: UserKey,
                               a: UserKey, b: UserKey) {
    InBounds(TableContents(t, policy, bytes, lo, hi), a, b) == InBounds(EntriesOfTable(t), a, b)
  }

  /** If no table loses an entry with a key from `a` to `b`, the two scans meet the same there. */
  lemma ScansAgree(mem: seq<Entry>, imm: Option<seq<Entry>>, files: seq<seq<TableFile>>, tables: Handle -> Table,
                   policy: Policy, bytes: UserKey -> Bytes, lo: UserKey, hi: UserKey, a: UserKey, b: UserKey)
    requires SortedEntries(mem) && (imm.Some? ==> SortedEntries(imm.value)) && Scannable(files, tables, policy, bytes)
    requires forall h :: LosesNothing(tables(h), policy, bytes, lo, hi, a, b)
    ensures InBounds(Scan(mem, imm, files, Bounded(tables, policy, bytes, lo, hi)), a, b)
         == InBounds(Scan(mem, imm, files, Unbounded(tables)), a, b)
  {
    var p, q := Bounded(tables, policy, bytes, lo, hi), Unbounded(tables);
    forall h ensures InBounds(p(h), a, b) == InBounds(q(h), a, b) {
      assert LosesNothing(tables(h), policy, bytes, lo, hi, a, b);
    }
    MergesAgree(files, p, q, a, b);
    PrunedNondecreasing(files, tables, policy, bytes, lo, hi);
    MemTablesNondecreasing(mem, imm);
    MergeInFront(MemTableChildren(mem, imm), Children(files, p), Children(files, q), a, b);
  }

  /** With the memtables too, a scan with bounds and one without meet the same between the bounds, in order. */
  lemma ScanIgnoresPruning(mem: seq<Entry>, imm: Option<seq<Entry>>, files: seq<seq<TableFile>>,
                           tables: Handle -> Table,
                           policy: Policy, bytes: UserKey -> Bytes, lo: UserKey, hi: UserKey)
    requires SortedEntries(mem) && (imm.Some? ==> SortedEntries(imm.value)) && Scannable(files, tables, policy, bytes)
    ensures InBounds(Scan(mem, imm, files, Bounded(tables, policy, bytes, lo, hi)), lo, hi)
         == InBounds(Scan(mem, imm, files, Unbounded(tables)), lo, hi)
  {
    forall h ensures LosesNothing(tables(h), policy, bytes, lo, hi, lo, hi) {
      PrunedHasNothing(tables(h), policy, bytes, lo, hi);
    }
    ScansAgree(mem, imm, files, tables, policy, bytes, lo, hi, lo, hi);
  }

  lemma ScanNondecreasing(mem: seq<Entry>, imm: Option<seq<Entry>>, files: seq<seq<TableFile>>, tables: Handle -> Table,
                          policy: Policy, bytes: UserKey -> Bytes, lo: UserKey, hi: UserKey)
    requires SortedEntries(mem) && (imm.Some? ==> SortedEntries(imm.value)) && Scannable(files, tables, policy, bytes)
    ensures Nondecreasing(Scan(mem, imm, files, Bounded(tables, policy, bytes, lo, hi)))
  {
    PrunedNondecreasing(files, tables, policy, bytes, lo, hi);
    MemTablesNondecreasing(mem, imm);
    MergeAllNondecreasing(AllChildren(mem, imm, files, Bounded(tables, policy, bytes, lo, hi)));
  }

  lemma InFront(mem: seq<Entry>, imm: Option<seq<Entry>>, e: Entry)
    ensures InSome(MemTableChildren(mem, imm), e) <==> e in mem || (imm.Some? && e in imm.value)
  {
    var front := MemTableChildren(mem, imm);
    assert mem in front && (imm.Some? ==> imm.value in front);
  }

  /** Without bounds the scan meets everything that is stored. */
  lemma ScanIsStored(s: L.State, mem: seq<Entry>, imm: Option<seq<Entry>>, files: seq<seq<TableFile>>,
                     tables: Handle -> Table, policy: Policy, bytes: UserKey -> Bytes)
    requires Shown(s, mem, imm, files) && Scannable(files, tables, policy, bytes)
    ensures EntrySet(Scan(mem, imm, files, Unbounded(tables))) == L.Stored(s)
  {
    var front, c := MemTableChildren(mem, imm), Children(files, Unbounded(tables));
    UnboundedIsEverything(files, tables, policy, bytes);
    MergeAllMembers(c);
    MergeAllMembers(front + c);
    forall e ensures e in Scan(mem, imm, files, Unbounded(tables)) <==> e in L.Stored(s) {
      InOneMore(front, c, e);
      InFront(mem, imm, e);
      assert e in MergeAll(c) <==> e in EntrySet(MergeAll(c));
      assert e in EntrySet(mem) <==> e in mem;
    }
  }

  /** The bounded scan shows for every key between the bounds, at every snapshot that may still be read, what
      the versioned map of all writes says, and nothing else. */
  lemma ScanReads(s: L.State, mem: seq<Entry>, imm: Option<seq<Entry>>, files: seq<seq<TableFile>>,
                  tables: Handle -> Table, policy: Policy, bytes: UserKey -> Bytes,
                  lo: UserKey, hi: UserKey, k: UserKey, p: Sequence, r: Option<Value>)
    requires Shown(s, mem, imm, files) && Scannable(files, tables, policy, bytes)
    requires lo <= k <= hi && s.horizon <= p <= s.lastSequence
    ensures Yields(EntrySet(Scan(mem, imm, files, Bounded(tables, policy, bytes, lo, hi))), k, p, r)
       <==> r == SpecGet(s.history, k, p)
  {
    ScanIgnoresPruning(mem, imm, files, tables, policy, bytes, lo, hi);
    ScanIsStored(s, mem, imm, files, tables, policy, bytes);
    SameBoundsSameReads(Scan(mem, imm, files, Bounded(tables, policy, bytes, lo, hi)),
                        Scan(mem, imm, files, Unbounded(tables)), lo, hi, k, p, r);
    LsmWrites.StoredReads(s, k, p, r);
  }

  /** Where a Seek in the merged list lands: the first entry that is not before the key. */
  ghost predicate LandsOn(es: seq<Entry>, key: InternalKey, i: nat) {
    i <= |es| && forall j | 0 <= j < |es| :: j < i <==> Less(es[j].key, key)
  }

  /** What is read there for the user key. */
  function ReadAt(es: seq<Entry>, i: nat, k: UserKey): Option<Value> {
    if i < |es| && es[i].key.user == k then ValueOf(es[i]) else None
  }

  lemma SeekReads(es: seq<Entry>, i: nat, k: UserKey, p: Sequence)
    requires Nondecreasing(es) && LandsOn(es, LookupKey(k, p), i)
    ensures Yields(EntrySet(es), k, p, ReadAt(es, i, k))
  {
    forall j | 0 <= j < |es| && Visible(es[j], k, p) ensures i <= j && AtMost(es[i].key, es[j].key) {
      assert !Less(es[j].key, LookupKey(k, p));
    }
    if i < |es| && es[i].key.user == k {
      assert IsNewest(EntrySet(es), es[i], k, p);
    }
  }

  /** One Seek in the bounded scan therefore reads the versioned map. */
  lemma ScanSeek(s: L.State, mem: seq<Entry>, imm: Option<seq<Entry>>, files: seq<seq<TableFile>>,
                 tables: Handle -> Table, policy: Policy, bytes: UserKey -> Bytes,
                 lo: UserKey, hi: UserKey, k: UserKey, p: Sequence, i: nat)
    requires Shown(s, mem, imm, files) && Scannable(files, tables, policy, bytes)
    requires lo <= k <= hi && s.horizon <= p <= s.lastSequence
    requires LandsOn(Scan(mem, imm, files, Bounded(tables, policy, bytes, lo, hi)), LookupKey(k, p), i)
    ensures ReadAt(Scan(mem, imm, files, Bounded(tables, policy, bytes, lo, hi)), i, k) == SpecGet(s.history, k, p)
  {
    var es := Scan(mem, imm, files, Bounded(tables, policy, bytes, lo, hi));
    ScanNondecreasing(mem, imm, files, tables, policy, bytes, lo, hi);
    SeekReads(es, i, k, p);
    ScanReads(s, mem, imm, files, tables, policy, bytes, lo, hi, k, p, ReadAt(es, i, k));
  }
}
