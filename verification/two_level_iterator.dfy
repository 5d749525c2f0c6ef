/** TwoLevelIterator of project/two_level_iterator.cc: a lazy cursor over blocks, some of them empty, moves
    like a cursor over their concatenation. */
module TwoLevelIterators {
  import opened InternalKeys

  type Handle = nat

  /** One line of the index: a key at or after every key of the block, and the block's handle. */
  datatype IndexEntry = IndexEntry(key: InternalKey, handle: Handle)

  // ---- The flat list of all entries ----

  function BlockAt(index: seq<IndexEntry>, fetch: Handle -> seq<Entry>, i: nat): seq<Entry>
    requires i < |index|
  {
    fetch(index[i].handle)
  }

  /** The entries of the first `n` blocks. */
  function FlatTo(index: seq<IndexEntry>, fetch: Handle -> seq<Entry>, n: nat): seq<Entry>
    requires n <= |index|
  {
    if n == 0 then [] else FlatTo(index, fetch, n - 1) + BlockAt(index, fetch, n - 1)
  }

  function Flat(index: seq<IndexEntry>, fetch: Handle -> seq<Entry>): seq<Entry> {
    FlatTo(index, fetch, |index|)
  }

  function Start(index: seq<IndexEntry>, fetch: Handle -> seq<Entry>, n: nat): nat
    requires n <= |index|
  {
    |FlatTo(index, fetch, n)|
  }

  lemma {:induction false} FlatPrefix(index: seq<IndexEntry>, fetch: Handle -> seq<Entry>, n: nat, m: nat)
    requires n <= m <= |index|
    ensures FlatTo(index, fetch, n) <= FlatTo(index, fetch, m)
  {
    if n < m { FlatPrefix(index, fetch, n, m - 1); }
  }

  /** Where a block's entries are in the flat list. */
  lemma BlockInFlat(index: seq<IndexEntry>, fetch: Handle -> seq<Entry>, n: nat)
    requires n < |index|
    ensures Start(index, fetch, n + 1) == Start(index, fetch, n) + |BlockAt(index, fetch, n)| <= |Flat(index, fetch)|
    ensures forall d | 0 <= d < |BlockAt(index, fetch, n)| ::
              Flat(index, fetch)[Start(index, fetch, n) + d] == BlockAt(index, fetch, n)[d]
  {
    FlatPrefix(index, fetch, n + 1, |index|);
  }

  /** The index of a sorted table: each line's key separates its block from all later ones. */
  ghost predicate SortedIndex(index: seq<IndexEntry>, fetch: Handle -> seq<Entry>) {
    && SortedEntries(Flat(index, fetch))
    && (forall i, j | 0 <= i < j < |index| :: AtMost(index[i].key, index[j].key))
    && (forall i, e | 0 <= i < |index| && e in BlockAt(index, fetch, i) :: AtMost(e.key, index[i].key))
    && (forall i, j, e | 0 <= i < j < |index| && e in BlockAt(index, fetch, j) :: Less(index[i].key, e.key))
  }

  /** An index iterator's Seek: the first line whose key is not before the target. */
  method SeekIndex(index: seq<IndexEntry>, target: InternalKey) returns (right: nat)
    requires forall i, j | 0 <= i < j < |index| :: AtMost(index[i].key, index[j].key)
    ensures right <= |index|
    ensures forall i | 0 <= i < |index| :: i < right <==> Less(index[i].key, target)
  {
    var left: nat := 0;
    right := |index|;
    while left < right
      invariant left <= right <= |index|
      invariant forall i | 0 <= i < left :: Less(index[i].key, target)
      invariant forall i | right <= i < |index| :: !Less(index[i].key, target)
    {
      var mid := (left + right) / 2;
      if Less(index[mid].key, target) {
        left := mid + 1;
      } else {
        right := mid;
      }
    }
  }

  /** An iterator over one block: a position, valid while inside. */
  datatype BlockCursor = BlockCursor(entries: seq<Entry>, position: nat)

  lemma PartSorted(es: seq<Entry>, s: nat, part: seq<Entry>)
    requires SortedEntries(es) && s + |part| <= |es| && forall d | 0 <= d < |part| :: es[s + d] == part[d]
    ensures SortedEntries(part)
  {
    forall i, j | 0 <= i < j < |part| ensures Less(part[i].key, part[j].key) {
      assert Less(es[s + i].key, es[s + j].key);
    }
  }

  lemma BlockSorted(index: seq<IndexEntry>, fetch: Handle -> seq<Entry>, n: nat)
    requires SortedEntries(Flat(index, fetch)) && n < |index|
    ensures SortedEntries(BlockAt(index, fetch, n))
  {
    var es, s, block := Flat(index, fetch), Start(index, fetch, n), BlockAt(index, fetch, n);
    BlockInFlat(index, fetch, n);
    PartSorted(es, s, block);
  }

  /** Every entry of the first `n` blocks lies in some block. */
  lemma {:induction false} FlatEntryInBlock(index: seq<IndexEntry>, fetch: Handle -> seq<Entry>, n: nat, p: nat)
    returns (i: nat)
    requires n <= |index| && p < Start(index, fetch, n)
    ensures i < n && FlatTo(index, fetch, n)[p] in BlockAt(index, fetch, i)
    ensures Start(index, fetch, i) <= p < Start(index, fetch, i + 1)
  {
    if p < Start(index, fetch, n - 1) {
      i := FlatEntryInBlock(index, fetch, n - 1, p);
    } else {
      i := n - 1;
    }
  }

  lemma {:induction false} StartMonotone(index: seq<IndexEntry>, fetch: Handle -> seq<Entry>, n: nat, m: nat)
    requires n <= m <= |index|
    ensures Start(index, fetch, n) <= Start(index, fetch, m)
  {
    FlatPrefix(index, fetch, n, m);
  }

  lemma BlockOrder(index: seq<IndexEntry>, fetch: Handle -> seq<Entry>, n: nat, i: nat, q: nat)
    requires n <= |index| && i < |index| && Start(index, fetch, i) <= q < Start(index, fetch, i + 1)
    ensures i < n ==> q < Start(index, fetch, n)
    ensures i > n ==> q >= Start(index, fetch, n + 1)
  {
    if i < n { StartMonotone(index, fetch, i + 1, n); }
    if i > n { StartMonotone(index, fetch, n + 1, i); }
  }

  /** The block chosen by the index and the position found in it give the flat lower bound. */
  lemma SeekLandsOnLowerBound(index: seq<IndexEntry>, fetch: Handle -> seq<Entry>, n: nat, target: InternalKey)
    requires SortedIndex(index, fetch) && n <= |index|
    requires forall i | 0 <= i < |index| :: i < n <==> Less(index[i].key, target)
    requires n < |index| ==> SortedEntries(BlockAt(index, fetch, n))
    ensures LowerBound(Flat(index, fetch), target)
         == Start(index, fetch, n) + if n < |index| then LowerBound(BlockAt(index, fetch, n), target) else 0
  {
    var flat := Flat(index, fetch);
    var p := Start(index, fetch, n) + if n < |index| then LowerBound(BlockAt(index, fetch, n), target) else 0;
    if n < |index| { BlockInFlat(index, fetch, n); }
    assert p <= |flat|;
    forall q | 0 <= q < |flat| ensures q < p <==> Less(flat[q].key, target) {
      var i := FlatEntryInBlock(index, fetch, |index|, q);
      BlockOrder(index, fetch, n, i, q);
      if i == n {
        assert flat[q] == BlockAt(index, fetch, n)[q - Start(index, fetch, n)];
      } else if i < n {
        assert AtMost(flat[q].key, index[i].key) && Less(index[i].key, target);
      } else {
        assert Less(index[n].key, flat[q].key) && !Less(index[n].key, target);
      }
    }
    LowerBoundUnique(flat, target, p);
  }

  class TwoLevelIterator {
    const index: seq<IndexEntry>
    const fetch: Handle -> seq<Entry>         // block_function_: what the handle's block yields, perhaps nothing
    var indexPosition: nat                    // index_iter_, valid while inside
    var data: Option<BlockCursor>             // data_iter_
    var dataBlockHandle: Handle

    constructor (index: seq<IndexEntry>, fetch: Handle -> seq<Entry>)
      ensures this.index == index && this.fetch == fetch && Valid() && Position().None?
    {
      this.index, this.fetch := index, fetch;
      indexPosition, data, dataBlockHandle := |index|, None, 0;
    }

    /** A block is open exactly while the index position is inside, and it is the block of that position. */
    ghost predicate Coherent()
      reads this
    {
      && indexPosition <= |index|
      && (data.Some? <==> indexPosition < |index|)
      && (data.Some? ==> dataBlockHandle == index[indexPosition].handle && Open())
    }

    /** The open block is the one the remembered handle names. */
    ghost predicate Open()
      reads this
    {
      data.Some? ==> data.value.entries == fetch(dataBlockHandle) && data.value.position <= |data.value.entries|
    }

    predicate DataValid()
      reads this
    {
      data.Some? && data.value.position < |data.value.entries|
    }

    /** Between operations the iterator is on an entry, or it is exhausted and holds no block. */
    ghost predicate Valid()
      reads this
    {
      Coherent() && (data.Some? ==> DataValid())
    }

    /** The position in the flat list. */
    ghost function Position(): Option<nat>
      requires Valid()
      reads this
    {
      if data.Some? then Some(Start(index, fetch, indexPosition) + data.value.position) else None
    }

    ghost function At(p: int): Option<nat> {
      if 0 <= p < |Flat(index, fetch)| then Some(p) else None
    }

    /** key() and value() are those of the flat entry. */
    method Current() returns (e: Entry)
      requires Valid() && Position().Some?
      ensures Position().value < |Flat(index, fetch)| && e == Flat(index, fetch)[Position().value]
    {
      e := data.value.entries[data.value.position];
      BlockInFlat(index, fetch, indexPosition);
    }

    /** Opens the block of the index position, unless it is the one already open. */
    method InitDataBlock()
      requires indexPosition <= |index| && Open()
      modifies this`data, this`dataBlockHandle
      ensures Coherent()
    {
      if indexPosition >= |index| {
        data := None;
      } else {
        var handle := index[indexPosition].handle;
        if data.Some? && handle == dataBlockHandle {
        } else {
          data := Some(BlockCursor(fetch(handle), 0));
          dataBlockHandle := handle;
        }
      }
    }

    // ---- Moving the open block's cursor, if there is one ----

    method DataSeekToFirst()
      requires Coherent()
      modifies this`data
      ensures Coherent() && (data.Some? ==> data.value.position == 0)
    {
      if data.Some? { data := Some(data.value.(position := 0)); }
    }

    /** An empty block has no last entry: its cursor becomes invalid. */
    method DataSeekToLast()
      requires Coherent()
      modifies this`data
      ensures Coherent()
      ensures data.Some? ==> var n := |data.value.entries|; data.value.position == if n == 0 then 0 else n - 1
    {
      if data.Some? {
        var n := |data.value.entries|;
        data := Some(data.value.(position := if n == 0 then 0 else n - 1));
      }
    }

    /** The flat position the forward skip starts from: an exhausted block counts as its end. */
    ghost function Ahead(): nat
      requires Coherent()
      reads this
    {
      Start(index, fetch, indexPosition) + if data.Some? then data.value.position else 0
    }

    /** The flat position the backward skip starts from: an invalid block cursor counts as before its start. */
    ghost function Behind(): int
      requires Coherent()
      reads this
    {
      if data.None? then -1
      else if DataValid() then Start(index, fetch, indexPosition) + data.value.position
      else Start(index, fetch, indexPosition) - 1
    }

    method SkipEmptyDataBlocksForward()
      requires Coherent()
      modifies this`indexPosition, this`data, this`dataBlockHandle
      ensures Valid() && Position() == At(old(Ahead()))
    {
      ghost var p := Ahead();
      while data.None? || !DataValid()
        invariant Coherent() && Ahead() == p
        decreases |index| - indexPosition
      {
        if indexPosition >= |index| {
          data := None;
          return;
        }
        indexPosition := indexPosition + 1;
        InitDataBlock();
        DataSeekToFirst();
      }
      BlockInFlat(index, fetch, indexPosition);
    }

    method SkipEmptyDataBlocksBackward()
      requires Coherent()
      modifies this`indexPosition, this`data, this`dataBlockHandle
      ensures Valid() && Position() == At(old(Behind()))
    {
      ghost var p := Behind();
      while data.None? || !DataValid()
        invariant Coherent() && Behind() == p
        decreases if indexPosition < |index| then indexPosition + 1 else 0
      {
        if indexPosition >= |index| {
          data := None;
          return;
        }
        indexPosition := if indexPosition == 0 then |index| else indexPosition - 1;
        InitDataBlock();
        DataSeekToLast();
      }
      BlockInFlat(index, fetch, indexPosition);
    }

    // ---- The iterator's operations are those of a cursor over the flat list ----

    method SeekToFirst()
      requires Valid()
      modifies this`indexPosition, this`data, this`dataBlockHandle
      ensures Valid() && Position() == At(0)
    {
      indexPosition := 0;
      InitDataBlock();
      DataSeekToFirst();
      SkipEmptyDataBlocksForward();
    }

    method SeekToLast()
      requires Valid()
      modifies this`indexPosition, this`data, this`dataBlockHandle
      ensures Valid() && Position() == At(|Flat(index, fetch)| - 1)
    {
      indexPosition := if index == [] then 0 else |index| - 1;
      InitDataBlock();
      DataSeekToLast();
      SkipEmptyDataBlocksBackward();
    }

    method Next()
      requires Valid() && Position().Some?
      modifies this`indexPosition, this`data, this`dataBlockHandle
      ensures Valid() && Position() == At(old(Position()).value + 1)
    {
      data := Some(data.value.(position := data.value.position + 1));
      SkipEmptyDataBlocksForward();
    }

    method Prev()
      requires Valid() && Position().Some?
      modifies this`indexPosition, this`data, this`dataBlockHandle
      ensures Valid() && Position() == At(old(Position()).value - 1)
    {
      var c := data.value;
      data := Some(c.(position := if c.position == 0 then |c.entries| else c.position - 1));
      SkipEmptyDataBlocksBackward();
    }

    /** Lands on the first flat entry not before the target. */
    method Seek(target: InternalKey)
      requires Valid() && SortedIndex(index, fetch)
      modifies this`indexPosition, this`data, this`dataBlockHandle
      ensures Valid() && Position() == At(LowerBound(Flat(index, fetch), target))
    {
      indexPosition := SeekIndex(index, target);
      InitDataBlock();
      if data.Some? {
        BlockSorted(index, fetch, indexPosition);
        data := Some(data.value.(position := LowerBound(data.value.entries, target)));
      }
      SeekLandsOnLowerBound(index, fetch, indexPosition, target);
      SkipEmptyDataBlocksForward();
    }
  }
}
