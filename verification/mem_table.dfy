/** The memtable, as the sorted list its skiplist holds. db/memtable.cc is not part of the repository; what is
    modelled is what project/db_impl.cc asks of it: insertion in internal-key order, and a seek. */
module MemTables {
  import opened InternalKeys
  import opened TableFiles
  import opened ReadPath

  function AsTable(es: seq<Entry>): TableFile
    requires es != []
  {
    TableFile(0, 0, es[0].key, es[|es| - 1].key, es)
  }

  function MemTableGet(mem: seq<Entry>, k: UserKey, s: Sequence): SaverState
    requires SortedEntries(mem)
  {
    if mem == [] then NotFound else SaveValue(AsTable(mem), k, s)
  }

  /** A hit is the newest visible entry; a miss means that there is none. */
  lemma MemTableGetYields(mem: seq<Entry>, k: UserKey, s: Sequence)
    requires SortedEntries(mem)
    ensures MemTableGet(mem, k, s).NotFound? <==> forall e | e in EntrySet(mem) :: !Visible(e, k, s)
    ensures Yields(EntrySet(mem), k, s, ResultOf(MemTableGet(mem, k, s)))
  {
    if mem != [] {
      SeekFindsNewest(AsTable(mem), k, s);
      assert forall e :: e in EntrySet(mem) <==> e in AsTable(mem).entries;
    }
  }

  lemma JoinEntries(a: seq<Entry>, b: seq<Entry>)
    ensures EntrySet(a + b) == EntrySet(a) + EntrySet(b)
  {
  }

  /** Where an entry newer than all others belongs. */
  ghost predicate IsPlace(mem: seq<Entry>, i: nat, e: Entry) {
    && i <= |mem|
    && (forall j | 0 <= j < i :: Less(mem[j].key, e.key))
    && (forall j | i <= j < |mem| :: Less(e.key, mem[j].key))
  }

  lemma StopIsPlace(mem: seq<Entry>, i: nat, e: Entry)
    requires SortedEntries(mem) && i <= |mem| && forall x | x in mem :: x.key.sequence < e.key.sequence
    requires (forall j | 0 <= j < i :: Less(mem[j].key, e.key)) && (i < |mem| ==> !Less(mem[i].key, e.key))
    ensures IsPlace(mem, i, e)
  {
    forall j | i <= j < |mem| ensures Less(e.key, mem[j].key) {
      assert mem[i] in mem && mem[j] in mem;
      assert i < j ==> Less(mem[i].key, mem[j].key);
    }
  }

  lemma InsertedIsSorted(mem: seq<Entry>, i: nat, e: Entry)
    requires SortedEntries(mem) && IsPlace(mem, i, e)
    ensures SortedEntries(mem[..i] + [e] + mem[i..])
  {
  }

  lemma InsertedEntries(mem: seq<Entry>, i: nat, e: Entry)
    requires i <= |mem|
    ensures EntrySet(mem[..i] + [e] + mem[i..]) == EntrySet(mem) + {e}
  {
    assert mem[..i] + mem[i..] == mem;
    JoinEntries(mem[..i], mem[i..]);
    JoinEntries(mem[..i], [e]);
    JoinEntries(mem[..i] + [e], mem[i..]);
  }

  method Insert(mem: seq<Entry>, e: Entry) returns (r: seq<Entry>)
    requires SortedEntries(mem) && forall x | x in mem :: x.key.sequence < e.key.sequence
    ensures SortedEntries(r) && EntrySet(r) == EntrySet(mem) + {e}
  {
    var i := 0;
    while i < |mem| && Less(mem[i].key, e.key)
      invariant 0 <= i <= |mem|
      invariant forall j | 0 <= j < i :: Less(mem[j].key, e.key)
    {
      i := i + 1;
    }
    StopIsPlace(mem, i, e);
    InsertedIsSorted(mem, i, e);
    InsertedEntries(mem, i, e);
    r := mem[..i] + [e] + mem[i..];
  }

  /** A write batch into the memtable: its entries are newer than what is there, and in commit order. */
  method InsertInto(mem: seq<Entry>, entries: seq<Entry>) returns (r: seq<Entry>)
    requires SortedEntries(mem) && Increasing(entries)
    requires forall x, e | x in mem && e in entries :: x.key.sequence < e.key.sequence
    ensures SortedEntries(r) && EntrySet(r) == EntrySet(mem) + EntrySet(entries)
  {
    r := mem;
    for i := 0 to |entries|
      invariant SortedEntries(r) && EntrySet(r) == EntrySet(mem) + EntrySet(entries[..i])
    {
      forall x | x in r ensures x.key.sequence < entries[i].key.sequence {
        assert x in EntrySet(r);
        assert entries[i] in entries;
      }
      r := Insert(r, entries[i]);
      assert entries[..i + 1] == entries[..i] + [entries[i]];
    }
    assert entries[..|entries|] == entries;
  }
}
