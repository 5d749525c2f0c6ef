/** The output files of a compaction: the entries of each closed builder under the next file number. */
module OutputFiles {
  import opened InternalKeys
  import opened TableFiles
  import opened CompactionWork
  import opened DropRule

  ghost predicate NoneEmpty(kept: seq<seq<Entry>>) {
    forall i | 0 <= i < |kept| :: kept[i] != []
  }

  /** One table file for each output, under consecutive numbers. */
  ghost predicate AreFilesOf(outputs: seq<TableFile>, kept: seq<seq<Entry>>, first: nat) {
    && |outputs| == |kept| && NoneEmpty(kept)
    && forall i | 0 <= i < |outputs| ::
         && outputs[i].number == first + i && outputs[i].entries == kept[i]
         && outputs[i].smallest == kept[i][0].key && outputs[i].largest == kept[i][|kept[i]| - 1].key
  }

  method BuildFiles(kept: seq<seq<Entry>>, first: nat, fileSize: seq<Entry> -> nat) returns (outputs: seq<TableFile>)
    requires NoneEmpty(kept)
    ensures AreFilesOf(outputs, kept, first)
  {
    outputs := [];
    for i := 0 to |kept|
      invariant |outputs| == i && AreFilesOf(outputs, kept[..i], first)
    {
      var es := kept[i];
      outputs := outputs + [TableFile(first + i, fileSize(es), es[0].key, es[|es| - 1].key, es)];
    }
    assert kept[..|kept|] == kept;
  }

  lemma SplitSorted(a: seq<Entry>, b: seq<Entry>)
    requires SortedEntries(a + b)
    ensures SortedEntries(a) && SortedEntries(b) && forall x, y | x in a && y in b :: Less(x.key, y.key)
  {
    var ab := a + b;
    forall i, j | 0 <= i < j < |a| ensures Less(a[i].key, a[j].key) {
      assert Less(ab[i].key, ab[j].key);
    }
    forall i, j | 0 <= i < j < |b| ensures Less(b[i].key, b[j].key) {
      assert Less(ab[|a| + i].key, ab[|a| + j].key);
    }
    forall i, j | 0 <= i < |a| && 0 <= j < |b| ensures Less(a[i].key, b[j].key) {
      assert Less(ab[i].key, ab[|a| + j].key);
    }
  }

  /** The parts of a sorted list are sorted, and every part comes before all later ones. */
  lemma {:induction false} PartsOfSorted(kept: seq<seq<Entry>>, i: nat)
    requires SortedEntries(Flatten(kept)) && i < |kept|
    ensures SortedEntries(kept[i]) && forall e | e in kept[i] :: e in Flatten(kept)
    ensures forall j, a, b | 0 <= j < i && a in kept[j] && b in kept[i] :: Less(a.key, b.key)
  {
    var n := |kept| - 1;
    var before := Flatten(kept[..n]);
    assert Flatten(kept) == before + kept[n];
    SplitSorted(before, kept[n]);
    if i < n {
      PartsOfSorted(kept[..n], i);
    } else {
      forall j, a, b | 0 <= j < n && a in kept[j] && b in kept[n] ensures Less(a.key, b.key) {
        PartsOfSorted(kept[..n], j);
        assert kept[..n][j] == kept[j];
      }
    }
  }

  lemma {:induction false} FlattenMembers(kept: seq<seq<Entry>>)
    ensures forall e :: e in Flatten(kept) <==> exists i :: 0 <= i < |kept| && e in kept[i]
  {
    if kept != [] {
      FlattenMembers(kept[..|kept| - 1]);
    }
  }

  /** The files hold what the outputs hold, apart from each other. */
  lemma OutputsAreApart(kept: seq<seq<Entry>>, outputs: seq<TableFile>, first: nat)
    requires AreFilesOf(outputs, kept, first) && SortedEntries(Flatten(kept))
    ensures Disjoint(FileSet(outputs)) && forall o | o in outputs :: WellFormed(o)
    ensures EntriesIn(FileSet(outputs)) == EntrySet(Flatten(kept))
  {
    forall i | 0 <= i < |outputs| ensures WellFormed(outputs[i]) { PartsOfSorted(kept, i); }
    forall i, j | 0 <= i < j < |outputs| ensures Before(outputs[i], outputs[j]) {
      PartsOfSorted(kept, j);
      assert kept[i][|kept[i]| - 1] in kept[i] && kept[j][0] in kept[j];
    }
    FlattenMembers(kept);
    forall e ensures e in EntriesIn(FileSet(outputs)) <==> e in EntrySet(Flatten(kept)) {
      if e in Flatten(kept) {
        var i :| 0 <= i < |kept| && e in kept[i];
        assert outputs[i] in FileSet(outputs);
      }
    }
  }

  ghost function NumbersFrom(first: nat, n: nat): set<nat> {
    if n == 0 then {} else NumbersFrom(first, n - 1) + {first + n - 1}
  }

  lemma {:induction false} NumbersFromMembers(first: nat, n: nat)
    ensures forall i :: i in NumbersFrom(first, n) <==> first <= i < first + n
  {
    if n > 0 { NumbersFromMembers(first, n - 1); }
  }

  /** The drop rule's survivors in sorted order are the loop's outputs, one after the other. */
  lemma KeptIsSortedSet(outputs: seq<seq<Entry>>, input: seq<Entry>, snapshot: Sequence, levels: seq<seq<TableFile>>,
                        level: nat)
    requires SortedEntries(input) && DistinctSequences(EntrySet(input))
    requires Flatten(outputs) == Kept(input, |input|, snapshot, levels, level)
    ensures SortedEntries(Flatten(outputs))
    ensures EntrySet(Flatten(outputs)) == KeptSet(EntrySet(input), snapshot, Deeper(LevelSets(levels), level))
  {
    KeptIsKeptSet(input, snapshot, levels, level);
    KeptIsSorted(input, |input|, snapshot, levels, level);
  }
}
