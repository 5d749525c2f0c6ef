/** VersionSet::MakeInputIterator of project/version_set.cc: the inputs of a compaction as one sorted stream. */
module InputIterators {
  import opened InternalKeys
  import opened TableFiles
  import opened Compactions
  import opened DropRule
  import opened TwoLevelIterators
  import opened Pruning

  // ---- Merging lists that share no key ----

  ghost predicate NoSharedKeys(a: seq<Entry>, b: seq<Entry>) {
    forall x, y | x in a && y in b :: Less(x.key, y.key) || Less(y.key, x.key)
  }

  lemma TailIsSorted(es: seq<Entry>)
    requires SortedEntries(es) && es != []
    ensures SortedEntries(es[1..]) && forall x | x in es[1..] :: Less(es[0].key, x.key)
  {
  }

  lemma SortedInFront(e: Entry, es: seq<Entry>)
    requires SortedEntries(es) && forall x | x in es :: Less(e.key, x.key)
    ensures SortedEntries([e] + es)
  {
  }

  lemma {:induction false} MergeIsSorted(a: seq<Entry>, b: seq<Entry>)
    requires SortedEntries(a) && SortedEntries(b) && NoSharedKeys(a, b)
    ensures SortedEntries(Merge(a, b))
  {
    if a != [] && b != [] {
      TailIsSorted(a);
      TailIsSorted(b);
      if Less(b[0].key, a[0].key) {
        MergeIsSorted(a, b[1..]);
        MergeMembers(a, b[1..]);
        forall x | x in a ensures Less(b[0].key, x.key) { assert x == a[0] || x in a[1..]; }
        SortedInFront(b[0], Merge(a, b[1..]));
      } else {
        assert a[0] in a && b[0] in b;
        MergeIsSorted(a[1..], b);
        MergeMembers(a[1..], b);
        forall x | x in b ensures Less(a[0].key, x.key) { assert x == b[0] || x in b[1..]; }
        SortedInFront(a[0], Merge(a[1..], b));
      }
    }
  }

  ghost predicate AllSorted(lists: seq<seq<Entry>>) {
    forall i | 0 <= i < |lists| :: SortedEntries(lists[i])
  }

  ghost predicate NoneShareKeys(lists: seq<seq<Entry>>) {
    forall i, j | 0 <= i < j < |lists| :: NoSharedKeys(lists[i], lists[j])
  }

  lemma {:induction false} MergeAllIsSorted(lists: seq<seq<Entry>>)
    requires AllSorted(lists) && NoneShareKeys(lists)
    ensures SortedEntries(MergeAll(lists))
  {
    if lists != [] {
      var rest := lists[1..];
      MergeAllIsSorted(rest);
      MergeAllMembers(rest);
      forall x, y | x in lists[0] && y in MergeAll(rest) ensures Less(x.key, y.key) || Less(y.key, x.key) {
        var l :| l in rest && y in l;
        var j :| 0 <= j < |rest| && rest[j] == l;
        assert NoSharedKeys(lists[0], lists[j + 1]);
      }
      MergeIsSorted(lists[0], MergeAll(rest));
    }
  }

  // ---- The iterators ----

  /** What the iterators over the inputs yield: file by file at level 0, otherwise one list for a level. */
  function LevelLists(files: seq<TableFile>, fetch: Handle -> seq<Entry>): seq<seq<Entry>> {
    if files == [] then [] else [Flat(LevelIndex(files), fetch)]
  }

  function InputLists(level: nat, in0: seq<TableFile>, in1: seq<TableFile>,
                      fetch: Handle -> seq<Entry>): seq<seq<Entry>> {
    (if level == 0 then Level0Children(in0, fetch) else LevelLists(in0, fetch)) + LevelLists(in1, fetch)
  }

  method AddLevel(children: seq<Child>, files: seq<TableFile>, fetch: Handle -> seq<Entry>,
                  ghost lists: seq<seq<Entry>>)
    returns (r: seq<Child>)
    requires Yield(children, lists) && Ready(children)
    ensures Yield(r, lists + LevelLists(files, fetch)) && Ready(r)
  {
    r := children;
    if files != [] {
      var cursor := new TwoLevelIterator(LevelIndex(files), fetch);
      r := children + [LevelChild(cursor)];
    }
  }

  method MakeInputIterator(level: nat, in0: seq<TableFile>, in1: seq<TableFile>, fetch: Handle -> seq<Entry>)
    returns (children: seq<Child>)
    ensures Yield(children, InputLists(level, in0, in1, fetch)) && Ready(children)
  {
    children := [];
    if level == 0 {
      for i := 0 to |in0|
        invariant Yield(children, Level0Children(in0, fetch)[..i])
        invariant forall c | c in children :: c.TableChild?
      {
        children := children + [TableChild(fetch(in0[i].number))];
      }
      children := AddLevel(children, in1, fetch, Level0Children(in0, fetch));
    } else {
      children := AddLevel(children, in0, fetch, []);
      assert [] + LevelLists(in0, fetch) == LevelLists(in0, fetch);
      children := AddLevel(children, in1, fetch, LevelLists(in0, fetch));
    }
  }

  // ---- The stream they merge to ----

  ghost predicate NoDuplicates(files: seq<TableFile>) {
    forall i, j | 0 <= i < j < |files| :: files[i] != files[j]
  }

  lemma {:induction false} SelectionHasNoDuplicates(files: seq<TableFile>, r: Range)
    requires NoDuplicates(files)
    ensures NoDuplicates(Select(files, r))
  {
    if files != [] {
      var n := |files| - 1;
      SelectionHasNoDuplicates(files[..n], r);
      SelectMembers(files[..n], r);
      var rest := Select(files[..n], r);
      forall i | 0 <= i < |rest| ensures rest[i] != files[n] {
        assert rest[i] in rest && rest[i] in files[..n];
      }
    }
  }

  /** Entries of different files of an ordered version have different keys. */
  lemma DifferentFiles(levels: seq<set<TableFile>>, l: nat, m: nat, f: TableFile, g: TableFile, x: Entry, y: Entry)
    requires OrderedLevels(levels) && l <= m < NUM_LEVELS && f in levels[l] && g in levels[m] && (l == m ==> f != g)
    requires x in f.entries && y in g.entries
    ensures Less(x.key, y.key) || Less(y.key, x.key)
  {
    if l < m {
      assert Newer(f, g);
    } else if l == 0 {
      assert f.number != g.number;
      assert Newer(f, g) || Newer(g, f);
    } else {
      WellFormedBounds(f);
      WellFormedBounds(g);
      assert Before(f, g) || Before(g, f);
    }
  }

  /** Every file is fetched whole. */
  ghost predicate FetchesAll(files: seq<TableFile>, fetch: Handle -> seq<Entry>) {
    forall f | f in files :: fetch(f.number) == f.entries
  }

  ghost predicate FromFile(files: seq<TableFile>, e: Entry) {
    exists f :: f in files && e in f.entries
  }

  lemma LevelListFacts(files: seq<TableFile>, fetch: Handle -> seq<Entry>)
    requires SortedLevel(files) && FetchesAll(files, fetch)
    ensures AllSorted(LevelLists(files, fetch)) && NoneShareKeys(LevelLists(files, fetch))
    ensures forall e :: InSome(LevelLists(files, fetch), e) <==> FromFile(files, e)
  {
    if files != [] {
      var flat := Flat(LevelIndex(files), fetch);
      FlatFromFiles(files, fetch, |files|);
      forall e ensures e in flat <==> FromFile(files, e) { InLevel(files, fetch, e); }
      assert LevelLists(files, fetch)[0] == flat;
      assert forall e :: InSome([flat], e) <==> e in flat by {
        assert flat in [flat];
      }
    }
  }

  lemma Level0ListFacts(levels: seq<set<TableFile>>, files: seq<TableFile>, fetch: Handle -> seq<Entry>)
    requires OrderedLevels(levels) && FileSet(files) <= levels[0] && NoDuplicates(files) && FetchesAll(files, fetch)
    ensures AllSorted(Level0Children(files, fetch)) && NoneShareKeys(Level0Children(files, fetch))
    ensures forall e :: InSome(Level0Children(files, fetch), e) <==> FromFile(files, e)
  {
    var lists := Level0Children(files, fetch);
    forall i | 0 <= i < |files|
      ensures files[i] in levels[0] && lists[i] == files[i].entries && SortedEntries(lists[i])
    {
      assert files[i] in FileSet(files);
      assert WellFormed(files[i]);
    }
    forall i, j, x: Entry, y: Entry | 0 <= i < j < |lists| && x in lists[i] && y in lists[j]
      ensures Less(x.key, y.key) || Less(y.key, x.key)
    {
      DifferentFiles(levels, 0, 0, files[i], files[j], x, y);
    }
    forall e ensures InSome(lists, e) <==> FromFile(files, e) { Level0Members(files, fetch, e); }
  }

  /** Two groups of lists, the first from a shallower level than the second. */
  lemma JoinLists(levels: seq<set<TableFile>>, l: nat, in0: seq<TableFile>, lists0: seq<seq<Entry>>,
                  in1: seq<TableFile>,
                  lists1: seq<seq<Entry>>)
    requires OrderedLevels(levels) && l + 1 < NUM_LEVELS && FileSet(in0) <= levels[l] && FileSet(in1) <= levels[l + 1]
    requires AllSorted(lists0) && NoneShareKeys(lists0) && forall e :: InSome(lists0, e) <==> FromFile(in0, e)
    requires AllSorted(lists1) && NoneShareKeys(lists1) && forall e :: InSome(lists1, e) <==> FromFile(in1, e)
    ensures AllSorted(lists0 + lists1) && NoneShareKeys(lists0 + lists1)
    ensures forall e :: InSome(lists0 + lists1, e) <==> FromFile(in0, e) || FromFile(in1, e)
  {
    forall i, j, x: Entry, y: Entry | 0 <= i < |lists0| && 0 <= j < |lists1| && x in lists0[i] && y in lists1[j]
      ensures Less(x.key, y.key) || Less(y.key, x.key)
    {
      assert InSome(lists0, x) && InSome(lists1, y);
      var f :| f in in0 && x in f.entries;
      var g :| g in in1 && y in g.entries;
      assert f in FileSet(in0) && g in FileSet(in1);
      DifferentFiles(levels, l, l + 1, f, g, x, y);
    }
    forall e ensures InSome(lists0 + lists1, e) <==> InSome(lists0, e) || InSome(lists1, e) {
      InOneMore(lists0, lists1, e);
    }
  }

  lemma ListedIsSorted(level: nat, files: seq<TableFile>, inputs: seq<TableFile>)
    requires level > 0 && SortedLevel(files) && AsListed(level, files, inputs)
    ensures SortedLevel(inputs) && FileSet(inputs) <= FileSet(files)
  {
    var a: nat, b: nat :| IsSlice(files, inputs, a, b);
    forall i | 0 <= i < |inputs| ensures inputs[i] == files[a + i] {}
    forall f | f in inputs ensures f in files {
      var i :| 0 <= i < |inputs| && inputs[i] == f;
      assert files[a + i] == f;
    }
  }

  lemma ListedHasNoDuplicates(files: seq<TableFile>, inputs: seq<TableFile>)
    requires NoDuplicates(files) && AsListed(0, files, inputs)
    ensures NoDuplicates(inputs) && FileSet(inputs) <= FileSet(files)
  {
    var r :| IsSelection(files, inputs, r);
    SelectionHasNoDuplicates(files, r);
    SelectMembers(files, r);
  }

  /** The inputs as compactions choose them. */
  ghost predicate AreInputs(levels: seq<seq<TableFile>>, level: nat, in0: seq<TableFile>, in1: seq<TableFile>) {
    && ValidLevels(levels) && OrderedLevels(LevelSets(levels)) && NoDuplicates(levels[0]) && level + 1 < NUM_LEVELS
    && AsListed(level, levels[level], in0) && AsListed(level + 1, levels[level + 1], in1)
  }

  lemma MergedEntries(lists: seq<seq<Entry>>, in0: seq<TableFile>, in1: seq<TableFile>)
    requires forall e :: InSome(lists, e) <==> FromFile(in0, e) || FromFile(in1, e)
    ensures EntrySet(MergeAll(lists)) == EntriesIn(FileSet(in0) + FileSet(in1))
  {
    MergeAllMembers(lists);
    forall e ensures e in MergeAll(lists) <==> e in EntriesIn(FileSet(in0) + FileSet(in1)) {
      assert e in MergeAll(lists) <==> FromFile(in0, e) || FromFile(in1, e);
    }
  }

  /** The merged stream is sorted, with no key twice, and holds exactly the entries of the inputs. */
  lemma InputIsSorted(levels: seq<seq<TableFile>>, level: nat, in0: seq<TableFile>, in1: seq<TableFile>,
                      fetch: Handle -> seq<Entry>)
    requires AreInputs(levels, level, in0, in1) && FetchesAll(in0, fetch) && FetchesAll(in1, fetch)
    ensures SortedEntries(MergeAll(InputLists(level, in0, in1, fetch)))
    ensures EntrySet(MergeAll(InputLists(level, in0, in1, fetch))) == EntriesIn(FileSet(in0) + FileSet(in1))
  {
    var sets := LevelSets(levels);
    if level == 0 {
      ListedHasNoDuplicates(levels[0], in0);
      Level0ListFacts(sets, in0, fetch);
    } else {
      ListedIsSorted(level, levels[level], in0);
      LevelListFacts(in0, fetch);
    }
    ListedIsSorted(level + 1, levels[level + 1], in1);
    LevelListFacts(in1, fetch);
    var lists0 := if level == 0 then Level0Children(in0, fetch) else LevelLists(in0, fetch);
    JoinLists(sets, level, in0, lists0, in1, LevelLists(in1, fetch));
    MergeAllIsSorted(lists0 + LevelLists(in1, fetch));
    MergedEntries(lists0 + LevelLists(in1, fetch), in0, in1);
  }
}
