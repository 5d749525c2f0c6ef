/** The one way a level loses its order: a memtable flushed during a manual compaction may be placed at the
    output level, in a gap between the compaction's inputs, and an output that spans the gap then overlaps
    it. This module says exactly when that can happen, and takes the code's own algorithms through it. */
module ManualGap {
  import opened InternalKeys
  import opened TableFiles
  import opened FileSearch
  import opened ReadPath
  import opened CompactionInputs
  import opened Compactions
  import opened CompactionWork
  import opened DropRule
  import opened LevelUpdates
  import opened MemTables
  import opened OutputFiles
  import opened Builders
  import opened VersionSets
  import opened Installs
  import Databases
  import I = InputIterators
  import L = Lsm
  import LsmCompactions
  import LsmFlushes
  import LsmWrites

  // ---- When a flush is safe ----

  ghost predicate IsWritten(p: L.Pending, grandparents: seq<TableFile>, outputs: set<TableFile>, numbers: set<nat>,
                            maxFileSize: nat, fileSize: seq<Entry> -> nat)
  {
    && L.IsOutputOf(p.(outputs := numbers), outputs)
    && forall o | o in outputs :: GoodOutput(grandparents, maxFileSize, fileSize, o.entries)
  }

  /** Some choice of numbers and of file sizes makes the loop write these files. */
  ghost predicate MayWrite(p: L.Pending, grandparents: seq<TableFile>, outputs: set<TableFile>) {
    exists numbers: set<nat>, maxFileSize: nat, fileSize: seq<Entry> -> nat ::
      IsWritten(p, grandparents, outputs, numbers, maxFileSize, fileSize)
  }

  /** The levels once `f` has been flushed to the output level and the compaction then installed. */
  ghost function After(levels: seq<set<TableFile>>, p: L.Pending, f: TableFile, outputs: set<TableFile>)
    : seq<set<TableFile>>
    requires p.level + 1 < |levels|
  {
    Replaced(WithFile(levels, p.level + 1, f), p.level, p.in0, p.in1, outputs)
  }

  /** A flush to the output level of a running compaction, as PickLevelForMemTableOutput allows it. */
  ghost predicate MayPlaceThere(levels: seq<set<TableFile>>, p: L.Pending, f: TableFile) {
    && OrderedLevels(levels) && DistinctSequences(EntriesOf(levels)) && L.AroundInv(levels, p)
    && WellFormed(f) && NewestOf(f, EntriesOf(levels)) && ClearDownTo(levels, p.level + 1, f)
  }

  lemma OneSideIsSafe(levels: seq<set<TableFile>>, p: L.Pending, f: TableFile, numbers: set<nat>,
                      outputs: set<TableFile>)
    requires MayPlaceThere(levels, p, f) && OneSide(f, L.KeptOf(p)) && L.IsOutputOf(p.(outputs := numbers), outputs)
    ensures OrderedLevels(After(levels, p, f, outputs))
  {
    var q := p.(outputs := numbers);
    AddNewest(levels, p.level + 1, f);
    LsmFlushes.AroundPlaced(levels, q, f, p.level + 1);
    LsmCompactions.FinishOrder(WithFile(levels, p.level + 1, f), q, outputs);
  }

  /** A set of entries in sorted order. */
  lemma Sorted(S: set<Entry>) returns (es: seq<Entry>)
    requires DistinctSequences(S)
    ensures SortedEntries(es) && EntrySet(es) == S
    decreases |S|
  {
    es := [];
    if S != {} {
      var e :| e in S;
      var rest := Sorted(S - {e});
      var i := LowerBound(rest, e.key);
      forall j | i <= j < |rest| ensures Less(e.key, rest[j].key) {
        assert rest[j] in EntrySet(rest);
      }
      InsertedIsSorted(rest, i, e);
      InsertedEntries(rest, i, e);
      es := rest[..i] + [e] + rest[i..];
    }
  }

  lemma PartIsNoLarger(files: seq<TableFile>, a: nat, b: nat)
    requires a <= b <= |files|
    ensures TotalFileSize(files[a..b]) <= TotalFileSize(files)
  {
    ChargedFromStart(files, a, b);
  }

  function NoSize(es: seq<Entry>): nat { 0 }

  /** With files that count as small, the loop writes one file. */
  lemma UncutIsGood(grandparents: seq<TableFile>, es: seq<Entry>)
    requires es != []
    ensures GoodOutput(grandparents, TotalFileSize(grandparents) + 1, NoSize, es)
  {
    var a, b := CountBelow(grandparents, es[0].key), CountBelow(grandparents, es[|es| - 1].key);
    if a <= b { PartIsNoLarger(grandparents, a, b); }
  }

  lemma KeptIsDistinct(levels: seq<set<TableFile>>, p: L.Pending)
    requires DistinctSequences(EntriesOf(levels)) && L.AroundInv(levels, p)
    ensures DistinctSequences(L.KeptOf(p))
  {
    forall e | e in L.KeptOf(p) ensures e in EntriesOf(levels) {
      var g :| g in p.in0 + p.in1 && e in g.entries;
      EntryIsStored(levels, if g in p.in0 then p.level else p.level + 1, g, e);
    }
  }

  lemma BothSides(f: TableFile, S: set<Entry>) returns (a: Entry, b: Entry)
    requires !OneSide(f, S)
    ensures a in S && b in S && !Less(f.largest, a.key) && !Less(b.key, f.smallest)
  {
    a :| a in S && !Less(f.largest, a.key);
    b :| b in S && !Less(b.key, f.smallest);
  }

  /** All entries in one file. */
  function Uncut(number: nat, es: seq<Entry>): TableFile
    requires es != []
  {
    TableFile(number, 0, es[0].key, es[|es| - 1].key, es)
  }

  lemma UncutIsOutput(p: L.Pending, es: seq<Entry>, number: nat)
    requires SortedEntries(es) && es != [] && EntrySet(es) == L.KeptOf(p)
    ensures L.IsOutputOf(p.(outputs := {number}), {Uncut(number, es)})
  {
    var o := Uncut(number, es);
    assert o in {o};
    assert EntriesIn({o}) == EntrySet(es);
    assert L.AreFilesWith({o}, {number}, L.KeptOf(p));
  }

  lemma UncutIsWritten(p: L.Pending, grandparents: seq<TableFile>, es: seq<Entry>, number: nat)
    requires SortedEntries(es) && es != [] && EntrySet(es) == L.KeptOf(p)
    ensures MayWrite(p, grandparents, {Uncut(number, es)})
  {
    UncutIsOutput(p, es, number);
    UncutIsGood(grandparents, es);
    assert IsWritten(p, grandparents, {Uncut(number, es)}, {number}, TotalFileSize(grandparents) + 1, NoSize);
  }

  lemma UncutSpans(f: TableFile, es: seq<Entry>, number: nat, a: Entry, b: Entry)
    requires SortedEntries(es) && WellFormed(f) && a in EntrySet(es) && b in EntrySet(es)
    requires !Less(f.largest, a.key) && !Less(b.key, f.smallest)
    ensures es != [] && !Before(f, Uncut(number, es)) && !Before(Uncut(number, es), f)
  {
    WellFormedBounds(Uncut(number, es));
  }

  /** Entries on both sides of the file can end up in one file around it. */
  lemma BothSidesOverlap(p: L.Pending, f: TableFile, grandparents: seq<TableFile>) returns (o: TableFile)
    requires WellFormed(f) && DistinctSequences(L.KeptOf(p)) && !OneSide(f, L.KeptOf(p))
    ensures MayWrite(p, grandparents, {o}) && o != f && !Before(f, o) && !Before(o, f)
  {
    var es := Sorted(L.KeptOf(p));
    var a, b := BothSides(f, L.KeptOf(p));
    var n := f.number + 1;
    UncutSpans(f, es, n, a, b);
    o := Uncut(n, es);
    UncutIsWritten(p, grandparents, es, n);
  }

  lemma FirstIsStored(levels: seq<set<TableFile>>, l: nat, f: TableFile)
    requires l < |levels| && WellFormed(f)
    ensures f in levels[l] ==> f.entries[0] in EntriesOf(levels)
  {
    assert f.entries[0] in f.entries;
  }

  lemma NewestIsNoInput(levels: seq<set<TableFile>>, p: L.Pending, f: TableFile)
    requires MayPlaceThere(levels, p, f)
    ensures f !in p.in1
  {
    FirstIsStored(levels, p.level + 1, f);
    assert f.entries[0] in f.entries;
  }

  lemma BothSidesIsUnsafe(levels: seq<set<TableFile>>, p: L.Pending, f: TableFile, grandparents: seq<TableFile>)
    returns (outputs: set<TableFile>)
    requires MayPlaceThere(levels, p, f) && !OneSide(f, L.KeptOf(p))
    ensures MayWrite(p, grandparents, outputs) && !OrderedLevels(After(levels, p, f, outputs))
  {
    KeptIsDistinct(levels, p);
    NewestIsNoInput(levels, p, f);
    var o := BothSidesOverlap(p, f, grandparents);
    outputs := {o};
    var after := After(levels, p, f, outputs);
    assert f in after[p.level + 1] && o in after[p.level + 1];
    assert !Disjoint(after[p.level + 1]);
  }

  /** Whatever files the loop writes, the levels stay in order, exactly if what the compaction keeps lies on
      one side of the flushed table. */
  lemma FlushIsSafeIffOneSide(levels: seq<set<TableFile>>, p: L.Pending, f: TableFile, grandparents: seq<TableFile>)
    requires MayPlaceThere(levels, p, f)
    ensures (forall outputs: set<TableFile> | MayWrite(p, grandparents, outputs) ::
               OrderedLevels(After(levels, p, f, outputs)))
       <==> OneSide(f, L.KeptOf(p))
  {
    if OneSide(f, L.KeptOf(p)) {
      forall outputs: set<TableFile> | MayWrite(p, grandparents, outputs)
        ensures OrderedLevels(After(levels, p, f, outputs))
      {
        var numbers, maxFileSize, fileSize :| IsWritten(p, grandparents, outputs, numbers, maxFileSize, fileSize);
        OneSideIsSafe(levels, p, f, numbers, outputs);
      }
    } else {
      var outputs := BothSidesIsUnsafe(levels, p, f, grandparents);
    }
  }

  /** So the one condition that the state machine puts on flushes, and the code does not check, is exactly
      what is needed: with a manual compaction running, a memtable table may go to its output level if and only
      if no output can then break the order there. */
  lemma GuardIsExact(s: L.State, f: TableFile, grandparents: seq<TableFile>)
    requires L.Inv(s) && s.pending.Some? && !s.pending.value.automatic
    requires s.imm.Some? && L.IsTableFor(f, s.imm.value) && ClearDownTo(s.levels, s.pending.value.level + 1, f)
    ensures L.KeepsClear(s, s.pending.value.level + 1, f)
       <==> forall outputs: set<TableFile> | MayWrite(s.pending.value, grandparents, outputs) ::
              OrderedLevels(After(s.levels, s.pending.value, f, outputs))
  {
    LsmWrites.StoredDistinct(s);
    LsmFlushes.TableIsNewest(f, s.imm.value, EntriesOf(s.levels));
    FlushIsSafeIffOneSide(s.levels, s.pending.value, f, grandparents);
  }

  /** Inputs without gaps, such as every automatic compaction has, are on one side of any table that does not
      meet them. */
  lemma GaplessIsOneSide(inputs: set<TableFile>, f: TableFile, kept: set<Entry>)
    requires WellFormed(f) && Gapless(inputs) && kept <= EntriesIn(inputs)
    requires forall g | g in inputs :: WellFormed(g) && !RangesMeet(f, g)
    ensures OneSide(f, kept)
  {
    LsmFlushes.GaplessOutside(inputs, f);
    OutsideIsOneSide(f, inputs);
    FewerOneSide(f, EntriesIn(inputs), kept);
  }

  // ---- An unsafe one ----

  function FileOf(number: nat, e: Entry): TableFile {
    TableFile(number, 1, e.key, e.key, [e])
  }

  function One(): Entry { Entry(InternalKey(1.0, 1, TypeValue), "one") }
  function Nine(): Entry { Entry(InternalKey(9.0, 2, TypeValue), "nine") }
  function Five(): Entry { Entry(InternalKey(5.0, 3, TypeValue), "five") }

  /** Level 1 holds keys 1 and 9, in two files. */
  function Start(): seq<seq<TableFile>> {
    [[], [FileOf(1, One()), FileOf(2, Nine())], [], [], [], [], []]
  }

  lemma StartIsOrdered()
    ensures ValidLevels(Start()) && OrderedLevels(LevelSets(Start())) && OrderedLists(Start())
    ensures forall l, g | 0 <= l < NUM_LEVELS && g in Start()[l] ::
              l == 1 && (g == FileOf(1, One()) || g == FileOf(2, Nine()))
  {
    forall l, g | 0 <= l < NUM_LEVELS && g in LevelSets(Start())[l]
      ensures l == 1 && (g == FileOf(1, One()) || g == FileOf(2, Nine()))
    {
      assert g in Start()[l];
    }
  }

  const WHOLE_RANGE := Range(None, None)

  lemma BothSelected()
    ensures Select(Start()[1], WHOLE_RANGE) == Start()[1]
  {
    var files := Start()[1];
    assert files[..1] == [files[0]] && files[..1][..0] == [];
    assert Select(files[..1][..0], WHOLE_RANGE) == [];
    assert Select(files[..1], WHOLE_RANGE) == [files[0]];
  }

  lemma FirstIsSmall()
    ensures TotalFileSize(Start()[1][..1]) == 1
  {
    var files := Start()[1];
    assert files[..1] == [files[0]] && files[..1][..0] == [];
    assert TotalFileSize(files[..1][..0]) == 0;
  }

  lemma AllOfTwo(files: seq<TableFile>, n: nat)
    requires |files| == 2 && IsShortest(files, 100, n) && TotalFileSize(files[..1]) < 100
    ensures files[..n] == files
  {
  }

  lemma BothAreTaken(taken: set<TableFile>)
    requires TakesRange(1, Start()[1], WHOLE_RANGE, 100, taken)
    ensures FileOf(1, One()) in taken && FileOf(2, Nine()) in taken
  {
    BothSelected();
    FirstIsSmall();
    var files := Start()[1];
    var n: nat :| IsShortest(Select(files, WHOLE_RANGE), 100, n) && FileSet(Select(files, WHOLE_RANGE)[..n]) <= taken;
    AllOfTwo(files, n);
    assert FileSet(files) <= taken && files[0] in FileSet(files) && files[1] in FileSet(files);
  }

  lemma StartSets()
    ensures LevelSets(Start())[1] == {FileOf(1, One()), FileOf(2, Nine())}
    ensures forall l | 0 <= l < NUM_LEVELS && l != 1 :: LevelSets(Start())[l] == {}
  {
    var files := Start()[1];
    assert files[0] == FileOf(1, One()) && files[1] == FileOf(2, Nine());
  }

  lemma OnlyBoth(c: Compaction)
    requires Chosen(c, Start()) && c.level == 1
    ensures FileSet(c.inputs0) <= {FileOf(1, One()), FileOf(2, Nine())} && FileSet(c.inputs1) == {}
  {
    StartSets();
    assert InputsClosed(LevelSets(Start()), 1, FileSet(c.inputs0), FileSet(c.inputs1));
  }

  method CompactAll() returns (c: Compaction)
    ensures fresh(c) && fresh(c.levelPtrs) && Chosen(c, Start()) && c.level == 1 && c.maxFileSize == 100
    ensures TakesRange(1, Start()[1], WHOLE_RANGE, 100, FileSet(c.inputs0))
  {
    StartIsOrdered();
    BothSelected();
    var r, _ := CompactRange(Start(), 1, None, None, seq(NUM_LEVELS, _ => None), 100);
    c := r.value;
  }

  /** The manual compaction of everything at level 1 takes both files, and nothing below them. */
  method CompactBoth() returns (c: Compaction)
    ensures fresh(c) && fresh(c.levelPtrs) && Chosen(c, Start()) && c.level == 1 && c.maxFileSize == 100
    ensures FileSet(c.inputs0) == {FileOf(1, One()), FileOf(2, Nine())} && FileSet(c.inputs1) == {}
  {
    c := CompactAll();
    BothAreTaken(FileSet(c.inputs0));
    OnlyBoth(c);
  }

  lemma NothingAt(r: Range)
    ensures Select([], r) == [] && TotalFileSize([]) == 0
  {
  }

  lemma NothingKeepsFive(r: Range)
    requires r == Range(Some(5.0), Some(5.0))
    ensures !OverlapInLevel(Start(), 0, r) && MayPush(Start(), 0, r, 100) && MayPush(Start(), 1, r, 100)
  {
    NothingAt(r);
    assert !OverlapInLevel(Start(), 0, r) && !OverlapInLevel(Start(), 1, r) && !OverlapInLevel(Start(), 2, r);
  }

  /** Key 5 overlaps neither, and so goes to level 2. */
  method PlaceFive() returns (level: nat)
    ensures level == 2
  {
    StartIsOrdered();
    NothingKeepsFive(Range(Some(5.0), Some(5.0)));
    level := PickLevelForMemTableOutput(Start(), 5.0, 5.0, 2, 100);
  }

  lemma LastEntry(es: seq<Entry>)
    requires SortedEntries(es) && es != []
    ensures forall e | e in es :: e == es[|es| - 1] || Less(e.key, es[|es| - 1].key)
    ensures EntrySet(es[..|es| - 1]) == EntrySet(es) - {es[|es| - 1]}
  {
    var n := |es| - 1;
    assert es == es[..n] + [es[n]];
    assert forall i | 0 <= i < n :: Less(es[i].key, es[n].key);
  }

  /** Two sorted lists of the same entries are the same list. */
  lemma {:induction false} SortedUnique(a: seq<Entry>, b: seq<Entry>)
    requires SortedEntries(a) && SortedEntries(b) && EntrySet(a) == EntrySet(b)
    ensures a == b
  {
    assert a != [] ==> a[0] in EntrySet(a);
    assert b != [] ==> b[0] in EntrySet(b);
    if a != [] && b != [] {
      var x, y := a[|a| - 1], b[|b| - 1];
      LastEntry(a);
      LastEntry(b);
      assert x in EntrySet(b) && y in EntrySet(a);
      SortedUnique(a[..|a| - 1], b[..|b| - 1]);
      assert a == a[..|a| - 1] + [x] && b == b[..|b| - 1] + [y];
    }
  }

  lemma PairInOrder(es: seq<Entry>)
    requires SortedEntries(es) && EntrySet(es) == {One(), Nine()}
    ensures es == [One(), Nine()]
  {
    var pair := [One(), Nine()];
    assert EntrySet(pair) == {One(), Nine()} by { assert pair[0] == One() && pair[1] == Nine(); }
    SortedUnique(es, pair);
  }

  lemma PairIsKept(snapshot: Sequence, deeper: set<TableFile>)
    requires snapshot == 2
    ensures KeptSet({One(), Nine()}, snapshot, deeper) == {One(), Nine()}
  {
  }

  lemma PairDistinct()
    ensures DistinctSequences({One(), Nine()})
  {
  }

  function Fetch(n: nat): seq<Entry> {
    if n == 1 then [One()] else if n == 2 then [Nine()] else []
  }

  lemma InputsOfBoth(in0: set<TableFile>, in1: set<TableFile>)
    requires in0 == {FileOf(1, One()), FileOf(2, Nine())} && in1 == {}
    ensures EntriesIn(in0 + in1) == {One(), Nine()}
  {
    assert FileOf(1, One()) in in0 + in1 && FileOf(2, Nine()) in in0 + in1;
    assert One() in FileOf(1, One()).entries && Nine() in FileOf(2, Nine()).entries;
  }

  lemma SomeFiles(files: seq<TableFile>)
    ensures files != [] ==> FileSet(files) != {}
  {
    if files != [] { assert files[0] in FileSet(files); }
  }

  lemma NoFiles(files: seq<TableFile>)
    requires FileSet(files) == {}
    ensures files == []
  {
    SomeFiles(files);
  }

  lemma FetchesBoth(in0: seq<TableFile>, in1: seq<TableFile>)
    requires FileSet(in0) == {FileOf(1, One()), FileOf(2, Nine())} && FileSet(in1) == {}
    ensures I.FetchesAll(in0, Fetch) && I.FetchesAll(in1, Fetch)
  {
    forall f | f in in0 ensures Fetch(f.number) == f.entries { assert f in FileSet(in0); }
    NoFiles(in1);
  }

  lemma NoGrandparents(c: Compaction)
    requires Chosen(c, Start()) && c.level == 1
    ensures c.grandparents == []
  {
    assert IsGrandparents(Start(), 1, c.inputs0 + c.inputs1, c.grandparents);
    var start, limit :|
      && IsHull(c.inputs0 + c.inputs1, start, limit)
      && c.grandparents == Select(Start()[3], UserHull(start, limit));
    NothingAt(UserHull(start, limit));
  }

  function UnitSize(es: seq<Entry>): nat { 1 }

  lemma OnlyPart(kept: seq<seq<Entry>>)
    requires |kept| <= 1 && Flatten(kept) != []
    ensures kept == [Flatten(kept)]
  {
    assert kept[..0] == [];
    assert [] + kept[0] == kept[0];
  }

  /** Small files without grandparents are never closed early. */
  lemma OneOutput(c: Compaction, kept: seq<seq<Entry>>)
    requires c.grandparents == [] && c.maxFileSize == 100 && Flatten(kept) == [One(), Nine()]
    requires forall i | 0 <= i < |kept| - 1 :: ClosedEarly(c, UnitSize, kept[i])
    ensures kept == [[One(), Nine()]]
  {
    assert forall o :: !ClosedEarly(c, UnitSize, o);
    OnlyPart(kept);
  }

  method ReadPair(c: Compaction) returns (input: seq<Entry>)
    requires Chosen(c, Start()) && c.level == 1
    requires FileSet(c.inputs0) == {FileOf(1, One()), FileOf(2, Nine())} && FileSet(c.inputs1) == {}
    ensures input == [One(), Nine()]
  {
    StartIsOrdered();
    InputsOfBoth(FileSet(c.inputs0), FileSet(c.inputs1));
    FetchesBoth(c.inputs0, c.inputs1);
    input := Databases.ReadInputs(c, Fetch);
    PairInOrder(input);
  }

  lemma PairIsInput(input: seq<Entry>)
    requires input == [One(), Nine()]
    ensures SortedEntries(input) && EntrySet(input) == {One(), Nine()}
  {
    assert input[0] == One() && input[1] == Nine();
  }

  /** All is kept, and in one output. */
  lemma KeepsPair(c: Compaction, input: seq<Entry>, snapshot: Sequence, kept: seq<seq<Entry>>)
    requires c.grandparents == [] && c.maxFileSize == 100 && input == [One(), Nine()] && snapshot == 2
    requires Flatten(kept) == Kept(input, |input|, snapshot, c.levels, c.level)
    requires forall i | 0 <= i < |kept| - 1 :: ClosedEarly(c, UnitSize, kept[i])
    ensures kept == [[One(), Nine()]]
  {
    PairIsInput(input);
    PairDistinct();
    KeptIsSortedSet(kept, input, snapshot, c.levels, c.level);
    PairIsKept(snapshot, Deeper(LevelSets(c.levels), c.level));
    PairInOrder(Flatten(kept));
    OneOutput(c, kept);
  }

  lemma ReadyToWork(c: Compaction)
    requires Chosen(c, Start()) && c.level == 1
    ensures ValidLevels(c.levels) && c.CursorsStart() && c.grandparents == []
  {
    StartIsOrdered();
    NoGrandparents(c);
  }

  method CutPair(c: Compaction, input: seq<Entry>) returns (kept: seq<seq<Entry>>)
    requires ValidLevels(c.levels) && c.CursorsStart() && c.grandparents == [] && c.maxFileSize == 100
    requires input == [One(), Nine()]
    modifies c`grandparentIndex, c`seenKey, c`overlappedBytes, c.levelPtrs
    ensures kept == [[One(), Nine()]]
  {
    var snapshot: Sequence := 2;
    PairIsInput(input);
    kept := DoCompactionWork(c, input, snapshot, UnitSize);
    KeepsPair(c, input, snapshot, kept);
  }

  /** The compaction writes one file with keys 1 and 9. */
  method WritePair(c: Compaction) returns (o: TableFile)
    requires Chosen(c, Start()) && c.level == 1 && c.maxFileSize == 100
    requires FileSet(c.inputs0) == {FileOf(1, One()), FileOf(2, Nine())} && FileSet(c.inputs1) == {}
    modifies c`grandparentIndex, c`seenKey, c`overlappedBytes, c.levelPtrs
    ensures o == TableFile(4, 1, One().key, Nine().key, [One(), Nine()])
  {
    var input := ReadPair(c);
    ReadyToWork(c);
    var kept := CutPair(c, input);
    var outputs := BuildFiles(kept, 4, UnitSize);
    o := TableFile(4, 1, outputs[0].smallest, outputs[0].largest, outputs[0].entries);
  }

  // ---- What the two edits lead to ----

  function Flushed(): TableFile { FileOf(3, Five()) }
  function Written(): TableFile { TableFile(4, 1, One().key, Nine().key, [One(), Nine()]) }

  lemma AddsOne(edit: VersionEdit, level: nat, f: TableFile)
    requires edit.newFiles == [(level, f)]
    ensures forall l: nat :: AddedAt(edit, l) == if l == level then {f} else {}
  {
    assert (level, f) in edit.newFiles;
  }

  lemma FreshByNumber(current: seq<seq<TableFile>>, edit: VersionEdit, numbers: set<nat>)
    requires |current| == NUM_LEVELS && ValidEdit(edit)
    requires forall l, g | 0 <= l < NUM_LEVELS && g in current[l] :: g.number in numbers
    requires forall l, g | 0 <= l < NUM_LEVELS && g in AddedAt(edit, l) :: g.number !in numbers
    requires forall l | 0 <= l < NUM_LEVELS :: NumbersName(AddedAt(edit, l))
    ensures FreshOn(current, edit)
  {
    var b := EmptyBatch(LevelSets(current));
    forall l | 0 <= l < NUM_LEVELS
      ensures Numbers(AddedAt(edit, l)) !! Numbers(FileSet(current[l]))
      ensures b.base[l] + b.added[l] == FileSet(current[l])
    {
    }
  }

  lemma FlushIsFresh(edit: VersionEdit)
    requires edit.deletedFiles == [] && edit.newFiles == [(2, Flushed())]
    ensures FreshOn(Start(), edit)
  {
    StartIsOrdered();
    AddsOne(edit, 2, Flushed());
    FreshByNumber(Start(), edit, {1, 2});
  }

  /** Level by level, as sets: both old files, and the flushed one. */
  ghost predicate IsMiddle(v: seq<seq<TableFile>>) {
    && OrderedLists(v) && LevelSets(v)[1] == {FileOf(1, One()), FileOf(2, Nine())} && LevelSets(v)[2] == {Flushed()}
    && forall l | 0 <= l < NUM_LEVELS && l != 1 && l != 2 :: LevelSets(v)[l] == {}
  }

  lemma KeepsAndAdds(files: set<TableFile>, added: set<TableFile>)
    ensures LevelAfter(files, {}, added) == files + added
  {
    assert {} - Numbers(added) == {};
  }

  /** CompactMemTable installs key 5 at level 2. */
  method InstallFlush(level: nat) returns (v: seq<seq<TableFile>>)
    requires level == 2
    ensures IsMiddle(v)
  {
    var edit := VersionEdit([], [(level, Flushed())], None, None, None);
    StartIsOrdered();
    FlushIsFresh(edit);
    v := BuildNext(Start(), edit);
    AddsOne(edit, 2, Flushed());
    assert forall l: nat :: DeletedAt(edit, l) == {};
    StartSets();
    forall l | 0 <= l < NUM_LEVELS
      ensures LevelSets(v)[l] == LevelSets(Start())[l] + if l == 2 then {Flushed()} else {}
    {
      KeepsAndAdds(LevelSets(Start())[l], AddedAt(edit, l));
    }
  }

  /** Level 2 lists the written file first, and then the flushed one inside its range. */
  ghost predicate IsEnd(v: seq<seq<TableFile>>) {
    && |v| == NUM_LEVELS && v[2] == [Written(), Flushed()]
    && forall l | 0 <= l < NUM_LEVELS && l != 2 :: v[l] == []
  }

  lemma MiddleNumbers(v: seq<seq<TableFile>>)
    requires IsMiddle(v)
    ensures forall l, g | 0 <= l < NUM_LEVELS && g in v[l] :: g.number in {1, 2, 3}
  {
    forall l, g | 0 <= l < NUM_LEVELS && g in v[l] ensures g.number in {1, 2, 3} {
      assert g in LevelSets(v)[l];
    }
  }

  lemma NumbersOfBoth()
    ensures Numbers({FileOf(1, One()), FileOf(2, Nine())}) == {1, 2} && Numbers({}) == {}
  {
    var files := {FileOf(1, One()), FileOf(2, Nine())};
    assert FileOf(1, One()) in files && FileOf(2, Nine()) in files;
  }

  lemma EndSets(v: seq<seq<TableFile>>, edit: VersionEdit, w: seq<seq<TableFile>>)
    requires IsMiddle(v) && |w| == NUM_LEVELS && LevelSets(w) == VersionAfter(LevelSets(v), edit)
    requires forall l: nat :: AddedAt(edit, l) == if l == 2 then {Written()} else {}
    requires forall l: nat :: DeletedAt(edit, l) == if l == 1 then {1, 2} else {}
    ensures LevelSets(w)[2] == {Flushed(), Written()}
    ensures forall l | 0 <= l < NUM_LEVELS && l != 2 :: LevelSets(w)[l] == {}
  {
    KeepsAndAdds({Flushed()}, {Written()});
    KeepsAndAdds({}, {});
    assert LevelAfter({FileOf(1, One()), FileOf(2, Nine())}, {1, 2}, {}) == {} by {
      assert Numbers({}) == {};
    }
  }

  lemma EndLists(w: seq<seq<TableFile>>)
    requires OrderedLists(w) && LevelSets(w)[2] == {Flushed(), Written()}
    requires forall l | 0 <= l < NUM_LEVELS && l != 2 :: LevelSets(w)[l] == {}
    ensures IsEnd(w)
  {
    forall l | 0 <= l < NUM_LEVELS && l != 2 ensures w[l] == [] {
      NoFiles(w[l]);
    }
    var list := [Written(), Flushed()];
    assert BySmallestKey(Written(), Flushed());
    assert FileSet(list) == {Flushed(), Written()} by { assert list[0] == Written() && list[1] == Flushed(); }
    OrderedListUnique(w[2], list);
  }

  /** InstallCompactionResults puts the written file there too. */
  method InstallPair(v: seq<seq<TableFile>>, in0: seq<TableFile>, in1: seq<TableFile>, o: TableFile)
    returns (w: seq<seq<TableFile>>)
    requires IsMiddle(v) && o == Written()
    requires FileSet(in0) == {FileOf(1, One()), FileOf(2, Nine())} && FileSet(in1) == {}
    ensures IsEnd(w)
  {
    var edit := VersionEdit(Deletions(1, in0) + Deletions(2, in1), LevelFiles(2, [o]), None, None, None);
    AddsToOneLevel(edit, 2, [o]);
    assert FileSet([o]) == {o};
    MiddleNumbers(v);
    FreshByNumber(v, edit, {1, 2, 3});
    w := BuildNext(v, edit);
    forall l: nat ensures DeletedAt(edit, l) == if l == 1 then {1, 2} else {} {
      DeletesInputs(edit, 1, in0, in1, l);
      NumbersOfBoth();
    }
    EndSets(v, edit, w);
    EndLists(w);
  }

  // ---- What a reader then sees ----

  lemma LooksOnlyIntoPair(k: UserKey, s: Sequence)
    requires k == 5.0 && s == 3
    ensures AllWellFormed([Written(), Flushed()]) && Silent([Written(), Flushed()], k, s)
  {
    var files := [Written(), Flushed()];
    assert Written().entries[0] == One() && Written().entries[1] == Nine();
    LowerBoundUnique(Written().entries, LookupKey(k, s), 1);
    forall index: nat | IsCut(files, LookupKey(k, s), index) ensures LookAt(files, index, k, s).NotFound? {
      assert files[0] == Written() && files[1] == Flushed();
      assert index == 0;
    }
  }

  lemma NothingToLookAt(k: UserKey, s: Sequence)
    ensures AllWellFormed([]) && Silent([], k, s)
  {
  }

  /** Version::Get does not find key 5. */
  method ReadFive(w: seq<seq<TableFile>>) returns (r: Option<Value>)
    requires IsEnd(w)
    ensures r.None?
  {
    LooksOnlyIntoPair(5.0, 3);
    NothingToLookAt(5.0, 3);
    var version := new Version(w);
    r := version.Get(5.0, 3);
  }

  lemma FiveIsThere(w: seq<seq<TableFile>>)
    requires IsEnd(w)
    ensures !OrderedLevels(LevelSets(w)) && Yields(EntriesOf(LevelSets(w)), 5.0, 3, Some("five"))
  {
    var S := EntriesOf(LevelSets(w));
    assert Written() in LevelSets(w)[2] && Flushed() in LevelSets(w)[2];
    assert !Before(Written(), Flushed()) && !Before(Flushed(), Written());
    assert !Disjoint(LevelSets(w)[2]);
    forall e | e in S ensures e == One() || e == Nine() || e == Five() {
      var l, f :| 0 <= l < NUM_LEVELS && f in LevelSets(w)[l] && e in f.entries;
      assert f in w[l] && l == 2;
      assert f == w[2][0] || f == w[2][1];
    }
    assert Five() in Flushed().entries;
    EntryIsStored(LevelSets(w), 2, Flushed(), Five());
    assert IsNewest(S, Five(), 5.0, 3) && ValueOf(Five()) == Some("five");
  }

  /** Through the code's own steps: a manual compaction of level 1 takes the files of keys 1 and 9; key 5 is
      flushed meanwhile, and PickLevelForMemTableOutput puts it at level 2; the compaction writes one file with
      keys 1 and 9 and installs it there. The levels are out of order, and a read of key 5, which is stored,
      finds nothing. */
  method FlushIntoGap() returns (levels: seq<seq<TableFile>>, r: Option<Value>)
    ensures |levels| == NUM_LEVELS && !OrderedLevels(LevelSets(levels))
    ensures Yields(EntriesOf(LevelSets(levels)), 5.0, 3, Some("five")) && r.None?
  {
    var c := CompactBoth();
    var level := PlaceFive();
    var flushed := InstallFlush(level);
    var o := WritePair(c);
    levels := InstallPair(flushed, c.inputs0, c.inputs1, o);
    r := ReadFive(levels);
    FiveIsThere(levels);
  }
}
