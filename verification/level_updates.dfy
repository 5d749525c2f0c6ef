/** What each rearrangement of the levels needs in order to keep them ordered. */
module LevelUpdates {
  import opened InternalKeys
  import opened TableFiles
  import opened CompactionInputs
  import opened DropRule

  /** Every entry of `f` was written after everything in `S`. */
  ghost predicate NewestOf(f: TableFile, S: set<Entry>) {
    forall a, b | a in f.entries && b in S :: a.key.sequence > b.key.sequence
  }

  /** Nothing in the levels down to `l` meets the range of `f`. */
  ghost predicate ClearDownTo(levels: seq<set<TableFile>>, l: nat, f: TableFile) {
    forall m, g | 0 <= m <= l && m < |levels| && g in levels[m] :: !RangesMeet(f, g)
  }

  lemma SharedKeyMeets(f: TableFile, g: TableFile, a: Entry, b: Entry)
    requires WellFormed(f) && WellFormed(g)
    requires a in f.entries && b in g.entries && a.key.user == b.key.user
    ensures RangesMeet(f, g) && Contains(f, a.key.user)
  {
    WellFormedBounds(f);
    WellFormedBounds(g);
  }

  lemma ApartIsNewer(f: TableFile, g: TableFile)
    requires WellFormed(f) && WellFormed(g) && !RangesMeet(f, g)
    ensures Newer(f, g) && Newer(g, f) && (Before(f, g) || Before(g, f))
  {
    WellFormedBounds(f);
    WellFormedBounds(g);
  }

  lemma BeforeIsNewer(f: TableFile, g: TableFile, S: set<Entry>)
    requires WellFormed(f) && WellFormed(g) && Before(f, g)
    requires DistinctSequences(S) && EntrySet(f.entries) <= S && EntrySet(g.entries) <= S
    ensures Newer(f, g)
  {
    WellFormedBounds(f);
    WellFormedBounds(g);
    forall a, b | a in f.entries && b in g.entries && a.key.user == b.key.user
      ensures a.key.sequence > b.key.sequence
    {
      assert a in EntrySet(f.entries) && b in EntrySet(g.entries);
    }
  }

  lemma EntryIsStored(levels: seq<set<TableFile>>, l: nat, f: TableFile, e: Entry)
    requires l < |levels| && f in levels[l] && e in f.entries
    ensures e in EntriesOf(levels)
  {
  }

  lemma NewestIsNewer(levels: seq<set<TableFile>>, l: nat, f: TableFile, g: TableFile)
    requires NewestOf(f, EntriesOf(levels)) && l < |levels| && g in levels[l]
    ensures Newer(f, g)
  {
    forall b | b in g.entries ensures b in EntriesOf(levels) {}
  }

  function WithFile(levels: seq<set<TableFile>>, l: nat, f: TableFile): seq<set<TableFile>>
    requires l < |levels|
  {
    levels[l := levels[l] + {f}]
  }

  lemma WithFileEntries(levels: seq<set<TableFile>>, l: nat, f: TableFile)
    requires l < |levels|
    ensures EntriesOf(WithFile(levels, l, f)) == EntriesOf(levels) + EntrySet(f.entries)
  {
    var more := WithFile(levels, l, f);
    forall e ensures e in EntriesOf(more) <==> e in EntriesOf(levels) + EntrySet(f.entries) {
      if e in EntriesOf(levels) {
        var m, g :| 0 <= m < |levels| && g in levels[m] && e in g.entries;
        assert g in more[m];
      }
      if e in f.entries { assert f in more[l]; }
    }
  }

  /** The newest data may be placed at level 0, or at any level down to which nothing overlaps it. */
  lemma AddNewest(levels: seq<set<TableFile>>, l: nat, f: TableFile)
    requires OrderedLevels(levels) && l < NUM_LEVELS && WellFormed(f)
    requires NewestOf(f, EntriesOf(levels))
    requires l > 0 ==> ClearDownTo(levels, l, f)
    requires l == 0 ==> forall g | g in levels[0] :: f.number > g.number
    ensures OrderedLevels(WithFile(levels, l, f))
    ensures EntriesOf(WithFile(levels, l, f)) == EntriesOf(levels) + EntrySet(f.entries)
  {
    var more := WithFile(levels, l, f);
    forall m, g | 0 <= m < NUM_LEVELS && g in levels[m]
      ensures Newer(f, g)
      ensures m <= l && l > 0 ==> Newer(g, f) && (Before(f, g) || Before(g, f))
    {
      NewestIsNewer(levels, m, f, g);
      if m <= l && l > 0 { ApartIsNewer(f, g); }
    }
    assert forall m | 0 <= m < NUM_LEVELS && m != l :: more[m] == levels[m];
    assert more[l] == levels[l] + {f};
    WithFileEntries(levels, l, f);
  }

  /** The levels with the inputs of a compaction taken out. */
  function Without(levels: seq<set<TableFile>>, level: nat, in0: set<TableFile>,
                   in1: set<TableFile>): seq<set<TableFile>>
    requires level + 1 < |levels|
  {
    levels[level := levels[level] - in0][level + 1 := levels[level + 1] - in1]
  }

  /** ... and the outputs put into level + 1. */
  function Replaced(levels: seq<set<TableFile>>, level: nat, in0: set<TableFile>, in1: set<TableFile>,
                    outputs: set<TableFile>): seq<set<TableFile>>
    requires level + 1 < |levels|
  {
    Without(levels, level, in0, in1)[level + 1 := levels[level + 1] - in1 + outputs]
  }

  /** What has to hold, whenever a compaction is installed, of the files around its inputs. */
  ghost predicate Surrounded(levels: seq<set<TableFile>>, level: nat, in0: set<TableFile>, in1: set<TableFile>) {
    && level + 1 < |levels| && in0 <= levels[level] && in1 <= levels[level + 1]
    && (forall f, g | f in levels[level] - in0 && g in in0 :: Newer(f, g))
    && (forall f, g | f in levels[level + 1] - in1 && g in in0 + in1 :: Newer(f, g))
  }

  /** All of `S` lies behind the file, or all of it before. */
  ghost predicate OneSide(f: TableFile, S: set<Entry>) {
    (forall e | e in S :: Less(f.largest, e.key)) || (forall e | e in S :: Less(e.key, f.smallest))
  }

  ghost predicate AllOneSide(files: set<TableFile>, S: set<Entry>) {
    forall f | f in files :: OneSide(f, S)
  }

  lemma FewerOneSide(f: TableFile, S: set<Entry>, T: set<Entry>)
    requires OneSide(f, S) && T <= S
    ensures OneSide(f, T)
  {
  }

  lemma OutsideIsOneSide(f: TableFile, files: set<TableFile>)
    requires OutsideOf(f, files) && forall g | g in files :: WellFormed(g)
    ensures OneSide(f, EntriesIn(files))
  {
    forall g | g in files
      ensures forall e | e in g.entries :: AtMost(g.smallest, e.key) && AtMost(e.key, g.largest)
    {
      WellFormedBounds(g);
    }
  }

  /** Closed inputs are surrounded by newer data only, and nothing that stays lies between their entries. */
  lemma ClosedIsSurrounded(levels: seq<set<TableFile>>, level: nat, in0: set<TableFile>, in1: set<TableFile>)
    requires OrderedLevels(levels) && DistinctSequences(EntriesOf(levels))
    requires InputsClosed(levels, level, in0, in1)
    ensures Surrounded(levels, level, in0, in1) && AllOneSide(levels[level + 1] - in1, EntriesIn(in0 + in1))
  {
    forall f | f in levels[level + 1] - in1 ensures OneSide(f, EntriesIn(in0 + in1)) {
      OutsideIsOneSide(f, in0 + in1);
    }
    forall f, g, m, n | 0 <= m < NUM_LEVELS && 0 <= n < NUM_LEVELS && f in levels[m] && g in levels[n]
                        && (RangesMeet(f, g) ==> Before(f, g))
      ensures Newer(f, g)
    {
      if RangesMeet(f, g) {
        BeforeIsNewer(f, g, EntriesOf(levels));
      } else {
        ApartIsNewer(f, g);
      }
    }
    forall f, g | f in levels[level] - in0 && g in in0 ensures Newer(f, g) {
      assert RangesMeet(f, g) ==> Before(f, g);
    }
    forall f, g | f in levels[level + 1] - in1 && g in in0 + in1 ensures Newer(f, g) {
      assert RangesMeet(f, g) ==> Before(f, g);
      assert g in levels[level] || g in levels[level + 1];
    }
  }

  lemma EntriesSplit(levels: seq<set<TableFile>>, level: nat, in0: set<TableFile>, in1: set<TableFile>,
                     outputs: set<TableFile>)
    requires level + 1 < |levels| && in0 <= levels[level] && in1 <= levels[level + 1]
    ensures EntriesOf(levels) == EntriesOf(Without(levels, level, in0, in1)) + EntriesIn(in0 + in1)
    ensures EntriesOf(Replaced(levels, level, in0, in1, outputs))
         == EntriesOf(Without(levels, level, in0, in1)) + EntriesIn(outputs)
  {
    var less, more := Without(levels, level, in0, in1), Replaced(levels, level, in0, in1, outputs);
    forall e | e in EntriesOf(levels) ensures e in EntriesOf(less) + EntriesIn(in0 + in1) {
      var m, f :| 0 <= m < |levels| && f in levels[m] && e in f.entries;
      if f !in less[m] { assert f in in0 + in1; }
    }
    forall m, f: TableFile | 0 <= m < |levels| && f in less[m] ensures f in levels[m] && f in more[m] {}
    forall e | e in EntriesOf(more) ensures e in EntriesOf(less) + EntriesIn(outputs) {
      var m, f: TableFile :| 0 <= m < |more| && f in more[m] && e in f.entries;
      if f !in less[m] { assert f in outputs; }
    }
    forall f | f in outputs ensures f in more[level + 1] {}
    forall f | f in in0 + in1 ensures f in levels[level] || f in levels[level + 1] {}
  }

  lemma OutputApart(o: TableFile, f: TableFile)
    requires WellFormed(o) && OneSide(f, EntrySet(o.entries))
    ensures Before(f, o) || Before(o, f)
  {
    assert o.entries[0] in EntrySet(o.entries) && o.entries[|o.entries| - 1] in EntrySet(o.entries);
  }

  /** An output holds only entries of the inputs, so it is as new. */
  lemma OutputLikeInputs(inputs: set<TableFile>, o: TableFile, f: TableFile)
    requires EntrySet(o.entries) <= EntriesIn(inputs)
    ensures (forall h | h in inputs :: Newer(f, h)) ==> Newer(f, o)
    ensures (forall h | h in inputs :: Newer(h, f)) ==> Newer(o, f)
  {
    forall e | e in o.entries ensures exists h :: h in inputs && e in h.entries {
      assert e in EntrySet(o.entries);
    }
  }

  /** What stays at or above the output level is newer than the inputs. */
  lemma StaysNewer(levels: seq<set<TableFile>>, level: nat, in0: set<TableFile>, in1: set<TableFile>, m: nat,
                   f: TableFile, g: TableFile)
    requires OrderedLevels(levels) && Surrounded(levels, level, in0, in1) && level + 1 < NUM_LEVELS
    requires m <= level + 1 && f in Without(levels, level, in0, in1)[m] && g in in0 + in1
    ensures Newer(f, g)
  {
    assert f in levels[m] && (m == level ==> f !in in0) && (m == level + 1 ==> f !in in1);
    if g in in0 && m < level {
      assert g in levels[level];
    } else if g in in1 && m <= level {
      assert g in levels[level + 1];
    }
  }

  lemma OutputAround(levels: seq<set<TableFile>>, level: nat, in0: set<TableFile>, in1: set<TableFile>, o: TableFile,
                     m: nat, f: TableFile)
    requires OrderedLevels(levels) && Surrounded(levels, level, in0, in1) && level + 1 < NUM_LEVELS
    requires WellFormed(o) && EntrySet(o.entries) <= EntriesIn(in0 + in1)
    requires m < NUM_LEVELS && f in levels[m]
    ensures m < level || (m == level && f !in in0) ==> Newer(f, o)
    ensures level + 1 < m ==> Newer(o, f)
    ensures m == level + 1 && f !in in1 && OneSide(f, EntrySet(o.entries)) ==> Before(f, o) || Before(o, f)
  {
    OutputLikeInputs(in0 + in1, o, f);
    if OneSide(f, EntrySet(o.entries)) { OutputApart(o, f); }
    forall h | h in in0 + in1
      ensures m < level || (m == level && f !in in0) ==> Newer(f, h)
      ensures level + 1 < m ==> Newer(h, f)
    {
      if m < level || (m == level && f !in in0) { StaysNewer(levels, level, in0, in1, m, f, h); }
      assert h in levels[level] || h in levels[level + 1];
    }
  }

  lemma ReplacedIsOrdered(levels: seq<set<TableFile>>, level: nat, in0: set<TableFile>, in1: set<TableFile>,
                          outputs: set<TableFile>)
    requires OrderedLevels(levels) && level + 1 < NUM_LEVELS
    requires Disjoint(outputs) && forall o | o in outputs :: WellFormed(o)
    requires forall o, m, f | o in outputs && 0 <= m < NUM_LEVELS && f in levels[m] ::
               && (m < level || (m == level && f !in in0) ==> Newer(f, o))
               && (level + 1 < m ==> Newer(o, f))
               && (m == level + 1 && f !in in1 ==> Before(f, o) || Before(o, f))
    ensures OrderedLevels(Replaced(levels, level, in0, in1, outputs))
  {
    var more := Replaced(levels, level, in0, in1, outputs);
    assert forall m | 0 <= m < NUM_LEVELS && m != level && m != level + 1 :: more[m] == levels[m];
    assert more[level] == levels[level] - in0 && more[level + 1] == levels[level + 1] - in1 + outputs;
    forall i, j, f, g | 0 <= i < j < NUM_LEVELS && f in more[i] && g in more[j]
      ensures Newer(f, g)
    {
      if g in outputs && j == level + 1 {
      } else if f in outputs && i == level + 1 {
      } else {
        assert f in levels[i] && g in levels[j];
      }
    }
  }

  /** Installing outputs made of the inputs' entries keeps the levels ordered, if no file that stays at
      the output level lies between those entries. */
  lemma ReplaceKeepsOrder(levels: seq<set<TableFile>>, level: nat, in0: set<TableFile>, in1: set<TableFile>,
                          outputs: set<TableFile>)
    requires OrderedLevels(levels) && Surrounded(levels, level, in0, in1) && level + 1 < NUM_LEVELS
    requires Disjoint(outputs) && forall o | o in outputs :: WellFormed(o)
    requires EntriesIn(outputs) <= EntriesIn(in0 + in1)
    requires AllOneSide(levels[level + 1] - in1, EntriesIn(outputs))
    ensures OrderedLevels(Replaced(levels, level, in0, in1, outputs))
  {
    forall o, m, f | o in outputs && 0 <= m < NUM_LEVELS && f in levels[m]
      ensures m < level || (m == level && f !in in0) ==> Newer(f, o)
      ensures level + 1 < m ==> Newer(o, f)
      ensures m == level + 1 && f !in in1 ==> Before(f, o) || Before(o, f)
    {
      assert EntrySet(o.entries) <= EntriesIn(outputs);
      OutputAround(levels, level, in0, in1, o, m, f);
      if m == level + 1 && f !in in1 { FewerOneSide(f, EntriesIn(outputs), EntrySet(o.entries)); }
    }
    ReplacedIsOrdered(levels, level, in0, in1, outputs);
  }
}
