/** Why the entries a compaction drops are never missed (rules (1) to (3) in DBImpl::DoCompactionWork). */
module DropRule {
  import opened InternalKeys
  import opened TableFiles
  import opened Compactions
  import opened CompactionWork

  ghost function EntriesIn(files: set<TableFile>): set<Entry> {
    set f, e | f in files && e in f.entries :: e
  }

  /** No file of `deeper` can hold the user key. */
  ghost predicate NotBelow(deeper: set<TableFile>, k: UserKey) {
    forall f | f in deeper :: !Contains(f, k)
  }

  ghost predicate ShadowedIn(I: set<Entry>, e: Entry, snapshot: Sequence) {
    exists x :: x in I && x.key.user == e.key.user && e.key.sequence < x.key.sequence <= snapshot
  }

  ghost predicate ObsoleteIn(e: Entry, snapshot: Sequence, deeper: set<TableFile>) {
    e.key.kind.TypeDeletion? && e.key.sequence <= snapshot && NotBelow(deeper, e.key.user)
  }

  /** What survives a compaction of the entries `I`. */
  ghost function KeptSet(I: set<Entry>, snapshot: Sequence, deeper: set<TableFile>): set<Entry> {
    set e | e in I && !ShadowedIn(I, e, snapshot) && !ObsoleteIn(e, snapshot, deeper)
  }

  /** The files two or more levels below `level`. */
  ghost function Deeper(levels: seq<set<TableFile>>, level: nat): set<TableFile> {
    set l, f | level + 2 <= l < |levels| && f in levels[l] :: f
  }

  lemma BaseLevelIsNotBelow(levels: seq<seq<TableFile>>, level: nat, k: UserKey)
    ensures BaseLevel(levels, level, k) <==> NotBelow(Deeper(LevelSets(levels), level), k)
  {
    if BaseLevel(levels, level, k) {
      forall f | f in Deeper(LevelSets(levels), level) ensures !Contains(f, k) {
        var l :| level + 2 <= l < |levels| && f in LevelSets(levels)[l];
      }
    } else {
      var l, f :| level + 2 <= l < |levels| && f in levels[l] && Contains(f, k);
      assert f in LevelSets(levels)[l];
    }
  }

  /** Entries of one user key come newest first. */
  lemma BeforeIsNewer(input: seq<Entry>, i: nat, j: nat)
    requires SortedEntries(input) && DistinctSequences(EntrySet(input)) && i < j < |input|
    requires input[i].key.user == input[j].key.user
    ensures input[i].key.sequence > input[j].key.sequence
  {
    assert Less(input[i].key, input[j].key);
    assert input[i] in EntrySet(input) && input[j] in EntrySet(input);
  }

  lemma ShadowIsNewer(input: seq<Entry>, i: nat, snapshot: Sequence)
    requires SortedEntries(input) && DistinctSequences(EntrySet(input)) && i < |input| && Shadowed(input, i, snapshot)
    ensures ShadowedIn(EntrySet(input), input[i], snapshot)
  {
    var j :| 0 <= j < i && input[j].key.user == input[i].key.user && input[j].key.sequence <= snapshot;
    BeforeIsNewer(input, j, i);
    assert input[j] in EntrySet(input);
  }

  lemma ShadowedIsShadowedIn(input: seq<Entry>, i: nat, snapshot: Sequence)
    requires SortedEntries(input) && DistinctSequences(EntrySet(input)) && i < |input|
    ensures Shadowed(input, i, snapshot) <==> ShadowedIn(EntrySet(input), input[i], snapshot)
  {
    if Shadowed(input, i, snapshot) {
      ShadowIsNewer(input, i, snapshot);
    }
    if x :|
      && x in EntrySet(input) && x.key.user == input[i].key.user
      && input[i].key.sequence < x.key.sequence <= snapshot {
      var j :| 0 <= j < |input| && input[j] == x;
      assert !(i < j) by {
        if i < j { BeforeIsNewer(input, i, j); }
      }
    }
  }

  lemma KeepStep(kept: seq<Entry>, prefix: seq<Entry>, last: Entry, S: set<Entry>)
    requires EntrySet(kept) == S * EntrySet(prefix)
    ensures EntrySet(kept + if last in S then [last] else []) == S * EntrySet(prefix + [last])
  {
    var more := kept + if last in S then [last] else [];
    forall e
      ensures e in EntrySet(more) <==> e in S * EntrySet(prefix + [last])
    {
      assert e in kept <==> e in EntrySet(kept);
      assert e in prefix <==> e in EntrySet(prefix);
    }
  }

  lemma {:induction false} KeptPrefix(input: seq<Entry>, n: nat, snapshot: Sequence, levels: seq<seq<TableFile>>,
                                      level: nat, S: set<Entry>)
    requires n <= |input|
    requires forall i | 0 <= i < |input| ::
               input[i] in S <==> !(Shadowed(input, i, snapshot) || Obsolete(input[i], snapshot, levels, level))
    ensures EntrySet(Kept(input, n, snapshot, levels, level)) == S * EntrySet(input[..n])
  {
    if n == 0 {
      assert input[..0] == [];
    } else {
      KeptPrefix(input, n - 1, snapshot, levels, level, S);
      KeepStep(Kept(input, n - 1, snapshot, levels, level), input[..n - 1], input[n - 1], S);
      assert input[..n] == input[..n - 1] + [input[n - 1]];
    }
  }

  lemma KeptMembership(input: seq<Entry>, i: nat, snapshot: Sequence, levels: seq<seq<TableFile>>, level: nat)
    requires SortedEntries(input) && DistinctSequences(EntrySet(input)) && i < |input|
    ensures input[i] in KeptSet(EntrySet(input), snapshot, Deeper(LevelSets(levels), level))
       <==> !(Shadowed(input, i, snapshot) || Obsolete(input[i], snapshot, levels, level))
  {
    ShadowedIsShadowedIn(input, i, snapshot);
    BaseLevelIsNotBelow(levels, level, input[i].key.user);
    assert input[i] in EntrySet(input);
  }

  /** The loop keeps exactly the entries the rule keeps. */
  lemma KeptIsKeptSet(input: seq<Entry>, snapshot: Sequence, levels: seq<seq<TableFile>>, level: nat)
    requires SortedEntries(input) && DistinctSequences(EntrySet(input))
    ensures EntrySet(Kept(input, |input|, snapshot, levels, level))
         == KeptSet(EntrySet(input), snapshot, Deeper(LevelSets(levels), level))
  {
    var S := KeptSet(EntrySet(input), snapshot, Deeper(LevelSets(levels), level));
    forall i | 0 <= i < |input|
      ensures input[i] in S <==> !(Shadowed(input, i, snapshot) || Obsolete(input[i], snapshot, levels, level))
    {
      KeptMembership(input, i, snapshot, levels, level);
    }
    KeptPrefix(input, |input|, snapshot, levels, level, S);
    assert input[..|input|] == input;
    assert S * EntrySet(input) == S;
  }

  /** The loop's output is sorted. */
  lemma {:induction false} KeptIsSorted(input: seq<Entry>, n: nat, snapshot: Sequence, levels: seq<seq<TableFile>>,
                                        level: nat)
    requires SortedEntries(input) && n <= |input|
    ensures SortedEntries(Kept(input, n, snapshot, levels, level))
    ensures forall e | e in Kept(input, n, snapshot, levels, level) :: e in input[..n]
  {
    if n > 0 {
      KeptIsSorted(input, n - 1, snapshot, levels, level);
      var k := Kept(input, n - 1, snapshot, levels, level);
      assert input[..n] == input[..n - 1] + [input[n - 1]];
      forall i | 0 <= i < |k| ensures Less(k[i].key, input[n - 1].key) {
        assert k[i] in input[..n - 1];
        var j :| 0 <= j < n - 1 && input[j] == k[i];
      }
    }
  }

  /** Where the rest of the database holds something older than a compacted entry, it is below. */
  ghost predicate OlderIsBelow(rest: set<Entry>, I: set<Entry>, deeper: set<TableFile>) {
    forall a, b | a in rest && b in I && a.key.user == b.key.user && a.key.sequence < b.key.sequence ::
      !NotBelow(deeper, a.key.user)
  }

  /** A compaction changes no read at or above the smallest snapshot: shadowed entries are never the
      newest visible one, and a dropped deletion leaves nothing older behind to come back. */
  lemma DroppingIsInvisible(rest: set<Entry>, I: set<Entry>, snapshot: Sequence, deeper: set<TableFile>,
                            k: UserKey, s: Sequence, r: Option<Value>)
    requires DistinctSequences(rest + I) && OlderIsBelow(rest, I, deeper)
    requires snapshot <= s && Yields(rest + I, k, s, r)
    ensures Yields(rest + KeptSet(I, snapshot, deeper), k, s, r)
  {
    var O := KeptSet(I, snapshot, deeper);
    if e :| IsNewest(rest + I, e, k, s) && r == ValueOf(e) {
      if e in rest + O {
        assert IsNewest(rest + O, e, k, s);
      } else {
        assert e in I && !ShadowedIn(I, e, snapshot) && ObsoleteIn(e, snapshot, deeper);
        forall x | x in rest + O ensures !Visible(x, k, s) {
          assert x in rest + I;
          if Visible(x, k, s) && x in I {
            assert ShadowedIn(I, x, snapshot);
          }
        }
      }
    }
  }
}
