/** The output loop of DBImpl::DoCompactionWork (project/db_impl.cc): which entries of the merged inputs
    survive, and where one output file ends and the next begins. */
module CompactionWork {
  import opened InternalKeys
  import opened TableFiles
  import opened FileSearch
  import opened Compactions

  // ---- The drop rule, said about positions in the merged input ----

  /** Rule (A): an earlier entry of the same user key is already visible to every snapshot. */
  ghost predicate Shadowed(input: seq<Entry>, i: nat, snapshot: Sequence)
    requires i < |input|
  {
    exists j :: 0 <= j < i && input[j].key.user == input[i].key.user && input[j].key.sequence <= snapshot
  }

  /** A deletion every snapshot sees, of a key nothing below the output level can hold. */
  ghost predicate Obsolete(e: Entry, snapshot: Sequence, levels: seq<seq<TableFile>>, level: nat) {
    e.key.kind.TypeDeletion? && e.key.sequence <= snapshot && BaseLevel(levels, level, e.key.user)
  }

  /** The surviving entries among the first `n`. */
  ghost function Kept(input: seq<Entry>, n: nat, snapshot: Sequence, levels: seq<seq<TableFile>>,
                      level: nat): seq<Entry>
    requires n <= |input|
  {
    if n == 0 then []
    else
      Kept(input, n - 1, snapshot, levels, level)
      + if Shadowed(input, n - 1, snapshot) || Obsolete(input[n - 1], snapshot, levels, level) then []
        else [input[n - 1]]
  }

  // ---- Output files ----

  function Flatten(outputs: seq<seq<Entry>>): seq<Entry> {
    if outputs == [] then [] else Flatten(outputs[..|outputs| - 1]) + outputs[|outputs| - 1]
  }

  /** Bytes of the grandparent files that end inside the output file. */
  function PassedInside(grandparents: seq<TableFile>, es: seq<Entry>): nat
    requires es != []
  {
    var a, b := CountBelow(grandparents, es[0].key), CountBelow(grandparents, es[|es| - 1].key);
    if a <= b then TotalFileSize(grandparents[a..b]) else 0
  }

  /** An output file overlaps a bounded part of the grandparents, and is closed once it is large. */
  ghost predicate GoodOutput(grandparents: seq<TableFile>, maxFileSize: nat, fileSize: seq<Entry> -> nat,
                             es: seq<Entry>) {
    && es != []
    && PassedInside(grandparents, es) <= MaxGrandParentOverlapBytes(maxFileSize)
    && forall i | 0 < i < |es| :: fileSize(es[..i]) < maxFileSize
  }

  lemma CountBelowMonotone(files: seq<TableFile>, a: InternalKey, b: InternalKey)
    requires LargestNondecreasing(files) && AtMost(a, b)
    ensures CountBelow(files, a) <= CountBelow(files, b)
  {
    var n, m := CountBelow(files, a), CountBelow(files, b);
    assert forall i | 0 <= i < n :: Less(files[i].largest, b);
  }

  lemma {:induction false} TotalFileSizeSplit(files: seq<TableFile>, a: nat, b: nat, c: nat)
    requires a <= b <= c <= |files|
    ensures TotalFileSize(files[a..c]) == TotalFileSize(files[a..b]) + TotalFileSize(files[b..c])
  {
    if b < c {
      TotalFileSizeSplit(files, a, b, c - 1);
      assert files[a..c][..c - a - 1] == files[a..c - 1];
      assert files[b..c][..c - b - 1] == files[b..c - 1];
    }
  }

  ghost predicate Charged(grandparents: seq<TableFile>, current: seq<Entry>, index: nat, bytes: nat)
    requires current != [] && index <= |grandparents|
  {
    && CountBelow(grandparents, current[0].key) <= index
    && CountBelow(grandparents, current[|current| - 1].key) <= index
    && TotalFileSize(grandparents[CountBelow(grandparents, current[0].key)..index]) <= bytes
  }

  /** The open output, given where the grandparent cursor stands and the bytes charged so far. */
  ghost predicate Building(grandparents: seq<TableFile>, maxFileSize: nat, fileSize: seq<Entry> -> nat,
                           current: seq<Entry>, index: nat, bytes: nat) {
    && bytes <= MaxGrandParentOverlapBytes(maxFileSize)
    && index <= |grandparents|
    && (forall n | 0 < n <= |current| :: fileSize(current[..n]) < maxFileSize)
    && (current != [] ==> Charged(grandparents, current, index, bytes))
  }

  lemma ChargedBoundsPassed(grandparents: seq<TableFile>, current: seq<Entry>, index: nat, bytes: nat)
    requires current != [] && index <= |grandparents| && Charged(grandparents, current, index, bytes)
    ensures PassedInside(grandparents, current) <= bytes
  {
    var a, b := CountBelow(grandparents, current[0].key), CountBelow(grandparents, current[|current| - 1].key);
    if a <= b { TotalFileSizeSplit(grandparents, a, b, index); }
  }

  lemma BuildingAdvance(grandparents: seq<TableFile>, maxFileSize: nat, fileSize: seq<Entry> -> nat,
                        current: seq<Entry>, index: nat, bytes: nat, next: nat)
    requires Building(grandparents, maxFileSize, fileSize, current, index, bytes) && index <= next <= |grandparents|
    requires bytes + TotalFileSize(grandparents[index..next]) <= MaxGrandParentOverlapBytes(maxFileSize)
    ensures Building(grandparents, maxFileSize, fileSize, current, next,
                     bytes + TotalFileSize(grandparents[index..next]))
  {
    if current != [] {
      TotalFileSizeSplit(grandparents, CountBelow(grandparents, current[0].key), index, next);
    }
  }

  lemma BuildingIsGood(grandparents: seq<TableFile>, maxFileSize: nat, fileSize: seq<Entry> -> nat,
                       current: seq<Entry>, index: nat, bytes: nat)
    requires current != [] && Building(grandparents, maxFileSize, fileSize, current, index, bytes)
    ensures GoodOutput(grandparents, maxFileSize, fileSize, current)
  {
    ChargedBoundsPassed(grandparents, current, index, bytes);
  }

  lemma BuildingAdd(grandparents: seq<TableFile>, maxFileSize: nat, fileSize: seq<Entry> -> nat,
                    current: seq<Entry>, index: nat, bytes: nat, e: Entry)
    requires Building(grandparents, maxFileSize, fileSize, current, index, bytes)
    requires index == CountBelow(grandparents, e.key)
    ensures fileSize(current + [e]) >= maxFileSize ==> GoodOutput(grandparents, maxFileSize, fileSize, current + [e])
    ensures fileSize(current + [e]) < maxFileSize ==>
              Building(grandparents, maxFileSize, fileSize, current + [e], index, bytes)
  {
    var more := current + [e];
    assert forall n | 0 < n <= |current| :: more[..n] == current[..n];
    assert more[..|more|] == more;
    assert more[0] == if current == [] then e else current[0];
    assert Charged(grandparents, more, index, bytes) by {
      if current == [] { assert grandparents[index..index] == []; }
    }
    ChargedBoundsPassed(grandparents, more, index, bytes);
  }

  /** In sorted input the entry just before decides rule (A). */
  lemma ShadowedByPrevious(input: seq<Entry>, i: nat, snapshot: Sequence)
    requires SortedEntries(input) && i < |input|
    ensures Shadowed(input, i, snapshot) <==>
              i > 0 && input[i - 1].key.user == input[i].key.user && input[i - 1].key.sequence <= snapshot
  {
    if j :| 0 <= j < i && input[j].key.user == input[i].key.user && input[j].key.sequence <= snapshot {
      if j < i - 1 {
        assert Less(input[j].key, input[i - 1].key) && Less(input[i - 1].key, input[i].key);
      }
    }
  }

  /** What the loop remembers of the entry before position `i`. The sequence number above every
      snapshot stands for "no entry of this key seen yet". */
  ghost predicate Remembers(input: seq<Entry>, i: nat, currentUserKey: Option<UserKey>, lastSequenceForKey: Sequence) {
    if i == 0 then currentUserKey.None?
    else
      && i <= |input| && currentUserKey == Some(input[i - 1].key.user)
      && lastSequenceForKey == input[i - 1].key.sequence
  }

  /** The drop decision for one entry. */
  method ShouldDrop(c: Compaction, input: seq<Entry>, i: nat, snapshot: Sequence,
                    currentUserKey: Option<UserKey>, lastSequenceForKey: Sequence) returns (drop: bool)
    requires ValidLevels(c.levels) && i < |input| && SortedEntries(input) && snapshot < MAX_SEQUENCE
    requires c.Behind(input[i].key.user) && Remembers(input, i, currentUserKey, lastSequenceForKey)
    modifies c.levelPtrs
    ensures c.Behind(input[i].key.user)
    ensures drop <==> Shadowed(input, i, snapshot) || Obsolete(input[i], snapshot, c.levels, c.level)
  {
    var key := input[i].key;
    var last := if currentUserKey != Some(key.user) then MAX_SEQUENCE else lastSequenceForKey;
    ShadowedByPrevious(input, i, snapshot);
    drop := false;
    if last <= snapshot {
      drop := true;
    } else if key.kind.TypeDeletion? && key.sequence <= snapshot {
      drop := c.IsBaseLevelForKey(key.user);
    }
  }

  /** FinishCompactionOutputFile: the open builder becomes the next output. */
  method Finish(outputs: seq<seq<Entry>>, current: seq<Entry>) returns (r: seq<seq<Entry>>)
    ensures r == outputs + [current] && Flatten(r) == Flatten(outputs) + current
  {
    r := outputs + [current];
    assert r[..|r| - 1] == outputs;
  }

  /** Why an output ends before the last kept entry: it is large, or the grandparents are. */
  ghost predicate ClosedEarly(c: Compaction, fileSize: seq<Entry> -> nat, o: seq<Entry>)
    reads c
  {
    fileSize(o) >= c.maxFileSize || TotalFileSize(c.grandparents) > MaxGrandParentOverlapBytes(c.maxFileSize)
  }

  lemma ChargedFromStart(files: seq<TableFile>, a: nat, b: nat)
    requires a <= b <= |files|
    ensures TotalFileSize(files[..b]) == TotalFileSize(files[..a]) + TotalFileSize(files[a..b])
    ensures TotalFileSize(files[..b]) <= TotalFileSize(files)
  {
    TotalFileSizeSplit(files, 0, a, b);
    TotalFileSizeSplit(files, 0, b, |files|);
    assert files[0..a] == files[..a] && files[0..b] == files[..b] && files[0..|files|] == files;
  }

  ghost predicate AllGood(c: Compaction, fileSize: seq<Entry> -> nat, outputs: seq<seq<Entry>>)
    reads c
  {
    forall o | o in outputs :: GoodOutput(c.grandparents, c.maxFileSize, fileSize, o)
  }

  /** The finished outputs, and the open one charged up to the grandparent cursor. */
  ghost predicate Progress(c: Compaction, fileSize: seq<Entry> -> nat, outputs: seq<seq<Entry>>, current: seq<Entry>)
    reads c
  {
    && AllGood(c, fileSize, outputs)
    && (forall o | o in outputs :: ClosedEarly(c, fileSize, o))
    && Building(c.grandparents, c.maxFileSize, fileSize, current, c.grandparentIndex, c.overlappedBytes)
    && c.overlappedBytes <= TotalFileSize(c.grandparents[..c.grandparentIndex])
    && (current != [] ==> c.seenKey)
  }

  /** Before an entry: close the open output if it has passed too many grandparent bytes. */
  method StopBefore(c: Compaction, key: InternalKey, fileSize: seq<Entry> -> nat, outputs: seq<seq<Entry>>,
                    current: seq<Entry>)
    returns (done: seq<seq<Entry>>, open: seq<Entry>)
    requires LargestNondecreasing(c.grandparents) && c.grandparentIndex <= CountBelow(c.grandparents, key)
    requires Progress(c, fileSize, outputs, current)
    modifies c`grandparentIndex, c`seenKey, c`overlappedBytes
    ensures Progress(c, fileSize, done, open) && c.grandparentIndex == CountBelow(c.grandparents, key) && c.seenKey
    ensures Flatten(done) + open == Flatten(outputs) + current
  {
    done, open := outputs, current;
    ghost var before, charged := c.grandparentIndex, c.overlappedBytes;
    var stop := c.ShouldStopBefore(key);
    ChargedFromStart(c.grandparents, before, c.grandparentIndex);
    if current != [] {
      if stop {
        BuildingIsGood(c.grandparents, c.maxFileSize, fileSize, current, before, charged);
        done := Finish(outputs, current);
        open := [];
      } else {
        BuildingAdvance(c.grandparents, c.maxFileSize, fileSize, current, before, charged, c.grandparentIndex);
      }
    }
  }

  /** Add a kept entry, and close the output once it is large. */
  method AddKept(c: Compaction, e: Entry, fileSize: seq<Entry> -> nat, outputs: seq<seq<Entry>>, current: seq<Entry>)
    returns (done: seq<seq<Entry>>, open: seq<Entry>)
    requires c.grandparentIndex == CountBelow(c.grandparents, e.key) && c.seenKey
    requires Progress(c, fileSize, outputs, current)
    ensures Progress(c, fileSize, done, open)
    ensures Flatten(done) + open == Flatten(outputs) + current + [e]
  {
    BuildingAdd(c.grandparents, c.maxFileSize, fileSize, current, c.grandparentIndex, c.overlappedBytes, e);
    done, open := outputs, current + [e];
    if fileSize(open) >= c.maxFileSize {
      done := Finish(outputs, open);
      open := [];
    }
    assert Flatten(outputs) + (current + [e]) == Flatten(outputs) + current + [e];
  }

  ghost predicate WorkingAt(c: Compaction, input: seq<Entry>, i: nat, snapshot: Sequence, fileSize: seq<Entry> -> nat,
                            outputs: seq<seq<Entry>>, current: seq<Entry>)
    reads c, c.levelPtrs
  {
    && i <= |input|
    && Flatten(outputs) + current == Kept(input, i, snapshot, c.levels, c.level)
    && (i < |input| ==> c.Behind(input[i].key.user))
    && c.grandparentIndex == (if i == 0 then 0 else CountBelow(c.grandparents, input[i - 1].key))
    && Progress(c, fileSize, outputs, current)
  }

  /** The state of the loop before entry `i`. */
  ghost predicate Working(c: Compaction, input: seq<Entry>, i: nat, snapshot: Sequence, fileSize: seq<Entry> -> nat,
                          outputs: seq<seq<Entry>>, current: seq<Entry>)
    reads c, c.levelPtrs
  {
    exists n: nat :: n == i && WorkingAt(c, input, n, snapshot, fileSize, outputs, current)
  }

  lemma BehindNext(c: Compaction, input: seq<Entry>, i: nat)
    requires SortedEntries(input) && i < |input| && c.Behind(input[i].key.user)
    ensures i + 1 < |input| ==> c.Behind(input[i + 1].key.user)
  {
    if i + 1 < |input| { assert Less(input[i].key, input[i + 1].key); }
  }

  /** The body of the loop. */
  method WorkOn(c: Compaction, input: seq<Entry>, i: nat, snapshot: Sequence, fileSize: seq<Entry> -> nat,
                currentUserKey: Option<UserKey>, lastSequenceForKey: Sequence, outputs: seq<seq<Entry>>,
                current: seq<Entry>)
    returns (done: seq<seq<Entry>>, open: seq<Entry>, nextUserKey: Option<UserKey>, nextSequence: Sequence)
    requires ValidLevels(c.levels) && LargestNondecreasing(c.grandparents)
    requires SortedEntries(input) && i < |input| && snapshot < MAX_SEQUENCE
    requires Remembers(input, i, currentUserKey, lastSequenceForKey)
    requires Working(c, input, i, snapshot, fileSize, outputs, current)
    modifies c`grandparentIndex, c`seenKey, c`overlappedBytes, c.levelPtrs
    ensures Working(c, input, i + 1, snapshot, fileSize, done, open)
    ensures Remembers(input, i + 1, nextUserKey, nextSequence)
  {
    var e := input[i];
    if i > 0 { CountBelowMonotone(c.grandparents, input[i - 1].key, e.key); }
    done, open := StopBefore(c, e.key, fileSize, outputs, current);
    var drop := ShouldDrop(c, input, i, snapshot, currentUserKey, lastSequenceForKey);
    if !drop {
      done, open := AddKept(c, e, fileSize, done, open);
    }
    nextUserKey, nextSequence := Some(e.key.user), e.key.sequence;
    BehindNext(c, input, i);
    assert WorkingAt(c, input, i + 1, snapshot, fileSize, done, open);
  }

  /** After the last entry: what is still open becomes the last output. */
  method CloseLast(c: Compaction, ghost input: seq<Entry>, ghost snapshot: Sequence, fileSize: seq<Entry> -> nat,
                   outputs: seq<seq<Entry>>, current: seq<Entry>)
    returns (done: seq<seq<Entry>>)
    requires ValidLevels(c.levels) && Working(c, input, |input|, snapshot, fileSize, outputs, current)
    ensures Flatten(done) == Kept(input, |input|, snapshot, c.levels, c.level) && AllGood(c, fileSize, done)
    ensures forall i | 0 <= i < |done| - 1 :: ClosedEarly(c, fileSize, done[i])
  {
    done := outputs;
    if current != [] {
      BuildingIsGood(c.grandparents, c.maxFileSize, fileSize, current, c.grandparentIndex, c.overlappedBytes);
      done := Finish(outputs, current);
    }
  }

  lemma WorkStarts(c: Compaction, input: seq<Entry>, snapshot: Sequence, fileSize: seq<Entry> -> nat)
    requires ValidLevels(c.levels) && c.CursorsStart()
    ensures Working(c, input, 0, snapshot, fileSize, [], [])
  {
    assert WorkingAt(c, input, 0, snapshot, fileSize, [], []);
  }

  /** The loop over the merged inputs. */
  method WorkThrough(c: Compaction, input: seq<Entry>, snapshot: Sequence, fileSize: seq<Entry> -> nat)
    returns (outputs: seq<seq<Entry>>, current: seq<Entry>)
    requires ValidLevels(c.levels) && LargestNondecreasing(c.grandparents)
    requires SortedEntries(input) && snapshot < MAX_SEQUENCE && Working(c, input, 0, snapshot, fileSize, [], [])
    modifies c`grandparentIndex, c`seenKey, c`overlappedBytes, c.levelPtrs
    ensures Working(c, input, |input|, snapshot, fileSize, outputs, current)
  {
    outputs, current := [], [];              // `current`: the entries of the open builder; none if it is closed
    var currentUserKey: Option<UserKey> := None;
    var lastSequenceForKey: Sequence := MAX_SEQUENCE;
    for i := 0 to |input|
      invariant Working(c, input, i, snapshot, fileSize, outputs, current)
      invariant Remembers(input, i, currentUserKey, lastSequenceForKey)
    {
      outputs, current, currentUserKey, lastSequenceForKey :=
        WorkOn(c, input, i, snapshot, fileSize, currentUserKey, lastSequenceForKey, outputs, current);
    }
  }

  /** What is dropped and what is kept, and how the outputs are cut. A mid-loop flush of the immutable
      memtable touches none of this state. */
  method DoCompactionWork(c: Compaction, input: seq<Entry>, smallestSnapshot: Sequence, fileSize: seq<Entry> -> nat)
    returns (outputs: seq<seq<Entry>>)
    requires ValidLevels(c.levels) && c.CursorsStart() && LargestNondecreasing(c.grandparents)
    requires SortedEntries(input) && smallestSnapshot < MAX_SEQUENCE
    modifies c`grandparentIndex, c`seenKey, c`overlappedBytes, c.levelPtrs
    ensures Flatten(outputs) == Kept(input, |input|, smallestSnapshot, c.levels, c.level)
    ensures AllGood(c, fileSize, outputs)
    ensures forall i | 0 <= i < |outputs| - 1 :: ClosedEarly(c, fileSize, outputs[i])
  {
    WorkStarts(c, input, smallestSnapshot, fileSize);
    var current;
    outputs, current := WorkThrough(c, input, smallestSnapshot, fileSize);
    outputs := CloseLast(c, input, smallestSnapshot, fileSize, outputs, current);
  }
}
