/** The filter block of project/filter_block.cc: one filter for the whole table, at the byte level. */
module FilterBlocks {

  type Byte = x: int | 0 <= x < 256
  type Bytes = seq<Byte>

  /** FilterPolicy (project/filter_policy.h). */
  datatype Policy = Policy(
    createFilter: seq<Bytes> -> Bytes,              // the bytes appended for a list of keys
    keyMayMatch: (Bytes, Bytes) -> bool,            // key, filter
    rangeMayMatch: (Bytes, Bytes, Bytes) -> bool)   // lo, hi, filter

  /** KeyMayMatch must answer true for every key in the list the filter was made from. */
  ghost predicate SoundForKeys(policy: Policy) {
    forall keys: seq<Bytes>, k | k in keys :: policy.keyMayMatch(k, policy.createFilter(keys))
  }

  // ---- Fixed-width integers ----

  const TWO_32: nat := 0x1_0000_0000

  function Pow256(n: nat): nat {
    if n == 0 then 1 else 256 * Pow256(n - 1)
  }

  /** The low `n` bytes, little-endian. */
  function Encode(v: nat, n: nat): (r: Bytes)
    ensures |r| == n
  {
    if n == 0 then [] else [v % 256] + Encode(v / 256, n - 1)
  }

  function Decode(b: Bytes): nat {
    if b == [] then 0 else b[0] as int + 256 * Decode(b[1..])
  }

  lemma {:induction false} DecodeEncode(v: nat, n: nat)
    requires v < Pow256(n)
    ensures Decode(Encode(v, n)) == v
  {
    if n > 0 {
      DecodeEncode(v / 256, n - 1);
      assert Encode(v, n)[1..] == Encode(v / 256, n - 1);
    }
  }

  /** PutFixed32 and DecodeFixed32. */
  function Fixed32(v: nat): (r: Bytes)
    ensures |r| == 4
  {
    Encode(v, 4)
  }

  function DecodeFixed32(b: Bytes, at: nat): nat
    requires at + 4 <= |b|
  {
    Decode(b[at..at + 4])
  }

  lemma Fixed32RoundTrip(b: Bytes, at: nat, v: nat)
    requires at + 4 <= |b| && b[at..at + 4] == Fixed32(v) && v < TWO_32
    ensures DecodeFixed32(b, at) == v
  {
    assert Pow256(4) == TWO_32;
    DecodeEncode(v, 4);
  }

  // ---- The builder ----

  function Concat(keys: seq<Bytes>): Bytes {
    if keys == [] then [] else Concat(keys[..|keys| - 1]) + keys[|keys| - 1]
  }

  lemma {:induction false} ConcatPrefix(keys: seq<Bytes>, i: nat, j: nat)
    requires i <= j <= |keys|
    ensures Concat(keys[..i]) <= Concat(keys[..j])
  {
    if i < j {
      assert keys[..j][..j - 1] == keys[..j - 1];
      ConcatPrefix(keys, i, j - 1);
    }
  }

  /** The i-th key, cut out of the flattened buffer. */
  lemma SliceIsKey(keys: seq<Bytes>, i: nat)
    requires i < |keys|
    ensures |Concat(keys[..i])| <= |Concat(keys[..i + 1])| <= |Concat(keys)|
    ensures Concat(keys)[|Concat(keys[..i])|..|Concat(keys[..i + 1])|] == keys[i]
  {
    assert keys[..i + 1][..i] == keys[..i];
    ConcatPrefix(keys, i + 1, |keys|);
    assert keys[..|keys|] == keys;
    var c := Concat(keys[..i + 1]);
    assert c == Concat(keys[..i]) + keys[i];
    assert Concat(keys)[..|c|] == c;
    assert Concat(keys)[|Concat(keys[..i])|..|c|] == c[|Concat(keys[..i])|..];
  }

  const FILTER_BASE_LG: Byte := 11
  const FILTER_BASE: nat := 2048
  const SINGLE_FILTER_BASE_LG: Byte := 32

  /** The one filter a block holds; no bytes if there are no keys. */
  function FilterFor(policy: Policy, keys: seq<Bytes>): Bytes {
    if keys == [] then [] else policy.createFilter(keys)
  }

  /** Filter, two entries of the offset table, the table's own offset, and the base. */
  function Trailed(f: Bytes): Bytes {
    if f == [] then Fixed32(0) + [FILTER_BASE_LG]
    else f + Fixed32(0) + Fixed32(|f|) + Fixed32(|f|) + [SINGLE_FILTER_BASE_LG]
  }

  function FinishedBlock(policy: Policy, keys: seq<Bytes>): Bytes {
    Trailed(FilterFor(policy, keys))
  }

  /** The list of keys again, from the flattened buffer and the positions in it (the last one its end). */
  method SliceKeys(buffer: Bytes, start: seq<nat>, ghost added: seq<Bytes>) returns (keys: seq<Bytes>)
    requires buffer == Concat(added) && |start| == |added| + 1
    requires forall i | 0 <= i <= |added| :: start[i] == |Concat(added[..i])|
    ensures keys == added
  {
    keys := [];
    for i := 0 to |start| - 1
      invariant keys == added[..i]
    {
      SliceIsKey(added, i);
      keys := keys + [buffer[start[i]..start[i + 1]]];
    }
  }

  class FilterBlockBuilder {
    const policy: Policy
    var keys: Bytes               // flattened key contents
    var start: seq<nat>           // where each key starts in it
    var result: Bytes
    var filterOffsets: seq<nat>
    ghost var added: seq<Bytes>

    constructor (policy: Policy)
      ensures this.policy == policy && Collecting() && added == []
    {
      this.policy := policy;
      keys, start, result, filterOffsets, added := [], [], [], [], [];
    }

    /** Before Finish no filter has been made. */
    ghost predicate Collecting()
      reads this
    {
      result == [] && filterOffsets == [] && Buffered()
    }

    /** The buffer flattens the added keys. */
    ghost predicate Buffered()
      reads this
    {
      && keys == Concat(added) && |start| == |added|
      && forall i | 0 <= i < |start| :: start[i] == |Concat(added[..i])|
    }

    /** Does not cut filters any more; the offset only has to be plausible. */
    method StartBlock(blockOffset: nat)
      requires Collecting()
      ensures blockOffset / FILTER_BASE >= |filterOffsets|
    {
    }

    method AddKey(key: Bytes)
      requires Collecting()
      modifies this`keys, this`start, this`added
      ensures Collecting() && added == old(added) + [key]
    {
      start := start + [|keys|];
      keys := keys + key;
      ghost var before := added;
      added := added + [key];
      assert added[..|before|] == before;
      forall i | 0 <= i < |start| ensures start[i] == |Concat(added[..i])| {
        if i < |before| { assert added[..i] == before[..i]; }
      }
    }

    /** Appends one filter, of exactly the added keys, rebuilt from the flattened buffer; without keys the
        offset is recorded all the same, and no byte follows it. */
    method GenerateFilter()
      requires Buffered()
      modifies this`keys, this`start, this`result, this`filterOffsets
      ensures result == old(result) + FilterFor(policy, added)
      ensures filterOffsets == old(filterOffsets) + [|old(result)|]
      ensures keys == [] && start == []
    {
      if start == [] {
        filterOffsets := filterOffsets + [|result|];
        return;
      }
      assert added[..|added|] == added;
      var tmpKeys := SliceKeys(keys, start + [|keys|], added);
      filterOffsets := filterOffsets + [|result|];
      result := result + policy.createFilter(tmpKeys);
      keys, start := [], [];
    }

    method Finish() returns (block: Bytes)
      requires Collecting()
      modifies this`keys, this`start, this`result, this`filterOffsets
      ensures block == FinishedBlock(policy, added)
    {
      if start != [] {
        GenerateFilter();
      }
      if result == [] {
        WriteNoOffsets();
      } else {
        WriteOffsets();
      }
      block := result;
    }

    method WriteNoOffsets()
      requires result == []
      modifies this`result
      ensures result == Trailed([])
    {
      result := result + Fixed32(0);
      result := result + [FILTER_BASE_LG];
    }

    method WriteOffsets()
      requires result != []
      modifies this`result
      ensures result == Trailed(old(result))
    {
      var arrayOffset := |result|;
      result := result + Fixed32(0);
      result := result + Fixed32(arrayOffset);
      result := result + Fixed32(arrayOffset);
      result := result + [SINGLE_FILTER_BASE_LG];
    }
  }

  // ---- The reader ----

  /** block_offset >> n. (A shift by 64 or more, which only a malformed block can ask for, is undefined
      in the source; here it gives 0 like any other long shift of a 64-bit offset.) */
  function ShiftRight(x: nat, n: nat): nat {
    if n == 0 then x else ShiftRight(x / 2, n - 1)
  }

  lemma {:induction false} ShiftTwice(x: nat, a: nat, b: nat)
    ensures ShiftRight(x, a + b) == ShiftRight(ShiftRight(x, a), b)
  {
    if a > 0 { ShiftTwice(x / 2, a - 1, b); }
  }

  lemma ShiftBy2(x: nat)
    ensures ShiftRight(x, 2) == x / 4
  {
    assert ShiftRight(x / 2, 1) == ShiftRight(x / 2 / 2, 0);
  }

  lemma ShiftBy8(x: nat)
    ensures ShiftRight(x, 8) == x / 256
  {
    ShiftTwice(x, 2, 6);
    ShiftTwice(x / 4, 2, 4);
    ShiftTwice(x / 4 / 4, 2, 2);
    ShiftBy2(x);
    ShiftBy2(x / 4);
    ShiftBy2(x / 4 / 4);
    ShiftBy2(x / 4 / 4 / 4);
  }

  lemma ShiftBy32(x: nat)
    ensures ShiftRight(x, 32) == x / TWO_32
  {
    ShiftTwice(x, 8, 24);
    ShiftTwice(x / 256, 8, 16);
    ShiftTwice(x / 256 / 256, 8, 8);
    ShiftBy8(x);
    ShiftBy8(x / 256);
    ShiftBy8(x / 256 / 256);
    ShiftBy8(x / 256 / 256 / 256);
  }

  class FilterBlockReader {
    const policy: Policy
    const data: Bytes             // the whole block; none of it is used if it is malformed
    const offset: nat             // where the offset table begins
    const num: nat                // entries in it
    const baseLg: Byte

    constructor (policy: Policy, contents: Bytes)
      ensures this.policy == policy && Valid() && Parsed(contents)
    {
      this.policy, data := policy, contents;
      var n := |contents|;
      if n < 5 {
        offset, num, baseLg := 0, 0, 0;
      } else {
        baseLg := contents[n - 1];
        var lastWord := DecodeFixed32(contents, n - 5);
        if lastWord > n - 5 {
          offset, num := 0, 0;
        } else {
          offset, num := lastWord, (n - 5 - lastWord) / 4;
        }
      }
    }

    /** What the constructor reads off the end of the block. */
    ghost predicate Parsed(contents: Bytes) {
      && data == contents
      && (|contents| < 5 ==> num == 0)
      && (|contents| >= 5 ==>
            var n := |contents|;
            var word := DecodeFixed32(contents, n - 5);
            && baseLg == contents[n - 1]
            && (word > n - 5 ==> num == 0)
            && (word <= n - 5 ==> offset == word && num == (n - 5 - word) / 4))
    }

    /** Every entry, with the word after it, lies inside the block, whatever its bytes are. */
    ghost predicate Valid() {
      num > 0 ==> offset + 4 * num + 5 <= |data|
    }

    /** The filter an entry denotes, if its two offsets make sense. */
    function EntryFilter(i: nat): (r: (bool, Bytes))
      requires Valid() && i < num
    {
      var start, limit := DecodeFixed32(data, offset + i * 4), DecodeFixed32(data, offset + i * 4 + 4);
      if start <= limit <= offset then (true, data[start..limit]) else (false, [])
    }

    /** Errors are potential matches; an entry out of bounds with equal ends matches nothing. */
    predicate KeyAnswer(blockOffset: nat, key: Bytes)
      requires Valid()
    {
      var i := ShiftRight(blockOffset, baseLg);
      if i >= num then true
      else if EntryFilter(i).0 then policy.keyMayMatch(key, EntryFilter(i).1)
      else DecodeFixed32(data, offset + i * 4) != DecodeFixed32(data, offset + i * 4 + 4)
    }

    ghost predicate RangeAnswer(lo: Bytes, hi: Bytes)
      requires Valid()
    {
      exists i :: 0 <= i < num && EntryFilter(i).0 && policy.rangeMayMatch(lo, hi, EntryFilter(i).1)
    }

    method KeyMayMatch(blockOffset: nat, key: Bytes) returns (r: bool)
      requires Valid()
      ensures r == KeyAnswer(blockOffset, key)
    {
      var index := ShiftRight(blockOffset, baseLg);
      if index < num {
        var start := DecodeFixed32(data, offset + index * 4);
        var limit := DecodeFixed32(data, offset + index * 4 + 4);
        if start <= limit && limit <= offset {
          return policy.keyMayMatch(key, data[start..limit]);
        } else if start == limit {
          return false;
        }
      }
      r := true;
    }

    method RangeMayMatch(lo: Bytes, hi: Bytes) returns (r: bool)
      requires Valid()
      ensures r <==> RangeAnswer(lo, hi)
    {
      for i := 0 to num
        invariant forall j | 0 <= j < i :: !(EntryFilter(j).0 && policy.rangeMayMatch(lo, hi, EntryFilter(j).1))
      {
        var start := DecodeFixed32(data, offset + i * 4);
        var limit := DecodeFixed32(data, offset + i * 4 + 4);
        if start <= limit && limit <= offset {
          if policy.rangeMayMatch(lo, hi, data[start..limit]) {
            assert EntryFilter(i).0 && policy.rangeMayMatch(lo, hi, EntryFilter(i).1);
            return true;
          }
        }
      }
      r := false;
    }
  }

  // ---- Reading back what was finished ----

  lemma Sections(f: Bytes)
    ensures var block := f + Fixed32(0) + Fixed32(|f|) + Fixed32(|f|) + [SINGLE_FILTER_BASE_LG];
            && |block| == |f| + 13 && block[..|f|] == f
            && block[|f|..|f| + 4] == Fixed32(0)
            && block[|f| + 4..|f| + 8] == Fixed32(|f|)
            && block[|f| + 8..|f| + 12] == Fixed32(|f|)
            && block[|f| + 12] == SINGLE_FILTER_BASE_LG
  {
    assert |Fixed32(0)| == 4 && |Fixed32(|f|)| == 4;
  }

  /** The words at the end of a finished block that holds a filter. */
  lemma FinishedWords(policy: Policy, keys: seq<Bytes>)
    requires var f := FilterFor(policy, keys); f != [] && |f| < TWO_32
    ensures var f, block := FilterFor(policy, keys), FinishedBlock(policy, keys);
            && |block| == |f| + 13 && block[..|f|] == f && block[|f| + 12] == SINGLE_FILTER_BASE_LG
            && DecodeFixed32(block, |f|) == 0
            && DecodeFixed32(block, |f| + 4) == |f|
            && DecodeFixed32(block, |f| + 8) == |f|
  {
    var f, block := FilterFor(policy, keys), FinishedBlock(policy, keys);
    Sections(f);
    Fixed32RoundTrip(block, |f|, 0);
    Fixed32RoundTrip(block, |f| + 4, |f|);
    Fixed32RoundTrip(block, |f| + 8, |f|);
  }

  /** A finished block parses into two entries: the filter, and, past it, an empty one. */
  lemma FinishedEntries(reader: FilterBlockReader, policy: Policy, keys: seq<Bytes>)
    requires reader.Valid() && reader.Parsed(FinishedBlock(policy, keys))
    requires var f := FilterFor(policy, keys); f != [] && |f| < TWO_32
    ensures reader.num == 2 && reader.baseLg == SINGLE_FILTER_BASE_LG
    ensures reader.EntryFilter(0) == (true, FilterFor(policy, keys)) && reader.EntryFilter(1) == (true, [])
  {
    FinishedWords(policy, keys);
    var n := |FilterFor(policy, keys)|;
    assert reader.offset == n && reader.data[n..n] == [];
  }

  /** A block finished without filter bytes has no entries. */
  lemma FinishedEmpty(reader: FilterBlockReader, policy: Policy, keys: seq<Bytes>)
    requires reader.Valid() && reader.Parsed(FinishedBlock(policy, keys)) && FilterFor(policy, keys) == []
    ensures reader.num == 0
  {
    var block := FinishedBlock(policy, keys);
    assert block[0..4] == Fixed32(0);
    Fixed32RoundTrip(block, 0, 0);
  }

  lemma KeyAnswerAt(reader: FilterBlockReader, policy: Policy, keys: seq<Bytes>, blockOffset: nat, key: Bytes, i: nat)
    requires reader.policy == policy && reader.Valid() && reader.Parsed(FinishedBlock(policy, keys))
    requires FilterFor(policy, keys) != [] && |FilterFor(policy, keys)| < TWO_32
    requires i == ShiftRight(blockOffset, reader.baseLg)
    ensures reader.KeyAnswer(blockOffset, key) ==
              (i >= 2 || policy.keyMayMatch(key, if i == 0 then FilterFor(policy, keys) else []))
  {
    FinishedEntries(reader, policy, keys);
  }

  /** The answer for any key at any block offset: the one filter below 2^32, the empty filter up to 2^33. */
  lemma KeyAnswerExact(reader: FilterBlockReader, policy: Policy, keys: seq<Bytes>, blockOffset: nat, key: Bytes)
    requires reader.policy == policy && reader.Valid() && reader.Parsed(FinishedBlock(policy, keys))
    requires |FilterFor(policy, keys)| < TWO_32
    ensures var f := FilterFor(policy, keys);
            reader.KeyAnswer(blockOffset, key) ==
              (f == [] || blockOffset / TWO_32 >= 2
               || policy.keyMayMatch(key, if blockOffset / TWO_32 == 0 then f else []))
  {
    if FilterFor(policy, keys) == [] {
      FinishedEmpty(reader, policy, keys);
    } else {
      FinishedEntries(reader, policy, keys);
      ShiftBy32(blockOffset);
      KeyAnswerAt(reader, policy, keys, blockOffset, key, blockOffset / TWO_32);
    }
  }

  /** No false negatives: an added key matches at every block offset below 2^32. Beyond, it matches exactly
      if the offset is at least 2^33 or the policy lets the key match an empty filter. */
  lemma AddedKeyMatches(reader: FilterBlockReader, policy: Policy, keys: seq<Bytes>, blockOffset: nat, key: Bytes)
    requires SoundForKeys(policy) && reader.policy == policy && reader.Valid()
        && reader.Parsed(FinishedBlock(policy, keys))
    requires FilterFor(policy, keys) != [] && |FilterFor(policy, keys)| < TWO_32 && key in keys
    ensures reader.KeyAnswer(blockOffset, key) <==> (blockOffset / TWO_32 == 1 ==> policy.keyMayMatch(key, []))
    ensures blockOffset < TWO_32 ==> reader.KeyAnswer(blockOffset, key)
  {
    KeyAnswerExact(reader, policy, keys, blockOffset, key);
  }

  /** The answer for any range: no filter bytes means no match; otherwise the filter and the empty filter
      past it are both asked, so a policy that lets every range match an empty filter never prunes. */
  lemma RangeAnswerExact(reader: FilterBlockReader, policy: Policy, keys: seq<Bytes>, lo: Bytes, hi: Bytes)
    requires reader.policy == policy && reader.Valid() && reader.Parsed(FinishedBlock(policy, keys))
    requires |FilterFor(policy, keys)| < TWO_32
    ensures var f := FilterFor(policy, keys);
            reader.RangeAnswer(lo, hi) <==>
              f != [] && (policy.rangeMayMatch(lo, hi, f) || policy.rangeMayMatch(lo, hi, []))
  {
    if FilterFor(policy, keys) == [] {
      FinishedEmpty(reader, policy, keys);
    } else {
      FinishedEntries(reader, policy, keys);
      if reader.RangeAnswer(lo, hi) {
        var i :|
          && 0 <= i < reader.num && reader.EntryFilter(i).0
          && policy.rangeMayMatch(lo, hi, reader.EntryFilter(i).1);
        assert i == 0 || i == 1;
      }
      assert policy.rangeMayMatch(lo, hi, FilterFor(policy, keys)) ==>
               reader.EntryFilter(0).0 && policy.rangeMayMatch(lo, hi, reader.EntryFilter(0).1);
      assert policy.rangeMayMatch(lo, hi, []) ==>
               reader.EntryFilter(1).0 && policy.rangeMayMatch(lo, hi, reader.EntryFilter(1).1);
    }
  }
}
