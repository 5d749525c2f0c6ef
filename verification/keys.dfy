/** Internal keys, entries and what a read of them means.

    db/dbformat.h is not part of the repository; the order below is the one its
    users rely on: user key ascending, then newest first. Only the order of user
    keys is ever used, and every total order on a countable set of strings embeds
    in the rationals, so a user key is modelled as a real number. */
module InternalKeys {

  datatype Option<+T> = None | Some(value: T)

  const MAX_SEQUENCE: nat := 0xFF_FFFF_FFFF_FFFF
  type Sequence = n: nat | n <= MAX_SEQUENCE
  type UserKey = real
  type Value = string

  datatype ValueType = TypeDeletion | TypeValue
  datatype InternalKey = InternalKey(user: UserKey, sequence: Sequence, kind: ValueType)
  datatype Entry = Entry(key: InternalKey, value: Value)

  /** Sequence number and type packed into one number, as the comparator sees them. */
  function Tag(k: InternalKey): nat {
    2 * k.sequence + if k.kind.TypeValue? then 1 else 0
  }

  predicate Less(a: InternalKey, b: InternalKey) {
    a.user < b.user || (a.user == b.user && Tag(a) > Tag(b))
  }

  predicate AtMost(a: InternalKey, b: InternalKey) {
    !Less(b, a)
  }

  /** The internal key a read of `k` at snapshot `s` seeks to. */
  function LookupKey(k: UserKey, s: Sequence): InternalKey {
    InternalKey(k, s, TypeValue)
  }

  /** The smallest and the largest internal key of a user key. */
  function FirstKeyOf(k: UserKey): InternalKey { InternalKey(k, MAX_SEQUENCE, TypeValue) }
  function LastKeyOf(k: UserKey): InternalKey { InternalKey(k, 0, TypeDeletion) }

  /** Concatenation needs no parentheses and no empty parts. */
  lemma Regroup<T>(a: seq<T>, b: seq<T>, c: seq<T>)
    ensures a + (b + c) == (a + b) + c && a + [] == a && [] + a == a
  {
  }

  predicate SortedEntries(es: seq<Entry>) {
    forall i, j | 0 <= i < j < |es| :: Less(es[i].key, es[j].key)
  }

  function EntrySet(es: seq<Entry>): set<Entry> {
    set e | e in es
  }

  /** Position a sorted-block iterator lands on after Seek(key). */
  function LowerBound(es: seq<Entry>, key: InternalKey): (i: nat)
    requires SortedEntries(es)
    ensures i <= |es|
    ensures forall j | 0 <= j < |es| :: j < i <==> Less(es[j].key, key)
  {
    if es == [] || !Less(es[0].key, key) then 0 else 1 + LowerBound(es[1..], key)
  }

  lemma {:induction false} LowerBoundUnique(es: seq<Entry>, key: InternalKey, p: nat)
    requires SortedEntries(es) && p <= |es|
    requires forall j | 0 <= j < |es| :: j < p <==> Less(es[j].key, key)
    ensures LowerBound(es, key) == p
  {
    if p > 0 {
      assert Less(es[0].key, key);
      forall j | 0 <= j < |es| - 1 ensures j < p - 1 <==> Less(es[1..][j].key, key) {
        assert j + 1 < p <==> Less(es[j + 1].key, key);
      }
      LowerBoundUnique(es[1..], key, p - 1);
    }
  }

  // ---- What a read means ----

  predicate Visible(e: Entry, k: UserKey, s: Sequence) {
    e.key.user == k && e.key.sequence <= s
  }

  ghost predicate IsNewest(S: set<Entry>, e: Entry, k: UserKey, s: Sequence) {
    e in S && Visible(e, k, s) && forall x | x in S && Visible(x, k, s) :: x.key.sequence <= e.key.sequence
  }

  function ValueOf(e: Entry): Option<Value> {
    if e.key.kind.TypeValue? then Some(e.value) else None
  }

  /** Reading `k` at snapshot `s` from the unordered bag `S` of entries yields `r`. */
  ghost predicate Yields(S: set<Entry>, k: UserKey, s: Sequence, r: Option<Value>) {
    (r.None? && forall e | e in S :: !Visible(e, k, s))
    || exists e :: IsNewest(S, e, k, s) && r == ValueOf(e)
  }

  /** No two entries carry the same sequence number. */
  ghost predicate DistinctSequences(S: set<Entry>) {
    forall a, b | a in S && b in S && a.key.sequence == b.key.sequence :: a == b
  }

  /** The plain versioned map: all writes in commit order; a read scans back from the newest. */
  function SpecGet(history: seq<Entry>, k: UserKey, s: Sequence): Option<Value> {
    if history == [] then None
    else
      var last := history[|history| - 1];
      if Visible(last, k, s) then ValueOf(last) else SpecGet(history[..|history| - 1], k, s)
  }

  ghost predicate Increasing(history: seq<Entry>) {
    forall i, j | 0 <= i < j < |history| :: history[i].key.sequence < history[j].key.sequence
  }

  /** The recursive reference read is the declarative one. */
  lemma {:induction false} SpecGetYields(history: seq<Entry>, k: UserKey, s: Sequence)
    requires Increasing(history)
    ensures Yields(EntrySet(history), k, s, SpecGet(history, k, s))
  {
    if history != [] {
      var n := |history| - 1;
      var rest := history[..n];
      assert EntrySet(history) == EntrySet(rest) + {history[n]} by {
        assert history == rest + [history[n]];
      }
      if Visible(history[n], k, s) {
        assert IsNewest(EntrySet(history), history[n], k, s);
      } else {
        SpecGetYields(rest, k, s);
        if e :| IsNewest(EntrySet(rest), e, k, s) && SpecGet(rest, k, s) == ValueOf(e) {
          assert IsNewest(EntrySet(history), e, k, s);
        }
      }
    }
  }

  /** A read has one answer. */
  lemma YieldsFunctional(S: set<Entry>, k: UserKey, s: Sequence, r1: Option<Value>, r2: Option<Value>)
    requires DistinctSequences(S)
    requires Yields(S, k, s, r1) && Yields(S, k, s, r2)
    ensures r1 == r2
  {
    if exists e1, e2 :: IsNewest(S, e1, k, s) && r1 == ValueOf(e1) && IsNewest(S, e2, k, s) && r2 == ValueOf(e2) {
      var e1, e2 :| IsNewest(S, e1, k, s) && r1 == ValueOf(e1) && IsNewest(S, e2, k, s) && r2 == ValueOf(e2);
      assert e1 == e2;
    }
  }

  /** A read of a newer layer over an older one stops at the newer layer if anything is visible there. */
  lemma YieldsLayered(upper: set<Entry>, lower: set<Entry>, k: UserKey, s: Sequence, r: Option<Value>)
    requires forall a, b | a in upper && b in lower && a.key.user == b.key.user == k :: a.key.sequence > b.key.sequence
    requires if exists e :: e in upper && Visible(e, k, s) then Yields(upper, k, s, r) else Yields(lower, k, s, r)
    ensures Yields(upper + lower, k, s, r)
  {
    if exists e :: e in upper && Visible(e, k, s) {
      var e :| IsNewest(upper, e, k, s) && r == ValueOf(e);
      assert IsNewest(upper + lower, e, k, s);
    } else if e :| IsNewest(lower, e, k, s) && r == ValueOf(e) {
      assert IsNewest(upper + lower, e, k, s);
    }
  }
}
