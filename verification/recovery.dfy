/** DBImpl::Recover and RecoverLogFile of project/db_impl.cc: the logs the MANIFEST still names, replayed through
    memtables into level-0 tables. */
module Recovery {
  import opened InternalKeys
  import opened TableFiles
  import opened DropRule
  import opened LevelUpdates
  import MemTables
  import O = ObsoleteFiles
  import L = Lsm
  import opened LsmLogs
  import LsmLosses
  import LsmRestarts

  // ---- Replaying ----

  /** The tables hold the entries, cut in order, under increasing numbers from `first` to before `next`. */
  ghost predicate TablesOf(tables: seq<TableFile>, es: seq<Entry>, first: nat, next: nat) {
    && first <= next
    && (forall t | t in tables :: WellFormed(t) && first <= t.number < next)
    && L.InOrder(tables)
    && EntriesIn(FileSet(tables)) == EntrySet(es)
  }

  lemma NoTables(first: nat)
    ensures TablesOf([], [], first, first)
  {
  }

  lemma InTables(tables: seq<TableFile>, i: nat)
    requires i < |tables|
    ensures EntrySet(tables[i].entries) <= EntriesIn(FileSet(tables))
  {
    assert tables[i] in FileSet(tables);
  }

  /** Later tables hold later entries. */
  lemma JoinTables(a: seq<TableFile>, es: seq<Entry>, first: nat, mid: nat, b: seq<TableFile>, fs: seq<Entry>,
                   from: nat, next: nat)
    requires TablesOf(a, es, first, mid) && TablesOf(b, fs, from, next) && mid <= from
    requires forall x, y | x in es && y in fs :: x.key.sequence < y.key.sequence
    ensures TablesOf(a + b, es + fs, first, next)
  {
    var all := a + b;
    forall i, j | 0 <= i < j < |all|
      ensures all[i].number < all[j].number && NewestOf(all[j], EntrySet(all[i].entries))
    {
      if i < |a| <= j {
        InTables(a, i);
        InTables(b, j - |a|);
        assert all[i] in a && all[j] in b;
        forall x, y | x in all[j].entries && y in EntrySet(all[i].entries) ensures x.key.sequence > y.key.sequence {
          assert x in EntrySet(all[j].entries);
          assert y in EntrySet(es) && x in EntrySet(fs);
        }
      }
    }
    assert FileSet(all) == FileSet(a) + FileSet(b);
    assert EntrySet(es + fs) == EntrySet(es) + EntrySet(fs);
  }

  lemma SplitEntries(es: seq<Entry>, a: nat, b: nat)
    requires Increasing(es) && a <= b <= |es|
    ensures forall x, y | x in es[..a] && y in es[a..b] :: x.key.sequence < y.key.sequence
    ensures es[..a] + es[a..b] == es[..b]
  {
  }

  lemma SomeEntries(es: seq<Entry>)
    ensures es != [] ==> EntrySet(es) != {}
  {
    if es != [] { assert es[0] in EntrySet(es); }
  }

  /** WriteLevel0Table without a base version: the memtable, which holds the entries from `done` to `i`,
      becomes one more table for level 0. An empty one leaves no table, but uses up the number. */
  method WriteTable(tables: seq<TableFile>, mem: seq<Entry>, number: nat, fileSize: seq<Entry> -> nat,
                    ghost es: seq<Entry>, ghost done: nat, ghost i: nat, ghost first: nat)
    returns (r: seq<TableFile>)
    requires Increasing(es) && done <= i <= |es| && TablesOf(tables, es[..done], first, number)
    requires SortedEntries(mem) && EntrySet(mem) == EntrySet(es[done..i])
    ensures TablesOf(r, es[..i], first, number + 1)
  {
    if mem == [] {
      SomeEntries(es[done..i]);
      return tables;
    }
    var t := TableFile(number, fileSize(mem), mem[0].key, mem[|mem| - 1].key, mem);
    r := tables + [t];
    assert FileSet([t]) == {t};
    SplitEntries(es, done, i);
    JoinTables(tables, es[..done], first, number, [t], es[done..i], number, number + 1);
  }

  // ---- The records of a log ----

  /** What log::Reader makes of a file: damage, which it reports and drops, and records, of which one below
      12 bytes is no batch. A batch has in front the number of its first entry and their count; if it does not
      parse to its end, only the entries up to there can be inserted. */
  datatype Record = Damaged | TooSmall | Batch(first: nat, count: nat, entries: seq<Entry>, parses: bool)

  predicate IsWhole(r: Record) {
    r.Batch? && r.parses
  }

  ghost predicate Stamped(r: Record) {
    r.Batch? ==>
      && 0 < r.first && |r.entries| <= r.count && r.first + r.count <= MAX_SEQUENCE
      && (r.parses ==> |r.entries| == r.count)
      && forall i | 0 <= i < |r.entries| :: r.entries[i].key.sequence == r.first + i
  }

  ghost predicate AllStamped(records: seq<Record>) {
    forall r | r in records :: Stamped(r)
  }

  function BatchOf(r: Record): seq<Entry> {
    if r.Batch? then r.entries else []
  }

  /** The entries of the batches, in order. */
  function Intact(records: seq<Record>): seq<Entry> {
    if records == [] then [] else Intact(records[..|records| - 1]) + BatchOf(records[|records| - 1])
  }

  /** The largest sequence number that a batch accounts for. */
  function LastSeen(records: seq<Record>, otherwise: int): int {
    if records == [] then otherwise
    else
      var r, rest := records[|records| - 1], LastSeen(records[..|records| - 1], otherwise);
      if r.Batch? && r.first + r.count - 1 > rest then r.first + r.count - 1 else rest
  }

  lemma NextRecord(records: seq<Record>, i: nat, otherwise: int)
    requires i < |records|
    ensures Intact(records[..i + 1]) == Intact(records[..i]) + BatchOf(records[i])
    ensures var last, r := LastSeen(records[..i], otherwise), records[i];
            LastSeen(records[..i + 1], otherwise) ==
              if r.Batch? && r.first + r.count - 1 > last then r.first + r.count - 1 else last
  {
    assert records[..i + 1][..i] == records[..i];
  }

  lemma {:induction false} IntactPrefix(records: seq<Record>, n: nat)
    requires n <= |records|
    ensures Intact(records[..n]) <= Intact(records)
  {
    if n < |records| {
      assert records[..|records| - 1][..n] == records[..n];
      IntactPrefix(records[..|records| - 1], n);
    } else {
      assert records[..n] == records;
    }
  }

  /** Where the entries of a record are among all of them. */
  lemma RecordAt(records: seq<Record>, i: nat, es: seq<Entry>, before: nat, after: nat)
    requires i < |records| && es == Intact(records)
    requires before == |Intact(records[..i])| && after == before + |BatchOf(records[i])|
    ensures after == |Intact(records[..i + 1])| <= |es| && es[before..after] == BatchOf(records[i])
  {
    NextRecord(records, i, 0);
    IntactPrefix(records, i + 1);
  }

  /** The entries before `done` are in tables, those from there to `i` in the memtable. */
  ghost predicate Recovering(es: seq<Entry>, done: nat, i: nat, mem: Option<seq<Entry>>, tables: seq<TableFile>,
                             first: nat, next: nat) {
    && done <= i <= |es| && TablesOf(tables, es[..done], first, next)
    && (mem.Some? ==> SortedEntries(mem.value) && EntrySet(mem.value) == EntrySet(es[done..i]))
    && (mem.None? ==> done == i)
  }

  lemma NewerThanMem(es: seq<Entry>, done: nat, i: nat, j: nat)
    requires Increasing(es) && done <= i <= j <= |es|
    ensures Increasing(es[i..j])
    ensures forall x, e | x in es[done..i] && e in es[i..j] :: x.key.sequence < e.key.sequence
    ensures EntrySet(es[done..j]) == EntrySet(es[done..i]) + EntrySet(es[i..j])
  {
    assert es[done..j] == es[done..i] + es[i..j];
  }

  lemma StartAfresh(es: seq<Entry>, i: nat, tables: seq<TableFile>, first: nat, next: nat)
    requires i <= |es| && TablesOf(tables, es[..i], first, next)
    ensures Recovering(es, i, i, None, tables, first, next)
  {
  }

  /** A batch into the memtable, which is made if there is none, and becomes a table if it is full then. */
  method ReplayBatch(entries: seq<Entry>, mem: Option<seq<Entry>>, memFull: seq<Entry> -> bool,
                     fileSize: seq<Entry> -> nat, tables: seq<TableFile>, next: nat,
                     ghost es: seq<Entry>, ghost done: nat, ghost i: nat, ghost j: nat, ghost first: nat)
    returns (m: Option<seq<Entry>>, t: seq<TableFile>, n: nat, ghost d: nat)
    requires Increasing(es) && i <= j <= |es| && entries == es[i..j]
    requires Recovering(es, done, i, mem, tables, first, next)
    ensures Recovering(es, d, j, m, t, first, n)
  {
    var open := if mem.Some? then mem.value else [];
    NewerThanMem(es, done, i, j);
    assert es[i..i] == [];
    assert forall x :: x in open <==> x in EntrySet(open);
    open := MemTables.InsertInto(open, entries);
    m, t, n, d := Some(open), tables, next, done;
    if memFull(open) {
      t := WriteTable(tables, open, next, fileSize, es, done, j, first);
      n, m, d := next + 1, None, j;
      StartAfresh(es, j, t, first, n);
    }
  }

  /** The batches of the first `i` records are in tables and the memtable. */
  ghost predicate Replaying(records: seq<Record>, i: nat, done: nat, mem: Option<seq<Entry>>, tables: seq<TableFile>,
                            first: nat, next: nat, maxSequence: Sequence, last: Sequence) {
    && i <= |records|
    && (exists j :: j == |Intact(records[..i])| && Recovering(Intact(records), done, j, mem, tables, first, next))
    && last == LastSeen(records[..i], maxSequence)
  }

  lemma NothingSeen(records: seq<Record>, first: nat, maxSequence: Sequence)
    ensures Replaying(records, 0, 0, None, [], first, first, maxSequence, maxSequence)
  {
    NoTables(first);
    assert Intact(records)[..0] == [] && records[..0] == [];
    assert Recovering(Intact(records), 0, 0, None, [], first, first);
  }

  lemma SeenIsSequence(records: seq<Record>, r: Record)
    requires AllStamped(records) && r in records && r.Batch?
    ensures 0 <= r.first + r.count - 1 <= MAX_SEQUENCE
  {
    assert Stamped(r);
  }

  /** One record: a batch is replayed, and what is no batch is skipped. */
  method ReplayRecord(records: seq<Record>, i: nat, mem: Option<seq<Entry>>, memFull: seq<Entry> -> bool,
                      fileSize: seq<Entry> -> nat, tables: seq<TableFile>, next: nat, last: Sequence, ghost done: nat,
                      ghost first: nat, ghost maxSequence: Sequence)
    returns (m: Option<seq<Entry>>, t: seq<TableFile>, n: nat, l: Sequence, ghost d: nat)
    requires AllStamped(records) && Increasing(Intact(records)) && i < |records|
    requires Replaying(records, i, done, mem, tables, first, next, maxSequence, last)
    ensures Replaying(records, i + 1, d, m, t, first, n, maxSequence, l)
  {
    var r := records[i];
    m, t, n, l, d := mem, tables, next, last, done;
    ghost var j := |Intact(records[..i])|;
    ghost var after := j + |BatchOf(r)|;
    RecordAt(records, i, Intact(records), j, after);
    NextRecord(records, i, maxSequence);
    if r.Batch? {
      m, t, n, d := ReplayBatch(r.entries, mem, memFull, fileSize, tables, next, Intact(records), done, j, after,
                                first);
      SeenIsSequence(records, r);
      if r.first + r.count - 1 > last {
        l := r.first + r.count - 1;
      }
    }
    assert Recovering(Intact(records), d, after, m, t, first, n);
  }

  lemma AllSeen(records: seq<Record>, done: nat, mem: Option<seq<Entry>>, tables: seq<TableFile>, first: nat,
                next: nat, maxSequence: Sequence, last: Sequence)
    requires Replaying(records, |records|, done, mem, tables, first, next, maxSequence, last)
    ensures var es := Intact(records);
            Recovering(es, done, |es|, mem, tables, first, next) && es[..|es|] == es
    ensures last == LastSeen(records, maxSequence)
  {
    assert records[..|records|] == records;
  }

  /** One log: its batches go into a memtable, which becomes a table whenever it is full, and at the end. What
      is damaged, too small or does not parse is passed over; with paranoid checks it ends the recovery. */
  method RecoverLogFile(records: seq<Record>, paranoid: bool, memFull: seq<Entry> -> bool,
                        fileSize: seq<Entry> -> nat, first: nat, maxSequence: Sequence)
    returns (ok: bool, tables: seq<TableFile>, next: nat, last: Sequence)
    requires AllStamped(records) && Increasing(Intact(records))
    ensures ok <==> paranoid ==> forall r | r in records :: IsWhole(r)
    ensures ok ==> TablesOf(tables, Intact(records), first, next) && last == LastSeen(records, maxSequence)
  {
    var mem := None;
    ok, tables, next, last := true, [], first, maxSequence;
    ghost var done := 0;                      // entries that are in tables
    NothingSeen(records, first, maxSequence);
    var i: nat := 0;
    while i < |records| && ok
      invariant Replaying(records, i, done, mem, tables, first, next, maxSequence, last)
      invariant ok <==> paranoid ==> forall r | r in records[..i] :: IsWhole(r)
    {
      mem, tables, next, last, done := ReplayRecord(records, i, mem, memFull, fileSize, tables, next, last, done,
                                                    first, maxSequence);
      ok := IsWhole(records[i]) || !paranoid;
      assert records[..i + 1] == records[..i] + [records[i]];
      i := i + 1;
    }
    if !ok {
      return;
    }
    assert records[..i] == records;
    AllSeen(records, done, mem, tables, first, next, maxSequence, last);
    if mem.Some? {
      tables := WriteTable(tables, mem.value, next, fileSize, Intact(records), done, |Intact(records)|, first);
      next := next + 1;
    }
  }

  lemma {:induction false} LastOfJoin(a: seq<Entry>, b: seq<Entry>, m: Sequence)
    ensures L.LastOf(a + b, m) == L.LastOf(b, L.LastOf(a, m))
  {
    if b == [] {
      assert a + b == a;
    } else {
      var n := |b| - 1;
      assert (a + b)[..|a + b| - 1] == a + b[..n];
      LastOfJoin(a, b[..n], m);
    }
  }

  lemma {:induction false} LastOfBatch(es: seq<Entry>, first: nat, m: Sequence)
    requires forall i | 0 <= i < |es| :: es[i].key.sequence == first + i
    ensures L.LastOf(es, m) == if es != [] && first + |es| - 1 > m then first + |es| - 1 else m
  {
    if es != [] { LastOfBatch(es[..|es| - 1], first, m); }
  }

  lemma {:induction false} LastOfGrows(es: seq<Entry>, m: Sequence, n: Sequence)
    requires m <= n
    ensures m <= L.LastOf(es, m) <= L.LastOf(es, n)
  {
    if es != [] { LastOfGrows(es[..|es| - 1], m, n); }
  }

  lemma OneMoreSeen(es: seq<Entry>, r: Record, m: Sequence, seen: Sequence)
    requires Stamped(r) && L.LastOf(es, m) <= seen
    ensures L.LastOf(es + BatchOf(r), m) <=
              if r.Batch? && r.first + r.count - 1 > seen then r.first + r.count - 1 else seen
  {
    LastOfJoin(es, BatchOf(r), m);
    LastOfBatch(BatchOf(r), if r.Batch? then r.first else 0, L.LastOf(es, m));
  }

  lemma SeenGrows(records: seq<Record>, m: int)
    requires records != []
    ensures var older, r := LastSeen(records[..|records| - 1], m), records[|records| - 1];
            older <= LastSeen(records, m) && (r.Batch? ==> r.first + r.count - 1 <= LastSeen(records, m))
  {
  }

  /** Every entry is accounted for, and nothing beyond what some batch accounts for. */
  lemma {:induction false} LastSeenCovers(records: seq<Record>, m: Sequence, bound: Sequence)
    requires AllStamped(records) && m <= bound && LastSeen(records, 0) <= bound
    ensures L.LastOf(Intact(records), m) <= LastSeen(records, m) <= bound
    ensures m <= LastSeen(records, m) && 0 <= LastSeen(records, 0)
  {
    if records != [] {
      var n := |records| - 1;
      SeenGrows(records, 0);
      LastSeenCovers(records[..n], m, bound);
      OneMoreSeen(Intact(records[..n]), records[n], m, LastSeen(records[..n], m));
    }
  }

  // ---- Finding the logs ----

  ghost predicate AscendingNumbers(ns: seq<nat>) {
    forall i, j | 0 <= i < j < |ns| :: ns[i] < ns[j]
  }

  function NumberSet(ns: seq<nat>): set<nat> {
    set n | n in ns
  }

  /** Where a new number belongs. */
  ghost predicate IsSlot(ns: seq<nat>, i: nat, n: nat) {
    i <= |ns| && (forall j | 0 <= j < i :: ns[j] < n) && (forall j | i <= j < |ns| :: n < ns[j])
  }

  lemma InsertedAscends(ns: seq<nat>, i: nat, n: nat)
    requires AscendingNumbers(ns) && IsSlot(ns, i, n)
    ensures AscendingNumbers(ns[..i] + [n] + ns[i..])
  {
  }

  lemma InsertedNumbers(ns: seq<nat>, i: nat, n: nat)
    requires i <= |ns|
    ensures NumberSet(ns[..i] + [n] + ns[i..]) == NumberSet(ns) + {n}
  {
    assert ns == ns[..i] + ns[i..];
  }

  /** One step of the sort. */
  method InsertNumber(ns: seq<nat>, n: nat) returns (r: seq<nat>)
    requires AscendingNumbers(ns) && n !in ns
    ensures AscendingNumbers(r) && NumberSet(r) == NumberSet(ns) + {n}
  {
    var i: nat := 0;
    while i < |ns| && ns[i] < n
      invariant i <= |ns|
      invariant forall j | 0 <= j < i :: ns[j] < n
    {
      i := i + 1;
    }
    assert i < |ns| ==> ns[i] in ns;
    assert IsSlot(ns, i, n);
    InsertedAscends(ns, i, n);
    InsertedNumbers(ns, i, n);
    r := ns[..i] + [n] + ns[i..];
  }

  lemma LastNumber(ns: seq<nat>)
    requires AscendingNumbers(ns) && ns != []
    ensures forall n | n in ns :: n <= ns[|ns| - 1]
    ensures NumberSet(ns[..|ns| - 1]) == NumberSet(ns) - {ns[|ns| - 1]}
  {
    var n := |ns| - 1;
    assert ns == ns[..n] + [ns[n]];
    assert forall i | 0 <= i < n :: ns[i] < ns[n];
  }

  lemma {:induction false} AscendingUnique(a: seq<nat>, b: seq<nat>)
    requires AscendingNumbers(a) && AscendingNumbers(b) && NumberSet(a) == NumberSet(b)
    ensures a == b
  {
    assert a != [] ==> a[0] in NumberSet(a);
    assert b != [] ==> b[0] in NumberSet(b);
    if a != [] && b != [] {
      var x, y := a[|a| - 1], b[|b| - 1];
      LastNumber(a);
      LastNumber(b);
      assert x in NumberSet(b) && y in NumberSet(a);
      AscendingUnique(a[..|a| - 1], b[..|b| - 1]);
      assert a == a[..|a| - 1] + [x] && b == b[..|b| - 1] + [y];
    }
  }

  /** A directory lists each file once. */
  ghost predicate IsDirectory(children: seq<O.Child>) {
    forall i, j | 0 <= i < j < |children| :: children[i] != children[j]
  }

  ghost predicate HasFile(children: seq<O.Child>, n: nat) {
    exists c :: c in children && c.number == n
  }

  predicate IsLiveLog(c: O.Child, minLog: nat, prevLog: nat) {
    c.fileType.LogFile? && (c.number >= minLog || c.number == prevLog)
  }

  /** The part of DBImpl::Recover that looks through the directory. Some expected number without a file is
      corruption, a file of any type under the number will do; otherwise the logs come sorted. */
  method FindLogs(children: seq<O.Child>, expected: set<nat>, minLog: nat, prevLog: nat) returns (r: Option<seq<nat>>)
    requires IsDirectory(children)
    ensures r.None? <==> exists n :: n in expected && !HasFile(children, n)
    ensures r.Some? ==> AscendingNumbers(r.value)
    ensures r.Some? ==>
              forall n: nat :: n in r.value <==> O.Child(O.LogFile, n) in children && (n >= minLog || n == prevLog)
  {
    var missing, logs := expected, [];
    for i := 0 to |children|
      invariant forall n :: n in missing <==> n in expected && !HasFile(children[..i], n)
      invariant AscendingNumbers(logs)
      invariant forall n: nat :: n in logs <==> O.Child(O.LogFile, n) in children[..i] && (n >= minLog || n == prevLog)
    {
      var c := children[i];
      ghost var before := missing;
      assert children[..i + 1] == children[..i] + [c];
      missing := missing - {c.number};
      forall n ensures HasFile(children[..i + 1], n) <==> HasFile(children[..i], n) || n == c.number {
        if HasFile(children[..i], n) {
          var d :| d in children[..i] && d.number == n;
          assert d in children[..i + 1];
        }
      }
      if IsLiveLog(c, minLog, prevLog) {
        assert c == O.Child(O.LogFile, c.number) && c !in children[..i];
        logs := InsertNumber(logs, c.number);
        assert forall n :: n in logs <==> n in NumberSet(logs);
      }
    }
    assert children[..|children|] == children;
    if missing != {} {
      ghost var n :| n in missing;
      return None;
    }
    r := Some(logs);
  }

  // ---- The logs the MANIFEST still names ----

  function LiveLogs(s: L.State): seq<L.Log> {
    L.RemoveObsoleteLogs(s.logs, s.logNumber)
  }

  function NumbersOf(logs: seq<L.Log>): (r: seq<nat>)
    ensures |r| == |logs| && forall i | 0 <= i < |logs| :: r[i] == logs[i].number
  {
    seq(|logs|, i requires 0 <= i < |logs| => logs[i].number)
  }

  ghost predicate HasLog(logs: seq<L.Log>, n: nat) {
    exists log :: log in logs && log.number == n
  }

  /** The records yield these entries, and account for no number that was not given out. */
  ghost predicate Readable(records: seq<Record>, es: seq<Entry>, lastSequence: Sequence) {
    AllStamped(records) && Intact(records) == es && LastSeen(records, 0) <= lastSequence
  }

  /** The directory and the files show the logs. */
  ghost predicate OnDisk(children: seq<O.Child>, contents: nat -> seq<Record>, s: L.State) {
    && (forall n :: O.Child(O.LogFile, n) in children <==> HasLog(s.logs, n))
    && forall log | log in s.logs && log.number >= s.logNumber ::
         Readable(contents(log.number), log.entries, s.lastSequence)
  }

  predicate AllWhole(records: seq<Record>) {
    forall r | r in records :: IsWhole(r)
  }

  /** Some log that matters has damage that the reader notices. */
  ghost predicate HasFault(logs: seq<L.Log>, from: nat, contents: nat -> seq<Record>) {
    exists log :: log in logs && log.number >= from && !AllWhole(contents(log.number))
  }

  lemma LiveNumber(logs: seq<L.Log>, from: nat, live: seq<L.Log>, n: nat)
    requires live == L.RemoveObsoleteLogs(logs, from)
    ensures n in NumbersOf(live) <==> HasLog(logs, n) && n >= from
  {
    LsmRestarts.LiveLogsMembers(logs, from);
    if n in NumbersOf(live) {
      var i :| 0 <= i < |live| && NumbersOf(live)[i] == n;
      assert live[i] in live;
    }
    if HasLog(logs, n) && n >= from {
      var log :| log in logs && log.number == n;
      var i :| 0 <= i < |live| && live[i] == log;
      assert NumbersOf(live)[i] == n;
    }
  }

  lemma NoLogZero(s: L.State)
    requires L.LogInv(s)
    ensures !HasLog(s.logs, 0)
  {
    forall log | log in s.logs ensures log.number > 0 {
      var i :| 0 <= i < |s.logs| && s.logs[i] == log;
      assert i > 0 ==> s.logs[0].number < s.logs[i].number;
    }
  }

  lemma FoundNumbers(s: L.State, children: seq<O.Child>, contents: nat -> seq<Record>, numbers: seq<nat>)
    requires L.LogInv(s) && OnDisk(children, contents, s)
    requires forall n: nat :: n in numbers <==> O.Child(O.LogFile, n) in children && (n >= s.logNumber || n == 0)
    ensures NumberSet(numbers) == NumberSet(NumbersOf(LiveLogs(s)))
  {
    NoLogZero(s);
    forall n: nat ensures n in NumberSet(numbers) <==> n in NumberSet(NumbersOf(LiveLogs(s))) {
      LiveNumber(s.logs, s.logNumber, LiveLogs(s), n);
    }
  }

  /** What FindLogs finds are the live logs. */
  lemma FoundAreLive(s: L.State, children: seq<O.Child>, contents: nat -> seq<Record>, numbers: seq<nat>)
    requires L.LogInv(s) && OnDisk(children, contents, s) && AscendingNumbers(numbers)
    requires forall n: nat :: n in numbers <==> O.Child(O.LogFile, n) in children && (n >= s.logNumber || n == 0)
    ensures numbers == NumbersOf(LiveLogs(s))
  {
    LsmRestarts.RemoveLogsFacts(s.logs, s.logNumber);
    FoundNumbers(s, children, contents, numbers);
    AscendingUnique(numbers, NumbersOf(LiveLogs(s)));
  }

  ghost predicate AllReadable(logs: seq<L.Log>, from: nat, contents: nat -> seq<Record>, bound: Sequence) {
    forall log | log in logs :: Readable(contents(log.number), log.entries, bound) && log.number >= from
  }

  ghost predicate AllLogsWhole(logs: seq<L.Log>, n: nat, contents: nat -> seq<Record>)
    requires n <= |logs|
  {
    forall i | 0 <= i < n :: AllWhole(contents(logs[i].number))
  }

  lemma LiveOnDisk(s: L.State, children: seq<O.Child>, contents: nat -> seq<Record>, live: seq<L.Log>)
    requires OnDisk(children, contents, s) && live == LiveLogs(s)
    ensures AllReadable(live, s.logNumber, contents, s.lastSequence)
    ensures HasFault(s.logs, s.logNumber, contents) <==> !AllLogsWhole(live, |live|, contents)
  {
    LsmRestarts.LiveLogsMembers(s.logs, s.logNumber);
  }

  // ---- DBImpl::Recover ----

  /** The logs so far have been replayed. */
  ghost predicate Replayed(logs: seq<L.Log>, from: nat, n: nat, tables: seq<TableFile>, first: nat, next: nat,
                           start: Sequence, last: Sequence, bound: Sequence)
    requires n <= |logs|
  {
    && TablesOf(tables, L.LogEntries(logs[..n], from), first, next)
    && L.LastOf(L.LogEntries(logs[..n], from), start) <= last <= bound
    && forall i | 0 <= i < n :: logs[i].number < next
  }

  lemma NothingReplayed(logs: seq<L.Log>, from: nat, first: nat, start: Sequence, bound: Sequence)
    requires start <= bound
    ensures Replayed(logs, from, 0, [], first, first, start, start, bound)
  {
    assert logs[..0] == [];
    NoTables(first);
  }

  lemma {:induction false} LogEntriesPrefix(logs: seq<L.Log>, n: nat, from: nat)
    requires n <= |logs|
    ensures L.LogEntries(logs[..n], from) <= L.LogEntries(logs, from)
  {
    if n < |logs| {
      assert logs[..|logs| - 1][..n] == logs[..n];
      LogEntriesPrefix(logs[..|logs| - 1], n, from);
    } else {
      assert logs[..n] == logs;
    }
  }

  /** The next log's entries are in order, and later than those of the logs before it. */
  lemma PartInOrder(logs: seq<L.Log>, from: nat, n: nat)
    requires Increasing(L.LogEntries(logs, from)) && n < |logs| && logs[n].number >= from
    ensures L.LogEntries(logs[..n + 1], from) == L.LogEntries(logs[..n], from) + logs[n].entries
    ensures Increasing(logs[n].entries)
    ensures forall x, y | x in L.LogEntries(logs[..n], from) && y in logs[n].entries :: x.key.sequence < y.key.sequence
  {
    assert logs[..n + 1][..n] == logs[..n];
    LogEntriesPrefix(logs, n + 1, from);
    PartsIncreasing(L.LogEntries(logs, from), L.LogEntries(logs[..n], from), logs[n].entries);
  }

  lemma LogReplayed(logs: seq<L.Log>, from: nat, n: nat, tables: seq<TableFile>, first: nat, next: nat, start: Sequence,
                    last: Sequence, bound: Sequence, more: seq<TableFile>, after: nat, used: nat, seen: Sequence)
    requires Increasing(L.LogEntries(logs, from)) && n < |logs| && logs[n].number >= from
    requires Replayed(logs, from, n, tables, first, next, start, last, bound)
    requires TablesOf(more, logs[n].entries, next, after) && after <= used && logs[n].number < used
    requires L.LastOf(logs[n].entries, last) <= seen <= bound
    ensures Replayed(logs, from, n + 1, tables + more, first, used, start, seen, bound)
  {
    PartInOrder(logs, from, n);
    var before := L.LogEntries(logs[..n], from);
    JoinTables(tables, before, first, next, more, logs[n].entries, next, after);
    LastOfJoin(before, logs[n].entries, start);
    LastOfGrows(logs[n].entries, L.LastOf(before, start), last);
  }

  lemma LiveLogEntries(s: L.State)
    requires L.LogInv(s)
    ensures L.LogEntries(LiveLogs(s), s.logNumber) == L.LogEntries(s.logs, s.logNumber)
    ensures forall log | log in LiveLogs(s) :: log.number >= s.logNumber
  {
    LsmRestarts.LiveLogsMembers(s.logs, s.logNumber);
    LsmRestarts.RemoveLogsFacts(s.logs, s.logNumber);
  }

  /** A number above those of the live logs is above those of all. */
  lemma NumbersBelow(s: L.State, live: seq<L.Log>, next: nat)
    requires L.LogInv(s) && live == LiveLogs(s) && forall i | 0 <= i < |live| :: live[i].number < next
    ensures forall log | log in s.logs :: log.number < next
  {
    LsmRestarts.LiveLogsMembers(s.logs, s.logNumber);
    var n := |s.logs| - 1;
    assert s.logs[n] in live;
    forall log | log in s.logs ensures log.number < next {
      var i :| 0 <= i <= n && s.logs[i] == log;
      assert i < n ==> s.logs[i].number < s.logs[n].number;
    }
  }

  lemma AllReplayed(s: L.State, tables: seq<TableFile>, next: nat, last: Sequence)
    requires L.LogInv(s)
    requires Replayed(LiveLogs(s), s.logNumber, |LiveLogs(s)|, tables, s.manifestNextFile + 1, next,
                      s.manifestSequence, last, s.lastSequence)
    ensures L.IsReplay(s, tables, next) && L.IsRecovered(s, last)
  {
    var live := LiveLogs(s);
    assert live[..|live|] == live;
    LiveLogEntries(s);
    NumbersBelow(s, live, next);
  }

  /** The logs in the order of their numbers; every number seen is used up. */
  method ReplayLogs(numbers: seq<nat>, contents: nat -> seq<Record>, paranoid: bool, first: nat, start: Sequence,
                    memFull: seq<Entry> -> bool, fileSize: seq<Entry> -> nat, ghost logs: seq<L.Log>,
                    ghost from: nat, ghost bound: Sequence)
    returns (ok: bool, tables: seq<TableFile>, next: nat, last: Sequence)
    requires Increasing(L.LogEntries(logs, from)) && numbers == NumbersOf(logs)
    requires AllReadable(logs, from, contents, bound) && start <= bound
    ensures ok <==> paranoid ==> AllLogsWhole(logs, |logs|, contents)
    ensures ok ==> Replayed(logs, from, |logs|, tables, first, next, start, last, bound)
  {
    ok, tables, next, last := true, [], first, start;
    NothingReplayed(logs, from, first, start, bound);
    for n := 0 to |numbers|
      invariant Replayed(logs, from, n, tables, first, next, start, last, bound)
      invariant paranoid ==> AllLogsWhole(logs, n, contents)
    {
      PartInOrder(logs, from, n);
      assert logs[n] in logs;
      var more, after, seen;
      ok, more, after, seen := RecoverLogFile(contents(numbers[n]), paranoid, memFull, fileSize, next, last);
      if !ok {
        return;
      }
      LastSeenCovers(contents(numbers[n]), last, bound);
      var used := if after <= numbers[n] then numbers[n] + 1 else after;
      LogReplayed(logs, from, n, tables, first, next, start, last, bound, more, after, used, seen);
      tables, next, last := tables + more, used, seen;
    }
    ok := true;
  }

  datatype Replay = Replay(tables: seq<TableFile>, newLog: nat, lastSequence: Sequence)

  /** DBImpl::Recover after the MANIFEST: the logs that it still names are found, and what is intact in them is
      replayed into tables; the next number is the new log's. None if a file of the version is missing, or, with
      paranoid checks, if such a log is at fault. */
  method Recover(children: seq<O.Child>, expected: set<nat>, contents: nat -> seq<Record>, paranoid: bool,
                 logNumber: nat, nextFile: nat, lastSequence: Sequence, memFull: seq<Entry> -> bool,
                 fileSize: seq<Entry> -> nat, ghost s: L.State)
    returns (r: Option<Replay>)
    requires L.LogInv(s) && LogsInOrder(s) && IsDirectory(children) && OnDisk(children, contents, s)
    requires logNumber == s.logNumber && nextFile == s.manifestNextFile + 1 && lastSequence == s.manifestSequence
    ensures r.None? <==> (exists n :: n in expected && !HasFile(children, n))
                         || (paranoid && HasFault(s.logs, s.logNumber, contents))
    ensures r.Some? ==> L.IsReplay(s, r.value.tables, r.value.newLog) && L.IsRecovered(s, r.value.lastSequence)
  {
    var numbers := FindLogs(children, expected, logNumber, 0);
    if numbers.None? {
      return None;
    }
    FoundAreLive(s, children, contents, numbers.value);
    LiveOnDisk(s, children, contents, LiveLogs(s));
    TailIncreasing(s);
    LiveLogEntries(s);
    var ok, tables, next, last := ReplayLogs(numbers.value, contents, paranoid, nextFile, lastSequence, memFull,
                                             fileSize, LiveLogs(s), s.logNumber, s.lastSequence);
    if !ok {
      return None;
    }
    AllReplayed(s, tables, next, last);
    r := Some(Replay(tables, next, last));
  }

  // ---- Damaged logs ----

  /** What can be read of each log that matters. */
  function Surviving(logs: seq<L.Log>, from: nat, contents: nat -> seq<Record>): (r: seq<L.Log>)
    ensures |r| == |logs|
  {
    seq(|logs|, i requires 0 <= i < |logs| =>
      if logs[i].number >= from then L.Log(logs[i].number, Intact(contents(logs[i].number))) else logs[i])
  }

  /** The directory and the files show the logs, of those that matter perhaps only part. */
  ghost predicate LeftOnDisk(children: seq<O.Child>, contents: nat -> seq<Record>, s: L.State) {
    && (forall n :: O.Child(O.LogFile, n) in children <==> HasLog(s.logs, n))
    && forall log | log in s.logs && log.number >= s.logNumber ::
         && LsmLosses.IsPart(Intact(contents(log.number)), log.entries)
         && Readable(contents(log.number), Intact(contents(log.number)), s.lastSequence)
  }

  lemma SurvivingAt(logs: seq<L.Log>, from: nat, contents: nat -> seq<Record>, log: L.Log)
    requires log in Surviving(logs, from, contents)
    ensures exists l :: l in logs && l.number == log.number
    ensures log.number >= from ==> log.entries == Intact(contents(log.number))
  {
    var i :| 0 <= i < |logs| && Surviving(logs, from, contents)[i] == log;
    assert logs[i] in logs;
  }

  /** The same numbers. */
  lemma SurvivingNumbers(logs: seq<L.Log>, from: nat, contents: nat -> seq<Record>, n: nat)
    ensures HasLog(Surviving(logs, from, contents), n) <==> HasLog(logs, n)
  {
    var kept := Surviving(logs, from, contents);
    if HasLog(logs, n) {
      var i :| 0 <= i < |logs| && logs[i].number == n;
      assert kept[i] in kept && kept[i].number == n;
    }
    if HasLog(kept, n) {
      var log :| log in kept && log.number == n;
      SurvivingAt(logs, from, contents, log);
    }
  }

  lemma SameFaults(logs: seq<L.Log>, from: nat, contents: nat -> seq<Record>)
    ensures HasFault(Surviving(logs, from, contents), from, contents) <==> HasFault(logs, from, contents)
  {
    var kept := Surviving(logs, from, contents);
    if HasFault(logs, from, contents) {
      var log :| log in logs && log.number >= from && !AllWhole(contents(log.number));
      SurvivingNumbers(logs, from, contents, log.number);
    }
    if HasFault(kept, from, contents) {
      var log :| log in kept && log.number >= from && !AllWhole(contents(log.number));
      SurvivingAt(logs, from, contents, log);
    }
  }

  /** What is left of the logs is all that a recovery from the damaged state needs. */
  lemma LeftIsOnDisk(children: seq<O.Child>, contents: nat -> seq<Record>, s: L.State, kept: seq<L.Log>, d: L.State)
    requires s.logs != [] && LeftOnDisk(children, contents, s)
    requires kept == Surviving(s.logs, s.logNumber, contents) && d == LsmLosses.Damaged(s, kept)
    ensures LsmLosses.ArePartsOf(kept, s.logs, s.logNumber) && OnDisk(children, contents, d)
  {
    forall i | 0 <= i < |kept|
      ensures kept[i].number == s.logs[i].number
      ensures s.logs[i].number >= s.logNumber ==> LsmLosses.IsPart(kept[i].entries, s.logs[i].entries)
    {
      assert s.logs[i] in s.logs;
    }
    forall n ensures O.Child(O.LogFile, n) in children <==> HasLog(kept, n) {
      SurvivingNumbers(s.logs, s.logNumber, contents, n);
    }
    forall log | log in kept && log.number >= s.logNumber
      ensures Readable(contents(log.number), log.entries, s.lastSequence)
    {
      SurvivingAt(s.logs, s.logNumber, contents, log);
    }
  }
}
