/** The writer queue of DBImpl::Write: writers line up, the one in front makes room, takes a prefix of the
    queue as its group, and works on log and memtable without the mutex while others join the queue. */
module WriteQueues {
  import opened InternalKeys
  import L = Lsm

  datatype Status = Ok | Failed

  /** A waiting call of Write; a null batch asks for a memtable switch. `size` is the batch's byte size. */
  datatype Writer = Writer(id: nat, batch: Option<seq<L.Operation>>, size: nat, sync: bool)

  // ---- BuildBatchGroup ----

  const MAX_GROUP_BYTES: nat := 0x10_0000
  const SMALL_WRITE_BYTES: nat := 0x2_0000

  function MaxSize(first: Writer): nat {
    if first.size <= SMALL_WRITE_BYTES then first.size + SMALL_WRITE_BYTES else MAX_GROUP_BYTES
  }

  function TotalSize(ws: seq<Writer>): nat {
    if ws == [] then 0
    else TotalSize(ws[..|ws| - 1]) + if ws[|ws| - 1].batch.Some? then ws[|ws| - 1].size else 0
  }

  function Gathered(ws: seq<Writer>): seq<L.Operation> {
    if ws == [] then []
    else Gathered(ws[..|ws| - 1]) + if ws[|ws| - 1].batch.Some? then ws[|ws| - 1].batch.value else []
  }

  /** Writer `i` may join the group of those before it. */
  predicate MayJoin(ws: seq<Writer>, i: nat)
    requires 0 < i < |ws|
  {
    (ws[i].sync ==> ws[0].sync) && (ws[i].batch.Some? ==> TotalSize(ws[..i + 1]) <= MaxSize(ws[0]))
  }

  ghost predicate AllJoin(ws: seq<Writer>, n: nat)
    requires n <= |ws|
  {
    forall i | 0 < i < n :: MayJoin(ws, i)
  }

  ghost predicate IsGroup(ws: seq<Writer>, n: nat) {
    0 < n <= |ws| && AllJoin(ws, n) && (n < |ws| ==> !MayJoin(ws, n))
  }

  lemma FirstAlone(ws: seq<Writer>)
    requires ws != [] && ws[0].batch.Some?
    ensures TotalSize(ws[..1]) == ws[0].size && Gathered(ws[..1]) == ws[0].batch.value
  {
    assert ws[..1][..0] == [];
    assert [] + ws[0].batch.value == ws[0].batch.value;
  }

  lemma OneMore(ws: seq<Writer>, n: nat)
    requires n < |ws|
    ensures TotalSize(ws[..n + 1]) == TotalSize(ws[..n]) + if ws[n].batch.Some? then ws[n].size else 0
    ensures Gathered(ws[..n + 1]) == Gathered(ws[..n]) + if ws[n].batch.Some? then ws[n].batch.value else []
    ensures ws[n].batch.None? ==> Gathered(ws[..n + 1]) == Gathered(ws[..n])
  {
    assert ws[..n + 1][..n] == ws[..n];
    assert Gathered(ws[..n]) + [] == Gathered(ws[..n]);
  }

  method BuildBatchGroup(writers: seq<Writer>) returns (n: nat, result: seq<L.Operation>)
    requires writers != [] && writers[0].batch.Some?
    ensures IsGroup(writers, n) && result == Gathered(writers[..n])
  {
    var first := writers[0];
    var size, maxSize := first.size, MaxSize(first);
    result := first.batch.value;
    n := 1;
    FirstAlone(writers);
    while n < |writers|
      invariant 0 < n <= |writers| && AllJoin(writers, n)
      invariant size == TotalSize(writers[..n]) && result == Gathered(writers[..n])
    {
      var w := writers[n];
      OneMore(writers, n);
      if w.sync && !first.sync {
        break;
      }
      if w.batch.Some? {
        size := size + w.size;
        if size > maxSize {
          break;
        }
        result := result + w.batch.value;
      }
      n := n + 1;
    }
  }

  /** A group seen as a whole: no sync write under a leader that does not sync, and beyond a lone batch no
      more bytes than the leader's size allows. */
  ghost predicate Fits(ws: seq<Writer>, n: nat) {
    && 0 < n <= |ws|
    && (ws[0].sync || forall i | 0 < i < n :: !ws[i].sync)
    && ((forall i | 0 < i < n :: ws[i].batch.None?) || TotalSize(ws[..n]) <= MaxSize(ws[0]))
  }

  lemma {:induction false} JoiningFits(ws: seq<Writer>, n: nat)
    requires 0 < n <= |ws| && ws[0].batch.Some?
    ensures AllJoin(ws, n) <==> Fits(ws, n)
  {
    if n > 1 {
      JoiningFits(ws, n - 1);
      OneMore(ws, n - 1);
      assert AllJoin(ws, n) <==> AllJoin(ws, n - 1) && MayJoin(ws, n - 1);
    }
  }

  /** The loop finds the longest prefix that fits. */
  lemma GroupIsLongest(ws: seq<Writer>, n: nat)
    requires ws != [] && ws[0].batch.Some?
    ensures IsGroup(ws, n) <==> Fits(ws, n) && forall m | n < m <= |ws| :: !Fits(ws, m)
  {
    if 0 < n <= |ws| {
      JoiningFits(ws, n);
      if n < |ws| { JoiningFits(ws, n + 1); }
      forall m | n < m <= |ws| ensures AllJoin(ws, m) <==> Fits(ws, m) { JoiningFits(ws, m); }
    }
  }

  // ---- MakeRoomForWrite ----

  /** What one turn of the loop sees, and how the file operations of a switch would go. */
  datatype Look = Look(bgError: bool, level0Files: nat, memFull: bool, immBusy: bool, newLogOpens: bool,
                       oldLogCloses: bool)

  /** How the call ends; `bgError` says whether a background error stands by then. */
  datatype Room = Room(status: Status, switches: nat, bgError: bool)

  /** What a turn that does not end the call does. */
  datatype Turn = Delay | Wait | Switch

  function Count(turns: seq<Turn>, turn: Turn): nat {
    multiset(turns)[turn]
  }

  ghost predicate MaySwitch(look: Look, stop: nat) {
    !look.immBusy && !look.bgError && look.level0Files < stop && look.newLogOpens
  }

  predicate MayDelay(force: bool, slowdown: nat, turns: seq<Turn>, look: Look) {
    !force && Delay !in turns && look.level0Files >= slowdown
  }

  predicate NeedsRoom(force: bool, turns: seq<Turn>, look: Look) {
    look.memFull || (force && Switch !in turns)
  }

  predicate IsBlocked(stop: nat, look: Look) {
    look.immBusy || look.level0Files >= stop
  }

  /** An old log that does not close is a background error. */
  predicate LeavesError(turn: Turn, look: Look) {
    turn.Switch? && !look.oldLogCloses
  }

  /** Whether a background error stands at the turn after these. */
  predicate ErrorStands(bgErrorBefore: bool, looks: seq<Look>, turns: seq<Turn>)
    requires |turns| < |looks|
  {
    var n := |turns|;
    bgErrorBefore || looks[n].bgError || (n > 0 && LeavesError(turns[n - 1], looks[n - 1]))
  }

  /** A turn goes on exactly if it sees no error, and either delays the writer, once, or finds no room and can
      make some or must wait. */
  ghost predicate GoesOn(force: bool, slowdown: nat, stop: nat, turns: seq<Turn>, look: Look, turn: Turn) {
    match turn
    case Delay => MayDelay(force, slowdown, turns, look)
    case Wait => !MayDelay(force, slowdown, turns, look) && NeedsRoom(force, turns, look) && IsBlocked(stop, look)
    case Switch => !MayDelay(force, slowdown, turns, look) && NeedsRoom(force, turns, look) && MaySwitch(look, stop)
  }

  ghost predicate IsTurn(force: bool, slowdown: nat, stop: nat, bgErrorBefore: bool, looks: seq<Look>,
                         turns: seq<Turn>, i: nat)
    requires i < |turns| <= |looks|
  {
    !ErrorStands(bgErrorBefore, looks, turns[..i]) && GoesOn(force, slowdown, stop, turns[..i], looks[i], turns[i])
  }

  ghost predicate AreTurns(force: bool, slowdown: nat, stop: nat, bgErrorBefore: bool, looks: seq<Look>,
                           turns: seq<Turn>) {
    && |turns| <= |looks|
    && forall i | 0 <= i < |turns| :: IsTurn(force, slowdown, stop, bgErrorBefore, looks, turns, i)
  }

  /** How the call ends, at the first turn that does not go on. */
  ghost predicate EndsWith(force: bool, slowdown: nat, stop: nat, bgErrorBefore: bool, looks: seq<Look>,
                           turns: seq<Turn>, room: Room) {
    && |turns| < |looks| && room.switches == Count(turns, Switch)
    && (room.bgError <==> ErrorStands(bgErrorBefore, looks, turns))
    && (room.bgError || forall turn :: !GoesOn(force, slowdown, stop, turns, looks[|turns|], turn))
    && (room.status.Ok? <==> !room.bgError && !NeedsRoom(force, turns, looks[|turns|]))
  }

  lemma OneMoreTurn(force: bool, slowdown: nat, stop: nat, bgErrorBefore: bool, looks: seq<Look>, turns: seq<Turn>,
                    turn: Turn)
    requires AreTurns(force, slowdown, stop, bgErrorBefore, looks, turns) && |turns| < |looks|
    requires !ErrorStands(bgErrorBefore, looks, turns)
    requires GoesOn(force, slowdown, stop, turns, looks[|turns|], turn)
    ensures AreTurns(force, slowdown, stop, bgErrorBefore, looks, turns + [turn])
  {
    var more := turns + [turn];
    forall i | 0 <= i < |more|
      ensures IsTurn(force, slowdown, stop, bgErrorBefore, looks, more, i)
    {
      assert more[..i] == turns[..i];
      assert i < |turns| ==> IsTurn(force, slowdown, stop, bgErrorBefore, looks, turns, i);
    }
  }

  /** What the loop's variables say about the turns so far. */
  ghost predicate Tallies(force: bool, turns: seq<Turn>, allowDelay: bool, forced: bool, switches: nat) {
    && (allowDelay <==> !force && Delay !in turns) && (forced <==> force && Switch !in turns)
    && switches == Count(turns, Switch) && Count(turns, Delay) <= if force then 0 else 1
  }

  lemma Tally(force: bool, turns: seq<Turn>, allowDelay: bool, forced: bool, switches: nat, turn: Turn)
    requires Tallies(force, turns, allowDelay, forced, switches) && (turn.Delay? ==> allowDelay)
    ensures Tallies(force, turns + [turn], allowDelay && !turn.Delay?, forced && !turn.Switch?,
                    switches + if turn.Switch? then 1 else 0)
  {
    assert Count(turns + [turn], Switch) == Count(turns, Switch) + if turn.Switch? then 1 else 0;
    assert Count(turns + [turn], Delay) == Count(turns, Delay) + if turn.Delay? then 1 else 0;
  }

  lemma Ended(force: bool, slowdown: nat, stop: nat, bgErrorBefore: bool, looks: seq<Look>, turns: seq<Turn>,
              allowDelay: bool, forced: bool, switches: nat, room: Room)
    requires Tallies(force, turns, allowDelay, forced, switches) && |turns| < |looks| && room.switches == switches
    requires room.bgError == ErrorStands(bgErrorBefore, looks, turns) && (room.bgError ==> room.status.Failed?)
    requires var look := looks[|turns|];
             !room.bgError ==>
               && !(allowDelay && look.level0Files >= slowdown)
               && if forced || look.memFull then room.status.Failed? && !IsBlocked(stop, look) && !look.newLogOpens
                  else room.status.Ok?
    ensures EndsWith(force, slowdown, stop, bgErrorBefore, looks, turns, room)
    ensures room.status.Ok? && force ==> room.switches > 0
  {
  }

  /** The loop over what its turns see, up to the first that ends the call; None if there is no such turn among
      them, and the writer is still waiting. The immutable memtable is never replaced before it is flushed, a
      writer is delayed once at most, a forced call succeeds only by switching, and an old log that does not
      close is the end of all writing. */
  method MakeRoomForWrite(force: bool, slowdown: nat, stop: nat, bgErrorBefore: bool, looks: seq<Look>)
    returns (room: Option<Room>, turns: seq<Turn>)
    ensures AreTurns(force, slowdown, stop, bgErrorBefore, looks, turns)
    ensures room.None? <==> |turns| == |looks|
    ensures room.Some? ==> EndsWith(force, slowdown, stop, bgErrorBefore, looks, turns, room.value)
    ensures Count(turns, Delay) <= if force then 0 else 1
    ensures room.Some? && room.value.status.Ok? && force ==> room.value.switches > 0
    ensures bgErrorBefore ==> turns == []
  {
    var allowDelay, forced, bgError, switches := !force, force, bgErrorBefore, 0;
    turns := [];
    for i := 0 to |looks|
      invariant |turns| == i && AreTurns(force, slowdown, stop, bgErrorBefore, looks, turns)
      invariant Tallies(force, turns, allowDelay, forced, switches)
      invariant bgError <==> bgErrorBefore || (i > 0 && LeavesError(turns[i - 1], looks[i - 1]))
      invariant bgErrorBefore ==> turns == []
    {
      var look := looks[i];
      bgError := bgError || look.bgError;
      if bgError {
        room := Some(Room(Failed, switches, true));
        Ended(force, slowdown, stop, bgErrorBefore, looks, turns, allowDelay, forced, switches, room.value);
        return;
      } else if allowDelay && look.level0Files >= slowdown {
        OneMoreTurn(force, slowdown, stop, bgErrorBefore, looks, turns, Delay);
        Tally(force, turns, allowDelay, forced, switches, Delay);
        turns, allowDelay := turns + [Delay], false;
      } else if !forced && !look.memFull {
        room := Some(Room(Ok, switches, false));
        Ended(force, slowdown, stop, bgErrorBefore, looks, turns, allowDelay, forced, switches, room.value);
        return;
      } else if look.immBusy || look.level0Files >= stop {
        OneMoreTurn(force, slowdown, stop, bgErrorBefore, looks, turns, Wait);
        Tally(force, turns, allowDelay, forced, switches, Wait);
        turns := turns + [Wait];
      } else {
        if !look.newLogOpens {
          room := Some(Room(Failed, switches, false));
          Ended(force, slowdown, stop, bgErrorBefore, looks, turns, allowDelay, forced, switches, room.value);
          return;
        }
        if !look.oldLogCloses {
          bgError := true;
        }
        OneMoreTurn(force, slowdown, stop, bgErrorBefore, looks, turns, Switch);
        Tally(force, turns, allowDelay, forced, switches, Switch);
        turns, switches, forced := turns + [Switch], switches + 1, false;
      }
    }
    room := None;
  }

  // ---- The protocol ----

  datatype Record = Record(entries: seq<Entry>, synced: bool)

  datatype Outcome = Logged | NotLogged | SyncFailed

  /** The front writer's group while the mutex is free; `outcome` is known once log and memtable are done. */
  datatype Group = Group(members: nat, entries: seq<Entry>, outcome: Option<Outcome>, switched: bool)

  /** A finished call of Write. `admitted` ones have had sequence numbers set aside for their batch. */
  datatype Completion = Completion(writer: Writer, status: Status, led: bool, switched: bool, admitted: bool)

  datatype Queue = Queue(
    writers: seq<Writer>,
    group: Option<Group>,
    lastSequence: Sequence,
    log: seq<Record>,
    applied: seq<Entry>,             // to the memtables, in order
    bgError: bool,
    switches: nat,
    start: Sequence,                 // the last sequence when the database was opened
    queued: seq<Writer>,             // everyone who ever joined
    completed: seq<Completion>)

  function Completions(ws: seq<Writer>, status: Status, admitted: bool, switched: bool): seq<Completion> {
    seq(|ws|, i requires 0 <= i < |ws| => Completion(ws[i], status, i == 0, i == 0 && switched, admitted))
  }

  function Join(q: Queue, w: Writer): Queue {
    q.(writers := q.writers + [w], queued := q.queued + [w])
  }

  /** The first `n` writers leave the queue. */
  function Complete(q: Queue, n: nat, status: Status, admitted: bool, switched: bool): Queue
    requires n <= |q.writers|
  {
    q.(writers := q.writers[n..], group := None,
       completed := q.completed + Completions(q.writers[..n], status, admitted, switched))
  }

  /** The front writer has made room: it leaves at once if that failed or it brings no batch, and otherwise
      takes a group. */
  function Lead(q: Queue, room: Room, n: nat): Queue
    requires 0 < n <= |q.writers|
    requires q.lastSequence + |Gathered(q.writers[..n])| < MAX_SEQUENCE
  {
    var r := q.(switches := q.switches + room.switches, bgError := q.bgError || room.bgError);
    if room.status.Failed?
        || q.writers[0].batch.None? then Complete(r, 1, room.status, room.status.Ok?, room.switches > 0)
    else r.(group := Some(Group(n, L.Stamp(Gathered(q.writers[..n]), q.lastSequence), None, room.switches > 0)))
  }

  /** Log and memtable, without the mutex. */
  function Append(q: Queue, outcome: Outcome): Queue
    requires q.group.Some? && q.writers != []
  {
    var g := q.group.value;
    q.(group := Some(g.(outcome := Some(outcome))),
       log := if outcome.NotLogged? then q.log else q.log + [Record(g.entries, q.writers[0].sync && outcome.Logged?)],
       applied := if outcome.Logged? then q.applied + g.entries else q.applied)
  }

  /** With the mutex again: the last sequence moves on even if the log append failed. */
  function Finish(q: Queue): Queue
    requires q.group.Some? && q.group.value.outcome.Some? && q.group.value.members <= |q.writers|
    requires q.lastSequence + |q.group.value.entries| < MAX_SEQUENCE
  {
    var g := q.group.value;
    var r := q.(lastSequence := q.lastSequence + |g.entries|, bgError := q.bgError || g.outcome.value.SyncFailed?);
    Complete(r, g.members, if g.outcome.value.Logged? then Ok else Failed, true, g.switched)
  }

  datatype Step = JoinStep(w: Writer) | LeadStep(room: Room, members: nat) | AppendStep(outcome: Outcome) | FinishStep

  /** MakeRoomForWrite as the front writer calls it. */
  ghost predicate MayGet(q: Queue, room: Room) {
    && (q.bgError ==> room.bgError) && (room.bgError ==> room.status.Failed?)
    && (room.status.Ok? && q.writers != [] && q.writers[0].batch.None? ==> room.switches > 0)
  }

  ghost predicate MayLead(q: Queue, room: Room, n: nat) {
    && q.writers != [] && q.group.None? && 0 < n <= |q.writers| && MayGet(q, room)
    && q.lastSequence + |Gathered(q.writers[..n])| < MAX_SEQUENCE
    && (room.status.Ok? && q.writers[0].batch.Some? ==> IsGroup(q.writers, n))
  }

  ghost predicate MayAppend(q: Queue, outcome: Outcome) {
    && q.group.Some? && q.group.value.outcome.None? && q.writers != []
    && (outcome.SyncFailed? ==> q.writers[0].sync)
  }

  ghost predicate MayFinish(q: Queue) {
    && q.group.Some? && q.group.value.outcome.Some? && q.group.value.members <= |q.writers|
    && q.lastSequence + |q.group.value.entries| < MAX_SEQUENCE
  }

  ghost predicate Next(q: Queue, step: Step, r: Queue) {
    match step
    case JoinStep(w) => (forall x | x in q.queued :: x.id != w.id) && r == Join(q, w)
    case LeadStep(room, n) => MayLead(q, room, n) && r == Lead(q, room, n)
    case AppendStep(outcome) => MayAppend(q, outcome) && r == Append(q, outcome)
    case FinishStep => MayFinish(q) && r == Finish(q)
  }

  ghost predicate Initial(q: Queue) {
    && q.writers == [] && q.group.None? && q.lastSequence == q.start && q.log == [] && q.applied == []
    && !q.bgError && q.switches == 0 && q.queued == [] && q.completed == []
  }

  // ---- What the protocol keeps ----

  function Left(cs: seq<Completion>): seq<Writer> {
    seq(|cs|, i requires 0 <= i < |cs| => cs[i].writer)
  }

  /** First in, first out, everyone once. */
  ghost predicate FifoInv(q: Queue) {
    && q.queued == Left(q.completed) + q.writers
    && forall i, j | 0 <= i < j < |q.queued| :: q.queued[i].id != q.queued[j].id
  }

  /** The operations that have had sequence numbers set aside, in the order their writers left. */
  function Admitted(cs: seq<Completion>): seq<L.Operation> {
    if cs == [] then []
    else
      var last := cs[|cs| - 1];
      Admitted(cs[..|cs| - 1]) + if last.admitted && last.writer.batch.Some? then last.writer.batch.value else []
  }

  ghost predicate SequenceInv(q: Queue) {
    q.lastSequence == q.start + |Admitted(q.completed)| < MAX_SEQUENCE
  }

  /** The entries are in one record of the log, a synced one if asked for, and in the memtable. */
  ghost predicate InLog(log: seq<Record>, applied: seq<Entry>, entries: seq<Entry>, synced: bool) {
    && (forall e | e in entries :: e in applied)
    && exists r :: r in log && (synced ==> r.synced) && forall e | e in entries :: e in r.entries
  }

  ghost predicate GroupInv(q: Queue) {
    q.group.Some? ==>
      var g := q.group.value;
      && 0 < g.members <= |q.writers| && q.writers[0].batch.Some? && Fits(q.writers[..g.members], g.members)
      && q.lastSequence + |Gathered(q.writers[..g.members])| < MAX_SEQUENCE
      && g.entries == L.Stamp(Gathered(q.writers[..g.members]), q.lastSequence)
      && (g.outcome == Some(Logged) ==> InLog(q.log, q.applied, g.entries, q.writers[0].sync))
  }

  /** The sequence number just before those of completion `i`. */
  function Base(q: Queue, i: nat): nat
    requires i <= |q.completed|
  {
    q.start + |Admitted(q.completed[..i])|
  }

  /** An acknowledged batch is stamped with the numbers after its base, and logged and applied as such. */
  ghost predicate Acknowledged(q: Queue, i: nat)
    requires i < |q.completed|
  {
    var c := q.completed[i];
    c.status.Ok? && c.writer.batch.Some? ==>
      && c.admitted && Base(q, i) + |c.writer.batch.value| < MAX_SEQUENCE
      && InLog(q.log, q.applied, L.Stamp(c.writer.batch.value, Base(q, i)), c.writer.sync)
  }

  ghost predicate DurableInv(q: Queue) {
    forall i | 0 <= i < |q.completed| :: Acknowledged(q, i)
  }

  /** A null batch that succeeds has switched the memtable exactly if its writer led. */
  ghost predicate SwitchInv(q: Queue) {
    forall c | c in q.completed && c.writer.batch.None? && c.status.Ok? :: c.switched <==> c.led
  }

  ghost predicate Inv(q: Queue) {
    FifoInv(q) && SequenceInv(q) && GroupInv(q) && DurableInv(q) && SwitchInv(q)
  }

  lemma InitialInv(q: Queue)
    requires Initial(q) && q.start < MAX_SEQUENCE
    ensures Inv(q)
  {
  }

  lemma OneMoreAdmitted(cs: seq<Completion>, more: seq<Completion>, c: Completion)
    requires more != [] && c == more[|more| - 1]
    ensures Admitted(cs + more) == Admitted(cs + more[..|more| - 1]) +
              if c.admitted then (if c.writer.batch.Some? then c.writer.batch.value else []) else []
  {
    assert (cs + more)[..|cs + more| - 1] == cs + more[..|more| - 1];
    Regroup(Admitted(cs + more[..|more| - 1]), [], []);
  }

  lemma IfAppend(a: seq<L.Operation>, b: seq<L.Operation>, c: seq<L.Operation>, kept: bool)
    ensures (a + if kept then b else []) + (if kept then c else []) == a + if kept then b + c else []
  {
  }

  lemma {:induction false} AdmittedOf(cs: seq<Completion>, more: seq<Completion>, ws: seq<Writer>, admitted: bool)
    requires |more| == |ws|
    requires forall i | 0 <= i < |ws| :: more[i].writer == ws[i] && more[i].admitted == admitted
    ensures Admitted(cs + more) == Admitted(cs) + if admitted then Gathered(ws) else []
  {
    if ws == [] {
      assert cs + more == cs;
      Regroup(Admitted(cs), [], []);
    } else {
      var n := |ws| - 1;
      AdmittedOf(cs, more[..n], ws[..n], admitted);
      OneMoreAdmitted(cs, more, more[n]);
      IfAppend(Admitted(cs), Gathered(ws[..n]), if ws[n].batch.Some? then ws[n].batch.value else [], admitted);
    }
  }

  lemma AdmittedAppend(cs: seq<Completion>, ws: seq<Writer>, status: Status, admitted: bool, switched: bool)
    ensures Admitted(cs + Completions(ws, status, admitted, switched)) ==
            Admitted(cs) + if admitted then Gathered(ws) else []
  {
    AdmittedOf(cs, Completions(ws, status, admitted, switched), ws, admitted);
  }

  lemma LeavingIsFifo(q: Queue, n: nat, status: Status, admitted: bool, switched: bool)
    requires FifoInv(q) && n <= |q.writers|
    ensures FifoInv(Complete(q, n, status, admitted, switched))
  {
    var r := Complete(q, n, status, admitted, switched);
    assert Left(r.completed) == Left(q.completed) + q.writers[..n];
    assert q.writers == q.writers[..n] + q.writers[n..];
  }

  lemma InLogGrows(log: seq<Record>, log': seq<Record>, applied: seq<Entry>, applied': seq<Entry>,
                   entries: seq<Entry>, synced: bool)
    requires InLog(log, applied, entries, synced)
    requires log <= log' && applied <= applied'
    ensures InLog(log', applied', entries, synced)
  {
    var r :| r in log && (synced ==> r.synced) && forall e | e in entries :: e in r.entries;
    assert r in log';
  }

  lemma StaysOne(q: Queue, r: Queue, i: nat)
    requires i < |q.completed| && Acknowledged(q, i)
    requires q.completed <= r.completed && q.start == r.start && q.log <= r.log && q.applied <= r.applied
    ensures Acknowledged(r, i)
  {
    var c := q.completed[i];
    assert r.completed[i] == c && r.completed[..i] == q.completed[..i];
    assert Base(r, i) == Base(q, i);
    if c.status.Ok? && c.writer.batch.Some? {
      InLogGrows(q.log, r.log, q.applied, r.applied, L.Stamp(c.writer.batch.value, Base(q, i)), c.writer.sync);
    }
  }

  /** What was acknowledged stays acknowledged. */
  lemma AcknowledgedStays(q: Queue, r: Queue)
    requires DurableInv(q) && q.completed <= r.completed
    requires q.start == r.start && q.log <= r.log && q.applied <= r.applied
    ensures forall i | 0 <= i < |q.completed| :: Acknowledged(r, i)
  {
    forall i | 0 <= i < |q.completed| ensures Acknowledged(r, i) {
      StaysOne(q, r, i);
    }
  }

  lemma {:induction false} GatheredPart(ws: seq<Writer>, i: nat)
    requires i < |ws| && ws[i].batch.Some?
    ensures var k := |Gathered(ws[..i])|; var b := ws[i].batch.value;
            k + |b| <= |Gathered(ws)| && Gathered(ws)[k..k + |b|] == b
  {
    var n := |ws| - 1;
    if i < n {
      assert ws[..n][..i] == ws[..i];
      GatheredPart(ws[..n], i);
      var k := |Gathered(ws[..i])|; var b := ws[i].batch.value;
      assert Gathered(ws)[k..k + |b|] == Gathered(ws[..n])[k..k + |b|];
    }
  }

  lemma StampPart(ops: seq<L.Operation>, last: nat, k: nat, n: nat)
    requires last + |ops| < MAX_SEQUENCE && k + n <= |ops|
    ensures forall e | e in L.Stamp(ops[k..k + n], last + k) :: e in L.Stamp(ops, last)
  {
    var part, all := L.Stamp(ops[k..k + n], last + k), L.Stamp(ops, last);
    forall i | 0 <= i < |part| ensures part[i] == all[k + i] {}
  }

  /** The part of a group's entries that belongs to one member. */
  lemma MemberEntries(ws: seq<Writer>, i: nat, last: nat)
    requires i < |ws| && ws[i].batch.Some? && last + |Gathered(ws)| < MAX_SEQUENCE
    ensures var base := last + |Gathered(ws[..i])|;
            base + |ws[i].batch.value| < MAX_SEQUENCE
            && forall e | e in L.Stamp(ws[i].batch.value, base) :: e in L.Stamp(Gathered(ws), last)
  {
    GatheredPart(ws, i);
    StampPart(Gathered(ws), last, |Gathered(ws[..i])|, |ws[i].batch.value|);
  }

  lemma PartInLog(log: seq<Record>, applied: seq<Entry>, entries: seq<Entry>, synced: bool, part: seq<Entry>,
                  partSynced: bool)
    requires InLog(log, applied, entries, synced) && (partSynced ==> synced) && forall e | e in part :: e in entries
    ensures InLog(log, applied, part, partSynced)
  {
    var r :| r in log && (synced ==> r.synced) && forall e | e in entries :: e in r.entries;
    assert forall e | e in part :: e in r.entries;
  }

  lemma MemberInLog(ws: seq<Writer>, i: nat, last: nat, log: seq<Record>, applied: seq<Entry>, synced: bool,
                    entries: seq<Entry>, part: seq<Entry>)
    requires i < |ws| && ws[i].batch.Some? && last + |Gathered(ws)| < MAX_SEQUENCE && Fits(ws, |ws|)
        && synced == ws[0].sync
    requires entries == L.Stamp(Gathered(ws), last) && InLog(log, applied, entries, synced)
    requires last + |Gathered(ws[..i])| + |ws[i].batch.value| < MAX_SEQUENCE
    requires part == L.Stamp(ws[i].batch.value, last + |Gathered(ws[..i])|)
    ensures InLog(log, applied, part, ws[i].sync)
  {
    MemberEntries(ws, i, last);
    PartInLog(log, applied, entries, synced, part, ws[i].sync);
  }

  lemma CompletionsPrefix(cs: seq<Completion>, ws: seq<Writer>, i: nat, status: Status, admitted: bool, switched: bool)
    requires i <= |ws|
    ensures (cs + Completions(ws, status, admitted, switched))[..|cs| + i]
         == cs + Completions(ws[..i], status, admitted, switched)
  {
  }

  /** A batch of a group that was logged is in the log under the numbers after those before it. */
  lemma MemberLogged(q: Queue, i: nat, base: nat)
    requires GroupInv(q) && MayFinish(q) && i < q.group.value.members && q.group.value.outcome == Some(Logged)
    requires q.writers[i].batch.Some? && base == q.lastSequence + |Gathered(q.writers[..i])|
    ensures var w := q.writers[i];
            base + |w.batch.value| < MAX_SEQUENCE && InLog(q.log, q.applied, L.Stamp(w.batch.value, base), w.sync)
  {
    var ws := q.writers[..q.group.value.members];
    assert ws[..i] == q.writers[..i] && ws[i] == q.writers[i];
    MemberEntries(ws, i, q.lastSequence);
    MemberInLog(ws, i, q.lastSequence, q.log, q.applied, q.writers[0].sync, q.group.value.entries,
                L.Stamp(ws[i].batch.value, base));
  }

  lemma IsAcknowledged(q: Queue, i: nat, base: nat)
    requires i < |q.completed| && base == Base(q, i)
    requires var c := q.completed[i];
             c.status.Ok? && c.writer.batch.Some? ==>
               && c.admitted && base + |c.writer.batch.value| < MAX_SEQUENCE
               && InLog(q.log, q.applied, L.Stamp(c.writer.batch.value, base), c.writer.sync)
    ensures Acknowledged(q, i)
  {
  }

  lemma MemberBase(cs: seq<Completion>, ws: seq<Writer>, i: nat, status: Status, switched: bool)
    requires i < |ws|
    ensures var all := cs + Completions(ws, status, true, switched);
            all[|cs| + i].writer == ws[i] && all[|cs| + i].status == status && all[|cs| + i].admitted
            && |Admitted(all[..|cs| + i])| == |Admitted(cs)| + |Gathered(ws[..i])|
  {
    CompletionsPrefix(cs, ws, i, status, true, switched);
    AdmittedAppend(cs, ws[..i], status, true, switched);
  }

  /** A member of a group that was logged is acknowledged. */
  lemma MemberAcknowledged(q: Queue, i: nat)
    requires SequenceInv(q) && GroupInv(q) && MayFinish(q) && i < q.group.value.members
    ensures Acknowledged(Finish(q), |q.completed| + i)
  {
    var r, g := Finish(q), q.group.value;
    var ws := q.writers[..g.members];
    var status := if g.outcome.value.Logged? then Ok else Failed;
    MemberBase(q.completed, ws, i, status, g.switched);
    assert r.completed == q.completed + Completions(ws, status, true, g.switched);
    assert ws[..i] == q.writers[..i];
    var base := q.lastSequence + |Gathered(q.writers[..i])|;
    assert Base(r, |q.completed| + i) == base;
    if status.Ok? && ws[i].batch.Some? { MemberLogged(q, i, base); }
    IsAcknowledged(r, |q.completed| + i, base);
  }

  lemma JoinInv(q: Queue, w: Writer)
    requires Inv(q) && forall x | x in q.queued :: x.id != w.id
    ensures Inv(Join(q, w))
  {
    var r := Join(q, w);
    assert Left(q.completed) + (q.writers + [w]) == (Left(q.completed) + q.writers) + [w];
    if q.group.Some? {
      assert r.writers[..q.group.value.members] == q.writers[..q.group.value.members];
    }
    AcknowledgedStays(q, r);
  }

  lemma LeaveAtOnce(q: Queue, status: Status, switched: bool)
    requires Inv(q) && q.writers != [] && q.group.None?
    requires status.Ok? ==> q.writers[0].batch.None? && switched
    ensures Inv(Complete(q, 1, status, status.Ok?, switched))
  {
    var r := Complete(q, 1, status, status.Ok?, switched);
    LeavingIsFifo(q, 1, status, status.Ok?, switched);
    AdmittedAppend(q.completed, q.writers[..1], status, status.Ok?, switched);
    assert q.writers[..1][..0] == [];
    assert Gathered(q.writers[..0]) == [];
    AcknowledgedStays(q, r);
  }

  lemma CountedSwitches(q: Queue, n: nat, bgError: bool)
    requires Inv(q)
    ensures Inv(q.(switches := n, bgError := bgError))
  {
    AcknowledgedStays(q, q.(switches := n, bgError := bgError));
  }

  lemma FitsAlone(ws: seq<Writer>, n: nat)
    requires Fits(ws, n)
    ensures Fits(ws[..n], n)
  {
    assert ws[..n][..n] == ws[..n];
  }

  lemma GroupTaken(q: Queue, n: nat, switched: bool)
    requires Inv(q) && q.writers != [] && q.writers[0].batch.Some? && IsGroup(q.writers, n)
    requires q.lastSequence + |Gathered(q.writers[..n])| < MAX_SEQUENCE
    ensures Inv(q.(group := Some(Group(n, L.Stamp(Gathered(q.writers[..n]), q.lastSequence), None, switched))))
  {
    var t := q.(group := Some(Group(n, L.Stamp(Gathered(q.writers[..n]), q.lastSequence), None, switched)));
    AcknowledgedStays(q, t);
    GroupIsLongest(q.writers, n);
    FitsAlone(q.writers, n);
  }

  lemma LeadingInv(r: Queue, room: Room, n: nat, t: Queue)
    requires Inv(r) && r.writers != [] && r.group.None? && 0 < n <= |r.writers|
    requires r.lastSequence + |Gathered(r.writers[..n])| < MAX_SEQUENCE
    requires room.status.Ok? && r.writers[0].batch.None? ==> room.switches > 0
    requires room.status.Ok? && r.writers[0].batch.Some? ==> IsGroup(r.writers, n)
    requires t == if room.status.Failed? || r.writers[0].batch.None?
                  then Complete(r, 1, room.status, room.status.Ok?, room.switches > 0)
                  else
                    r.(group := Some(Group(n, L.Stamp(Gathered(r.writers[..n]), r.lastSequence), None,
                                           room.switches > 0)))
    ensures Inv(t)
  {
    if room.status.Failed? || r.writers[0].batch.None? {
      LeaveAtOnce(r, room.status, room.switches > 0);
    } else {
      GroupTaken(r, n, room.switches > 0);
    }
  }

  lemma LeadInv(q: Queue, room: Room, n: nat)
    requires Inv(q) && MayLead(q, room, n)
    ensures Inv(Lead(q, room, n))
  {
    CountedSwitches(q, q.switches + room.switches, q.bgError || room.bgError);
    LeadingInv(q.(switches := q.switches + room.switches, bgError := q.bgError || room.bgError), room, n,
               Lead(q, room, n));
  }

  lemma AppendInv(q: Queue, outcome: Outcome)
    requires Inv(q) && MayAppend(q, outcome)
    ensures Inv(Append(q, outcome))
  {
    var r := Append(q, outcome);
    AcknowledgedStays(q, r);
    if outcome.Logged? {
      assert r.log[|q.log|] in r.log;
    }
  }

  lemma FinishInv(q: Queue)
    requires Inv(q) && MayFinish(q)
    ensures Inv(Finish(q))
  {
    var r, g := Finish(q), q.group.value;
    var status := if g.outcome.value.Logged? then Ok else Failed;
    LeavingIsFifo(q, g.members, status, true, g.switched);
    AdmittedAppend(q.completed, q.writers[..g.members], status, true, g.switched);
    AcknowledgedStays(q, r);
    forall i | |q.completed| <= i < |r.completed| ensures Acknowledged(r, i) {
      MemberAcknowledged(q, i - |q.completed|);
    }
    assert SwitchInv(r);
  }

  lemma StepInv(q: Queue, step: Step, r: Queue)
    requires Inv(q) && Next(q, step, r)
    ensures Inv(r)
  {
    match step
    case JoinStep(w) => JoinInv(q, w);
    case LeadStep(room, n) => LeadInv(q, room, n);
    case AppendStep(outcome) => AppendInv(q, outcome);
    case FinishStep => FinishInv(q);
  }

  // ---- Whole runs ----

  ghost predicate IsRun(states: seq<Queue>, steps: seq<Step>) {
    && |states| == |steps| + 1
    && forall i {:trigger steps[i]} | 0 <= i < |steps| :: Next(states[i], steps[i], states[i + 1])
  }

  /** In every run, whoever joins when: writers leave in the order they joined, each once; batches are
      numbered without gap or overlap in that order; an acknowledged batch is in the memtable and in one
      log record under those numbers, and in a synced one if it asked for that. */
  lemma {:induction false} RunInv(states: seq<Queue>, steps: seq<Step>, n: nat)
    requires IsRun(states, steps) && Initial(states[0]) && states[0].start < MAX_SEQUENCE && n <= |steps|
    ensures Inv(states[n])
  {
    if n == 0 {
      InitialInv(states[0]);
    } else {
      RunInv(states, steps, n - 1);
      StepInv(states[n - 1], steps[n - 1], states[n]);
    }
  }

  function OperationsOf(c: Completion): seq<L.Operation> {
    if c.admitted && c.writer.batch.Some? then c.writer.batch.value else []
  }

  /** The numbers of a completion end where those of the next one begin. */
  lemma {:induction false} NumbersInOrder(q: Queue, i: nat, j: nat)
    requires i < j <= |q.completed|
    ensures Base(q, i) + |OperationsOf(q.completed[i])| <= Base(q, j)
    ensures j == i + 1 ==> Base(q, j) == Base(q, i) + |OperationsOf(q.completed[i])|
  {
    assert q.completed[..j][..j - 1] == q.completed[..j - 1];
    if i + 1 < j { NumbersInOrder(q, i, j - 1); }
  }

  /** After a failed sync every later writer is turned away, and nothing more is logged. */
  lemma {:induction false} NothingAfterSyncError(states: seq<Queue>, steps: seq<Step>, i: nat, j: nat)
    requires IsRun(states, steps) && i <= j <= |steps|
    requires states[i].bgError && states[i].group.None?
    ensures states[j].bgError && states[j].group.None? && states[j].log == states[i].log
    ensures states[i].completed <= states[j].completed
    ensures forall c | c in states[j].completed[|states[i].completed|..] :: c.status.Failed?
  {
    if i < j {
      NothingAfterSyncError(states, steps, i, j - 1);
      var step := steps[j - 1];
      assert Next(states[j - 1], step, states[j]);
    }
  }

  lemma SweptUp(q: Queue, a: Writer, b: Writer) returns (r: Queue)
    requires q.writers == [a, b] && q.group.None? && !q.bgError && q.lastSequence == 0
    requires a == Writer(0, Some([]), 12, false) && b == Writer(1, None, 0, false)
    ensures Next(q, LeadStep(Room(Ok, 0, false), 2), r)
    ensures r == q.(group := Some(Group(2, [], None, false)))
  {
    assert [a, b][..1] == [a] && [a, b][..2] == [a, b];
    FirstAlone([a, b]);
    OneMore([a, b], 1);
    assert IsGroup(q.writers, 2) && Gathered([a, b]) == [];
    assert L.Stamp([], 0) == [];
    r := Lead(q, Room(Ok, 0, false), 2);
  }

  /** A null batch that is swept into another writer's group succeeds although no memtable was switched. */
  lemma SweptNullBatch() returns (states: seq<Queue>, steps: seq<Step>)
    ensures IsRun(states, steps) && Initial(states[0])
    ensures var last := states[|steps|];
            last.switches == 0 && exists c :: c in last.completed && c.writer.batch.None? && c.status.Ok?
  {
    var a := Writer(0, Some([]), 12, false);
    var b := Writer(1, None, 0, false);
    var q0 := Queue([], None, 0, [], [], false, 0, 0, [], []);
    var q1 := Join(q0, a);
    var q2 := Join(q1, b);
    var q3 := SweptUp(q2, a, b);
    var q4 := Append(q3, Logged);
    var q5 := Finish(q4);
    states := [q0, q1, q2, q3, q4, q5];
    steps := [JoinStep(a), JoinStep(b), LeadStep(Room(Ok, 0, false), 2), AppendStep(Logged), FinishStep];
    assert q5.completed[1].writer == b;
  }

  // ---- The queue itself ----

  lemma CompletionsNext(ws: seq<Writer>, i: nat, status: Status, admitted: bool, switched: bool)
    requires i < |ws|
    ensures Completions(ws[..i + 1], status, admitted, switched)
         == Completions(ws[..i], status, admitted, switched) + [Completion(ws[i], status, i == 0, i == 0
             && switched, admitted)]
  {
  }

  lemma {:induction false} GatheredShrinks(ws: seq<Writer>, n: nat)
    requires n <= |ws|
    ensures |Gathered(ws[..n])| <= |Gathered(ws)|
  {
    if n < |ws| {
      assert ws[..|ws| - 1][..n] == ws[..n];
      GatheredShrinks(ws[..|ws| - 1], n);
    } else {
      assert ws[..n] == ws;
    }
  }

  /** Each method is a step, so a run of calls is a run of the protocol. */
  class WriteQueue {
    var writers: seq<Writer>
    var group: Option<Group>
    var lastSequence: Sequence
    var log: seq<Record>
    var applied: seq<Entry>
    var bgError: bool
    var switches: nat
    var completed: seq<Completion>
    const start: Sequence
    ghost var queued: seq<Writer>

    constructor (last: Sequence)
      ensures Initial(View()) && start == last
    {
      writers, group, lastSequence, log, applied := [], None, last, [], [];
      bgError, switches, completed, start, queued := false, 0, [], last, [];
    }

    ghost function View(): Queue
      reads this
    {
      Queue(writers, group, lastSequence, log, applied, bgError, switches, start, queued, completed)
    }

    /** Entering Write: to the back of the queue. */
    method Enter(w: Writer)
      requires forall x | x in queued :: x.id != w.id
      modifies this`writers, this`queued
      ensures Next(old(View()), JoinStep(w), View())
    {
      writers := writers + [w];
      queued := queued + [w];
    }

    /** Pops the front writers one by one, up to the last of the group, telling each the status. */
    method Leave(n: nat, status: Status, admitted: bool, switched: bool)
      requires n <= |writers|
      modifies this`writers, this`completed, this`group
      ensures View() == Complete(old(View()), n, status, admitted, switched)
    {
      ghost var all, done := writers, completed;
      for i := 0 to n
        invariant writers == all[i..] && completed == done + Completions(all[..i], status, admitted, switched)
        invariant group == old(group)
      {
        var ready := writers[0];
        writers := writers[1..];
        completed := completed + [Completion(ready, status, i == 0, i == 0 && switched, admitted)];
        CompletionsNext(all, i, status, admitted, switched);
      }
      group := None;
    }

    /** A writer that could not make room, or has no batch, leaves at once. */
    method LeaveAlone(room: Room) returns (n: nat)
      requires writers != [] && group.None? && MayGet(View(), room) && lastSequence + |Gathered(writers)| < MAX_SEQUENCE
      requires room.status.Failed? || writers[0].batch.None?
      modifies this`writers, this`completed, this`group, this`switches, this`bgError
      ensures Next(old(View()), LeadStep(room, n), View())
    {
      n := 1;
      GatheredShrinks(writers, 1);
      switches, bgError := switches + room.switches, bgError || room.bgError;
      Leave(1, room.status, room.status.Ok?, room.switches > 0);
    }

    /** The others take a group. */
    method TakeGroup(room: Room) returns (n: nat)
      requires writers != [] && group.None? && MayGet(View(), room) && lastSequence + |Gathered(writers)| < MAX_SEQUENCE
      requires room.status.Ok? && writers[0].batch.Some?
      modifies this`group, this`switches, this`bgError
      ensures Next(old(View()), LeadStep(room, n), View())
    {
      var operations;
      n, operations := BuildBatchGroup(writers);
      GatheredShrinks(writers, n);
      switches, bgError := switches + room.switches, bgError || room.bgError;
      group := Some(Group(n, L.Stamp(operations, lastSequence), None, room.switches > 0));
    }

    /** The front writer wakes up: it makes room, and then builds its group. `looks` is what the turns of
        MakeRoomForWrite see; after the last of them the writer may still be waiting. */
    method BeginWrite(slowdown: nat, stop: nat, looks: seq<Look>) returns (room: Option<Room>, n: nat)
      requires writers != [] && group.None?
      requires lastSequence + |Gathered(writers)| < MAX_SEQUENCE
      modifies this`writers, this`completed, this`group, this`switches, this`bgError
      ensures room.None? ==> View() == old(View())
      ensures room.Some? ==> Next(old(View()), LeadStep(room.value, n), View())
      ensures room.Some? && room.value.status.Ok? ==>
              exists i :: 0 <= i < |looks| && !looks[i].bgError && !looks[i].memFull
    {
      var turns;
      room, turns := MakeRoomForWrite(writers[0].batch.None?, slowdown, stop, bgError, looks);
      n := 1;
      if room.Some? {
        if room.value.status.Failed? || writers[0].batch.None? {
          n := LeaveAlone(room.value);
        } else {
          n := TakeGroup(room.value);
        }
      }
    }

    /** The log append and, if it succeeds, the memtable. */
    method AppendGroup(outcome: Outcome)
      requires MayAppend(View(), outcome)
      modifies this`log, this`applied, this`group
      ensures Next(old(View()), AppendStep(outcome), View())
    {
      var g := group.value;
      if !outcome.NotLogged? {
        log := log + [Record(g.entries, writers[0].sync && outcome.Logged?)];
      }
      if outcome.Logged? {
        applied := applied + g.entries;
      }
      group := Some(g.(outcome := Some(outcome)));
    }

    method EndWrite()
      requires MayFinish(View())
      modifies this`writers, this`completed, this`group, this`bgError, this`lastSequence
      ensures Next(old(View()), FinishStep, View())
    {
      var g := group.value;
      if g.outcome.value.SyncFailed? {
        bgError := true;
      }
      lastSequence := lastSequence + |g.entries|;
      Leave(g.members, if g.outcome.value.Logged? then Ok else Failed, true, g.switched);
    }
  }
}
