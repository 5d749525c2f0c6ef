/** Which files may be deleted when: the versions and their reference counts, pending_outputs_, the single
    background worker, and RemoveObsoleteFiles, which decides under the mutex and deletes without it.

    A step is what happens between two points where another thread can take the mutex, or one unlocked
    change to the directory. Readers pin and release versions at any time. A run begins when the version has
    been recovered: leftovers of a crash may lie about, under numbers that will be handed out again, and the
    tables that recovery makes of the logs are listed nowhere until the first LogAndApply. */
module ObsoleteFiles {
  import opened InternalKeys

  type VersionId = nat

  datatype VersionState = VersionState(files: set<nat>, refs: nat)

  datatype Phase = Working | Installing | Installed | InstallFailed

  /** A running compaction: the version it pins, its inputs, the numbers of its outputs, and those of them
      whose file exists. */
  datatype Compaction = Compaction(input: VersionId, inputs: set<nat>, outputs: set<nat>, created: set<nat>,
                                   phase: Phase)

  /** A running flush, up to the point where the file leaves pending_outputs_. */
  datatype Flush = Flush(number: nat, base: VersionId, created: bool)

  datatype State = State(
    tables: set<nat>,                          // the table files in the directory
    versions: map<VersionId, VersionState>,    // the list of versions somebody refers to
    current: VersionId,
    nextVersion: VersionId,
    pendingOutputs: set<nat>,
    nextFile: nat,
    flush: Option<Flush>,
    compaction: Option<Compaction>,
    recovered: Option<set<nat>>,               // while opening: the tables made of the logs so far
    recovering: Option<nat>,                   // and the one being written
    installing: Option<set<nat>>,              // LogAndApply is writing the MANIFEST for these files
    deleting: set<nat>,                        // decided on, not deleted yet
    readers: multiset<VersionId>,              // references held by Get and by iterators
    bgError: bool,
    maybeCommitted: set<nat>)                  // listed by MANIFEST records whose writing failed

  // ---- Versions ----

  function Ref(versions: map<VersionId, VersionState>, v: VersionId): map<VersionId, VersionState>
    requires v in versions
  {
    versions[v := versions[v].(refs := versions[v].refs + 1)]
  }

  /** The last reference takes the version off the list. */
  function Unref(versions: map<VersionId, VersionState>, v: VersionId): map<VersionId, VersionState>
    requires v in versions && versions[v].refs > 0
  {
    if versions[v].refs == 1 then versions - {v} else versions[v := versions[v].(refs := versions[v].refs - 1)]
  }

  /** AppendVersion: the new version becomes current, the old one loses that reference. */
  function AppendVersion(s: State, files: set<nat>): State
    requires s.current in s.versions && s.versions[s.current].refs > 0
  {
    s.(versions := Unref(s.versions, s.current)[s.nextVersion := VersionState(files, 1)],
       current := s.nextVersion, nextVersion := s.nextVersion + 1)
  }

  /** AddLiveFiles. */
  function Live(versions: map<VersionId, VersionState>): set<nat> {
    set v, n | v in versions && n in versions[v].files :: n
  }

  /** The table files RemoveObsoleteFiles picks. */
  function Obsolete(s: State): set<nat> {
    s.tables - (s.pendingOutputs + Live(s.versions))
  }

  // ---- Steps ----

  datatype Step =
    | StartTable                           // RecoverLogFile writes a memtable
    | EndTable(created: bool)              // the table is there, and has left pending_outputs_
    | InstallRecovered                     // DB::Open begins its LogAndApply
    | Pin                                  // a reader refers to the current version
    | Release(v: VersionId)
    | TakeNumber                           // for a log or MANIFEST file
    | BeginFlush
    | CreateFlushed                        // the table appears in the directory
    | EndFlush(ok: bool)                   // it leaves pending_outputs_, and LogAndApply begins
    | BeginCompaction(inputs: set<nat>)
    | OpenOutput
    | CreateOutput(n: nat)
    | InstallResults                       // LogAndApply begins for a compaction
    | BeginMove                            // LogAndApply begins for a trivial move
    | EndInstall(ok: bool)                 // the MANIFEST is written, or that failed
    | Cleanup
    | Decide                               // RemoveObsoleteFiles under the mutex
    | Delete(n: nat)                       // and without it

  /** The worker is not inside a flush, a MANIFEST write or a RemoveObsoleteFiles. A compaction may be
      running: flushes interrupt its loop. */
  predicate WorkerFree(s: State) {
    s.recovered.None? && s.flush.None? && s.installing.None? && s.deleting == {}
  }

  predicate Opening(s: State) {
    s.recovered.Some? && s.installing.None?
  }

  predicate CompactionWorking(s: State) {
    WorkerFree(s) && s.compaction.Some? && s.compaction.value.phase.Working?
  }

  predicate MayInterrupt(s: State) {
    WorkerFree(s) && (s.compaction.Some? ==> s.compaction.value.phase.Working?)
  }

  predicate Held(s: State, v: VersionId) {
    v in s.versions && s.versions[v].refs > 0
  }

  /** The step can happen. */
  predicate Enabled(s: State, step: Step) {
    match step
    case StartTable => Opening(s) && s.recovering.None?
    case EndTable(_) => Opening(s) && s.recovering.Some?
    case InstallRecovered => Opening(s) && s.recovering.None? && s.current in s.versions
    case Pin => s.recovered.None? && s.current in s.versions
    case Release(v) => v in s.readers && Held(s, v)
    case TakeNumber => true
    case BeginFlush => MayInterrupt(s) && s.current in s.versions
    case CreateFlushed => s.flush.Some?
    case EndFlush(_) => s.flush.Some? && Held(s, s.flush.value.base) && s.current in s.versions
    case BeginCompaction(inputs) =>
      WorkerFree(s) && s.compaction.None? && s.current in s.versions && inputs <= s.versions[s.current].files
    case OpenOutput => CompactionWorking(s)
    case CreateOutput(n) => CompactionWorking(s) && n in s.compaction.value.outputs
    case InstallResults =>
      CompactionWorking(s) && s.compaction.value.created == s.compaction.value.outputs && s.current in s.versions
    case BeginMove => WorkerFree(s) && s.compaction.None? && s.current in s.versions
    case EndInstall(_) => s.installing.Some? && Held(s, s.current)
    case Cleanup => WorkerFree(s) && s.compaction.Some? && !s.compaction.value.phase.Installing?
        && Held(s, s.compaction.value.input)
    case Decide => MayInterrupt(s) && !s.bgError
    case Delete(n) => n in s.deleting
  }

  function Phased(c: Option<Compaction>, ok: bool): Option<Compaction> {
    if c.Some? && c.value.phase.Installing? then Some(c.value.(phase := if ok then Installed else InstallFailed)) else c
  }

  function After(s: State, step: Step): State
    requires Enabled(s, step)
  {
    match step
    case StartTable =>
      s.(recovering := Some(s.nextFile), pendingOutputs := s.pendingOutputs + {s.nextFile}, nextFile := s.nextFile + 1)
    case EndTable(created) =>
      var n := s.recovering.value;
      var r := s.(recovering := None, pendingOutputs := s.pendingOutputs - {n});
      if created then r.(tables := s.tables + {n}, recovered := Some(s.recovered.value + {n})) else r
    case InstallRecovered => s.(installing := Some(s.versions[s.current].files + s.recovered.value))
    case Pin => s.(versions := Ref(s.versions, s.current), readers := s.readers + multiset{s.current})
    case Release(v) => s.(versions := Unref(s.versions, v), readers := s.readers - multiset{v})
    case TakeNumber => s.(nextFile := s.nextFile + 1)
    case BeginFlush =>
      s.(flush := Some(Flush(s.nextFile, s.current, false)), versions := Ref(s.versions, s.current),
         pendingOutputs := s.pendingOutputs + {s.nextFile}, nextFile := s.nextFile + 1)
    case CreateFlushed =>
      s.(flush := Some(s.flush.value.(created := true)), tables := s.tables + {s.flush.value.number})
    case EndFlush(ok) =>
      var f := s.flush.value;
      var r := s.(flush := None, versions := Unref(s.versions, f.base),
                  pendingOutputs := s.pendingOutputs - {f.number});
      if ok then r.(installing := Some(s.versions[s.current].files + if f.created then {f.number} else {}))
      else r.(bgError := true)
    case BeginCompaction(inputs) =>
      s.(compaction := Some(Compaction(s.current, inputs, {}, {}, Working)), versions := Ref(s.versions, s.current))
    case OpenOutput =>
      var c := s.compaction.value;
      s.(compaction := Some(c.(outputs := c.outputs + {s.nextFile})), nextFile := s.nextFile + 1,
         pendingOutputs := s.pendingOutputs + {s.nextFile})
    case CreateOutput(n) =>
      var c := s.compaction.value;
      s.(compaction := Some(c.(created := c.created + {n})), tables := s.tables + {n})
    case InstallResults =>
      var c := s.compaction.value;
      s.(compaction := Some(c.(phase := Installing)),
         installing := Some(s.versions[s.current].files - c.inputs + c.outputs))
    case BeginMove => s.(installing := Some(s.versions[s.current].files))
    case EndInstall(ok) =>
      var r := s.(installing := None, recovered := None, compaction := Phased(s.compaction, ok));
      if ok then AppendVersion(r, s.installing.value)
      else r.(bgError := true, maybeCommitted := s.maybeCommitted + s.installing.value)
    case Cleanup =>
      var c := s.compaction.value;
      s.(compaction := None, versions := Unref(s.versions, c.input), pendingOutputs := s.pendingOutputs - c.outputs,
         bgError := s.bgError || !c.phase.Installed?)
    case Decide => s.(deleting := Obsolete(s))
    case Delete(n) => s.(deleting := s.deleting - {n}, tables := s.tables - {n})
  }

  /** The version has been recovered and its files are there; nothing is known of other tables. */
  ghost predicate Initial(s: State) {
    && s.current in s.versions && s.versions == map[s.current := VersionState(s.versions[s.current].files, 1)]
    && s.versions[s.current].files <= s.tables && (forall n | n in s.versions[s.current].files :: n < s.nextFile)
    && s.current < s.nextVersion && s.recovered == Some({}) && s.recovering.None?
    && s.pendingOutputs == {} && s.flush.None? && s.compaction.None? && s.installing.None? && s.deleting == {}
    && s.readers == multiset{} && s.maybeCommitted == {} && !s.bgError
  }

  // ---- What is needed ----

  /** The files of the installation under way; the tables recovery has made; the new table of a flush; the
      tables of a compaction that is not installed yet. */
  function InstallFiles(s: State): set<nat> { if s.installing.Some? then s.installing.value else {} }
  function RecoveredFiles(s: State): set<nat> { if s.recovered.Some? then s.recovered.value else {} }
  function FlushFiles(s: State): set<nat> {
    if s.flush.Some? && s.flush.value.created then {s.flush.value.number} else {}
  }
  function OutputFiles(s: State): set<nat> { if s.compaction.Some? then s.compaction.value.created else {} }

  /** The files a reader may open, an installation will list, an output not yet installed has become, or a
      recovery may find listed. */
  function Needed(s: State): set<nat> {
    Live(s.versions) + InstallFiles(s) + RecoveredFiles(s) + FlushFiles(s) + OutputFiles(s) + s.maybeCommitted
  }

  function One(b: bool): nat {
    if b then 1 else 0
  }

  /** Who refers to version `v`. */
  function References(s: State, v: VersionId): nat {
    s.readers[v] + One(v == s.current) + One(s.flush.Some? && s.flush.value.base == v)
    + One(s.compaction.Some? && s.compaction.value.input == v)
  }

  /** The list holds the versions somebody refers to, with the right counts. */
  ghost predicate RefInv(s: State) {
    && s.current in s.versions
    && (forall v | v in s.versions :: s.versions[v].refs == References(s, v) > 0)
    && (forall v: VersionId | v !in s.versions :: References(s, v) == 0)
    && (forall v: VersionId | v >= s.nextVersion :: v !in s.versions)
  }

  ghost predicate NumberInv(s: State) {
    forall n | n in Needed(s) + s.pendingOutputs :: n < s.nextFile
  }

  ghost predicate CompactionInv(s: State, c: Compaction) {
    && c.created <= c.outputs <= s.pendingOutputs
    && (c.phase.Working? || c.created == c.outputs)
    && (c.phase.Installing? ==> s.installing.Some? && c.outputs <= s.installing.value)
    && (c.phase.Installed? ==> s.flush.None? && s.installing.None?)
    && (c.phase.Installed? ==> s.current in s.versions && c.outputs <= s.versions[s.current].files)
    && (c.phase.InstallFailed? ==> s.bgError && c.outputs <= s.maybeCommitted)
  }

  ghost predicate WorkerInv(s: State) {
    && (s.recovered.Some? ==> s.flush.None? && s.compaction.None? && s.deleting == {} && !s.bgError)
    && (s.recovering.Some? ==> s.recovered.Some? && s.installing.None? && s.recovering.value in s.pendingOutputs)
    && (s.flush.Some? ==>
          s.flush.value.number in s.pendingOutputs && s.flush.value.number !in Live(s.versions) && s.installing.None?)
    && (s.flush.Some? && s.compaction.Some? ==> s.flush.value.number !in s.compaction.value.outputs)
    && (s.compaction.Some? ==> CompactionInv(s, s.compaction.value))
    && (s.deleting != {} ==> s.flush.None? && s.installing.None? && !s.bgError)
  }

  /** What is needed is there, and is not about to be deleted. */
  ghost predicate SafeInv(s: State) {
    && Needed(s) <= s.tables
    && s.deleting !! Needed(s) + s.pendingOutputs
    && (s.maybeCommitted != {} ==> s.bgError)
  }

  ghost predicate Inv(s: State) {
    RefInv(s) && NumberInv(s) && WorkerInv(s) && SafeInv(s)
  }

  lemma InitialInv(s: State)
    requires Initial(s)
    ensures Inv(s)
  {
  }

  // ---- Every step keeps it ----

  lemma LiveAfterRef(versions: map<VersionId, VersionState>, v: VersionId)
    requires v in versions
    ensures Live(Ref(versions, v)) == Live(versions)
  {
    var after := Ref(versions, v);
    assert forall w | w in versions :: after[w].files == versions[w].files;
  }

  lemma LiveAfterUnref(versions: map<VersionId, VersionState>, v: VersionId)
    requires v in versions && versions[v].refs > 0
    ensures Live(Unref(versions, v)) <= Live(versions)
  {
  }

  lemma LiveAfterAppend(s: State, files: set<nat>)
    requires Held(s, s.current)
    ensures Live(AppendVersion(s, files).versions) <= Live(s.versions) + files
  {
    LiveAfterUnref(s.versions, s.current);
    forall v, n | v in AppendVersion(s, files).versions && n in AppendVersion(s, files).versions[v].files
      ensures n in Live(s.versions) + files
    {
      if v != s.nextVersion { assert n in Live(Unref(s.versions, s.current)); }
    }
  }

  /** One more reference to a version on the list. */
  lemma RefKeeps(s: State, t: State, v: VersionId)
    requires RefInv(s) && v in s.versions && t.versions == Ref(s.versions, v)
    requires t.current == s.current && t.nextVersion == s.nextVersion
    requires forall w: VersionId :: References(t, w) == References(s, w) + One(w == v)
    ensures RefInv(t)
  {
  }

  /** One reference less. */
  lemma UnrefKeeps(s: State, t: State, v: VersionId)
    requires RefInv(s) && v in s.versions && t.versions == Unref(s.versions, v)
    requires t.current == s.current && t.nextVersion == s.nextVersion
    requires forall w: VersionId :: References(s, w) == References(t, w) + One(w == v)
    ensures RefInv(t)
  {
  }

  lemma AppendKeeps(s: State, files: set<nat>)
    requires RefInv(s)
    ensures RefInv(AppendVersion(s, files))
    ensures AppendVersion(s, files).versions[s.nextVersion].files == files
  {
    var t := AppendVersion(s, files);
    assert s.nextVersion !in s.versions && References(s, s.nextVersion) == 0;
    assert forall v: VersionId :: References(t, v) == References(s, v) - One(v == s.current) + One(v == s.nextVersion);
  }

  /** Nothing more is needed than before, and no file has gone. */
  lemma NeedsNoMore(s: State, t: State)
    requires NumberInv(s) && SafeInv(s) && Needed(t) <= Needed(s) && t.pendingOutputs <= s.pendingOutputs
    requires t.tables == s.tables && t.deleting == s.deleting && t.nextFile == s.nextFile
    requires t.maybeCommitted != {} ==> t.bgError
    ensures NumberInv(t) && SafeInv(t)
  {
  }

  lemma PinInv(s: State)
    requires Inv(s) && Enabled(s, Pin)
    ensures Inv(After(s, Pin))
  {
    var t := After(s, Pin);
    RefKeeps(s, t, s.current);
    LiveAfterRef(s.versions, s.current);
  }

  lemma ReleaseInv(s: State, v: VersionId)
    requires Inv(s) && Enabled(s, Release(v))
    ensures Inv(After(s, Release(v)))
  {
    var t := After(s, Release(v));
    UnrefKeeps(s, t, v);
    LiveAfterUnref(s.versions, v);
    NeedsNoMore(s, t);
  }

  lemma BeginFlushInv(s: State)
    requires Inv(s) && Enabled(s, BeginFlush)
    ensures Inv(After(s, BeginFlush))
  {
    var t := After(s, BeginFlush);
    RefKeeps(s, t, s.current);
    LiveAfterRef(s.versions, s.current);
    assert Needed(t) == Needed(s);
  }

  lemma CreateFlushedInv(s: State)
    requires Inv(s) && Enabled(s, CreateFlushed)
    ensures Inv(After(s, CreateFlushed))
  {
    assert Needed(After(s, CreateFlushed)) == Needed(s) + {s.flush.value.number};
  }

  lemma EndFlushInv(s: State, ok: bool)
    requires Inv(s) && Enabled(s, EndFlush(ok))
    ensures Inv(After(s, EndFlush(ok)))
  {
    var t := After(s, EndFlush(ok));
    UnrefKeeps(s, t, s.flush.value.base);
    LiveAfterUnref(s.versions, s.flush.value.base);
    assert s.versions[s.current].files <= Live(s.versions);
    NeedsNoMore(s, t);
  }

  lemma BeginCompactionInv(s: State, inputs: set<nat>)
    requires Inv(s) && Enabled(s, BeginCompaction(inputs))
    ensures Inv(After(s, BeginCompaction(inputs)))
  {
    var t := After(s, BeginCompaction(inputs));
    RefKeeps(s, t, s.current);
    LiveAfterRef(s.versions, s.current);
    assert Needed(t) == Needed(s);
  }

  lemma OpenOutputInv(s: State)
    requires Inv(s) && Enabled(s, OpenOutput)
    ensures Inv(After(s, OpenOutput))
  {
    assert Needed(After(s, OpenOutput)) == Needed(s);
  }

  lemma CreateOutputInv(s: State, n: nat)
    requires Inv(s) && Enabled(s, CreateOutput(n))
    ensures Inv(After(s, CreateOutput(n)))
  {
    assert Needed(After(s, CreateOutput(n))) == Needed(s) + {n};
  }

  /** The installation lists only files that are needed already. */
  lemma BeginInstallInv(s: State, step: Step)
    requires Inv(s) && Enabled(s, step) && (step.InstallResults? || step.BeginMove?)
    ensures Inv(After(s, step))
  {
    assert s.versions[s.current].files <= Live(s.versions);
    assert Needed(After(s, step)) == Needed(s);
  }

  lemma InstalledInv(s: State)
    requires Inv(s) && Enabled(s, EndInstall(true))
    ensures Inv(After(s, EndInstall(true)))
  {
    var t := After(s, EndInstall(true));
    var r := s.(installing := None, recovered := None, compaction := Phased(s.compaction, true));
    LiveAfterAppend(r, s.installing.value);
    AppendKeeps(r, s.installing.value);
    NeedsNoMore(s, t);
  }

  lemma InstallFailedInv(s: State)
    requires Inv(s) && Enabled(s, EndInstall(false))
    ensures Inv(After(s, EndInstall(false)))
  {
    NeedsNoMore(s, After(s, EndInstall(false)));
  }

  lemma EndInstallInv(s: State, ok: bool)
    requires Inv(s) && Enabled(s, EndInstall(ok))
    ensures Inv(After(s, EndInstall(ok)))
  {
    if ok { InstalledInv(s); } else { InstallFailedInv(s); }
  }

  lemma CleanupInv(s: State)
    requires Inv(s) && Enabled(s, Cleanup)
    ensures Inv(After(s, Cleanup))
  {
    var t := After(s, Cleanup);
    UnrefKeeps(s, t, s.compaction.value.input);
    LiveAfterUnref(s.versions, s.compaction.value.input);
    NeedsNoMore(s, t);
  }

  lemma DecideInv(s: State)
    requires Inv(s) && Enabled(s, Decide)
    ensures Inv(After(s, Decide))
  {
    assert Needed(After(s, Decide)) == Needed(s);
  }

  lemma DeleteInv(s: State, n: nat)
    requires Inv(s) && Enabled(s, Delete(n))
    ensures Inv(After(s, Delete(n)))
  {
    assert Needed(After(s, Delete(n))) == Needed(s);
  }

  lemma NumberTakenInv(s: State, step: Step)
    requires Inv(s) && Enabled(s, step) && (step.TakeNumber? || step.StartTable?)
    ensures Inv(After(s, step))
  {
    assert Needed(After(s, step)) == Needed(s);
  }

  lemma EndTableInv(s: State, created: bool)
    requires Inv(s) && Enabled(s, EndTable(created))
    ensures Inv(After(s, EndTable(created)))
  {
    assert Needed(After(s, EndTable(created))) == Needed(s) + if created then {s.recovering.value} else {};
  }

  lemma InstallRecoveredInv(s: State)
    requires Inv(s) && Enabled(s, InstallRecovered)
    ensures Inv(After(s, InstallRecovered))
  {
    assert s.versions[s.current].files <= Live(s.versions);
    assert Needed(After(s, InstallRecovered)) == Needed(s);
  }

  lemma StepInv(s: State, step: Step)
    requires Inv(s) && Enabled(s, step)
    ensures Inv(After(s, step))
  {
    match step
    case Pin => PinInv(s);
    case Release(v) => ReleaseInv(s, v);
    case TakeNumber => NumberTakenInv(s, step);
    case BeginFlush => BeginFlushInv(s);
    case CreateFlushed => CreateFlushedInv(s);
    case EndFlush(ok) => EndFlushInv(s, ok);
    case BeginCompaction(inputs) => BeginCompactionInv(s, inputs);
    case OpenOutput => OpenOutputInv(s);
    case CreateOutput(n) => CreateOutputInv(s, n);
    case InstallResults => BeginInstallInv(s, step);
    case BeginMove => BeginInstallInv(s, step);
    case EndInstall(ok) => EndInstallInv(s, ok);
    case StartTable => NumberTakenInv(s, step);
    case EndTable(created) => EndTableInv(s, created);
    case InstallRecovered => InstallRecoveredInv(s);
    case Cleanup => CleanupInv(s);
    case Decide => DecideInv(s);
    case Delete(n) => DeleteInv(s, n);
  }

  // ---- Whole runs ----

  ghost predicate IsRun(states: seq<State>, steps: seq<Step>) {
    && |states| == |steps| + 1
    && forall i {:trigger steps[i]} | 0 <= i < |steps| :: Enabled(states[i], steps[i])
         && states[i + 1] == After(states[i], steps[i])
  }

  lemma {:induction false} RunInv(states: seq<State>, steps: seq<Step>, n: nat)
    requires IsRun(states, steps) && Initial(states[0]) && n <= |steps|
    ensures Inv(states[n])
  {
    if n == 0 {
      InitialInv(states[0]);
    } else {
      RunInv(states, steps, n - 1);
      StepInv(states[n - 1], steps[n - 1]);
    }
  }

  /** Over every interleaving: everything needed is in the directory, and no deletion is of a needed file. */
  lemma NeverDeletesNeeded(states: seq<State>, steps: seq<Step>, n: nat)
    requires IsRun(states, steps) && Initial(states[0]) && n <= |steps|
    ensures Needed(states[n]) <= states[n].tables
    ensures n < |steps| && steps[n].Delete? ==> steps[n].n !in Needed(states[n]) + states[n].pendingOutputs
  {
    RunInv(states, steps, n);
  }

  lemma OnlyDeletes(s: State, step: Step)
    requires Inv(s) && Enabled(s, step) && s.deleting != {}
    ensures var t := After(s, step); t.tables - t.deleting == s.tables - s.deleting && t.deleting <= s.deleting
  {
  }

  /** While deletions are outstanding no table appears, and only those decided on disappear. */
  lemma {:induction false} WhileDeleting(states: seq<State>, steps: seq<Step>, i: nat, j: nat)
    requires IsRun(states, steps) && Initial(states[0]) && i < j <= |steps|
    requires steps[i].Decide? && forall k | i < k < j :: states[k].deleting != {}
    ensures states[j].tables - states[j].deleting == states[i].tables - Obsolete(states[i])
    ensures states[j].deleting <= Obsolete(states[i]) <= states[i].tables
  {
    assert states[i + 1] == After(states[i], steps[i]);
    if i + 1 < j {
      WhileDeleting(states, steps, i, j - 1);
      RunInv(states, steps, j - 1);
      OnlyDeletes(states[j - 1], steps[j - 1]);
      assert states[j] == After(states[j - 1], steps[j - 1]);
    }
  }

  /** One call of RemoveObsoleteFiles collects exactly the garbage: once its deletions are done, whatever
      readers and writers did meanwhile, the tables are those that were pending or live when it decided. */
  lemma CollectsGarbage(states: seq<State>, steps: seq<Step>, i: nat, j: nat)
    requires IsRun(states, steps) && Initial(states[0]) && i < j <= |steps|
    requires steps[i].Decide? && (forall k | i < k < j :: states[k].deleting != {}) && states[j].deleting == {}
    ensures states[j].tables == states[i].tables * (states[i].pendingOutputs + Live(states[i].versions))
  {
    WhileDeleting(states, steps, i, j);
    assert states[j].tables - {} == states[j].tables;
  }

  /** The flushed table leaves pending_outputs_ before its version is installed. In that window
      RemoveObsoleteFiles would pick it, needed as it is; what saves it is that the only thread that calls
      RemoveObsoleteFiles is the one busy with the installation. */
  lemma FlushWindow(s: State)
    requires Inv(s) && Enabled(s, EndFlush(true)) && s.flush.value.created
    ensures var t := After(s, EndFlush(true));
            s.flush.value.number in Needed(t) * Obsolete(t) && !Enabled(t, Decide)
  {
    LiveAfterUnref(s.versions, s.flush.value.base);
  }

  // ---- RemoveObsoleteFiles itself ----

  datatype FileType = LogFile | DescriptorFile | TableFile | TempFile | CurrentFile | DBLockFile | InfoLogFile

  datatype Child = Child(fileType: FileType, number: nat)

  predicate Keep(c: Child, live: set<nat>, logNumber: nat, prevLogNumber: nat, manifestNumber: nat) {
    match c.fileType
    case LogFile => c.number >= logNumber || c.number == prevLogNumber
    case DescriptorFile => c.number >= manifestNumber
    case TableFile => c.number in live
    case TempFile => c.number in live
    case CurrentFile => true
    case DBLockFile => true
    case InfoLogFile => true
  }

  /** The numbers a version lists, level by level. */
  function Listed(version: seq<seq<nat>>): set<nat> {
    set l, i | 0 <= l < |version| && 0 <= i < |version[l]| :: version[l][i]
  }

  function AllListed(versions: seq<seq<seq<nat>>>): set<nat> {
    set v, n | v in versions && n in Listed(v) :: n
  }

  lemma ListedNext(version: seq<seq<nat>>, level: nat)
    requires level < |version|
    ensures Listed(version[..level + 1]) == Listed(version[..level]) + set j | 0 <= j < |version[level]| ::
        version[level][j]
  {
    var more, less, last := version[..level + 1], version[..level], set j | 0 <= j < |version[level]| ::
        version[level][j];
    forall n ensures n in Listed(more) <==> n in Listed(less) + last {
      if n in Listed(less) {
        var l, i :| 0 <= l < level && 0 <= i < |less[l]| && less[l][i] == n;
        assert more[l][i] == n;
      }
      if n in last {
        var j :| 0 <= j < |version[level]| && version[level][j] == n;
        assert more[level][j] == n;
      }
    }
  }

  lemma AllListedNext(versions: seq<seq<seq<nat>>>, v: nat)
    requires v < |versions|
    ensures AllListed(versions[..v + 1]) == AllListed(versions[..v]) + Listed(versions[v])
  {
    assert versions[..v + 1] == versions[..v] + [versions[v]];
  }

  method AddLiveFiles(versions: seq<seq<seq<nat>>>, live: set<nat>) returns (r: set<nat>)
    ensures r == live + AllListed(versions)
  {
    r := live;
    for v := 0 to |versions|
      invariant r == live + AllListed(versions[..v])
    {
      var version := versions[v];
      ghost var before := r;
      for level := 0 to |version|
        invariant r == before + Listed(version[..level])
      {
        var files := version[level];
        ghost var above := r;
        for i := 0 to |files|
          invariant r == above + set j | 0 <= j < i :: files[j]
        {
          r := r + {files[i]};
        }
        ListedNext(version, level);
      }
      assert version[..|version|] == version;
      AllListedNext(versions, v);
    }
    assert versions[..|versions|] == versions;
  }

  class FileKeeper {
    var directory: set<Child>
    var versions: seq<seq<seq<nat>>>      // what each version on the list lists
    var pendingOutputs: set<nat>
    var logNumber: nat
    var prevLogNumber: nat
    var manifestNumber: nat
    var bgError: bool

    constructor (directory: set<Child>, versions: seq<seq<seq<nat>>>, manifestNumber: nat)
      ensures this.directory == directory && this.versions == versions && this.manifestNumber == manifestNumber
      ensures pendingOutputs == {} && !bgError
    {
      this.directory, this.versions, this.manifestNumber := directory, versions, manifestNumber;
      pendingOutputs, logNumber, prevLogNumber, bgError := {}, 0, 0, false;
    }

    function LiveNumbers(): set<nat>
      reads this
    {
      pendingOutputs + AllListed(versions)
    }

    /** The part under the mutex: which children of the directory go. */
    method FilesToDelete(children: seq<Child>) returns (files: seq<Child>)
      requires forall c | c in children :: c in directory
      ensures bgError ==> files == []
      ensures !bgError ==>
                forall c :: c in files <==>
                  c in children && !Keep(c, LiveNumbers(), logNumber, prevLogNumber, manifestNumber)
    {
      files := [];
      if bgError {
        return;
      }
      var live := AddLiveFiles(versions, pendingOutputs);
      for i := 0 to |children|
        invariant forall c :: c in files <==>
                    c in children[..i] && !Keep(c, live, logNumber, prevLogNumber, manifestNumber)
      {
        assert children[..i + 1] == children[..i] + [children[i]];
        if !Keep(children[i], live, logNumber, prevLogNumber, manifestNumber) {
          files := files + [children[i]];
        }
      }
      assert children[..|children|] == children;
    }

    /** The part without it: nothing else disappears. */
    method DeleteFiles(files: seq<Child>)
      modifies this`directory
      ensures directory == old(directory) - set c | c in files
    {
      for i := 0 to |files|
        invariant directory == old(directory) - set c | c in files[..i]
      {
        assert files[..i + 1] == files[..i] + [files[i]];
        directory := directory - {files[i]};
      }
      assert files[..|files|] == files;
    }
  }

  /** On table files the choice is that of the protocol above. */
  lemma ChoiceIsObsolete(s: State, versions: seq<seq<seq<nat>>>, children: seq<Child>, files: seq<Child>,
                         logNumber: nat, prevLogNumber: nat, manifestNumber: nat)
    requires AllListed(versions) == Live(s.versions)
    requires forall n :: Child(TableFile, n) in children <==> n in s.tables
    requires forall c :: c in files <==>
               c in children && !Keep(c, s.pendingOutputs + AllListed(versions), logNumber, prevLogNumber,
                                      manifestNumber)
    ensures (set c | c in files && c.fileType.TableFile? :: c.number) == Obsolete(s)
  {
    forall n ensures n in (set c | c in files && c.fileType.TableFile? :: c.number) <==> n in Obsolete(s) {
      if n in Obsolete(s) { assert Child(TableFile, n) in files; }
    }
  }
}
