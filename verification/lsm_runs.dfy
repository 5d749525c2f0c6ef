/** Over whole runs the database reads like the plain versioned map. */
module LsmRuns {
  import opened InternalKeys
  import opened TableFiles
  import opened Lsm
  import opened LsmWrites
  import opened LsmFlushes
  import opened LsmCompactions
  import opened LsmRestarts

  lemma StepInv(s: State, step: Step, t: State)
    requires Inv(s) && Next(s, step, t)
    ensures Inv(t)
  {
    match step
    case WriteStep(batch) => WriteInv(s, batch);
    case SkipStep(n) => SkipInv(s, n);
    case SwitchStep => SwitchInv(s);
    case FlushStep(file, level) => FlushInv(s, file, level);
    case TakeSnapshot => SnapshotStepsInv(s, s.lastSequence);
    case ReleaseSnapshot(q) => SnapshotStepsInv(s, q);
    case BeginStep(level, in0, in1, q, automatic) => BeginInv(s, level, in0, in1, q, automatic);
    case OpenOutputStep => OpenOutputInv(s);
    case FinishStep(outputs) => FinishInv(s, outputs);
    case MoveStep(level, f) => MoveInv(s, level, f);
    case RemoveLogsStep => RemoveLogsInv(s);
    case ReopenStep(tables, newLog, last) => ReopenInv(s, tables, newLog, last);
  }

  /** A run: states joined by steps, from a new database. */
  ghost predicate IsRun(states: seq<State>, steps: seq<Step>) {
    && |states| == |steps| + 1 && Initial(states[0])
    && forall i {:trigger steps[i]} | 0 <= i < |steps| :: Next(states[i], steps[i], states[i + 1])
  }

  lemma {:induction false} RunInv(states: seq<State>, steps: seq<Step>, n: nat)
    requires IsRun(states, steps) && n < |states|
    ensures Inv(states[n])
  {
    if n == 0 {
      InitialInv(states[0]);
    } else {
      var i := n - 1;
      RunInv(states, steps, i);
      assert Next(states[i], steps[i], states[i + 1]);
      StepInv(states[i], steps[i], states[i + 1]);
    }
  }

  /** Whole-run refinement. After any run, the levels are ordered, and every live snapshot and the
      latest state read from memtables and files exactly what the plain versioned map says. */
  lemma RunRefinesVersionedMap(states: seq<State>, steps: seq<Step>, n: nat, k: UserKey, q: Sequence)
    requires IsRun(states, steps) && n < |states|
    requires q in states[n].snapshots || q == states[n].lastSequence
    ensures var s := states[n];
            && OrderedLevels(s.levels)
            && Yields(Stored(s), k, q, SpecGet(s.history, k, q))
            && forall r | Yields(Stored(s), k, q, r) :: r == SpecGet(s.history, k, q)
  {
    RunInv(states, steps, n);
    var s := states[n];
    StoredDistinct(s);
    forall r | Yields(Stored(s), k, q, r) ensures r == SpecGet(s.history, k, q) {
      YieldsFunctional(Stored(s), k, q, r, SpecGet(s.history, k, q));
    }
  }
}
