/** What a state pointer's body says: the entity and attempt of its key, and the output of the group that
    wrote it (`log_store.py`). */
module PointerBodies {
  import opened Models
  import opened LogStore
  import opened Monitor
  import opened MonitorRuns

  /** The step wrote this body under this key: the monitor for an event of the key's entity at its attempt,
      or the submitter claiming it. */
  ghost predicate Wrote(step: Step, k: PointerKey, body: PointerBody) {
    match step
    case Handle(d, _, _) =>
      && d.group.Covers(k.entity) && d.group.attempt == k.attempt
      && body == PointerBody(k.entity.inputEntityId, d.group.outputEntityId, k.attempt)
    case Claim(context, _) =>
      && context.Entity() == k.entity && context.attempt == k.attempt
      && body == PointerBody(k.entity.inputEntityId, context.outputEntityId, k.attempt)
    case Release(_, _) => false
  }

  /** A pointer is as it was, or a step wrote it. */
  ghost predicate KeptOrWritten(before: Pointers, after: Pointers, step: Step) {
    forall k | k in after :: (k in before && after[k] == before[k]) || Wrote(step, k, after[k])
  }

  lemma {:induction false} SweepKeeps(
    pointers: Pointers, context: JobContext, submitterStates: seq<ProcessingState>, i: nat, faults: Faults)
    ensures forall k | k in DropSubmitters(pointers, context, submitterStates, i, faults) ::
              k in pointers && DropSubmitters(pointers, context, submitterStates, i, faults)[k] == pointers[k]
  {
    if submitterStates != [] {
      SweepKeeps(pointers, context, submitterStates[..|submitterStates| - 1], i, faults);
    }
  }

  lemma MoveWrites(pointers: Pointers, config: Config, step: Step, i: nat)
    requires step.Handle? && i < |step.d.group.Contexts()|
    ensures KeptOrWritten(pointers,
              MovePointer(pointers, States(config.outcomes), config.submitterStates, step.d.group.Contexts()[i], step.state, i,
                step.faults), step)
  {
    hide PreviousOf, DropSubmitters;
    var context := step.d.group.Contexts()[i];
    SweepKeeps(pointers, context, config.submitterStates, i, step.faults);
    assert step.d.group.Covers(context.Entity());
  }

  lemma {:induction false} RecordingWrites(w: World, config: Config, step: Step, n: nat)
    requires step.Handle? && n <= |step.d.group.Contexts()|
    ensures KeptOrWritten(w.pointers, RecordEntities(w, config, step.d, step.state, step.faults, n).pointers, step)
  {
    hide MovePointer, AppendEvent, Wrote;
    if n > 0 {
      RecordingWrites(w, config, step, n - 1);
      MoveWrites(RecordEntities(w, config, step.d, step.state, step.faults, n - 1).pointers, config, step, n - 1);
    }
  }

  lemma StepWrites(w: World, config: Config, step: Step)
    ensures KeptOrWritten(w.pointers, Take(w, config, step).pointers, step)
  {
    hide RecordEntities;
    if step.Handle? {
      RecordingWrites(w, config, step, |step.d.group.Contexts()|);
      RoutingKeepsPointers(w, config, step.d, step.state, step.faults);
    }
  }

  /** In every run from an empty store each pointer's body was written by some step: it names the key's own
      entity and attempt, and the output of that step's group. */
  lemma {:induction false} EveryBodyWasWritten(config: Config, steps: seq<Step>, k: PointerKey)
    requires k in Run(EMPTY_WORLD, config, steps).pointers
    ensures exists i :: 0 <= i < |steps| && Wrote(steps[i], k, Run(EMPTY_WORLD, config, steps).pointers[k])
  {
    hide Take, Wrote;
    var n := |steps| - 1;
    var before := Run(EMPTY_WORLD, config, steps[..n]);
    StepWrites(before, config, steps[n]);
    var body := Run(EMPTY_WORLD, config, steps).pointers[k];
    if !Wrote(steps[n], k, body) {
      EveryBodyWasWritten(config, steps[..n], k);
      var i :| 0 <= i < n && Wrote(steps[..n][i], k, before.pointers[k]);
      assert steps[i] == steps[..n][i];
    }
  }
}
