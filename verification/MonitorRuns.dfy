/** Whole runs of the monitor, one event at a time: whatever order events arrive in, however
    often, and whichever old-pointer deletes fail, an entity's active pointer is the join of
    the events delivered for it. */
module MonitorRuns {
  import opened Prelude
  import opened OrderedDict
  import opened Models
  import opened JobDetails
  import opened LogStore
  import opened Monitor

  /** The monitor handles an event, or the job submitter claims or releases a pointer in one of
      its own states. */
  datatype Step =
    | Handle(d: Delivery, state: ProcessingState, faults: Faults)
    | Claim(context: JobContext, claimed: ProcessingState)
    | Release(context: JobContext, released: ProcessingState)

  /** No submitter state has the name of a state the monitor records. */
  ghost predicate ValidConfig(config: Config) {
    && DistinctKeys(config.outcomes)
    && forall s | s in config.submitterStates :: s.name !in Names(States(config.outcomes))
  }

  ghost predicate LegalStep(config: Config, step: Step) {
    match step
    case Handle(d, state, _) => Classify(d.detail, config.policy, config.outcomes) == Ok(state)
    case Claim(_, state) => state in config.submitterStates
    case Release(_, state) => state in config.submitterStates
  }

  ghost predicate Legal(config: Config, steps: seq<Step>) {
    forall i | 0 <= i < |steps| :: LegalStep(config, steps[i])
  }

  ghost function Take(w: World, config: Config, step: Step): World {
    match step
    case Handle(d, state, faults) => Apply(w, config, d, state, faults)
    case Claim(context, state) =>
      if PointerKeyOf(state, context) in w.pointers then w
      else w.(pointers := w.pointers[PointerKeyOf(state, context) := BodyOf(context)])
    case Release(context, state) => w.(pointers := w.pointers - {PointerKeyOf(state, context)})
  }

  ghost function Run(w: World, config: Config, steps: seq<Step>): World {
    if steps == [] then w
    else Take(Run(w, config, steps[..|steps| - 1]), config, steps[|steps| - 1])
  }

  /** The pointers the monitor owns for an entity. */
  ghost function MonitorKeys(keys: set<PointerKey>, states: seq<ProcessingState>, e: Entity): set<PointerKey> {
    set k | k in keys && k.entity == e && k.state in Names(states)
  }

  ghost predicate DeliversTo(step: Step, e: Entity) {
    step.Handle? && step.d.group.Covers(e)
  }

  function Attempt(step: Step): nat
    requires step.Handle?
  {
    step.d.group.attempt
  }

  ghost predicate StepAtMost(a: Step, b: Step)
    requires a.Handle? && b.Handle?
  {
    AtMost(Attempt(a), a.state, Attempt(b), b.state)
  }

  ghost predicate StepBelow(a: Step, b: Step)
    requires a.Handle? && b.Handle?
  {
    Below(Attempt(a), a.state, Attempt(b), b.state)
  }

  /** Some event of the run for the entity had this attempt and rank. */
  ghost predicate Delivered(steps: seq<Step>, e: Entity, a: nat, rank: nat) {
    exists i :: 0 <= i < |steps| && DeliversTo(steps[i], e) && Attempt(steps[i]) == a && steps[i].state.Rank() == rank
  }

  /** A pointer's (attempt, rank) is the greatest delivered for the entity. */
  ghost predicate IsJoin(active: Option<(ProcessingState, nat)>, steps: seq<Step>, e: Entity) {
    if active.None? then forall a: nat, r: nat :: !Delivered(steps, e, a, r)
    else
      && Delivered(steps, e, active.value.1, active.value.0.Rank())
      && forall a: nat, r: nat | Delivered(steps, e, a, r) ::
           a < active.value.1 || (a == active.value.1 && r <= active.value.0.Rank())
  }

  ghost function ActiveAfter(w: World, config: Config, steps: seq<Step>, e: Entity): Option<(ProcessingState, nat)> {
    ActivePointer(Run(w, config, steps).pointers.Keys, States(config.outcomes), e)
  }

  /** The last of the greatest events delivered for an entity. */
  ghost function LastGreatest(steps: seq<Step>, e: Entity): (r: Option<Step>)
    ensures r.Some? ==> DeliversTo(r.value, e)
  {
    if steps == [] then None
    else
      var before, step := LastGreatest(steps[..|steps| - 1], e), steps[|steps| - 1];
      if DeliversTo(step, e) && (before.None? || StepAtMost(before.value, step)) then Some(step) else before
  }

  ghost predicate IsLastGreatest(steps: seq<Step>, e: Entity, i: nat) {
    && i < |steps| && DeliversTo(steps[i], e)
    && forall j | 0 <= j < |steps| && DeliversTo(steps[j], e) ::
         StepAtMost(steps[j], steps[i]) && (i < j ==> StepBelow(steps[j], steps[i]))
  }

  lemma {:induction false} LastGreatestFound(steps: seq<Step>, e: Entity)
    ensures var r := LastGreatest(steps, e);
            if r.None? then forall i | 0 <= i < |steps| :: !DeliversTo(steps[i], e)
            else exists i: nat :: IsLastGreatest(steps, e, i) && steps[i] == r.value
  {
    hide JobGroup.Covers;
    if steps != [] {
      var n := |steps| - 1;
      LastGreatestFound(steps[..n], e);
      var before := LastGreatest(steps[..n], e);
      if before.Some? {
        var i: nat :| IsLastGreatest(steps[..n], e, i) && steps[..n][i] == before.value;
        assert forall j | 0 <= j < n :: steps[..n][j] == steps[j];
        var overtaken := DeliversTo(steps[n], e) && StepAtMost(before.value, steps[n]);
        assert IsLastGreatest(steps, e, if overtaken then n else i);
      } else {
        assert forall j | 0 <= j < n :: steps[..n][j] == steps[j];
        assert DeliversTo(steps[n], e) ==> IsLastGreatest(steps, e, n);
      }
    }
  }

  // ---------- one entity, one event

  /** The entity's pointers are topped by `top`: one pointer at it, none above. */
  ghost predicate ToppedBy(keys: set<PointerKey>, states: seq<ProcessingState>, e: Entity, top: Option<(nat, ProcessingState)>) {
    if top.None? then MonitorKeys(keys, states, e) == {}
    else
      && (exists s | s in states :: s.Rank() == top.value.1.Rank() && PointerKey(s.name, e, top.value.0) in keys)
      && forall s, a | s in states && PointerKey(s.name, e, a) in keys :: AtMost(a, s, top.value.0, top.value.1)
  }

  /** A later event at or past the current top becomes the top. */
  function Join(top: Option<(nat, ProcessingState)>, a: nat, s: ProcessingState): Option<(nat, ProcessingState)> {
    if top.None? || AtMost(top.value.0, top.value.1, a, s) then Some((a, s)) else top
  }

  lemma {:induction false} DropSubmittersKeepsMonitorKeys(
    pointers: Pointers, states: seq<ProcessingState>, submitterStates: seq<ProcessingState>,
    context: JobContext, i: nat, faults: Faults, k: PointerKey)
    requires forall s | s in submitterStates :: s.name !in Names(states)
    requires k.state in Names(states)
    ensures k in DropSubmitters(pointers, context, submitterStates, i, faults) <==> k in pointers
  {
    if submitterStates != [] {
      var n := |submitterStates| - 1;
      assert submitterStates[n] in submitterStates;
      DropSubmittersKeepsMonitorKeys(pointers, states, submitterStates[..n], context, i, faults, k);
    }
  }

  /** Membership of a monitor-owned key after one event. */
  lemma MovePointerKeys(
    pointers: Pointers, states: seq<ProcessingState>, submitterStates: seq<ProcessingState>,
    context: JobContext, s: ProcessingState, i: nat, faults: Faults, k: PointerKey)
    requires forall t | t in submitterStates :: t.name !in Names(states)
    requires k.state in Names(states)
    ensures var p := PreviousOf(pointers.Keys, states, context);
            k in MovePointer(pointers, states, submitterStates, context, s, i, faults) <==>
              if !IsFresh(p, s, context.attempt) || IsUnchanged(p, s, context.attempt) then k in pointers
              else
                && (k in pointers || k == PointerKeyOf(s, context))
                && !(p.state.Some? && i !in faults.oldPointer
                     && k == PointerKey(p.state.value.name, context.Entity(), p.attempt))
  {
    DropSubmittersKeepsMonitorKeys(pointers, states, submitterStates, context, i, faults, k);
  }

  /** What the two lookups establish about an entity's pointers. */
  ghost predicate PreviousFacts(keys: set<PointerKey>, states: seq<ProcessingState>, e: Entity, a: nat, p: Previous) {
    && (p.stale ==> exists t, b: nat | t in states && PointerKey(t.name, e, b) in keys :: b > a)
    && (p.state.Some? ==> p.attempt <= a && p.state.value in states && PointerKey(p.state.value.name, e, p.attempt) in keys)
    && (p.state.Some? && p.attempt == a ==>
          forall t | t in states && PointerKey(t.name, e, a) in keys :: t.Rank() <= p.state.value.Rank())
    && (p.state.Some? && p.attempt < a ==>
          forall t, b | t in states && PointerKey(t.name, e, b) in keys :: AtMost(b, t, p.attempt, p.state.value))
    && (!p.stale && p.state.None? ==> forall t, b | t in states :: PointerKey(t.name, e, b) !in keys)
  }

  lemma PreviousIsSound(keys: set<PointerKey>, states: seq<ProcessingState>, context: JobContext)
    ensures PreviousFacts(keys, states, context.Entity(), context.attempt, PreviousOf(keys, states, context))
  {
    ActiveIsGreatest(keys, states, context.Entity());
  }

  /** The monitor-owned keys after an event, for states that their names determine. */
  ghost predicate Moved(
    before: set<PointerKey>, after: set<PointerKey>, states: seq<ProcessingState>,
    e: Entity, a: nat, s: ProcessingState, p: Previous, deleteFails: bool)
  {
    forall t, b | t in states ::
      PointerKey(t.name, e, b) in after <==>
        if !IsFresh(p, s, a) || IsUnchanged(p, s, a) then PointerKey(t.name, e, b) in before
        else
          && (PointerKey(t.name, e, b) in before || (t == s && b == a))
          && !(p.state.Some? && !deleteFails && t == p.state.value && b == p.attempt)
  }

  lemma MovePointerMoves(
    pointers: Pointers, states: seq<ProcessingState>, submitterStates: seq<ProcessingState>,
    context: JobContext, s: ProcessingState, i: nat, faults: Faults)
    requires NamesDetermine(states) && s in states
    requires forall t | t in submitterStates :: t.name !in Names(states)
    ensures Moved(pointers.Keys, MovePointer(pointers, states, submitterStates, context, s, i, faults).Keys, states,
              context.Entity(), context.attempt, s, PreviousOf(pointers.Keys, states, context), i in faults.oldPointer)
  {
    var e := context.Entity();
    PreviousIsSound(pointers.Keys, states, context);
    forall t, b | t in states {
      MovePointerKeys(pointers, states, submitterStates, context, s, i, faults, PointerKey(t.name, e, b));
    }
  }

  /** An event moves its entity's top to the join, whether or not the old pointer goes. */
  lemma MoveJoins(
    before: set<PointerKey>, after: set<PointerKey>, states: seq<ProcessingState>,
    e: Entity, a: nat, s: ProcessingState, p: Previous, deleteFails: bool, top: Option<(nat, ProcessingState)>)
    requires s in states
    requires PreviousFacts(before, states, e, a, p) && Moved(before, after, states, e, a, s, p, deleteFails)
    requires ToppedBy(before, states, e, top)
    ensures ToppedBy(after, states, e, Join(top, a, s))
  {
    if top.None? {
      NoMonitorKeys(before, states, e);
      assert PointerKey(s.name, e, a) in after;
    } else {
      var u :| u in states && u.Rank() == top.value.1.Rank() && PointerKey(u.name, e, top.value.0) in before;
      if IsFresh(p, s, a) && !IsUnchanged(p, s, a) {
        assert PointerKey(s.name, e, a) in after;
        if !AtMost(top.value.0, top.value.1, a, s) {
          assert PointerKey(u.name, e, top.value.0) in after;
        }
      } else {
        assert PointerKey(u.name, e, top.value.0) in after;
      }
    }
  }

  lemma NoMonitorKeys(keys: set<PointerKey>, states: seq<ProcessingState>, e: Entity)
    ensures MonitorKeys(keys, states, e) == {} <==> forall s, a | s in states :: PointerKey(s.name, e, a) !in keys
  {
    forall s, a | s in states && PointerKey(s.name, e, a) in keys ensures MonitorKeys(keys, states, e) != {} {
      assert PointerKey(s.name, e, a) in MonitorKeys(keys, states, e);
    }
    if MonitorKeys(keys, states, e) != {} {
      var k :| k in MonitorKeys(keys, states, e);
      var s :| s in states && s.name == k.state;
      assert k == PointerKey(s.name, e, k.attempt);
    }
  }

  // ---------- one event, the whole group

  /** Nothing another entity's event does touches this entity's monitor-owned keys. */
  lemma MoveOthers(
    pointers: Pointers, states: seq<ProcessingState>, submitterStates: seq<ProcessingState>,
    context: JobContext, s: ProcessingState, i: nat, faults: Faults, e: Entity)
    requires forall t | t in submitterStates :: t.name !in Names(states)
    requires context.Entity() != e
    ensures MonitorKeys(MovePointer(pointers, states, submitterStates, context, s, i, faults).Keys, states, e)
            == MonitorKeys(pointers.Keys, states, e)
  {
    var after := MovePointer(pointers, states, submitterStates, context, s, i, faults);
    forall k ensures k in MonitorKeys(after.Keys, states, e) <==> k in MonitorKeys(pointers.Keys, states, e) {
      if k.state in Names(states) {
        MovePointerKeys(pointers, states, submitterStates, context, s, i, faults, k);
      }
    }
  }

  lemma SameMonitorKeysSameTop(
    before: set<PointerKey>, after: set<PointerKey>, states: seq<ProcessingState>, e: Entity,
    top: Option<(nat, ProcessingState)>)
    requires MonitorKeys(before, states, e) == MonitorKeys(after, states, e)
    requires ToppedBy(before, states, e, top)
    ensures ToppedBy(after, states, e, top)
  {
    forall s, a | s in states ensures PointerKey(s.name, e, a) in before <==> PointerKey(s.name, e, a) in after {
      assert PointerKey(s.name, e, a) in before <==> PointerKey(s.name, e, a) in MonitorKeys(before, states, e);
    }
    if top.Some? {
      var u :| u in states && u.Rank() == top.value.1.Rank() && PointerKey(u.name, e, top.value.0) in before;
      assert PointerKey(u.name, e, top.value.0) in after;
    }
  }

  ghost predicate CoversWithin(group: JobGroup, e: Entity, n: nat)
    requires n <= |group.Contexts()|
  {
    exists i | 0 <= i < n :: group.Contexts()[i].Entity() == e
  }

  lemma CoversOneMore(group: JobGroup, e: Entity, n: nat)
    requires 0 < n <= |group.Contexts()|
    ensures CoversWithin(group, e, n) <==> CoversWithin(group, e, n - 1) || group.Contexts()[n - 1].Entity() == e
  {
  }

  lemma ContextJoins(
    pointers: Pointers, states: seq<ProcessingState>, submitterStates: seq<ProcessingState>,
    context: JobContext, s: ProcessingState, i: nat, faults: Faults, e: Entity, top: Option<(nat, ProcessingState)>)
    requires NamesDetermine(states) && s in states
    requires forall t | t in submitterStates :: t.name !in Names(states)
    requires ToppedBy(pointers.Keys, states, e, top)
    ensures ToppedBy(MovePointer(pointers, states, submitterStates, context, s, i, faults).Keys, states, e,
              if context.Entity() == e then Join(top, context.attempt, s) else top)
  {
    var after := MovePointer(pointers, states, submitterStates, context, s, i, faults);
    if context.Entity() == e {
      PreviousIsSound(pointers.Keys, states, context);
      MovePointerMoves(pointers, states, submitterStates, context, s, i, faults);
      MoveJoins(pointers.Keys, after.Keys, states, e, context.attempt, s,
        PreviousOf(pointers.Keys, states, context), i in faults.oldPointer, top);
    } else {
      MoveOthers(pointers, states, submitterStates, context, s, i, faults, e);
      SameMonitorKeysSameTop(pointers.Keys, after.Keys, states, e, top);
    }
  }

  lemma {:induction false} RecordJoins(
    w: World, config: Config, d: Delivery, s: ProcessingState, faults: Faults, n: nat,
    e: Entity, top: Option<(nat, ProcessingState)>)
    requires ValidConfig(config) && NamesDetermine(States(config.outcomes)) && s in States(config.outcomes)
    requires n <= |d.group.Contexts()|
    requires ToppedBy(w.pointers.Keys, States(config.outcomes), e, top)
    ensures ToppedBy(RecordEntities(w, config, d, s, faults, n).pointers.Keys, States(config.outcomes), e,
              if CoversWithin(d.group, e, n) then Join(top, d.group.attempt, s) else top)
  {
    if n > 0 {
      RecordJoins(w, config, d, s, faults, n - 1, e, top);
      CoversOneMore(d.group, e, n);
      var before := RecordEntities(w, config, d, s, faults, n - 1).pointers;
      var top' := if CoversWithin(d.group, e, n - 1) then Join(top, d.group.attempt, s) else top;
      var context := d.group.Contexts()[n - 1];
      assert RecordEntities(w, config, d, s, faults, n).pointers
          == MovePointer(before, States(config.outcomes), config.submitterStates, context, s, n - 1, faults);
      assert (if CoversWithin(d.group, e, n) then Join(top, d.group.attempt, s) else top)
          == (if context.Entity() == e then Join(top', context.attempt, s) else top');
      ContextJoins(before, States(config.outcomes), config.submitterStates, context, s, n - 1, faults, e, top');
    }
  }

  lemma RoutingKeepsPointers(w: World, config: Config, d: Delivery, s: ProcessingState, faults: Faults)
    ensures Apply(w, config, d, s, faults).pointers
            == RecordEntities(w, config, d, s, faults, |d.group.Contexts()|).pointers
    ensures Apply(w, config, d, s, faults).records
            == RecordEntities(w, config, d, s, faults, |d.group.Contexts()|).records
  {
  }

  lemma SubmitterStepKeepsMonitorKeys(w: World, config: Config, step: Step, e: Entity)
    requires ValidConfig(config) && LegalStep(config, step) && !step.Handle?
    ensures MonitorKeys(Take(w, config, step).pointers.Keys, States(config.outcomes), e)
            == MonitorKeys(w.pointers.Keys, States(config.outcomes), e)
  {
  }

  // ---------- whole runs

  function TopOf(step: Option<Step>): Option<(nat, ProcessingState)>
    requires step.Some? ==> step.value.Handle?
  {
    if step.None? then None else Some((Attempt(step.value), step.value.state))
  }

  lemma LegalStateIsScanned(config: Config, step: Step)
    requires WellNamed(config.outcomes) && LegalStep(config, step) && step.Handle?
    ensures step.state in States(config.outcomes)
  {
    ClassifyYieldsAPossibleState(step.d.detail, config.policy, config.outcomes);
    WellNamedCovers(config.outcomes);
  }

  /** Every run keeps each entity topped by the last of its greatest events. */
  lemma {:induction false} RunIsTopped(w: World, config: Config, steps: seq<Step>, e: Entity)
    requires ValidConfig(config) && WellNamed(config.outcomes) && Legal(config, steps)
    requires MonitorKeys(w.pointers.Keys, States(config.outcomes), e) == {}
    ensures ToppedBy(Run(w, config, steps).pointers.Keys, States(config.outcomes), e, TopOf(LastGreatest(steps, e)))
  {
    if steps != [] {
      WellNamedCovers(config.outcomes);
      var n := |steps| - 1;
      var before, step := Run(w, config, steps[..n]), steps[n];
      RunIsTopped(w, config, steps[..n], e);
      var top := TopOf(LastGreatest(steps[..n], e));
      if step.Handle? {
        LegalStateIsScanned(config, step);
        RecordJoins(before, config, step.d, step.state, step.faults, |step.d.group.Contexts()|, e, top);
        RoutingKeepsPointers(before, config, step.d, step.state, step.faults);
        assert CoversWithin(step.d.group, e, |step.d.group.Contexts()|) <==> DeliversTo(step, e);
      } else {
        SubmitterStepKeepsMonitorKeys(before, config, step, e);
        SameMonitorKeysSameTop(before.pointers.Keys, Take(before, config, step).pointers.Keys,
          States(config.outcomes), e, top);
      }
    }
  }

  lemma ToppedMeansActive(keys: set<PointerKey>, states: seq<ProcessingState>, e: Entity, top: Option<(nat, ProcessingState)>)
    requires ToppedBy(keys, states, e, top)
    ensures var active := ActivePointer(keys, states, e);
            && (active.None? <==> top.None?)
            && (active.Some? ==> active.value.1 == top.value.0 && active.value.0.Rank() == top.value.1.Rank())
  {
    ActiveIsGreatest(keys, states, e);
    NoMonitorKeys(keys, states, e);
    var active := ActivePointer(keys, states, e);
    if top.Some? {
      var u :| u in states && u.Rank() == top.value.1.Rank() && PointerKey(u.name, e, top.value.0) in keys;
      assert PointerKey(u.name, e, top.value.0) in keys;
    }
  }

  /** In any run from a store without pointers of the monitor's for the entity, whatever
      deletes fail, the active pointer is the greatest (attempt, rank) delivered. */
  lemma ActivePointerIsTheJoin(w: World, config: Config, steps: seq<Step>, e: Entity)
    requires ValidConfig(config) && WellNamed(config.outcomes) && Legal(config, steps)
    requires MonitorKeys(w.pointers.Keys, States(config.outcomes), e) == {}
    ensures IsJoin(ActiveAfter(w, config, steps, e), steps, e)
  {
    RunIsTopped(w, config, steps, e);
    LastGreatestFound(steps, e);
    var last := LastGreatest(steps, e);
    ToppedMeansActive(Run(w, config, steps).pointers.Keys, States(config.outcomes), e, TopOf(last));
    if last.Some? {
      var i: nat :| IsLastGreatest(steps, e, i) && steps[i] == last.value;
      assert DeliversTo(steps[i], e);
    }
  }

  /** Two runs delivering the same (attempt, rank) pairs for an entity, in any order and with
      any repetition, leave it at the same pair. */
  lemma ReorderingAndDuplicationDoNotMatter(w: World, config: Config, steps: seq<Step>, others: seq<Step>, e: Entity)
    requires ValidConfig(config) && WellNamed(config.outcomes) && Legal(config, steps) && Legal(config, others)
    requires MonitorKeys(w.pointers.Keys, States(config.outcomes), e) == {}
    requires forall a: nat, r: nat :: Delivered(steps, e, a, r) <==> Delivered(others, e, a, r)
    ensures var p, q := ActiveAfter(w, config, steps, e), ActiveAfter(w, config, others, e);
            && (p.None? <==> q.None?)
            && (p.Some? ==> p.value.1 == q.value.1 && p.value.0.Rank() == q.value.0.Rank())
  {
    ActivePointerIsTheJoin(w, config, steps, e);
    ActivePointerIsTheJoin(w, config, others, e);
  }

  // ---------- runs in which no delete fails

  ghost predicate NoFaults(steps: seq<Step>) {
    forall i | 0 <= i < |steps| && steps[i].Handle? :: steps[i].faults == Faults({}, {})
  }

  /** The entity's only monitor-owned pointer. */
  ghost function Only(e: Entity, top: Option<(nat, ProcessingState)>): set<PointerKey> {
    if top.None? then {} else {PointerKey(top.value.1.name, e, top.value.0)}
  }

  lemma MoveKeepsOne(
    before: set<PointerKey>, after: set<PointerKey>, states: seq<ProcessingState>,
    e: Entity, a: nat, s: ProcessingState, p: Previous, top: Option<(nat, ProcessingState)>)
    requires NamesDetermine(states) && s in states && (top.Some? ==> top.value.1 in states)
    requires PreviousFacts(before, states, e, a, p) && Moved(before, after, states, e, a, s, p, false)
    requires MonitorKeys(before, states, e) == Only(e, top)
    ensures MonitorKeys(after, states, e) == Only(e, Join(top, a, s))
  {
    forall t, b: nat | t in states
      ensures PointerKey(t.name, e, b) in before <==> top == Some((b, t))
    {
      assert PointerKey(t.name, e, b) in before <==> PointerKey(t.name, e, b) in MonitorKeys(before, states, e);
    }
    forall t, b: nat | t in states
      ensures PointerKey(t.name, e, b) in after <==> Join(top, a, s) == Some((b, t))
    {
      if top.Some? {
        assert PointerKey(top.value.1.name, e, top.value.0) in before;
      }
    }
    forall k ensures k in MonitorKeys(after, states, e) <==> k in Only(e, Join(top, a, s)) {
      if k.state in Names(states) && k.entity == e {
        var t :| t in states && t.name == k.state;
        assert k == PointerKey(t.name, e, k.attempt);
      } else if Join(top, a, s).Some? {
        assert Join(top, a, s).value.1 in states;
      }
    }
  }

  lemma ContextKeepsOne(
    pointers: Pointers, states: seq<ProcessingState>, submitterStates: seq<ProcessingState>,
    context: JobContext, s: ProcessingState, i: nat, e: Entity, top: Option<(nat, ProcessingState)>)
    requires NamesDetermine(states) && s in states && (top.Some? ==> top.value.1 in states)
    requires forall t | t in submitterStates :: t.name !in Names(states)
    requires MonitorKeys(pointers.Keys, states, e) == Only(e, top)
    ensures MonitorKeys(MovePointer(pointers, states, submitterStates, context, s, i, Faults({}, {})).Keys, states, e)
            == Only(e, if context.Entity() == e then Join(top, context.attempt, s) else top)
  {
    var faults := Faults({}, {});
    if context.Entity() == e {
      PreviousIsSound(pointers.Keys, states, context);
      MovePointerMoves(pointers, states, submitterStates, context, s, i, faults);
      MoveKeepsOne(pointers.Keys, MovePointer(pointers, states, submitterStates, context, s, i, faults).Keys,
        states, e, context.attempt, s, PreviousOf(pointers.Keys, states, context), top);
    } else {
      MoveOthers(pointers, states, submitterStates, context, s, i, faults, e);
    }
  }

  lemma {:induction false} RecordKeepsOne(
    w: World, config: Config, d: Delivery, s: ProcessingState, n: nat,
    e: Entity, top: Option<(nat, ProcessingState)>)
    requires ValidConfig(config) && NamesDetermine(States(config.outcomes)) && s in States(config.outcomes)
    requires n <= |d.group.Contexts()| && (top.Some? ==> top.value.1 in States(config.outcomes))
    requires MonitorKeys(w.pointers.Keys, States(config.outcomes), e) == Only(e, top)
    ensures MonitorKeys(RecordEntities(w, config, d, s, Faults({}, {}), n).pointers.Keys, States(config.outcomes), e)
            == Only(e, if CoversWithin(d.group, e, n) then Join(top, d.group.attempt, s) else top)
  {
    hide MovePointer, AppendEvent, MonitorKeys;
    if n > 0 {
      RecordKeepsOne(w, config, d, s, n - 1, e, top);
      var top' := if CoversWithin(d.group, e, n - 1) then Join(top, d.group.attempt, s) else top;
      ContextKeepsOne(RecordEntities(w, config, d, s, Faults({}, {}), n - 1).pointers, States(config.outcomes),
        config.submitterStates, d.group.Contexts()[n - 1], s, n - 1, e, top');
      CoversOneMore(d.group, e, n);
    }
  }

  lemma {:induction false} RunKeepsOne(w: World, config: Config, steps: seq<Step>, e: Entity)
    requires ValidConfig(config) && WellNamed(config.outcomes) && Legal(config, steps) && NoFaults(steps)
    requires MonitorKeys(w.pointers.Keys, States(config.outcomes), e) == {}
    ensures MonitorKeys(Run(w, config, steps).pointers.Keys, States(config.outcomes), e)
            == Only(e, TopOf(LastGreatest(steps, e)))
    ensures LastGreatest(steps, e).Some? ==> LastGreatest(steps, e).value.state in States(config.outcomes)
  {
    if steps != [] {
      WellNamedCovers(config.outcomes);
      var n := |steps| - 1;
      var before, step := Run(w, config, steps[..n]), steps[n];
      RunKeepsOne(w, config, steps[..n], e);
      if step.Handle? {
        HandleKeepsOne(before, config, step, e, LastGreatest(steps[..n], e));
      } else {
        SubmitterStepKeepsMonitorKeys(before, config, step, e);
      }
    }
  }

  lemma HandleKeepsOne(w: World, config: Config, step: Step, e: Entity, last: Option<Step>)
    requires ValidConfig(config) && WellNamed(config.outcomes) && LegalStep(config, step) && step.Handle?
    requires step.faults == Faults({}, {}) && (last.Some? ==> last.value.Handle? && last.value.state in States(config.outcomes))
    requires MonitorKeys(w.pointers.Keys, States(config.outcomes), e) == Only(e, TopOf(last))
    ensures var next := if DeliversTo(step, e) && (last.None? || StepAtMost(last.value, step)) then Some(step) else last;
            MonitorKeys(Take(w, config, step).pointers.Keys, States(config.outcomes), e) == Only(e, TopOf(next))
    ensures step.state in States(config.outcomes)
  {
    WellNamedCovers(config.outcomes);
    LegalStateIsScanned(config, step);
    RecordKeepsOne(w, config, step.d, step.state, |step.d.group.Contexts()|, e, TopOf(last));
    RoutingKeepsPointers(w, config, step.d, step.state, step.faults);
    assert CoversWithin(step.d.group, e, |step.d.group.Contexts()|) <==> DeliversTo(step, e);
  }

  /** When no delete fails, an entity with a delivery has exactly one pointer of the monitor's,
      and it is that of the last delivered of its greatest events. */
  lemma ExactlyOnePointer(w: World, config: Config, steps: seq<Step>, e: Entity)
    requires ValidConfig(config) && WellNamed(config.outcomes) && Legal(config, steps) && NoFaults(steps)
    requires MonitorKeys(w.pointers.Keys, States(config.outcomes), e) == {}
    ensures var keys := MonitorKeys(Run(w, config, steps).pointers.Keys, States(config.outcomes), e);
            if forall i | 0 <= i < |steps| :: !DeliversTo(steps[i], e) then keys == {}
            else exists i: nat :: IsLastGreatest(steps, e, i)
                               && keys == {PointerKey(steps[i].state.name, e, Attempt(steps[i]))}
  {
    RunKeepsOne(w, config, steps, e);
    LastGreatestFound(steps, e);
    var last := LastGreatest(steps, e);
    if last.Some? {
      var i: nat :| IsLastGreatest(steps, e, i) && steps[i] == last.value;
      assert DeliversTo(steps[i], e);
    }
  }

  // ---------- the exact condition

  const EMPTY_WORLD := World(map[], map[], {}, [], [])

  lemma {:induction false} DropSubmittersOf(
    pointers: Pointers, context: JobContext, submitterStates: seq<ProcessingState>, i: nat, faults: Faults, name: string)
    requires forall t | t in submitterStates :: t.name != name
    requires forall k | k in pointers :: k.state == name
    ensures DropSubmitters(pointers, context, submitterStates, i, faults) == pointers
  {
    if submitterStates != [] {
      var n := |submitterStates| - 1;
      assert submitterStates[n] in submitterStates;
      DropSubmittersOf(pointers, context, submitterStates[..n], i, faults, name);
    }
  }

  /** The event of a single entity, with no fault. */
  lemma SingleEvent(w: World, config: Config, d: Delivery, s: ProcessingState)
    requires |d.group.inputEntityIds| == 1
    ensures Apply(w, config, d, s, Faults({}, {})).pointers
            == MovePointer(w.pointers, States(config.outcomes), config.submitterStates,
                 d.group.Contexts()[0], s, 0, Faults({}, {}))
  {
    assert RecordEntities(w, config, d, s, Faults({}, {}), 0) == w;
    assert RecordEntities(w, config, d, s, Faults({}, {}), 1).pointers
        == MovePointer(w.pointers, States(config.outcomes), config.submitterStates,
             d.group.Contexts()[0], s, 0, Faults({}, {}));
  }

  lemma FirstEventWrites(config: Config, d: Delivery, s: ProcessingState)
    requires ValidConfig(config) && s.name in Names(States(config.outcomes)) && |d.group.inputEntityIds| == 1
    ensures Apply(EMPTY_WORLD, config, d, s, Faults({}, {})).pointers.Keys == {PointerKeyOf(s, d.group.Contexts()[0])}
  {
    var states, context := States(config.outcomes), d.group.Contexts()[0];
    SingleEvent(EMPTY_WORLD, config, d, s);
    DropSubmittersOf(map[], context, config.submitterStates, 0, Faults({}, {}), s.name);
    var none: set<PointerKey> := {};
    assert EMPTY_WORLD.pointers.Keys == none;
    PreviousIsSound(none, states, context);
    ActiveIsGreatest(none, states, context.Entity());
    assert PreviousOf(none, states, context) == Previous(None, context.attempt, false);
  }

  lemma SecondEventDeletes(w: World, config: Config, d: Delivery, s: ProcessingState, t: ProcessingState)
    requires ValidConfig(config) && s.name in Names(States(config.outcomes)) && |d.group.inputEntityIds| == 1
    requires w.pointers.Keys == {PointerKeyOf(s, d.group.Contexts()[0])}
    requires FindState(w.pointers.Keys, States(config.outcomes), d.group.Contexts()[0].Entity(), d.group.attempt) == Some(t)
    requires t != s && t.Rank() == s.Rank()
    ensures Apply(w, config, d, s, Faults({}, {})).pointers.Keys == {}
  {
    var context := d.group.Contexts()[0];
    SingleEvent(w, config, d, s);
    DropSubmittersOf(w.pointers, context, config.submitterStates, 0, Faults({}, {}), s.name);
    assert PointerKeyOf(t, context) == PointerKeyOf(s, context);
  }

  lemma RunOnce(config: Config, step: Step)
    ensures Run(EMPTY_WORLD, config, [step]) == Take(EMPTY_WORLD, config, step)
    ensures Run(EMPTY_WORLD, config, [step, step]) == Take(Take(EMPTY_WORLD, config, step), config, step)
  {
    assert [step][..0] == [] && [step, step][..1] == [step];
  }

  /** A single event whose pointer is found as a state of another rank. */
  lemma MisreportedOnce(config: Config, step: Step, e: Entity)
    requires ValidConfig(config) && step.Handle? && step.faults == Faults({}, {}) && LegalStep(config, step)
    requires step.state.name in Names(States(config.outcomes))
    requires |step.d.group.inputEntityIds| == 1 && step.d.group.Contexts()[0].Entity() == e
    requires var t := FindState({PointerKey(step.state.name, e, Attempt(step))}, States(config.outcomes), e, Attempt(step));
             t.None? || t.value.Rank() != step.state.Rank()
    ensures !IsJoin(ActiveAfter(EMPTY_WORLD, config, [step], e), [step], e)
  {
    var a, r := Attempt(step), step.state.Rank();
    FirstEventWrites(config, step.d, step.state);
    RunOnce(config, step);
    OnePointerIsActive(States(config.outcomes), e, step.state, a);
    assert DeliversTo([step][0], e);
    assert Delivered([step], e, a, r);
    var active := ActiveAfter(EMPTY_WORLD, config, [step], e);
    assert active.Some? ==> !Delivered([step], e, a, active.value.0.Rank());
  }

  /** An event delivered twice whose pointer is found as another state of its own rank. */
  lemma LostWhenRepeated(config: Config, step: Step, e: Entity)
    requires ValidConfig(config) && step.Handle? && step.faults == Faults({}, {}) && LegalStep(config, step)
    requires step.state.name in Names(States(config.outcomes))
    requires |step.d.group.inputEntityIds| == 1 && step.d.group.Contexts()[0].Entity() == e
    requires var t := FindState({PointerKey(step.state.name, e, Attempt(step))}, States(config.outcomes), e, Attempt(step));
             t.Some? && t.value != step.state && t.value.Rank() == step.state.Rank()
    ensures !IsJoin(ActiveAfter(EMPTY_WORLD, config, [step, step], e), [step, step], e)
  {
    var a, key := Attempt(step), PointerKey(step.state.name, e, Attempt(step));
    var t := FindState({key}, States(config.outcomes), e, a).value;
    FirstEventWrites(config, step.d, step.state);
    RunOnce(config, step);
    SecondEventDeletes(Take(EMPTY_WORLD, config, step), config, step.d, step.state, t);
    ActiveIsGreatest({}, States(config.outcomes), e);
    assert DeliversTo([step, step][0], e);
    assert Delivered([step, step], e, a, step.state.Rank());
  }

  lemma OnePointerIsActive(states: seq<ProcessingState>, e: Entity, s: ProcessingState, a: nat)
    ensures var active := ActivePointer({PointerKey(s.name, e, a)}, states, e);
            active.Some? ==> active.value.1 == a && FindState({PointerKey(s.name, e, a)}, states, e, a) == Some(active.value.0)
  {
    ActiveIsGreatest({PointerKey(s.name, e, a)}, states, e);
  }

  const BLANK := Detail("job", "RUNNING", None, None, None, None, None, None)

  /** A lookup of the state's own pointer does not find the state. */
  ghost predicate Unfound(config: Config, s: ProcessingState) {
    && s.name in Names(States(config.outcomes))
    && forall e, a: nat :: FindState({PointerKey(s.name, e, a)}, States(config.outcomes), e, a) != Some(s)
  }

  /** When outcomes are not well named, some state an event can classify as is not what a lookup
      of its pointer finds. */
  lemma UnfoundState(config: Config) returns (detail: Detail, s: ProcessingState)
    requires ValidConfig(config) && !WellNamed(config.outcomes)
    ensures Classify(detail, config.policy, config.outcomes) == Ok(s) && Unfound(config, s)
  {
    var outcomes, states := config.outcomes, States(config.outcomes);
    ScanCoversExactlyWhenWellNamed(outcomes);
    var i: nat;
    if r :| Possible(outcomes, r) && r !in states {
      i :| 0 <= i < |outcomes| && r == outcomes[i].1.ToProcessingState();
      OutcomeNameIsScanned(outcomes, i);
      s := r;
    } else {
      i := SharedWithBaseline(outcomes);
      s := SharedNameIsUnfound(config, i);
    }
    if s == AWAITING {
      detail := BLANK;
    } else {
      EveryOutcomeIsClassified(BLANK, config.policy, outcomes, i);
      detail := BLANK.(status := "FAILED", exitCode := Some(outcomes[i].0));
    }
  }

  lemma SharedNameIsUnfound(config: Config, i: nat) returns (s: ProcessingState)
    requires i < |config.outcomes|
    requires var o := config.outcomes[i].1.ToProcessingState();
             o in States(config.outcomes) && o !in BASELINE_PROCESSING_STATES
             && exists b: nat :: b < 4 && BASELINE_PROCESSING_STATES[b].name == o.name
    ensures Unfound(config, s) && (s == AWAITING || s == config.outcomes[i].1.ToProcessingState())
  {
    var states, o := States(config.outcomes), config.outcomes[i].1.ToProcessingState();
    var b: nat :| b < 4 && BASELINE_PROCESSING_STATES[b].name == o.name;
    assert forall j | 0 <= j < 4 :: states[j] == BASELINE_PROCESSING_STATES[j] && states[j] in BASELINE_PROCESSING_STATES;
    s := if b == 0 then AWAITING else o;
    assert s.name in Names(states) by { assert states[b] in states; }
    forall e, a: nat ensures FindState({PointerKey(s.name, e, a)}, states, e, a) != Some(s) {
      if b == 0 {
        var k :| 0 <= k < |states| && states[k] == o;
        Outranked({PointerKey(s.name, e, a)}, states, k, s, e, a);
      } else {
        Shadowed({PointerKey(o.name, e, a)}, states, b, o, e, a);
      }
    }
  }

  lemma Outranked(keys: set<PointerKey>, states: seq<ProcessingState>, k: nat, s: ProcessingState, e: Entity, a: nat)
    requires k < |states| && PointerKey(states[k].name, e, a) in keys && s.Rank() < states[k].Rank()
    ensures FindState(keys, states, e, a) != Some(s)
  {
    var found := FindState(keys, states, e, a);
    assert states[k] in states;
    if found.Some? {
      var j: nat :| FirstBest(keys, states, e, a, j) && states[j] == found.value;
    }
  }

  lemma Shadowed(keys: set<PointerKey>, states: seq<ProcessingState>, b: nat, o: ProcessingState, e: Entity, a: nat)
    requires b < |states| && PointerKey(states[b].name, e, a) in keys && states[b].Rank() == 2
    requires forall j | 0 <= j <= b :: states[j] != o
    ensures FindState(keys, states, e, a) != Some(o)
  {
    var found := FindState(keys, states, e, a);
    if found.Some? {
      var j: nat :| FirstBest(keys, states, e, a, j) && states[j] == found.value;
      assert states[j].Rank() <= 2;
    }
  }

  lemma OutcomeNameIsScanned(outcomes: ExitCodeOutcomes, i: nat)
    requires i < |outcomes|
    ensures outcomes[i].1.name in Names(States(outcomes))
  {
    DeclaredLastWins(outcomes, outcomes[i].1.name);
    var last := LastNamed(outcomes, outcomes[i].1.name).value;
    ScannedStates(outcomes, last);
  }

  /** If every classification is scanned and still some name means two states, an outcome has
      taken a built-in name for another state. */
  lemma SharedWithBaseline(outcomes: ExitCodeOutcomes) returns (i: nat)
    requires !NamesDetermine(States(outcomes)) && forall r | Possible(outcomes, r) :: r in States(outcomes)
    ensures i < |outcomes|
    ensures var o := outcomes[i].1.ToProcessingState();
            o in States(outcomes) && o !in BASELINE_PROCESSING_STATES
            && exists b: nat :: b < 4 && BASELINE_PROCESSING_STATES[b].name == o.name
  {
    var states := States(outcomes);
    var s, t :| s in states && t in states && s.name == t.name && s != t;
    ScannedStates(outcomes, s);
    ScannedStates(outcomes, t);
    var b, o := if s in BASELINE_PROCESSING_STATES then s else t, if s in BASELINE_PROCESSING_STATES then t else s;
    assert b in BASELINE_PROCESSING_STATES && o !in BASELINE_PROCESSING_STATES;
    i :| 0 <= i < |outcomes| && o == outcomes[i].1.ToProcessingState();
  }

  /** The active pointer is the join of what was delivered, in every run from an empty store,
      exactly when the job type's outcomes are well named. */
  lemma JoinHoldsExactlyWhenWellNamed(config: Config)
    requires ValidConfig(config)
    ensures WellNamed(config.outcomes) <==>
              forall steps, e | Legal(config, steps) :: IsJoin(ActiveAfter(EMPTY_WORLD, config, steps, e), steps, e)
  {
    if WellNamed(config.outcomes) {
      forall steps, e | Legal(config, steps) ensures IsJoin(ActiveAfter(EMPTY_WORLD, config, steps, e), steps, e) {
        ActivePointerIsTheJoin(EMPTY_WORLD, config, steps, e);
      }
    } else {
      var steps, e := BrokenRun(config);
    }
  }

  lemma BrokenRun(config: Config) returns (steps: seq<Step>, e: Entity)
    requires ValidConfig(config) && !WellNamed(config.outcomes)
    ensures Legal(config, steps) && !IsJoin(ActiveAfter(EMPTY_WORLD, config, steps, e), steps, e)
  {
    var detail, s := UnfoundState(config);
    var step := Handle(Delivery(detail, "", JobGroup("", [], [""], "", 1)), s, Faults({}, {}));
    e := EntityOf("", [], "");
    var t := FindState({PointerKey(s.name, e, 1)}, States(config.outcomes), e, 1);
    if t.None? || t.value.Rank() != s.Rank() {
      MisreportedOnce(config, step, e);
      steps := [step];
    } else {
      LostWhenRepeated(config, step, e);
      steps := [step, step];
    }
  }
}
