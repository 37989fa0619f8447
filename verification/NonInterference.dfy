/** Submitter pointers never influence the monitor, and an event removes exactly those of its
    own entities at its own attempt. */
module NonInterference {
  import opened Prelude
  import opened Models
  import opened LogStore
  import opened Monitor
  import opened MonitorRuns

  /** The world without the declared submitter pointers. */
  ghost function View(w: World, submitterStates: seq<ProcessingState>): World {
    w.(pointers := ViewOf(w.pointers, submitterStates))
  }

  ghost function ViewOf(pointers: Pointers, submitterStates: seq<ProcessingState>): Pointers {
    map k | k in pointers && k.state !in Names(submitterStates) :: pointers[k]
  }

  // ---------- lookups read only the scanned names

  ghost predicate Agree(ks: set<PointerKey>, ls: set<PointerKey>, states: seq<ProcessingState>) {
    forall k: PointerKey | k.state in Names(states) :: k in ks <==> k in ls
  }

  lemma {:induction false} FindStateAgrees(
    ks: set<PointerKey>, ls: set<PointerKey>, all: seq<ProcessingState>, states: seq<ProcessingState>, e: Entity, a: nat)
    requires Agree(ks, ls, all) && states <= all
    ensures FindState(ks, states, e, a) == FindState(ls, states, e, a)
  {
    if states != [] {
      var n := |states| - 1;
      FindStateAgrees(ks, ls, all, states[..n], e, a);
      assert states[n] == all[n] && all[n].name in Names(all);
      assert PointerKey(states[n].name, e, a) in ks <==> PointerKey(states[n].name, e, a) in ls;
    }
  }

  lemma ActiveAgrees(ks: set<PointerKey>, ls: set<PointerKey>, states: seq<ProcessingState>, e: Entity)
    requires Agree(ks, ls, states)
    ensures ActivePointer(ks, states, e) == ActivePointer(ls, states, e)
  {
    assert PointerAttempts(ks, states, e) == PointerAttempts(ls, states, e);
    forall a: nat ensures FindState(ks, states, e, a) == FindState(ls, states, e, a) {
      FindStateAgrees(ks, ls, states, states, e, a);
    }
  }

  lemma PreviousAgrees(ks: set<PointerKey>, ls: set<PointerKey>, states: seq<ProcessingState>, context: JobContext)
    requires Agree(ks, ls, states)
    ensures PreviousOf(ks, states, context) == PreviousOf(ls, states, context)
  {
    FindStateAgrees(ks, ls, states, states, context.Entity(), context.attempt);
    ActiveAgrees(ks, ls, states, context.Entity());
  }

  lemma ViewAgrees(pointers: Pointers, config: Config)
    requires ValidConfig(config)
    ensures Agree(pointers.Keys, ViewOf(pointers, config.submitterStates).Keys, States(config.outcomes))
  {
  }

  // ---------- one event

  /** Which pointers a sweep removes: this attempt's, in a submitter state whose delete succeeds. */
  lemma {:induction false} DropSubmittersExactly(
    pointers: Pointers, context: JobContext, submitterStates: seq<ProcessingState>, i: nat, faults: Faults, k: PointerKey)
    ensures var after := DropSubmitters(pointers, context, submitterStates, i, faults);
            && (k in after <==>
                  && k in pointers
                  && !(exists n :: 0 <= n < |submitterStates| && k == PointerKeyOf(submitterStates[n], context)
                                   && (i, n) !in faults.submitter))
            && (k in after ==> after[k] == pointers[k])
  {
    if submitterStates != [] {
      var n := |submitterStates| - 1;
      DropSubmittersExactly(pointers, context, submitterStates[..n], i, faults, k);
      assert forall m | 0 <= m < n :: submitterStates[..n][m] == submitterStates[m];
    }
  }

  lemma SweepIsInvisible(pointers: Pointers, context: JobContext, submitterStates: seq<ProcessingState>, i: nat, faults: Faults)
    ensures ViewOf(DropSubmitters(pointers, context, submitterStates, i, faults), submitterStates)
            == ViewOf(pointers, submitterStates)
  {
    var after := DropSubmitters(pointers, context, submitterStates, i, faults);
    forall k: PointerKey | k.state !in Names(submitterStates)
      ensures (k in after <==> k in pointers) && (k in pointers ==> after[k] == pointers[k])
    {
      DropSubmittersExactly(pointers, context, submitterStates, i, faults, k);
    }
  }

  /** What an event does to the monitor's own pointers is a function of them alone. */
  lemma MoveIsSeenThrough(
    p: Pointers, q: Pointers, config: Config, context: JobContext, s: ProcessingState, i: nat, faults: Faults)
    requires ValidConfig(config) && s in States(config.outcomes)
    requires ViewOf(p, config.submitterStates) == ViewOf(q, config.submitterStates)
    ensures PreviousOf(p.Keys, States(config.outcomes), context) == PreviousOf(q.Keys, States(config.outcomes), context)
    ensures ViewOf(MovePointer(p, States(config.outcomes), config.submitterStates, context, s, i, faults), config.submitterStates)
            == ViewOf(MovePointer(q, States(config.outcomes), config.submitterStates, context, s, i, faults), config.submitterStates)
  {
    var states, subs := States(config.outcomes), config.submitterStates;
    ViewAgrees(p, config);
    ViewAgrees(q, config);
    PreviousAgrees(p.Keys, q.Keys, states, context);
    SweepIsInvisible(p, context, subs, i, faults);
    SweepIsInvisible(q, context, subs, i, faults);
    var previous := PreviousOf(p.Keys, states, context);
    WriteIsSeenThrough(DropSubmitters(p, context, subs, i, faults), DropSubmitters(q, context, subs, i, faults),
      subs, context, s, previous.state, previous.attempt, i in faults.oldPointer);
  }

  lemma WriteIsSeenThrough(
    p: Pointers, q: Pointers, submitterStates: seq<ProcessingState>, context: JobContext, s: ProcessingState,
    oldState: Option<ProcessingState>, oldAttempt: nat, deleteFails: bool)
    requires ViewOf(p, submitterStates) == ViewOf(q, submitterStates)
    ensures ViewOf(WritePointer(p, context, s, oldState, oldAttempt, deleteFails), submitterStates)
            == ViewOf(WritePointer(q, context, s, oldState, oldAttempt, deleteFails), submitterStates)
  {
    var p', q' := WritePointer(p, context, s, oldState, oldAttempt, deleteFails),
                  WritePointer(q, context, s, oldState, oldAttempt, deleteFails);
    forall k: PointerKey | k.state !in Names(submitterStates)
      ensures (k in p' <==> k in q') && (k in p' ==> p'[k] == q'[k])
    {
      assert k in p <==> k in ViewOf(p, submitterStates);
      assert k in q <==> k in ViewOf(q, submitterStates);
    }
  }

  lemma {:induction false} RecordIsSeenThrough(
    u: World, v: World, config: Config, d: Delivery, s: ProcessingState, faults: Faults, n: nat)
    requires ValidConfig(config) && s in States(config.outcomes) && n <= |d.group.Contexts()|
    requires View(u, config.submitterStates) == View(v, config.submitterStates)
    ensures View(RecordEntities(u, config, d, s, faults, n), config.submitterStates)
            == View(RecordEntities(v, config, d, s, faults, n), config.submitterStates)
    ensures AnyFresh(u, config, d, s, faults, n) == AnyFresh(v, config, d, s, faults, n)
  {
    hide MovePointer, AppendEvent, PreviousOf, IsFresh;
    if n > 0 {
      RecordIsSeenThrough(u, v, config, d, s, faults, n - 1);
      var u', v' := RecordEntities(u, config, d, s, faults, n - 1), RecordEntities(v, config, d, s, faults, n - 1);
      assert ViewOf(u'.pointers, config.submitterStates) == View(u', config.submitterStates).pointers;
      assert ViewOf(v'.pointers, config.submitterStates) == View(v', config.submitterStates).pointers;
      MoveIsSeenThrough(u'.pointers, v'.pointers, config, d.group.Contexts()[n - 1], s, n - 1, faults);
      assert u'.records == View(u', config.submitterStates).records == v'.records;
      assert u'.outputs == v'.outputs && u'.retryQueue == v'.retryQueue && u'.deadLetters == v'.deadLetters;
    }
  }

  lemma StepIsSeenThrough(u: World, v: World, config: Config, step: Step)
    requires ValidConfig(config) && WellNamed(config.outcomes) && LegalStep(config, step) && step.Handle?
    requires View(u, config.submitterStates) == View(v, config.submitterStates)
    ensures View(Take(u, config, step), config.submitterStates) == View(Take(v, config, step), config.submitterStates)
  {
    LegalStateIsScanned(config, step);
    var n := |step.d.group.Contexts()|;
    RecordIsSeenThrough(u, v, config, step.d, step.state, step.faults, n);
    var u', v' := RecordEntities(u, config, step.d, step.state, step.faults, n),
                  RecordEntities(v, config, step.d, step.state, step.faults, n);
    assert ViewOf(u'.pointers, config.submitterStates) == ViewOf(v'.pointers, config.submitterStates);
    assert u' == v'.(pointers := u'.pointers);
  }

  lemma SubmitterStepIsInvisible(w: World, config: Config, step: Step)
    requires LegalStep(config, step) && !step.Handle?
    ensures View(Take(w, config, step), config.submitterStates) == View(w, config.submitterStates)
  {
    var after := Take(w, config, step);
    var name := if step.Claim? then step.claimed.name else step.released.name;
    assert name in Names(config.submitterStates);
    assert ViewOf(after.pointers, config.submitterStates) == ViewOf(w.pointers, config.submitterStates);
  }

  // ---------- whole runs

  function DeliveriesOf(steps: seq<Step>): seq<Step> {
    if steps == [] then []
    else DeliveriesOf(steps[..|steps| - 1]) + (if steps[|steps| - 1].Handle? then [steps[|steps| - 1]] else [])
  }

  /** A run interleaved with any submitter activity, from a store holding any submitter pointers,
      leaves the monitor's pointers, records, outputs and messages as its events alone would. */
  lemma {:induction false} SubmittersDoNotInterfere(u: World, v: World, config: Config, steps: seq<Step>)
    requires ValidConfig(config) && WellNamed(config.outcomes) && Legal(config, steps)
    requires View(u, config.submitterStates) == View(v, config.submitterStates)
    ensures View(Run(u, config, steps), config.submitterStates)
            == View(Run(v, config, DeliveriesOf(steps)), config.submitterStates)
  {
    if steps != [] {
      var n := |steps| - 1;
      var step, before := steps[n], DeliveriesOf(steps[..n]);
      SubmittersDoNotInterfere(u, v, config, steps[..n]);
      if step.Handle? {
        assert (before + [step])[..|before|] == before;
        StepIsSeenThrough(Run(u, config, steps[..n]), Run(v, config, before), config, step);
      } else {
        SubmitterStepIsInvisible(Run(u, config, steps[..n]), config, step);
        assert before + [] == before;
      }
    }
  }

  /** Nor do they affect attempt numbering. */
  lemma SubmittersDoNotNumberAttempts(u: World, v: World, config: Config, e: Entity)
    requires ValidConfig(config) && View(u, config.submitterStates) == View(v, config.submitterStates)
    ensures AttemptAfter(u.pointers.Keys, States(config.outcomes), e)
            == AttemptAfter(v.pointers.Keys, States(config.outcomes), e)
  {
    ViewAgrees(u.pointers, config);
    ViewAgrees(v.pointers, config);
    assert ViewOf(u.pointers, config.submitterStates) == ViewOf(v.pointers, config.submitterStates);
    ActiveAgrees(u.pointers.Keys, v.pointers.Keys, States(config.outcomes), e);
  }

  // ---------- what an event removes

  lemma MoveAndSubmitters(
    pointers: Pointers, config: Config, context: JobContext, s: ProcessingState, i: nat, faults: Faults, k: PointerKey)
    requires ValidConfig(config) && s in States(config.outcomes) && k.state in Names(config.submitterStates)
    ensures k in MovePointer(pointers, States(config.outcomes), config.submitterStates, context, s, i, faults) <==>
              && k in pointers
              && !(k.entity == context.Entity() && k.attempt == context.attempt
                   && exists n :: 0 <= n < |config.submitterStates| && config.submitterStates[n].name == k.state
                                  && (i, n) !in faults.submitter)
  {
    WritesMissSubmitters(pointers, config, context, s, i, faults, k);
    DropSubmittersExactly(pointers, context, config.submitterStates, i, faults, k);
    assert forall n | 0 <= n < |config.submitterStates| :: k == PointerKeyOf(config.submitterStates[n], context) <==>
      k.entity == context.Entity() && k.attempt == context.attempt && config.submitterStates[n].name == k.state;
  }

  lemma WritesMissSubmitters(
    pointers: Pointers, config: Config, context: JobContext, s: ProcessingState, i: nat, faults: Faults, k: PointerKey)
    requires ValidConfig(config) && s in States(config.outcomes) && k.state in Names(config.submitterStates)
    ensures k in MovePointer(pointers, States(config.outcomes), config.submitterStates, context, s, i, faults) <==>
              k in DropSubmitters(pointers, context, config.submitterStates, i, faults)
  {
    var p := PreviousOf(pointers.Keys, States(config.outcomes), context);
    PreviousIsScanned(pointers.Keys, States(config.outcomes), context);
    assert s.name in Names(States(config.outcomes));
    NamesApart(config, k.state);
    WriteElsewhere(DropSubmitters(pointers, context, config.submitterStates, i, faults), context, s, p.state, p.attempt,
      i in faults.oldPointer, k);
  }

  lemma NamesApart(config: Config, name: string)
    requires ValidConfig(config) && name in Names(config.submitterStates)
    ensures name !in Names(States(config.outcomes))
  {
  }

  /** Moving a pointer leaves those in states other than the two it moves between. */
  lemma WriteElsewhere(
    pointers: Pointers, context: JobContext, s: ProcessingState, oldState: Option<ProcessingState>, oldAttempt: nat,
    deleteFails: bool, k: PointerKey)
    requires k.state != s.name && (oldState.Some? ==> k.state != oldState.value.name)
    ensures k in WritePointer(pointers, context, s, oldState, oldAttempt, deleteFails) <==> k in pointers
  {
  }

  lemma PreviousIsScanned(keys: set<PointerKey>, states: seq<ProcessingState>, context: JobContext)
    ensures var p := PreviousOf(keys, states, context); p.state.Some? ==> p.state.value.name in Names(states)
  {
    PreviousIsSound(keys, states, context);
  }

  /** When no delete fails, an event removes a submitter pointer exactly if it is of one of the
      event's entities at the event's attempt; stale events do so too. */
  lemma {:induction false} EventSweepsItsOwn(w: World, config: Config, d: Delivery, s: ProcessingState, n: nat, k: PointerKey)
    requires ValidConfig(config) && s in States(config.outcomes) && k.state in Names(config.submitterStates)
    requires n <= |d.group.Contexts()|
    ensures k in RecordEntities(w, config, d, s, Faults({}, {}), n).pointers <==>
              k in w.pointers && !(k.attempt == d.group.attempt && CoversWithin(d.group, k.entity, n))
  {
    hide MovePointer, AppendEvent;
    if n > 0 {
      var faults, context := Faults({}, {}), d.group.Contexts()[n - 1];
      EventSweepsItsOwn(w, config, d, s, n - 1, k);
      MoveSweepsItsOwn(RecordEntities(w, config, d, s, faults, n - 1).pointers, config, context, s, n - 1, k);
      CoversOneMore(d.group, k.entity, n);
    }
  }

  lemma MoveSweepsItsOwn(pointers: Pointers, config: Config, context: JobContext, s: ProcessingState, i: nat, k: PointerKey)
    requires ValidConfig(config) && s in States(config.outcomes) && k.state in Names(config.submitterStates)
    ensures k in MovePointer(pointers, States(config.outcomes), config.submitterStates, context, s, i, Faults({}, {})) <==>
              k in pointers && !(k.entity == context.Entity() && k.attempt == context.attempt)
  {
    var faults := Faults({}, {});
    MoveAndSubmitters(pointers, config, context, s, i, faults, k);
    var t :| t in config.submitterStates && t.name == k.state;
    var m :| 0 <= m < |config.submitterStates| && config.submitterStates[m] == t;
    assert config.submitterStates[m].name == k.state && (i, m) !in faults.submitter;
  }

  ghost predicate SameFor(u: World, v: World, e: Entity) {
    && (forall k: PointerKey | k.entity == e ::
          (k in u.pointers <==> k in v.pointers) && (k in u.pointers ==> u.pointers[k] == v.pointers[k]))
    && (forall k: RecordKey | k.entity == e ::
          (k in u.records <==> k in v.records) && (k in u.records ==> u.records[k] == v.records[k]))
  }

  /** Whatever S3 refuses, no pointer and no record of an entity outside the group is touched. */
  lemma {:induction false} OthersAreUntouched(
    w: World, config: Config, d: Delivery, s: ProcessingState, faults: Faults, n: nat, e: Entity)
    requires n <= |d.group.Contexts()| && !CoversWithin(d.group, e, n)
    ensures SameFor(RecordEntities(w, config, d, s, faults, n), w, e)
  {
    if n > 0 {
      var context, before := d.group.Contexts()[n - 1], RecordEntities(w, config, d, s, faults, n - 1);
      CoversOneMore(d.group, e, n);
      OthersAreUntouched(w, config, d, s, faults, n - 1, e);
      MoveLeavesOthers(before.pointers, config, context, s, n - 1, faults, e);
    }
  }

  lemma MoveLeavesOthers(
    pointers: Pointers, config: Config, context: JobContext, s: ProcessingState, i: nat, faults: Faults, e: Entity)
    requires context.Entity() != e
    ensures var after := MovePointer(pointers, States(config.outcomes), config.submitterStates, context, s, i, faults);
            forall k: PointerKey | k.entity == e ::
              (k in after <==> k in pointers) && (k in after ==> after[k] == pointers[k])
  {
    var after := MovePointer(pointers, States(config.outcomes), config.submitterStates, context, s, i, faults);
    forall k: PointerKey | k.entity == e
      ensures (k in after <==> k in pointers) && (k in after ==> after[k] == pointers[k])
    {
      DropSubmittersExactly(pointers, context, config.submitterStates, i, faults, k);
    }
  }
}
