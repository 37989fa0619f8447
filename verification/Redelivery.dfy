/** An event delivered again, after it was handled or after a crash amid its handling: it is as fresh as it
    was the first time, so no message is lost and one already sent is sent once more. */
module Redelivery {
  import opened Models
  import opened LogStore
  import opened Monitor
  import opened MonitorRuns
  import opened NonInterference
  import opened Retry

  /** The entity has this state's pointer at this attempt, and none that outranks it there. */
  ghost predicate Reached(keys: set<PointerKey>, states: seq<ProcessingState>, e: Entity, a: nat, s: ProcessingState) {
    && PointerKey(s.name, e, a) in keys
    && forall t | t in states && PointerKey(t.name, e, a) in keys :: t.Rank() <= s.Rank()
  }

  lemma ReachedIsFresh(keys: set<PointerKey>, states: seq<ProcessingState>, context: JobContext, s: ProcessingState)
    requires s in states && Reached(keys, states, context.Entity(), context.attempt, s)
    ensures IsFresh(PreviousOf(keys, states, context), s, context.attempt)
  {
    PreviousIsSound(keys, states, context);
  }

  /** A fresh event leaves its entity at its own state. */
  lemma FreshReaches(pointers: Pointers, config: Config, context: JobContext, s: ProcessingState, i: nat, faults: Faults)
    requires ValidConfig(config) && NamesDetermine(States(config.outcomes)) && s in States(config.outcomes)
    requires IsFresh(PreviousOf(pointers.Keys, States(config.outcomes), context), s, context.attempt)
    ensures Reached(MovePointer(pointers, States(config.outcomes), config.submitterStates, context, s, i, faults).Keys,
              States(config.outcomes), context.Entity(), context.attempt, s)
  {
    hide MovePointer, FindState, ActivePointer;
    var states := States(config.outcomes);
    PreviousIsSound(pointers.Keys, states, context);
    MovePointerMoves(pointers, states, config.submitterStates, context, s, i, faults);
  }

  /** Handling the rest of the group leaves it there. */
  lemma ReachedStays(
    pointers: Pointers, config: Config, context: JobContext, s: ProcessingState, i: nat, faults: Faults, e: Entity)
    requires ValidConfig(config) && NamesDetermine(States(config.outcomes)) && s in States(config.outcomes)
    requires Reached(pointers.Keys, States(config.outcomes), e, context.attempt, s)
    ensures Reached(MovePointer(pointers, States(config.outcomes), config.submitterStates, context, s, i, faults).Keys,
              States(config.outcomes), e, context.attempt, s)
  {
    hide MovePointer, FindState, ActivePointer, PreviousOf;
    var states := States(config.outcomes);
    if context.Entity() == e {
      ReachedIsFresh(pointers.Keys, states, context, s);
      FreshReaches(pointers, config, context, s, i, faults);
    } else {
      MoveOthers(pointers, states, config.submitterStates, context, s, i, faults, e);
      var after := MovePointer(pointers, states, config.submitterStates, context, s, i, faults);
      forall t | t in states ensures PointerKey(t.name, e, context.attempt) in after <==> PointerKey(t.name, e, context.attempt) in pointers {
        assert t.name in Names(states);
        assert PointerKey(t.name, e, context.attempt) in MonitorKeys(after.Keys, states, e) <==>
               PointerKey(t.name, e, context.attempt) in MonitorKeys(pointers.Keys, states, e);
      }
    }
  }

  lemma {:induction false} ReachedThrough(
    w: World, config: Config, d: Delivery, s: ProcessingState, faults: Faults, m: nat, n: nat, e: Entity)
    requires ValidConfig(config) && NamesDetermine(States(config.outcomes)) && s in States(config.outcomes)
    requires m <= n <= |d.group.Contexts()|
    requires Reached(RecordEntities(w, config, d, s, faults, m).pointers.Keys, States(config.outcomes), e, d.group.attempt, s)
    ensures Reached(RecordEntities(w, config, d, s, faults, n).pointers.Keys, States(config.outcomes), e, d.group.attempt, s)
  {
    hide MovePointer, AppendEvent, Reached;
    if m < n {
      ReachedThrough(w, config, d, s, faults, m, n - 1, e);
      ReachedStays(RecordEntities(w, config, d, s, faults, n - 1).pointers, config, d.group.Contexts()[n - 1], s, n - 1, faults, e);
    }
  }

  lemma FreshIsReached(w: World, config: Config, d: Delivery, s: ProcessingState, faults: Faults, i: nat, m: nat)
    requires ValidConfig(config) && NamesDetermine(States(config.outcomes)) && s in States(config.outcomes)
    requires i < m <= |d.group.Contexts()| && FreshAt(w, config, d, s, faults, i)
    ensures Reached(RecordEntities(w, config, d, s, faults, m).pointers.Keys, States(config.outcomes),
              d.group.Contexts()[i].Entity(), d.group.attempt, s)
  {
    hide MovePointer, AppendEvent, Reached, IsFresh, PreviousOf;
    FreshReaches(RecordEntities(w, config, d, s, faults, i).pointers, config, d.group.Contexts()[i], s, i, faults);
    ReachedThrough(w, config, d, s, faults, i + 1, m, d.group.Contexts()[i].Entity());
  }

  lemma {:induction false} SomeIsFresh(w: World, config: Config, d: Delivery, s: ProcessingState, faults: Faults, n: nat)
    requires n <= |d.group.Contexts()|
    ensures AnyFresh(w, config, d, s, faults, n) <==> exists i: nat :: i < n && FreshAt(w, config, d, s, faults, i)
  {
    hide FreshAt;
    if n > 0 {
      SomeIsFresh(w, config, d, s, faults, n - 1);
    }
  }

  lemma NothingRecorded(w: World, config: Config, d: Delivery, s: ProcessingState, faults: Faults)
    ensures RecordEntities(w, config, d, s, faults, 0) == w
  {
  }

  // ---------- an event that was not fresh

  lemma StaleMovesNothing(pointers: Pointers, config: Config, context: JobContext, s: ProcessingState, i: nat, faults: Faults)
    requires ValidConfig(config)
    requires !IsFresh(PreviousOf(pointers.Keys, States(config.outcomes), context), s, context.attempt)
    ensures Agree(MovePointer(pointers, States(config.outcomes), config.submitterStates, context, s, i, faults).Keys,
              pointers.Keys, States(config.outcomes))
  {
    hide PreviousOf;
    forall k: PointerKey | k.state in Names(States(config.outcomes))
      ensures k in DropSubmitters(pointers, context, config.submitterStates, i, faults) <==> k in pointers
    {
      DropSubmittersKeepsMonitorKeys(pointers, States(config.outcomes), config.submitterStates, context, i, faults, k);
    }
  }

  lemma {:induction false} StaleStays(
    w: World, v: World, config: Config, d: Delivery, s: ProcessingState, faults: Faults, faults': Faults, n: nat)
    requires ValidConfig(config) && n <= |d.group.Contexts()|
    requires Agree(v.pointers.Keys, w.pointers.Keys, States(config.outcomes)) && !AnyFresh(w, config, d, s, faults, n)
    ensures !AnyFresh(v, config, d, s, faults', n)
    ensures Agree(RecordEntities(w, config, d, s, faults, n).pointers.Keys, w.pointers.Keys, States(config.outcomes))
    ensures Agree(RecordEntities(v, config, d, s, faults', n).pointers.Keys, w.pointers.Keys, States(config.outcomes))
  {
    hide MovePointer, AppendEvent, IsFresh, PreviousOf;
    if n > 0 {
      StaleStays(w, v, config, d, s, faults, faults', n - 1);
      var context := d.group.Contexts()[n - 1];
      var u, u' := RecordEntities(w, config, d, s, faults, n - 1), RecordEntities(v, config, d, s, faults', n - 1);
      PreviousAgrees(u.pointers.Keys, u'.pointers.Keys, States(config.outcomes), context);
      assert !FreshAt(w, config, d, s, faults, n - 1);
      StaleMovesNothing(u.pointers, config, context, s, n - 1, faults);
      StaleMovesNothing(u'.pointers, config, context, s, n - 1, faults');
    }
  }

  // ---------- redelivery

  /** What a handling that stopped after `m` entities leaves, as far as the monitor's own pointers go. */
  ghost predicate LeftAt(
    v: World, w: World, config: Config, d: Delivery, s: ProcessingState, faults: Faults, m: nat)
    requires m <= |d.group.Contexts()|
  {
    Agree(v.pointers.Keys, RecordEntities(w, config, d, s, faults, m).pointers.Keys, States(config.outcomes))
  }

  lemma ReachedAgrees(ks: set<PointerKey>, ls: set<PointerKey>, states: seq<ProcessingState>, e: Entity, a: nat, s: ProcessingState)
    requires Agree(ks, ls, states) && s in states && Reached(ls, states, e, a, s)
    ensures Reached(ks, states, e, a, s)
  {
    forall t | t in states ensures PointerKey(t.name, e, a) in ks <==> PointerKey(t.name, e, a) in ls {
      assert t.name in Names(states);
    }
  }

  /** An entity that was handled before the stop, and was fresh, is fresh again. */
  lemma FreshAfterItsHandling(
    w: World, v: World, config: Config, d: Delivery, s: ProcessingState, faults: Faults, faults': Faults, m: nat, i: nat)
    requires ValidConfig(config) && NamesDetermine(States(config.outcomes)) && s in States(config.outcomes)
    requires i < m <= |d.group.Contexts()| && FreshAt(w, config, d, s, faults, i) && LeftAt(v, w, config, d, s, faults, m)
    ensures FreshAt(v, config, d, s, faults', i)
  {
    hide MovePointer, AppendEvent, Reached, IsFresh, PreviousOf, RecordEntities, Agree;
    var context := d.group.Contexts()[i];
    FreshIsReached(w, config, d, s, faults, i, m);
    ReachedAgrees(v.pointers.Keys, RecordEntities(w, config, d, s, faults, m).pointers.Keys, States(config.outcomes),
      context.Entity(), context.attempt, s);
    NothingRecorded(v, config, d, s, faults');
    ReachedThrough(v, config, d, s, faults', 0, i, context.Entity());
    ReachedIsFresh(RecordEntities(v, config, d, s, faults', i).pointers.Keys, States(config.outcomes), context, s);
  }

  /** An entity not yet reached by the stop, the first to be fresh, still is. */
  lemma FreshBeforeItsHandling(
    w: World, v: World, config: Config, d: Delivery, s: ProcessingState, faults: Faults, faults': Faults, m: nat, i: nat)
    requires ValidConfig(config) && m <= i < |d.group.Contexts()| && LeftAt(v, w, config, d, s, faults, m)
    requires !AnyFresh(w, config, d, s, faults, i) && FreshAt(w, config, d, s, faults, i)
    ensures FreshAt(v, config, d, s, faults', i)
  {
    hide MovePointer, AppendEvent, IsFresh, PreviousOf, AnyFresh, RecordEntities;
    var context := d.group.Contexts()[i];
    SomeIsFresh(w, config, d, s, faults, i);
    SomeIsFresh(w, config, d, s, faults, m);
    StaleStays(w, w, config, d, s, faults, faults, m);
    StaleStays(w, v, config, d, s, faults, faults', i);
    PreviousAgrees(RecordEntities(w, config, d, s, faults, i).pointers.Keys,
      RecordEntities(v, config, d, s, faults', i).pointers.Keys, States(config.outcomes), context);
  }

  lemma {:induction false} FirstFresh(w: World, config: Config, d: Delivery, s: ProcessingState, faults: Faults, n: nat) returns (i: nat)
    requires n <= |d.group.Contexts()| && AnyFresh(w, config, d, s, faults, n)
    ensures i < n && !AnyFresh(w, config, d, s, faults, i) && FreshAt(w, config, d, s, faults, i)
  {
    hide FreshAt;
    if AnyFresh(w, config, d, s, faults, n - 1) {
      i := FirstFresh(w, config, d, s, faults, n - 1);
    } else {
      i := n - 1;
    }
  }

  /** Wherever a handling stopped, after whatever it had done of recording, the event is fresh when
      delivered again exactly if it was to begin with. */
  lemma FreshWhereverItStopped(
    w: World, v: World, config: Config, d: Delivery, s: ProcessingState, faults: Faults, faults': Faults, m: nat)
    requires ValidConfig(config) && WellNamed(config.outcomes) && s in States(config.outcomes)
    requires m <= |d.group.Contexts()| && LeftAt(v, w, config, d, s, faults, m)
    ensures AnyFresh(v, config, d, s, faults', |d.group.Contexts()|)
       <==> AnyFresh(w, config, d, s, faults, |d.group.Contexts()|)
  {
    hide MovePointer, AppendEvent, IsFresh, PreviousOf, FreshAt, AnyFresh, RecordEntities;
    var n := |d.group.Contexts()|;
    WellNamedCovers(config.outcomes);
    if AnyFresh(w, config, d, s, faults, n) {
      var i := FirstFresh(w, config, d, s, faults, n);
      if i < m {
        FreshAfterItsHandling(w, v, config, d, s, faults, faults', m, i);
      } else {
        FreshBeforeItsHandling(w, v, config, d, s, faults, faults', m, i);
      }
      SomeIsFresh(v, config, d, s, faults', n);
    } else {
      SomeIsFresh(w, config, d, s, faults, n);
      SomeIsFresh(w, config, d, s, faults, m);
      StaleStays(w, w, config, d, s, faults, faults, m);
      StaleStays(w, v, config, d, s, faults, faults', n);
    }
  }

  /** Delivered again after it was handled, an event is fresh exactly if it was the first time. */
  lemma RedeliveryIsAsFresh(w: World, config: Config, d: Delivery, s: ProcessingState, faults: Faults, faults': Faults)
    requires ValidConfig(config) && WellNamed(config.outcomes) && s in States(config.outcomes)
    ensures AnyFresh(Apply(w, config, d, s, faults), config, d, s, faults', |d.group.Contexts()|)
       <==> AnyFresh(w, config, d, s, faults, |d.group.Contexts()|)
  {
    hide AnyFresh, RecordEntities;
    RoutingKeepsPointers(w, config, d, s, faults);
    FreshWhereverItStopped(w, Apply(w, config, d, s, faults), config, d, s, faults, faults', |d.group.Contexts()|);
  }

  /** No crash loses a message: if a handling stops anywhere before it has sent one, between entities or
      amid one, the output indexed or not, then delivering the event again sends exactly what an
      uninterrupted handling would have sent, and indexes the same output. */
  lemma RedeliveryAfterCrashRoutes(
    w: World, v: World, config: Config, d: Delivery, s: ProcessingState, faults: Faults, faults': Faults, m: nat)
    requires ValidConfig(config) && WellNamed(config.outcomes) && s in States(config.outcomes)
    requires m <= |d.group.Contexts()| && LeftAt(v, w, config, d, s, faults, m)
    requires v.retryQueue == w.retryQueue && v.deadLetters == w.deadLetters
    requires v.outputs == w.outputs || v.outputs == Apply(w, config, d, s, faults).outputs
    ensures var whole, again := Apply(w, config, d, s, faults), Apply(v, config, d, s, faults');
            again.retryQueue == whole.retryQueue && again.deadLetters == whole.deadLetters && again.outputs == whole.outputs
  {
    hide Apply, AnyFresh, LeftAt;
    FreshWhereverItStopped(w, v, config, d, s, faults, faults', m);
    OneEventOneMessage(w, config, d, s, faults);
    OneEventOneMessage(v, config, d, s, faults');
  }

  /** And an event delivered again after it was handled sends again: a fresh retryable failure asks for two
      retries, so an attempt is not limited to one. */
  lemma RedeliveredFailureRetriesAgain(w: World, config: Config, d: Delivery, s: ProcessingState, faults: Faults, faults': Faults)
    requires ValidConfig(config) && WellNamed(config.outcomes) && s in States(config.outcomes)
    requires AnyFresh(w, config, d, s, faults, |d.group.Contexts()|)
    requires s.kind == RetryableFailure && d.group.attempt < config.policy.maxAttempts && config.hasRetryQueue
    ensures var message := RetryMessage(d.group, d.detail.jobId, s.name);
            Apply(Apply(w, config, d, s, faults), config, d, s, faults').retryQueue == w.retryQueue + [message, message]
  {
    hide Apply, AnyFresh;
    var v := Apply(w, config, d, s, faults);
    RedeliveryIsAsFresh(w, config, d, s, faults, faults');
    OneEventOneMessage(w, config, d, s, faults);
    OneEventOneMessage(v, config, d, s, faults');
  }
}
