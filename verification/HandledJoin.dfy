/** What the interleaved monitor's pointers say, from above as well as from below: nothing but what some
    event reported, and once every invocation has ended exactly the join of what was handled. */
module HandledJoin {
  import opened Prelude
  import opened Models
  import opened LogStore
  import opened Monitor
  import opened Interleaving

  // ---------- no pointer is made up

  /** An event reported this state of the entity at this attempt. */
  ghost predicate Reported(config: Config, events: iset<Event>, k: PointerKey) {
    exists m :: FromEvent(events, m) && m.state in States(config.outcomes) && KeyOf(m) == k
  }

  ghost predicate NoneMadeUp(config: Config, events: iset<Event>, s: System) {
    && (forall k {:trigger Reported(config, events, k)} | k in s.pointers && k.state in Names(States(config.outcomes)) ::
          Reported(config, events, k))
    && (forall id | id in s.invocations :: Placed(events, s.invocations[id]))
  }

  ghost predicate Placed(events: iset<Event>, inv: Invocation) {
    inv.event in events && inv.n < |inv.event.d.group.Contexts()|
  }

  lemma InvocationReports(config: Config, events: iset<Event>, inv: Invocation)
    requires Scanned(config, events) && Placed(events, inv)
    ensures Reported(config, events, KeyOf(MarkOf(inv)))
  {
    var contexts := inv.event.d.group.Contexts();
    assert contexts[inv.n].Entity() == MarkOf(inv).entity;
    assert inv.event.d.group.Covers(MarkOf(inv).entity);
    assert FromEvent(events, MarkOf(inv));
  }

  /** The keys an operation adds. */
  lemma AdvanceAdds(config: Config, s: System, id: nat, pick: PointerKey, fails: bool)
    requires id in s.invocations && s.invocations[id].n < |s.invocations[id].event.d.group.Contexts()|
    ensures Advance(config, s, id, pick, fails).pointers <= s.pointers + {KeyOf(MarkOf(s.invocations[id]))}
  {
  }

  /** An operation moves its own invocation on, or ends it, and no other. */
  lemma AdvanceMoves(config: Config, s: System, id: nat, pick: PointerKey, fails: bool)
    requires id in s.invocations && s.invocations[id].n < |s.invocations[id].event.d.group.Contexts()|
    ensures var s' := Advance(config, s, id, pick, fails);
            && (forall j | j in s'.invocations && j != id :: j in s.invocations && s'.invocations[j] == s.invocations[j])
            && (id in s'.invocations ==>
                  && s'.invocations[id].event == s.invocations[id].event
                  && s'.invocations[id].n < |s.invocations[id].event.d.group.Contexts()|)
  {
  }

  lemma DoMakesNothingUp(config: Config, events: iset<Event>, s: System, action: Action)
    requires Sound(config, events) && NoneMadeUp(config, events, s) && Can(config, events, s, action)
    ensures NoneMadeUp(config, events, Do(config, events, s, action))
  {
    hide KeyOf, Reported;
    var s' := Do(config, events, s, action);
    if action.Step? {
      AdvanceAdds(config, s, action.id, action.pick, action.fails);
      AdvanceMoves(config, s, action.id, action.pick, action.fails);
      InvocationReports(config, events, s.invocations[action.id]);
    }
  }

  lemma {:induction false} RunMakesNothingUp(config: Config, events: iset<Event>, s: System, actions: seq<Action>)
    requires Sound(config, events) && NoneMadeUp(config, events, s) && CanAll(config, events, s, actions)
    ensures NoneMadeUp(config, events, DoAll(config, events, s, actions))
    decreases |actions|
  {
    hide NoneMadeUp, Can, Do;
    if actions != [] {
      DoMakesNothingUp(config, events, s, actions[0]);
      RunMakesNothingUp(config, events, Do(config, events, s, actions[0]), actions[1..]);
    }
  }

  /** In every reachable state, whatever outcomes the events report, each pointer of the monitor's is an
      event's: its entity's, at its attempt, in its state. */
  lemma EveryPointerIsAnEvents(config: Config, events: iset<Event>, s: System, k: PointerKey)
    requires Sound(config, events) && Reaches(config, events, START, s)
    requires k in s.pointers && k.state in Names(States(config.outcomes))
    ensures exists x, t :: x in events && x.d.group.Covers(k.entity) && x.d.group.attempt == k.attempt
                           && x.state == t && t in States(config.outcomes) && t.name == k.state
  {
    var actions :| CanAll(config, events, START, actions) && DoAll(config, events, START, actions) == s;
    RunMakesNothingUp(config, events, START, actions);
    assert Reported(config, events, k);
  }

  // ---------- when every invocation has ended

  /** Everything written is handled, or its invocation is about to be. */
  ghost predicate WrittenIsHandled(s: System) {
    forall m | m in s.written :: m in s.handled || exists id :: Removing(s, id, m)
  }

  ghost predicate Removing(s: System, id: nat, m: Mark) {
    && id in s.invocations && s.invocations[id].n < |s.invocations[id].event.d.group.Contexts()|
    && s.invocations[id].pc.Remove? && MarkOf(s.invocations[id]) == m
  }

  /** What an operation writes it handles or is about to, and an invocation past its delete has handled. */
  lemma AdvanceHandles(config: Config, s: System, id: nat, pick: PointerKey, fails: bool, m: Mark)
    requires id in s.invocations && s.invocations[id].n < |s.invocations[id].event.d.group.Contexts()|
    ensures var s' := Advance(config, s, id, pick, fails);
            && s.handled <= s'.handled
            && (m in s'.written && m !in s.written ==> m in s'.handled || Removing(s', id, m))
            && (Removing(s, id, m) ==> m in s'.handled)
            && (forall j | j != id && Removing(s, j, m) :: Removing(s', j, m))
  {
  }

  lemma DoHandlesWhatItWrites(config: Config, events: iset<Event>, s: System, action: Action)
    requires WrittenIsHandled(s) && Can(config, events, s, action) && !action.Crash?
    ensures WrittenIsHandled(Do(config, events, s, action))
  {
    hide MarkOf, Advance;
    var s' := Do(config, events, s, action);
    forall m | m in s'.written ensures m in s'.handled || exists id :: Removing(s', id, m) {
      if action.Step? {
        AdvanceHandles(config, s, action.id, action.pick, action.fails, m);
      }
      if m in s.written && m !in s.handled {
        var id :| Removing(s, id, m);
        assert m in s'.handled || Removing(s', id, m);
      }
    }
  }

  ghost predicate CrashFree(actions: seq<Action>) {
    forall i | 0 <= i < |actions| :: !actions[i].Crash?
  }

  lemma {:induction false} RunHandlesWhatItWrites(config: Config, events: iset<Event>, s: System, actions: seq<Action>)
    requires WrittenIsHandled(s) && CanAll(config, events, s, actions) && CrashFree(actions)
    ensures WrittenIsHandled(DoAll(config, events, s, actions))
    decreases |actions|
  {
    hide WrittenIsHandled, Can, Do;
    if actions != [] {
      DoHandlesWhatItWrites(config, events, s, actions[0]);
      RunHandlesWhatItWrites(config, events, Do(config, events, s, actions[0]), actions[1..]);
    }
  }

  /** The active pointer is the greatest (attempt, rank) handled for the entity, and there is none only if
      nothing was handled. */
  ghost predicate IsHandledJoin(active: Option<(ProcessingState, nat)>, handled: set<Mark>, e: Entity) {
    if active.None? then forall m | m in handled :: m.entity != e
    else
      && Mark(e, active.value.1, active.value.0) in handled
      && forall m | m in handled && m.entity == e :: AtMost(m.attempt, m.state, active.value.1, active.value.0)
  }

  /** In every interleaving without a crash, deletes failing or not, once no invocation is left running
      each entity's active pointer is exactly the join of the events handled for it. */
  lemma SettledPointerIsTheJoin(config: Config, events: iset<Event>, actions: seq<Action>, e: Entity)
    requires Sound(config, events) && OneOutcome(events)
    requires CanAll(config, events, START, actions) && CrashFree(actions)
    requires DoAll(config, events, START, actions).invocations == map[]
    ensures var s := DoAll(config, events, START, actions);
            IsHandledJoin(ActivePointer(s.pointers, States(config.outcomes), e), s.handled, e)
  {
    hide ActivePointer, FindState, Can, Do;
    var s := DoAll(config, events, START, actions);
    DoAllKeepsInv(config, events, START, actions);
    RunHandlesWhatItWrites(config, events, START, actions);
    InvMeansKept(config, events, s);
    ActiveIsGreatest(s.pointers, States(config.outcomes), e);
    var active := ActivePointer(s.pointers, States(config.outcomes), e);
    if active.Some? {
      PresentWasWritten(config, events, s, active.value.0, e, active.value.1);
      assert Mark(e, active.value.1, active.value.0) in s.handled;
    }
    forall m | m in s.handled && m.entity == e
      ensures active.Some? && AtMost(m.attempt, m.state, active.value.1, active.value.0)
    {
      assert Kept(s.pointers, States(config.outcomes), m);
    }
  }
}
