/** Why one outcome to an attempt is needed: three invocations, none of which crashes and none of
    whose deletes fails, can between them delete an entity's last pointer when two of the events
    report different outcomes of one attempt. */
module TwoOutcomes {
  import opened Prelude
  import opened Models
  import opened LogStore
  import opened Monitor
  import opened MonitorRuns
  import opened Interleaving
  import opened SoloRuns
  import opened NonInterference

  lemma FirstCovering(group: JobGroup, e: Entity) returns (i: nat)
    requires group.Covers(e)
    ensures i < |group.Contexts()| && group.Contexts()[i].Entity() == e && !CoversWithin(group, e, i)
  {
    i := 0;
    while group.Contexts()[i].Entity() != e
      invariant i < |group.Contexts()| && !CoversWithin(group, e, i)
      decreases |group.Contexts()| - i
    {
      CoversOneMore(group, e, i + 1);
      var j :| 0 <= j < |group.Contexts()| && group.Contexts()[j].Entity() == e;
      assert i < j;
      i := i + 1;
    }
  }

  const NO_FAULTS := Faults({}, {})

  ghost function Filled(keys: set<PointerKey>): Pointers {
    map k | k in keys :: PointerBody("", "", k.attempt)
  }

  /** The monitor's pointers for an entity in a state of the system. */
  ghost function Held(config: Config, s: System, e: Entity): set<PointerKey> {
    MonitorKeys(s.pointers, States(config.outcomes), e)
  }

  /** An invocation can come to the entity with its pointers untouched. */
  lemma Arrive(config: Config, events: iset<Event>, s: System, id: nat, x: Event, e: Entity) returns (t: System, i: nat)
    requires id !in s.invocations && x in events && x.d.group.Covers(e)
    ensures Reaches(config, events, s, t) && Held(config, t, e) == Held(config, s, e)
    ensures i < |x.d.group.Contexts()| && x.d.group.Contexts()[i].Entity() == e
    ensures t.invocations == s.invocations[id := Arrived(x, i)]
  {
    i := FirstCovering(x.d.group, e);
    var w := EMPTY_WORLD.(pointers := Filled(s.pointers));
    t := GroupAlone(config, events, s, w, id, x, NO_FAULTS, i);
    OthersAreUntouched(w, config, x.d, x.state, NO_FAULTS, i, e);
    assert forall k: PointerKey | k.entity == e :: k in t.pointers <==> k in s.pointers;
  }

  /** An event for the entity at attempt `a` in a state no other state of it outranks. */
  ghost predicate Outcome(config: Config, events: iset<Event>, x: Event, e: Entity, a: nat) {
    && x in events && x.d.group.Covers(e) && x.d.group.attempt == a
    && x.state in States(config.outcomes) && x.state.Rank() == 2
  }

  function KeyAt(x: Event, e: Entity): PointerKey {
    PointerKey(x.state.name, e, x.d.group.attempt)
  }

  /** The invocation is about to delete `prior`, having put its own pointer. */
  function Deleting(x: Event, i: nat, prior: ProcessingState): Invocation {
    Invocation(x, i, Remove(Previous(Some(prior), x.d.group.attempt, false)))
  }

  lemma SweepLeavesHeld(config: Config, keys: set<PointerKey>, r: Reader, e: Entity)
    requires r.Valid() && r.config == config && r.s.pointers == keys
    requires forall t | t in config.submitterStates :: t.name !in Names(States(config.outcomes))
    ensures MonitorKeys(r.SweptKeys(Filled(keys), 0, NO_FAULTS), States(config.outcomes), e)
         == MonitorKeys(keys, States(config.outcomes), e)
  {
    forall k: PointerKey | k.state in Names(States(config.outcomes))
      ensures k in r.SweptKeys(Filled(keys), 0, NO_FAULTS) <==> k in keys
    {
      DropSubmittersKeepsMonitorKeys(Filled(keys), States(config.outcomes), config.submitterStates, r.Context(), 0, NO_FAULTS, k);
    }
  }

  ghost predicate Finds(config: Config, s: System, e: Entity, a: nat, found: ProcessingState) {
    FindState(s.pointers, States(config.outcomes), e, a) == Some(found)
  }

  ghost predicate There(s: System, id: nat, x: Event, i: nat, e: Entity) {
    && id in s.invocations && s.invocations[id] == Arrived(x, i)
    && i < |x.d.group.Contexts()| && x.d.group.Contexts()[i].Entity() == e
  }

  /** Once there, it can put its pointer beside another outcome's and stop short of the delete. */
  lemma PutBeside(config: Config, events: iset<Event>, s: System, id: nat, x: Event, i: nat, e: Entity, prior: ProcessingState)
    returns (t: System)
    requires Sound(config, events) && Outcome(config, events, x, e, x.d.group.attempt) && There(s, id, x, i, e)
    requires prior != x.state && prior.Rank() == 2
    requires Finds(config, s, e, x.d.group.attempt, prior)
    ensures Reaches(config, events, s, t) && Held(config, t, e) == Held(config, s, e) + {KeyAt(x, e)}
    ensures t.invocations == s.invocations[id := Deleting(x, i, prior)]
  {
    var r := Reader(config, events, s, id, Arrived(x, i));
    assert r.Previously() == Previous(Some(prior), x.d.group.attempt, false);
    var written := r.ToTheWrite(Filled(s.pointers), 0, NO_FAULTS);
    SweepLeavesHeld(config, s.pointers, r, e);
    assert s.invocations[id := Arrived(x, i)] == s.invocations;
    t := GoTo(written, id, Arrived(x, i), Remove(Previous(Some(prior), x.d.group.attempt, false)));
    HeldWith(config, r.SweptKeys(Filled(s.pointers), 0, NO_FAULTS), x.state, e, x.d.group.attempt);
  }

  lemma HeldWith(config: Config, keys: set<PointerKey>, s: ProcessingState, e: Entity, a: nat)
    requires s in States(config.outcomes)
    ensures MonitorKeys(keys + {PointerKey(s.name, e, a)}, States(config.outcomes), e)
         == MonitorKeys(keys, States(config.outcomes), e) + {PointerKey(s.name, e, a)}
    ensures MonitorKeys(keys - {PointerKey(s.name, e, a)}, States(config.outcomes), e)
         == MonitorKeys(keys, States(config.outcomes), e) - {PointerKey(s.name, e, a)}
  {
    assert s.name in Names(States(config.outcomes));
  }

  lemma UpdateTwice<K, V>(m: map<K, V>, k: K, v: V, w: V)
    ensures m[k := v][k := w] == m[k := w]
  {
  }

  lemma PutOver(config: Config, events: iset<Event>, s: System, id: nat, x: Event, e: Entity, prior: ProcessingState)
    returns (t: System, i: nat)
    requires Sound(config, events) && Outcome(config, events, x, e, x.d.group.attempt) && id !in s.invocations
    requires prior != x.state && prior.Rank() == 2
    requires Finds(config, s, e, x.d.group.attempt, prior)
    ensures Reaches(config, events, s, t) && Held(config, t, e) == Held(config, s, e) + {KeyAt(x, e)}
    ensures i < |x.d.group.Contexts()| && x.d.group.Contexts()[i].Entity() == e
    ensures t.invocations == s.invocations[id := Deleting(x, i, prior)]
  {
    var before, at := Arrive(config, events, s, id, x, e);
    i := at;
    FindSeesHeld(config, s, before, e, x.d.group.attempt);
    t := PutBeside(config, events, before, id, x, i, e, prior);
    UpdateTwice(s.invocations, id, Arrived(x, i), Deleting(x, i, prior));
    ReachesOn(config, events, s, before, t);
  }

  /** The delete such an invocation has left, whenever it comes. */
  lemma DeleteNow(config: Config, events: iset<Event>, s: System, id: nat, x: Event, i: nat, e: Entity, prior: ProcessingState)
    returns (t: System)
    requires id in s.invocations && s.invocations[id] == Deleting(x, i, prior)
    requires i < |x.d.group.Contexts()| && x.d.group.Contexts()[i].Entity() == e
    requires prior in States(config.outcomes)
    ensures Reaches(config, events, s, t)
    ensures Held(config, t, e) == Held(config, s, e) - {PointerKey(prior.name, e, x.d.group.attempt)}
    ensures t.handled == s.handled + {Mark(e, x.d.group.attempt, x.state)}
    ensures forall j | j in s.invocations && j != id :: j in t.invocations && t.invocations[j] == s.invocations[j]
  {
    var p, r := Previous(Some(prior), x.d.group.attempt, false), Reader(config, events, s, id, Arrived(x, i));
    r.RemoveAlone(s, p, false);
    assert GoTo(s, id, Arrived(x, i), Remove(p)) == s by {
      assert s.invocations[id := Deleting(x, i, prior)] == s.invocations;
    }
    t := Finish(s.(pointers := s.pointers - {PointerKey(prior.name, e, x.d.group.attempt)}), id, Arrived(x, i));
    HeldWith(config, s.pointers, prior, e, x.d.group.attempt);
  }

  /** From nothing, an event handled alone leaves its own pointer. */
  lemma PutFirst(config: Config, events: iset<Event>, id: nat, x: Event, e: Entity) returns (t: System)
    requires Sound(config, events) && Outcome(config, events, x, e, x.d.group.attempt)
    ensures Reaches(config, events, START, t) && Held(config, t, e) == {KeyAt(x, e)}
    ensures t.invocations.Keys <= {id}
  {
    var s, i := Arrive(config, events, START, id, x, e);
    var r := Reader(config, events, s, id, Arrived(x, i));
    NoMonitorKeys(s.pointers, States(config.outcomes), e);
    ActiveIsGreatest(s.pointers, States(config.outcomes), e);
    var written := r.ToTheWrite(Filled(s.pointers), 0, NO_FAULTS);
    SweepLeavesHeld(config, s.pointers, r, e);
    HeldWith(config, r.SweptKeys(Filled(s.pointers), 0, NO_FAULTS), x.state, e, x.d.group.attempt);
    assert s.invocations[id := Arrived(x, i)] == s.invocations;
    t := Finish(written, id, Arrived(x, i));
    ReachesOn(config, events, START, s, t);
  }

  /** Of two outcomes' pointers, the lookup finds the one scanned first. */
  lemma FindsTheFirst(keys: set<PointerKey>, states: seq<ProcessingState>, e: Entity, a: nat, m: nat, g: ProcessingState)
    requires NamesDetermine(states) && m < |states| && g in states
    requires states[m].Rank() == 2 && g.Rank() == 2
    requires forall i | 0 <= i < m :: states[i] != g && states[i] != states[m]
    requires MonitorKeys(keys, states, e) == {PointerKey(states[m].name, e, a), PointerKey(g.name, e, a)}
    ensures FindState(keys, states, e, a) == Some(states[m])
  {
    forall i | 0 <= i < |states|
      ensures PointerKey(states[i].name, e, a) in keys <==> states[i] == states[m] || states[i] == g
    {
      assert states[i].name in Names(states) && states[m].name in Names(states) && g.name in Names(states);
      assert PointerKey(states[i].name, e, a) in keys <==> PointerKey(states[i].name, e, a) in MonitorKeys(keys, states, e);
    }
    assert states[m] in states && PointerKey(states[m].name, e, a) in keys;
    FoundIsFirst(keys, states, e, a, m);
  }

  lemma FoundIsFirst(keys: set<PointerKey>, states: seq<ProcessingState>, e: Entity, a: nat, m: nat)
    requires m < |states| && states[m].Rank() == 2 && PointerKey(states[m].name, e, a) in keys
    requires forall i | 0 <= i < m :: PointerKey(states[i].name, e, a) !in keys
    ensures FindState(keys, states, e, a) == Some(states[m])
  {
    assert states[m] in states;
    var found := FindState(keys, states, e, a);
    var j: nat :| FirstBest(keys, states, e, a, j) && states[j] == found.value;
    assert states[m].Rank() <= states[j].Rank() <= 2;
  }

  lemma {:induction false} FindSeesHeldIn(ks: set<PointerKey>, ls: set<PointerKey>, states: seq<ProcessingState>, e: Entity, a: nat)
    requires forall t | t in states :: PointerKey(t.name, e, a) in ks <==> PointerKey(t.name, e, a) in ls
    ensures FindState(ks, states, e, a) == FindState(ls, states, e, a)
  {
    if states != [] {
      var n := |states| - 1;
      assert states[n] in states;
      FindSeesHeldIn(ks, ls, states[..n], e, a);
    }
  }

  lemma FindSeesHeld(config: Config, s: System, t: System, e: Entity, a: nat)
    requires Held(config, s, e) == Held(config, t, e)
    ensures forall u | Finds(config, s, e, a, u) :: Finds(config, t, e, a, u)
  {
    forall u | u in States(config.outcomes)
      ensures PointerKey(u.name, e, a) in s.pointers <==> PointerKey(u.name, e, a) in t.pointers
    {
      assert u.name in Names(States(config.outcomes));
      assert PointerKey(u.name, e, a) in s.pointers <==> PointerKey(u.name, e, a) in Held(config, s, e);
    }
    FindSeesHeldIn(s.pointers, t.pointers, States(config.outcomes), e, a);
  }

  /** Three invocations: the second and the third each find the other outcome, and each deletes
      what it found. `m` is the place of x's state, the first scanned of the two. */
  lemma OutcomesLost(config: Config, events: iset<Event>, x: Event, y: Event, e: Entity, m: nat) returns (t: System)
    requires Sound(config, events) && x.d.group.attempt == y.d.group.attempt && x.state != y.state
    requires Outcome(config, events, x, e, x.d.group.attempt) && Outcome(config, events, y, e, x.d.group.attempt)
    requires m < |States(config.outcomes)| && States(config.outcomes)[m] == x.state
    requires forall i | 0 <= i < m :: States(config.outcomes)[i] != x.state && States(config.outcomes)[i] != y.state
    ensures Reaches(config, events, START, t)
    ensures Held(config, t, e) == {} && Mark(e, x.d.group.attempt, x.state) in t.handled
  {
    hide Reaches, FindState;
    var states, a := States(config.outcomes), x.d.group.attempt;
    var s1 := PutFirst(config, events, 0, y, e);
    var k := FirstOfTwo(states, y.state, y.state);
    assert {KeyAt(y, e)} == {PointerKey(states[k].name, e, a), PointerKey(states[k].name, e, a)};
    FindsTheFirst(s1.pointers, states, e, a, k, y.state);
    var s2, i := PutOver(config, events, s1, 1, x, e, y.state);
    TwoIds(s1.invocations, Deleting(x, i, y.state));
    FindsTheFirst(s2.pointers, states, e, a, m, y.state);
    t := CrossedDeletes(config, events, s2, x, i, y, e);
    ReachesOn(config, events, START, s1, s2);
    ReachesOn(config, events, START, s2, t);
  }

  lemma TwoIds<V>(m: map<nat, V>, v: V)
    requires m.Keys <= {0}
    ensures 1 in m[1 := v] && m[1 := v][1] == v && 2 !in m[1 := v]
  {
  }

  lemma CrossedDeletes(config: Config, events: iset<Event>, s: System, x: Event, i: nat, y: Event, e: Entity) returns (t: System)
    requires Sound(config, events) && x.d.group.attempt == y.d.group.attempt && x.state != y.state
    requires Outcome(config, events, x, e, x.d.group.attempt) && Outcome(config, events, y, e, x.d.group.attempt)
    requires Held(config, s, e) == {KeyAt(x, e), KeyAt(y, e)} && Finds(config, s, e, x.d.group.attempt, x.state)
    requires i < |x.d.group.Contexts()| && x.d.group.Contexts()[i].Entity() == e
    requires 1 in s.invocations && s.invocations[1] == Deleting(x, i, y.state) && 2 !in s.invocations
    ensures Reaches(config, events, s, t)
    ensures Held(config, t, e) == {} && Mark(e, x.d.group.attempt, x.state) in t.handled
  {
    var s3, j := PutOver(config, events, s, 2, y, e, x.state);
    var s4 := DeleteNow(config, events, s3, 2, y, j, e, x.state);
    t := DeleteNow(config, events, s4, 1, x, i, e, y.state);
    ReachesOn(config, events, s, s3, s4);
    ReachesOn(config, events, s, s4, t);
  }

  lemma FirstOfTwo(states: seq<ProcessingState>, f: ProcessingState, g: ProcessingState) returns (m: nat)
    requires f in states
    ensures m < |states| && (states[m] == f || states[m] == g)
    ensures forall i | 0 <= i < m :: states[i] != f && states[i] != g
  {
    m := 0;
    while states[m] != f && states[m] != g
      invariant m < |states| && f in states[m..]
      invariant forall i | 0 <= i < m :: states[i] != f && states[i] != g
      decreases |states| - m
    {
      assert states[m..] == [states[m]] + states[m + 1..];
      m := m + 1;
    }
  }

  lemma TwoOutcomesAreUnsafe(config: Config, events: iset<Event>)
    requires Sound(config, events) && !OneOutcome(events)
    ensures !Safe(config, events)
  {
    var x, y, e :| x in events && y in events && x.d.group.Covers(e) && y.d.group.Covers(e)
                   && x.d.group.attempt == y.d.group.attempt && x.state.Rank() == 2 && y.state.Rank() == 2
                   && x.state != y.state;
    var m := FirstOfTwo(States(config.outcomes), x.state, y.state);
    var first := if States(config.outcomes)[m] == x.state then x else y;
    var second := if States(config.outcomes)[m] == x.state then y else x;
    var t := OutcomesLost(config, events, first, second, e, m);
    NoMonitorKeys(t.pointers, States(config.outcomes), e);
    var lost := Mark(e, x.d.group.attempt, first.state);
    assert lost in t.handled && !Kept(t.pointers, States(config.outcomes), lost);
  }

  /** The monitor is safe under every interleaving exactly when no entity has two outcomes at one
      attempt among the events it can be given. */
  lemma SafeExactlyWhenOneOutcome(config: Config, events: iset<Event>)
    requires Sound(config, events)
    ensures Safe(config, events) <==> OneOutcome(events)
  {
    if OneOutcome(events) {
      OneOutcomeIsSafe(config, events);
    } else {
      TwoOutcomesAreUnsafe(config, events);
    }
  }
}
