/** Any number of monitor invocations at once, interleaved at single S3 operations. An
    invocation may crash between any two of them, a delete may fail, and the job submitter moves
    its own pointers meanwhile. */
module Interleaving {
  import opened Prelude
  import opened Models
  import opened LogStore
  import opened Monitor

  /** An event as delivered to an invocation; any number of invocations may handle it. */
  datatype Event = Event(d: Delivery, state: ProcessingState)

  /** Where an invocation stands with the entity it is at. */
  datatype Pc =
    | Heads(i: nat, found: seq<ProcessingState>)                                 // HEAD states[i] next
    | Lists(i: nat, hits: seq<(ProcessingState, nat)>)                           // LIST states[i] next
    | Gets(i: nat, pending: set<PointerKey>, hits: seq<(ProcessingState, nat)>)  // GET one of pending next
    | AppendRecord(previous: Previous)                                           // canonical record next
    | Sweep(k: nat, previous: Previous)                                          // DELETE submitterStates[k] next
    | Put(previous: Previous)                                                    // PUT the new pointer next
    | Remove(previous: Previous)                                                 // DELETE the old pointer next

  datatype Invocation = Invocation(event: Event, n: nat, pc: Pc)

  /** A state some event brought an entity to, at some attempt. */
  datatype Mark = Mark(entity: Entity, attempt: nat, state: ProcessingState)

  /** `written` and `handled` are history: every pointer ever put, every event ever finished. */
  datatype System = System(
    pointers: set<PointerKey>, invocations: map<nat, Invocation>, written: set<Mark>, handled: set<Mark>)

  datatype Action =
    | Spawn(id: nat, event: Event)
    | Step(id: nat, pick: PointerKey, fails: bool)
    | Crash(id: nat)
    | SubmitterPut(key: PointerKey)
    | SubmitterDelete(key: PointerKey)

  function KeyOf(m: Mark): PointerKey {
    PointerKey(m.state.name, m.entity, m.attempt)
  }

  function ContextOf(inv: Invocation): JobContext
    requires inv.n < |inv.event.d.group.Contexts()|
  {
    inv.event.d.group.Contexts()[inv.n]
  }

  function MarkOf(inv: Invocation): Mark
    requires inv.n < |inv.event.d.group.Contexts()|
  {
    Mark(ContextOf(inv).Entity(), ContextOf(inv).attempt, inv.event.state)
  }

  /** The listings' verdict on an attempt that has no pointer of its own. */
  function FromHits(hits: seq<(ProcessingState, nat)>, attempt: nat): Previous {
    if hits == [] then Previous(None, attempt, false)
    else
      var (s, a) := hits[BestHit(hits)];
      if a > attempt then Previous(None, attempt, true) else Previous(Some(s), a, false)
  }

  /** Go on to the group's next entity, or end. */
  function Finish(s: System, id: nat, inv: Invocation): System
    requires inv.n < |inv.event.d.group.Contexts()|
  {
    var invocations := if inv.n + 1 < |inv.event.d.group.Contexts()|
                       then s.invocations[id := inv.(n := inv.n + 1, pc := Heads(0, []))]
                       else s.invocations - {id};
    s.(invocations := invocations, handled := s.handled + {MarkOf(inv)})
  }

  function GoTo(s: System, id: nat, inv: Invocation, pc: Pc): System {
    s.(invocations := s.invocations[id := inv.(pc := pc)])
  }

  ghost predicate Can(config: Config, events: iset<Event>, s: System, action: Action) {
    match action
    case Spawn(id, event) => id !in s.invocations && event in events && event.d.group.Contexts() != []
    case Step(id, pick, _) =>
      && id in s.invocations
      && s.invocations[id].n < |s.invocations[id].event.d.group.Contexts()|
      && (s.invocations[id].pc.Gets? && s.invocations[id].pc.pending != {} ==> pick in s.invocations[id].pc.pending)
    case Crash(id) => id in s.invocations
    case SubmitterPut(key) => key.state in Names(config.submitterStates)
    case SubmitterDelete(key) => key.state in Names(config.submitterStates)
  }

  predicate Reading(pc: Pc) {
    pc.Heads? || pc.Lists? || pc.Gets?
  }

  /** One HEAD, LIST or GET, or the decision that ends the reading. */
  function Read(keys: set<PointerKey>, states: seq<ProcessingState>, context: JobContext, pc: Pc, pick: PointerKey): Pc
    requires Reading(pc)
  {
    match pc
    case Heads(i, found) =>
      if i < |states| then Heads(i + 1, if PointerKeyOf(states[i], context) in keys then found + [states[i]] else found)
      else if found != [] then AppendRecord(Previous(BestRanked(found), context.attempt, false))
      else Lists(0, [])
    case Lists(i, hits) =>
      if i < |states| then Gets(i, (set k | k in keys && k.state == states[i].name && k.entity == context.Entity()), hits)
      else AppendRecord(FromHits(hits, context.attempt))
    case Gets(i, pending, hits) =>
      if pending == {} || i >= |states| then Lists(i + 1, hits)
      else Gets(i, pending - {pick}, if pick in keys then hits + [(states[i], pick.attempt)] else hits)
  }

  /** One operation of one invocation. */
  function Advance(config: Config, s: System, id: nat, pick: PointerKey, fails: bool): System
    requires id in s.invocations && s.invocations[id].n < |s.invocations[id].event.d.group.Contexts()|
  {
    var inv := s.invocations[id];
    if Reading(inv.pc) then GoTo(s, id, inv, Read(s.pointers, States(config.outcomes), ContextOf(inv), inv.pc, pick))
    else if inv.pc.AppendRecord? then GoTo(s, id, inv, Sweep(0, inv.pc.previous))
    else if inv.pc.Sweep? then
      if inv.pc.k < |config.submitterStates|
      then GoTo(Swept(s, PointerKeyOf(config.submitterStates[inv.pc.k], ContextOf(inv)), fails), id, inv,
             Sweep(inv.pc.k + 1, inv.pc.previous))
      else Decide(s, id, inv)
    else if inv.pc.Put? then AdvancePut(s, id, inv)
    else AdvanceRemove(s, id, inv, fails)
  }

  function Swept(s: System, key: PointerKey, fails: bool): System {
    if fails then s else s.(pointers := s.pointers - {key})
  }

  /** The monotonicity guard and the redundant-rewrite test. */
  function Decide(s: System, id: nat, inv: Invocation): System
    requires inv.n < |inv.event.d.group.Contexts()| && inv.pc.Sweep?
  {
    var previous, m := inv.pc.previous, MarkOf(inv);
    if !IsFresh(previous, m.state, m.attempt) || IsUnchanged(previous, m.state, m.attempt) then Finish(s, id, inv)
    else GoTo(s, id, inv, Put(previous))
  }

  function AdvancePut(s: System, id: nat, inv: Invocation): System
    requires inv.n < |inv.event.d.group.Contexts()| && inv.pc.Put?
  {
    var m := MarkOf(inv);
    var put := s.(pointers := s.pointers + {KeyOf(m)}, written := s.written + {m});
    if inv.pc.previous.state.None? then Finish(put, id, inv) else GoTo(put, id, inv, Remove(inv.pc.previous))
  }

  function AdvanceRemove(s: System, id: nat, inv: Invocation, fails: bool): System
    requires inv.n < |inv.event.d.group.Contexts()| && inv.pc.Remove?
  {
    var previous := inv.pc.previous;
    if fails || previous.state.None? then Finish(s, id, inv)
    else Finish(s.(pointers := s.pointers - {KeyOf(Mark(MarkOf(inv).entity, previous.attempt, previous.state.value))}), id, inv)
  }

  ghost function Do(config: Config, events: iset<Event>, s: System, action: Action): System
    requires Can(config, events, s, action)
  {
    match action
    case Spawn(id, event) => s.(invocations := s.invocations[id := Invocation(event, 0, Heads(0, []))])
    case Step(id, pick, fails) => Advance(config, s, id, pick, fails)
    case Crash(id) => s.(invocations := s.invocations - {id})
    case SubmitterPut(key) => s.(pointers := s.pointers + {key})
    case SubmitterDelete(key) => s.(pointers := s.pointers - {key})
  }

  ghost predicate CanAll(config: Config, events: iset<Event>, s: System, actions: seq<Action>)
    decreases |actions|
  {
    actions == [] ||
    (Can(config, events, s, actions[0]) && CanAll(config, events, Do(config, events, s, actions[0]), actions[1..]))
  }

  ghost function DoAll(config: Config, events: iset<Event>, s: System, actions: seq<Action>): System
    requires CanAll(config, events, s, actions)
    decreases |actions|
  {
    if actions == [] then s else DoAll(config, events, Do(config, events, s, actions[0]), actions[1..])
  }

  const START := System({}, map[], {}, {})

  // ---------- hypotheses and the property

  /** No entity has two outcomes at one attempt. */
  ghost predicate OneOutcome(events: iset<Event>) {
    forall x, y, e | x in events && y in events && x.d.group.Covers(e) && y.d.group.Covers(e)
                     && x.d.group.attempt == y.d.group.attempt && x.state.Rank() == 2 && y.state.Rank() == 2 ::
      x.state == y.state
  }

  ghost predicate Scanned(config: Config, events: iset<Event>) {
    forall x | x in events :: x.state in States(config.outcomes)
  }

  /** Some pointer of the entity is at or above the mark. */
  ghost predicate Kept(pointers: set<PointerKey>, states: seq<ProcessingState>, m: Mark) {
    exists t, a: nat :: t in states && PointerKey(t.name, m.entity, a) in pointers && AtMost(m.attempt, m.state, a, t)
  }

  ghost predicate AllKept(config: Config, s: System) {
    forall m | m in s.handled :: Kept(s.pointers, States(config.outcomes), m)
  }

  ghost predicate Reaches(config: Config, events: iset<Event>, s: System, s': System) {
    exists actions :: CanAll(config, events, s, actions) && DoAll(config, events, s, actions) == s'
  }

  /** In every execution, every event any invocation finished stays accounted for. */
  ghost predicate Safe(config: Config, events: iset<Event>) {
    forall s | Reaches(config, events, START, s) :: AllKept(config, s)
  }

  // ---------- the invariant

  predicate MarkAtMost(m: Mark, n: Mark) {
    m.entity == n.entity && AtMost(m.attempt, m.state, n.attempt, n.state)
  }

  predicate MarkBelow(m: Mark, n: Mark) {
    m.entity == n.entity && Below(m.attempt, m.state, n.attempt, n.state)
  }

  ghost predicate FromEvent(events: iset<Event>, m: Mark) {
    exists x :: x in events && x.d.group.Covers(m.entity) && x.d.group.attempt == m.attempt && x.state == m.state
  }

  /** A written pointer at or above the mark is there now. */
  ghost predicate Covered(s: System, m: Mark) {
    exists c :: c in s.written && KeyOf(c) in s.pointers && MarkAtMost(m, c)
  }

  ghost predicate SeenState(s: System, e: Entity, a: nat, t: ProcessingState) {
    Mark(e, a, t) in s.written
  }

  ghost predicate SeenPrevious(s: System, m: Mark, p: Previous) {
    && (p.stale ==> exists w :: w in s.written && w.entity == m.entity && w.attempt > m.attempt)
    && (p.state.Some? ==> p.attempt <= m.attempt && SeenState(s, m.entity, p.attempt, p.state.value))
  }

  /** Whatever an invocation remembers was written at some time before. */
  ghost predicate PcOk(states: seq<ProcessingState>, s: System, m: Mark, pc: Pc) {
    match pc
    case Heads(_, found) => forall t | t in found :: SeenState(s, m.entity, m.attempt, t)
    case Lists(_, hits) => forall h | h in hits :: SeenState(s, m.entity, h.1, h.0)
    case Gets(i, pending, hits) =>
      && (forall h | h in hits :: SeenState(s, m.entity, h.1, h.0))
      && (forall k | k in pending :: k.entity == m.entity && (i < |states| ==> k.state == states[i].name))
    case AppendRecord(p) => SeenPrevious(s, m, p)
    case Sweep(_, p) => SeenPrevious(s, m, p)
    case Put(p) => SeenPrevious(s, m, p) && IsFresh(p, m.state, m.attempt) && !IsUnchanged(p, m.state, m.attempt)
    case Remove(p) =>
      && m in s.written
      && (p.state.Some? ==> MarkBelow(Mark(m.entity, p.attempt, p.state.value), m)
                            && SeenState(s, m.entity, p.attempt, p.state.value))
  }

  ghost predicate InvocationOk(config: Config, events: iset<Event>, s: System, inv: Invocation) {
    && inv.event in events
    && inv.n < |inv.event.d.group.Contexts()|
    && PcOk(States(config.outcomes), s, MarkOf(inv), inv.pc)
  }

  ghost predicate Accounted(s: System, h: Mark) {
    exists m :: m in s.written && MarkAtMost(h, m)
  }

  ghost predicate WasWritten(s: System, k: PointerKey) {
    exists m :: m in s.written && KeyOf(m) == k
  }

  /** What holds of the store and its history. */
  ghost predicate Core(names: set<string>, s: System) {
    && (forall m {:trigger Covered(s, m)} | m in s.written :: Covered(s, m))
    && (forall k {:trigger WasWritten(s, k)} | k in s.pointers && k.state in names :: WasWritten(s, k))
    && (forall h {:trigger Accounted(s, h)} | h in s.handled :: Accounted(s, h))
  }

  /** Every pointer written is of a scanned state, for some event. */
  ghost predicate Origins(config: Config, events: iset<Event>, s: System) {
    forall m | m in s.written :: m.state in States(config.outcomes) && FromEvent(events, m)
  }

  ghost predicate InvocationsOk(config: Config, events: iset<Event>, s: System) {
    forall id | id in s.invocations :: InvocationOk(config, events, s, s.invocations[id])
  }

  ghost predicate Inv(config: Config, events: iset<Event>, s: System) {
    Core(Names(States(config.outcomes)), s) && Origins(config, events, s) && InvocationsOk(config, events, s)
  }

  ghost predicate Sound(config: Config, events: iset<Event>) {
    && NamesDetermine(States(config.outcomes))
    && (forall t | t in config.submitterStates :: t.name !in Names(States(config.outcomes)))
    && Scanned(config, events)
  }

  lemma RankIsOneOrTwo(config: Config, t: ProcessingState)
    requires t in States(config.outcomes)
    ensures t.Rank() == 2 || t == AWAITING
  {
    ScannedStates(config.outcomes, t);
  }

  /** Two marks of one entity, attempt and rank are one. */
  lemma SameRankSameState(config: Config, events: iset<Event>, m: Mark, n: Mark)
    requires OneOutcome(events) && m.state in States(config.outcomes) && n.state in States(config.outcomes)
    requires FromEvent(events, m) && FromEvent(events, n)
    requires m.entity == n.entity && m.attempt == n.attempt && m.state.Rank() == n.state.Rank()
    ensures m == n
  {
    RankIsOneOrTwo(config, m.state);
    RankIsOneOrTwo(config, n.state);
  }

  lemma InvocationMark(config: Config, events: iset<Event>, s: System, inv: Invocation)
    requires Sound(config, events) && InvocationOk(config, events, s, inv)
    ensures FromEvent(events, MarkOf(inv)) && MarkOf(inv).state in States(config.outcomes)
  {
    var contexts := inv.event.d.group.Contexts();
    assert contexts[inv.n].Entity() == MarkOf(inv).entity;
    assert inv.event.d.group.Covers(MarkOf(inv).entity);
  }

  /** A name determines the mark among those written. */
  lemma SameKeySameMark(config: Config, events: iset<Event>, s: System, m: Mark, n: Mark)
    requires Sound(config, events) && Origins(config, events, s)
    requires m in s.written && n.state in States(config.outcomes) && KeyOf(m) == KeyOf(n)
    ensures m == n
  {
  }

  /** A pointer present now under a scanned state's name is one that was written. */
  lemma PresentWasWritten(config: Config, events: iset<Event>, s: System, t: ProcessingState, e: Entity, a: nat)
    requires Sound(config, events) && Inv(config, events, s) && t in States(config.outcomes)
    requires PointerKey(t.name, e, a) in s.pointers
    ensures SeenState(s, e, a, t)
  {
    assert t.name in Names(States(config.outcomes));
    assert WasWritten(s, PointerKey(t.name, e, a));
    var m :| m in s.written && KeyOf(m) == PointerKey(t.name, e, a);
    SameKeySameMark(config, events, s, m, Mark(e, a, t));
  }

  /** More pointers written, none lost: what was remembered still holds. */
  lemma PcStaysOk(states: seq<ProcessingState>, s: System, s': System, m: Mark, pc: Pc)
    requires PcOk(states, s, m, pc) && s.written <= s'.written
    ensures PcOk(states, s', m, pc)
  {
  }

  // ---------- what an operation does to the store

  lemma CoreKept(names: set<string>, s: System, s': System)
    requires Core(names, s)
    requires s'.written == s.written && s'.handled == s.handled
    requires forall m | m in s.written :: KeyOf(m) in s.pointers ==> KeyOf(m) in s'.pointers
    requires forall k | k in s'.pointers && k.state in names :: k in s.pointers
    ensures Core(names, s')
  {
    forall m | m in s'.written ensures Covered(s', m) {
      assert Covered(s, m);
      var c :| c in s.written && KeyOf(c) in s.pointers && MarkAtMost(m, c);
      assert c in s'.written && KeyOf(c) in s'.pointers;
    }
    forall k | k in s'.pointers && k.state in names ensures WasWritten(s', k) {
      assert WasWritten(s, k);
      var m :| m in s.written && KeyOf(m) == k;
      assert m in s'.written;
    }
    forall h | h in s'.handled ensures Accounted(s', h) {
      assert Accounted(s, h);
      var m :| m in s.written && MarkAtMost(h, m);
      assert m in s'.written;
    }
  }

  lemma MarkReflexive(m: Mark)
    ensures MarkAtMost(m, m)
  {
  }

  lemma CorePut(names: set<string>, s: System, s': System, m: Mark)
    requires Core(names, s)
    requires s'.pointers == s.pointers + {KeyOf(m)} && s'.written == s.written + {m} && s'.handled == s.handled
    ensures Core(names, s')
  {
    hide MarkAtMost, KeyOf;
    forall w | w in s'.written ensures Covered(s', w) {
      if w in s.written {
        assert Covered(s, w);
        var c :| c in s.written && KeyOf(c) in s.pointers && MarkAtMost(w, c);
        assert c in s'.written && KeyOf(c) in s'.pointers;
      } else {
        MarkReflexive(m);
        assert m in s'.written && KeyOf(m) in s'.pointers && MarkAtMost(w, m);
      }
    }
    forall k | k in s'.pointers && k.state in names ensures WasWritten(s', k) {
      if k in s.pointers {
        assert WasWritten(s, k);
        var w :| w in s.written && KeyOf(w) == k;
        assert w in s'.written;
      } else {
        assert m in s'.written && KeyOf(m) == k;
      }
    }
    forall h | h in s'.handled ensures Accounted(s', h) {
      assert Accounted(s, h);
      var w :| w in s.written && MarkAtMost(h, w);
      assert w in s'.written;
    }
  }

  /** The crux: a pointer strictly below a written one may go, because something at or above the
      written one is there and is not it. */
  lemma StillCovered(s: System, s': System, gone: Mark, m: Mark, w: Mark)
    requires Covered(s, m) && Covered(s, w) && MarkBelow(gone, m)
    requires s'.written == s.written
    requires forall c | c in s.written && KeyOf(c) in s.pointers :: c == gone || KeyOf(c) in s'.pointers
    ensures Covered(s', w)
  {
    var top :| top in s.written && KeyOf(top) in s.pointers && MarkAtMost(m, top);
    var c :| c in s.written && KeyOf(c) in s.pointers && MarkAtMost(w, c);
    assert KeyOf(top) in s'.pointers;
    if c == gone {
      assert MarkAtMost(w, top);
    } else {
      assert KeyOf(c) in s'.pointers;
    }
  }

  lemma CoreRemove(names: set<string>, s: System, s': System, gone: Mark, m: Mark)
    requires Core(names, s)
    requires m in s.written && MarkBelow(gone, m)
    requires s'.pointers <= s.pointers && s'.written == s.written && s'.handled == s.handled
    requires forall c | c in s.written && KeyOf(c) in s.pointers :: c == gone || KeyOf(c) in s'.pointers
    ensures Core(names, s')
  {
    assert Covered(s, m);
    forall w | w in s'.written ensures Covered(s', w) {
      assert Covered(s, w);
      StillCovered(s, s', gone, m, w);
    }
    forall k | k in s'.pointers && k.state in names ensures WasWritten(s', k) {
      assert WasWritten(s, k);
    }
    forall h | h in s'.handled ensures Accounted(s', h) {
      assert Accounted(s, h);
    }
  }

  lemma CoreHandled(names: set<string>, s: System, s': System, m: Mark)
    requires Core(names, s) && Accounted(s, m)
    requires s'.pointers == s.pointers && s'.written == s.written && s'.handled == s.handled + {m}
    ensures Core(names, s')
  {
    CoreKept(names, s, s'.(handled := s.handled));
    forall h | h in s'.handled ensures Accounted(s', h) {
      assert Accounted(s, h);
      var w :| w in s.written && MarkAtMost(h, w);
      assert w in s'.written;
    }
    assert forall w | w in s'.written :: Covered(s'.(handled := s.handled), w) ==> Covered(s', w);
    assert forall k :: WasWritten(s'.(handled := s.handled), k) ==> WasWritten(s', k);
  }

  /** The other invocations are unaffected, and this one goes on soundly or ends. */
  lemma OthersStayOk(config: Config, events: iset<Event>, s: System, s': System, id: nat)
    requires InvocationsOk(config, events, s) && s.written <= s'.written
    requires forall j | j in s'.invocations && j != id :: j in s.invocations && s'.invocations[j] == s.invocations[j]
    requires id in s'.invocations ==> InvocationOk(config, events, s', s'.invocations[id])
    ensures InvocationsOk(config, events, s')
  {
    forall j | j in s'.invocations ensures InvocationOk(config, events, s', s'.invocations[j]) {
      if j != id {
        PcStaysOk(States(config.outcomes), s, s', MarkOf(s.invocations[j]), s.invocations[j].pc);
      }
    }
  }

  /** `s` is `before` with its store already changed by the operation. */
  ghost predicate Operated(config: Config, events: iset<Event>, before: System, s: System, id: nat) {
    && Inv(config, events, before)
    && Core(Names(States(config.outcomes)), s) && Origins(config, events, s)
    && before.written <= s.written && before.invocations == s.invocations
    && id in s.invocations && s.invocations[id].n < |s.invocations[id].event.d.group.Contexts()|
  }

  lemma FinishKeepsInv(config: Config, events: iset<Event>, before: System, s: System, id: nat)
    requires Operated(config, events, before, s, id) && Accounted(s, MarkOf(s.invocations[id]))
    ensures Inv(config, events, Finish(s, id, s.invocations[id]))
  {
    var inv := s.invocations[id];
    var s' := Finish(s, id, inv);
    CoreHandled(Names(States(config.outcomes)), s, s', MarkOf(inv));
    assert InvocationOk(config, events, before, inv);
    OthersStayOk(config, events, before, s', id);
  }

  lemma GoToKeepsInv(config: Config, events: iset<Event>, before: System, s: System, id: nat, pc: Pc)
    requires Operated(config, events, before, s, id)
    requires InvocationOk(config, events, s, s.invocations[id].(pc := pc))
    ensures Inv(config, events, GoTo(s, id, s.invocations[id], pc))
  {
    var s' := GoTo(s, id, s.invocations[id], pc);
    CoreKept(Names(States(config.outcomes)), s, s');
    PcStaysOk(States(config.outcomes), s, s', MarkOf(s.invocations[id]), pc);
    OthersStayOk(config, events, before, s', id);
  }

  // ---------- each operation keeps the invariant

  ghost predicate Ready(config: Config, events: iset<Event>, s: System, id: nat) {
    && Sound(config, events) && Inv(config, events, s)
    && id in s.invocations && s.invocations[id].n < |s.invocations[id].event.d.group.Contexts()|
  }

  lemma {:induction false} BestRankedIsOne(found: seq<ProcessingState>)
    ensures found != [] ==> BestRanked(found).Some? && BestRanked(found).value in found
  {
    if found != [] {
      BestRankedIsOne(found[..|found| - 1]);
    }
  }

  /** Reading only ever remembers what was written. */
  lemma ReadOk(states: seq<ProcessingState>, s: System, m: Mark, context: JobContext, pc: Pc, pick: PointerKey)
    requires context.Entity() == m.entity && context.attempt == m.attempt
    requires forall t, a: nat | t in states && PointerKey(t.name, m.entity, a) in s.pointers :: SeenState(s, m.entity, a, t)
    requires Reading(pc) && PcOk(states, s, m, pc)
    requires pc.Gets? && pc.pending != {} ==> pick in pc.pending
    ensures PcOk(states, s, m, Read(s.pointers, states, context, pc, pick))
  {
    match pc
    case Heads(i, found) =>
      if i >= |states| && found != [] {
        BestRankedIsOne(found);
      }
    case Lists(i, hits) =>
      if i >= |states| {
        FromHitsIsSeen(s, m, hits);
      }
    case Gets(i, pending, hits) =>
      if pending != {} && i < |states| {
        assert pick == PointerKey(states[i].name, m.entity, pick.attempt);
      }
  }

  lemma FromHitsIsSeen(s: System, m: Mark, hits: seq<(ProcessingState, nat)>)
    requires forall h | h in hits :: SeenState(s, m.entity, h.1, h.0)
    ensures SeenPrevious(s, m, FromHits(hits, m.attempt))
  {
    if hits != [] {
      var h := hits[BestHit(hits)];
      assert h in hits && Mark(m.entity, h.1, h.0) in s.written;
    }
  }

  lemma ReadStep(config: Config, events: iset<Event>, s: System, id: nat, pick: PointerKey)
    requires Ready(config, events, s, id) && Reading(s.invocations[id].pc)
    requires var pc := s.invocations[id].pc; pc.Gets? && pc.pending != {} ==> pick in pc.pending
    ensures Inv(config, events,
              GoTo(s, id, s.invocations[id],
                Read(s.pointers, States(config.outcomes), ContextOf(s.invocations[id]), s.invocations[id].pc, pick)))
  {
    var inv := s.invocations[id];
    var m := MarkOf(inv);
    assert InvocationOk(config, events, s, inv);
    forall t, a: nat | t in States(config.outcomes) && PointerKey(t.name, m.entity, a) in s.pointers
      ensures SeenState(s, m.entity, a, t)
    {
      PresentWasWritten(config, events, s, t, m.entity, a);
    }
    ReadOk(States(config.outcomes), s, m, ContextOf(inv), inv.pc, pick);
    GoToKeepsInv(config, events, s, s, id, Read(s.pointers, States(config.outcomes), ContextOf(inv), inv.pc, pick));
  }

  /** An event that changes nothing is accounted for by what was seen. */
  lemma SkippedIsAccounted(s: System, m: Mark, p: Previous)
    requires SeenPrevious(s, m, p)
    requires !IsFresh(p, m.state, m.attempt) || IsUnchanged(p, m.state, m.attempt)
    ensures Accounted(s, m)
  {
    if p.stale {
      var w :| w in s.written && w.entity == m.entity && w.attempt > m.attempt;
      assert MarkAtMost(m, w);
    } else {
      assert MarkAtMost(m, Mark(m.entity, p.attempt, p.state.value));
    }
  }

  lemma AppendStep(config: Config, events: iset<Event>, s: System, id: nat)
    requires Ready(config, events, s, id) && s.invocations[id].pc.AppendRecord?
    ensures Inv(config, events, GoTo(s, id, s.invocations[id], Sweep(0, s.invocations[id].pc.previous)))
  {
    assert InvocationOk(config, events, s, s.invocations[id]);
    GoToKeepsInv(config, events, s, s, id, Sweep(0, s.invocations[id].pc.previous));
  }

  lemma SweptCore(config: Config, events: iset<Event>, s: System, s': System, key: PointerKey)
    requires Sound(config, events) && Inv(config, events, s) && key.state !in Names(States(config.outcomes))
    requires s' == s.(pointers := s'.pointers)
    requires s'.pointers == s.pointers || s'.pointers == s.pointers - {key} || s'.pointers == s.pointers + {key}
    ensures Core(Names(States(config.outcomes)), s')
  {
    forall w | w in s.written ensures KeyOf(w) != key {
      assert w.state.name in Names(States(config.outcomes));
    }
    CoreKept(Names(States(config.outcomes)), s, s');
  }

  lemma DecideStep(config: Config, events: iset<Event>, s: System, id: nat)
    requires Ready(config, events, s, id) && s.invocations[id].pc.Sweep?
    ensures Inv(config, events, Decide(s, id, s.invocations[id]))
  {
    var inv := s.invocations[id];
    var m, p := MarkOf(inv), inv.pc.previous;
    assert InvocationOk(config, events, s, inv);
    if !IsFresh(p, m.state, m.attempt) || IsUnchanged(p, m.state, m.attempt) {
      SkippedIsAccounted(s, m, p);
      FinishKeepsInv(config, events, s, s, id);
    } else {
      GoToKeepsInv(config, events, s, s, id, Put(p));
    }
  }

  lemma SweepStep(config: Config, events: iset<Event>, s: System, swept: System, id: nat, key: PointerKey)
    requires Ready(config, events, s, id) && s.invocations[id].pc.Sweep?
    requires key.state !in Names(States(config.outcomes)) && swept == s.(pointers := swept.pointers)
    requires swept.pointers == s.pointers || swept.pointers == s.pointers - {key}
    ensures Inv(config, events,
              GoTo(swept, id, s.invocations[id], Sweep(s.invocations[id].pc.k + 1, s.invocations[id].pc.previous)))
  {
    hide PcOk, Core, KeyOf, SeenPrevious, Sound, MarkOf, FromEvent;
    var inv := s.invocations[id];
    SweptCore(config, events, s, swept, key);
    SweepGoesOn(config, events, s, swept, inv);
    GoToKeepsInv(config, events, s, swept, id, Sweep(inv.pc.k + 1, inv.pc.previous));
  }

  lemma SweepGoesOn(config: Config, events: iset<Event>, s: System, swept: System, inv: Invocation)
    requires InvocationOk(config, events, s, inv) && inv.pc.Sweep? && swept.written == s.written
    ensures InvocationOk(config, events, swept, inv.(pc := Sweep(inv.pc.k + 1, inv.pc.previous)))
  {
    var next := inv.(pc := Sweep(inv.pc.k + 1, inv.pc.previous));
    assert MarkOf(next) == MarkOf(inv);
    assert SeenPrevious(swept, MarkOf(inv), inv.pc.previous);
  }

  lemma PutStep(config: Config, events: iset<Event>, s: System, id: nat)
    requires Ready(config, events, s, id) && OneOutcome(events) && s.invocations[id].pc.Put?
    ensures Inv(config, events, AdvancePut(s, id, s.invocations[id]))
  {
    var inv := s.invocations[id];
    var m, p := MarkOf(inv), inv.pc.previous;
    assert InvocationOk(config, events, s, inv);
    InvocationMark(config, events, s, inv);
    var put := s.(pointers := s.pointers + {KeyOf(m)}, written := s.written + {m});
    CorePut(Names(States(config.outcomes)), s, put, m);
    if p.state.None? {
      assert m in put.written && MarkAtMost(m, m);
      FinishKeepsInv(config, events, s, put, id);
    } else {
      var seen := Mark(m.entity, p.attempt, p.state.value);
      assert seen in s.written;
      if p.attempt == m.attempt && p.state.value.Rank() == m.state.Rank() {
        SameRankSameState(config, events, seen, m);
      }
      assert MarkBelow(seen, m);
      assert PcOk(States(config.outcomes), put, m, Remove(p));
      GoToKeepsInv(config, events, s, put, id, Remove(p));
    }
  }

  lemma RemoveStep(config: Config, events: iset<Event>, s: System, id: nat, fails: bool)
    requires Ready(config, events, s, id) && s.invocations[id].pc.Remove?
    ensures Inv(config, events, AdvanceRemove(s, id, s.invocations[id], fails))
  {
    var inv := s.invocations[id];
    var m, p := MarkOf(inv), inv.pc.previous;
    assert InvocationOk(config, events, s, inv);
    assert m in s.written && MarkAtMost(m, m);
    if fails || p.state.None? {
      FinishKeepsInv(config, events, s, s, id);
    } else {
      var gone := Mark(m.entity, p.attempt, p.state.value);
      var left := s.(pointers := s.pointers - {KeyOf(gone)});
      forall c | c in s.written && KeyOf(c) in s.pointers ensures c == gone || KeyOf(c) in left.pointers {
        if KeyOf(c) == KeyOf(gone) {
          SameKeySameMark(config, events, s, c, gone);
        }
      }
      CoreRemove(Names(States(config.outcomes)), s, left, gone, m);
      FinishKeepsInv(config, events, s, left, id);
    }
  }

  /** A claim or release of the submitter's leaves every fact about the monitor's pointers. */
  lemma SubmitterStep(config: Config, events: iset<Event>, s: System, action: Action)
    requires Sound(config, events) && Inv(config, events, s) && Can(config, events, s, action)
    requires action.SubmitterPut? || action.SubmitterDelete?
    ensures Inv(config, events, Do(config, events, s, action))
  {
    var s' := Do(config, events, s, action);
    SweptCore(config, events, s, s', action.key);
    forall id | id in s'.invocations ensures InvocationOk(config, events, s', s'.invocations[id]) {
      assert InvocationOk(config, events, s, s.invocations[id]);
      PcStaysOk(States(config.outcomes), s, s', MarkOf(s.invocations[id]), s.invocations[id].pc);
    }
  }

  lemma SpawnOrCrash(config: Config, events: iset<Event>, s: System, action: Action)
    requires Sound(config, events) && Inv(config, events, s) && Can(config, events, s, action)
    requires action.Spawn? || action.Crash?
    ensures Inv(config, events, Do(config, events, s, action))
  {
    var s' := Do(config, events, s, action);
    CoreKept(Names(States(config.outcomes)), s, s');
    OthersStayOk(config, events, s, s', action.id);
  }

  lemma AdvanceSweeps(config: Config, s: System, id: nat, pick: PointerKey, fails: bool)
    requires id in s.invocations && s.invocations[id].n < |s.invocations[id].event.d.group.Contexts()|
    requires s.invocations[id].pc.Sweep? && s.invocations[id].pc.k < |config.submitterStates|
    ensures var inv := s.invocations[id];
            Advance(config, s, id, pick, fails)
            == GoTo(Swept(s, PointerKeyOf(config.submitterStates[inv.pc.k], ContextOf(inv)), fails), id, inv,
                 Sweep(inv.pc.k + 1, inv.pc.previous))
  {
  }

  lemma AdvanceDecides(config: Config, s: System, id: nat, pick: PointerKey, fails: bool)
    requires id in s.invocations && s.invocations[id].n < |s.invocations[id].event.d.group.Contexts()|
    requires s.invocations[id].pc.Sweep? && s.invocations[id].pc.k >= |config.submitterStates|
    ensures Advance(config, s, id, pick, fails) == Decide(s, id, s.invocations[id])
  {
  }

  lemma SweepingKeepsInv(config: Config, events: iset<Event>, s: System, id: nat, pick: PointerKey, fails: bool)
    requires Ready(config, events, s, id) && s.invocations[id].pc.Sweep?
    ensures Inv(config, events, Advance(config, s, id, pick, fails))
  {
    var inv := s.invocations[id];
    if inv.pc.k < |config.submitterStates| {
      assert config.submitterStates[inv.pc.k] in config.submitterStates;
      var key := PointerKeyOf(config.submitterStates[inv.pc.k], ContextOf(inv));
      var swept := Swept(s, key, fails);
      AdvanceSweeps(config, s, id, pick, fails);
      SweepStep(config, events, s, swept, id, key);
    } else {
      AdvanceDecides(config, s, id, pick, fails);
      DecideStep(config, events, s, id);
    }
  }

  lemma AdvanceKeepsInv(config: Config, events: iset<Event>, s: System, id: nat, pick: PointerKey, fails: bool)
    requires Ready(config, events, s, id) && OneOutcome(events)
    requires var pc := s.invocations[id].pc; pc.Gets? && pc.pending != {} ==> pick in pc.pending
    ensures Inv(config, events, Advance(config, s, id, pick, fails))
  {
    var inv := s.invocations[id];
    match inv.pc
    case Sweep(_, _) => SweepingKeepsInv(config, events, s, id, pick, fails);
    case AppendRecord(_) => AppendStep(config, events, s, id);
    case Put(_) => PutStep(config, events, s, id);
    case Remove(_) => RemoveStep(config, events, s, id, fails);
    case _ => ReadStep(config, events, s, id, pick);
  }

  lemma DoKeepsInv(config: Config, events: iset<Event>, s: System, action: Action)
    requires Sound(config, events) && OneOutcome(events)
    requires Inv(config, events, s) && Can(config, events, s, action)
    ensures Inv(config, events, Do(config, events, s, action))
  {
    match action
    case Step(id, pick, fails) => AdvanceKeepsInv(config, events, s, id, pick, fails);
    case Spawn(_, _) => SpawnOrCrash(config, events, s, action);
    case Crash(_) => SpawnOrCrash(config, events, s, action);
    case SubmitterPut(_) => SubmitterStep(config, events, s, action);
    case SubmitterDelete(_) => SubmitterStep(config, events, s, action);
  }

  // ---------- safety

  lemma {:induction false} DoAllKeepsInv(config: Config, events: iset<Event>, s: System, actions: seq<Action>)
    requires Sound(config, events) && OneOutcome(events)
    requires Inv(config, events, s) && CanAll(config, events, s, actions)
    ensures Inv(config, events, DoAll(config, events, s, actions))
    decreases |actions|
  {
    if actions != [] {
      DoKeepsInv(config, events, s, actions[0]);
      DoAllKeepsInv(config, events, Do(config, events, s, actions[0]), actions[1..]);
    }
  }

  /** When no entity has two outcomes at one attempt, no interleaving, crash or failed delete
      loses an event: its entity keeps a pointer at or above everything any invocation finished. */
  lemma OneOutcomeIsSafe(config: Config, events: iset<Event>)
    requires Sound(config, events) && OneOutcome(events)
    ensures Safe(config, events)
  {
    forall s | Reaches(config, events, START, s) ensures AllKept(config, s) {
      ReachableKeepsInv(config, events, s);
      InvMeansKept(config, events, s);
    }
  }

  lemma ReachableKeepsInv(config: Config, events: iset<Event>, s: System)
    requires Sound(config, events) && OneOutcome(events) && Reaches(config, events, START, s)
    ensures Inv(config, events, s)
  {
    var actions :| CanAll(config, events, START, actions) && DoAll(config, events, START, actions) == s;
    DoAllKeepsInv(config, events, START, actions);
  }

  lemma InvMeansKept(config: Config, events: iset<Event>, s: System)
    requires Inv(config, events, s)
    ensures AllKept(config, s)
  {
    forall h | h in s.handled ensures Kept(s.pointers, States(config.outcomes), h) {
      assert Accounted(s, h);
      var m :| m in s.written && MarkAtMost(h, m);
      assert Covered(s, m);
      var c :| c in s.written && KeyOf(c) in s.pointers && MarkAtMost(m, c);
      assert PointerKey(c.state.name, h.entity, c.attempt) in s.pointers;
    }
  }

  /** The pointer with an entity's greatest (attempt, rank) survives every operation, whoever
      performs it. */
  lemma GreatestIsNeverDeleted(config: Config, events: iset<Event>, s: System, action: Action, t: ProcessingState, e: Entity, a: nat)
    requires Sound(config, events) && OneOutcome(events)
    requires Reaches(config, events, START, s) && Can(config, events, s, action)
    requires t in States(config.outcomes) && PointerKey(t.name, e, a) in s.pointers
    requires forall u, b: nat | u in States(config.outcomes) && PointerKey(u.name, e, b) in s.pointers :: AtMost(b, u, a, t)
    ensures PointerKey(t.name, e, a) in Do(config, events, s, action).pointers
  {
    var key := PointerKey(t.name, e, a);
    ReachableKeepsInv(config, events, s);
    assert t.name in Names(States(config.outcomes));
    if action.Step? {
      var inv := s.invocations[action.id];
      AdvanceDeletes(config, s, action.id, action.pick, action.fails, key);
      assert InvocationOk(config, events, s, inv);
      if inv.pc.Remove? && inv.pc.previous.state.Some? {
        var p := inv.pc.previous;
        RemovedIsBelow(config, events, s, MarkOf(inv), Mark(MarkOf(inv).entity, p.attempt, p.state.value), t, e, a);
      }
    }
  }

  /** What one operation can delete. */
  lemma AdvanceDeletes(config: Config, s: System, id: nat, pick: PointerKey, fails: bool, k: PointerKey)
    requires id in s.invocations && s.invocations[id].n < |s.invocations[id].event.d.group.Contexts()|
    ensures k in s.pointers && k !in Advance(config, s, id, pick, fails).pointers ==>
              var pc, m := s.invocations[id].pc, MarkOf(s.invocations[id]);
              || (pc.Sweep? && exists t | t in config.submitterStates :: t.name == k.state)
              || (pc.Remove? && pc.previous.state.Some?
                  && k == KeyOf(Mark(m.entity, pc.previous.attempt, pc.previous.state.value)))
  {
    var inv := s.invocations[id];
    if inv.pc.Sweep? && inv.pc.k < |config.submitterStates| {
      assert config.submitterStates[inv.pc.k] in config.submitterStates;
    }
  }

  lemma RemovedIsBelow(
    config: Config, events: iset<Event>, s: System, m: Mark, gone: Mark, t: ProcessingState, e: Entity, a: nat)
    requires Sound(config, events) && Inv(config, events, s)
    requires m in s.written && gone in s.written && MarkBelow(gone, m)
    requires t in States(config.outcomes)
    requires forall u, b: nat | u in States(config.outcomes) && PointerKey(u.name, e, b) in s.pointers :: AtMost(b, u, a, t)
    ensures KeyOf(gone) != PointerKey(t.name, e, a)
  {
    assert Covered(s, m);
    var c :| c in s.written && KeyOf(c) in s.pointers && MarkAtMost(m, c);
    if m.entity == e {
      assert AtMost(c.attempt, c.state, a, t);
      if KeyOf(gone) == PointerKey(t.name, e, a) {
        SameKeySameMark(config, events, s, gone, Mark(e, a, t));
      }
    }
  }
}
