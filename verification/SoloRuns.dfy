/** The interleaved machine against the sequential model: an invocation that nobody interrupts does
    exactly what the sequential model says, so every sequential run is one of its executions. */
module SoloRuns {
  import opened Models
  import opened LogStore
  import opened Monitor
  import opened MonitorRuns
  import opened Interleaving

  // ---------- reachability

  lemma {:induction false} DoAllConcat(config: Config, events: iset<Event>, s: System, before: seq<Action>, after: seq<Action>)
    requires CanAll(config, events, s, before) && CanAll(config, events, DoAll(config, events, s, before), after)
    ensures CanAll(config, events, s, before + after)
    ensures DoAll(config, events, s, before + after) == DoAll(config, events, DoAll(config, events, s, before), after)
    decreases |before|
  {
    if before == [] {
      assert before + after == after;
    } else {
      var next := Do(config, events, s, before[0]);
      DoAllConcat(config, events, next, before[1..], after);
      assert (before + after)[1..] == before[1..] + after && (before + after)[0] == before[0];
    }
  }

  lemma ReachesOn(config: Config, events: iset<Event>, s: System, t: System, u: System)
    requires Reaches(config, events, s, t) && Reaches(config, events, t, u)
    ensures Reaches(config, events, s, u)
  {
    var before :| CanAll(config, events, s, before) && DoAll(config, events, s, before) == t;
    var after :| CanAll(config, events, t, after) && DoAll(config, events, t, after) == u;
    DoAllConcat(config, events, s, before, after);
  }

  lemma ReachesSelf(config: Config, events: iset<Event>, s: System)
    ensures Reaches(config, events, s, s)
  {
    assert CanAll(config, events, s, []) && DoAll(config, events, s, []) == s;
  }

  lemma ReachesNext(config: Config, events: iset<Event>, s: System, action: Action)
    requires Can(config, events, s, action)
    ensures Reaches(config, events, s, Do(config, events, s, action))
  {
    var t := Do(config, events, s, action);
    assert [action][1..] == [] && CanAll(config, events, t, []);
    assert CanAll(config, events, s, [action]) && DoAll(config, events, s, [action]) == DoAll(config, events, t, []);
  }

  /** What the HEADs have found so far is what the sequential lookup finds among as many states. */
  lemma OneHeadMore(
    keys: set<PointerKey>, states: seq<ProcessingState>, e: Entity, a: nat, i: nat, found: seq<ProcessingState>)
    requires i < |states| && BestRanked(found) == FindState(keys, states[..i], e, a)
    ensures BestRanked(if PointerKey(states[i].name, e, a) in keys then found + [states[i]] else found)
         == FindState(keys, states[..i + 1], e, a)
  {
    assert states[..i + 1][..i] == states[..i];
    assert (found + [states[i]])[..|found|] == found;
  }

  const ANY_KEY := PointerKey("", EntityOf("", [], ""), 0)

  // ---------- reading alone

  /** An invocation of a running system, and the lookups it is to make. */
  datatype Reader = Reader(config: Config, events: iset<Event>, s: System, id: nat, inv: Invocation) {
    ghost predicate Valid() {
      id in s.invocations && inv.n < |inv.event.d.group.Contexts()|
    }

    function States(): seq<ProcessingState> {
      Models.States(config.outcomes)
    }

    function Context(): JobContext
      requires inv.n < |inv.event.d.group.Contexts()|
    {
      ContextOf(inv)
    }

    ghost predicate Walks(before: Pc, after: Pc) {
      Reaches(config, events, GoTo(s, id, inv, before), GoTo(s, id, inv, after))
    }

    lemma WalksSelf(pc: Pc)
      ensures Walks(pc, pc)
    {
      ReachesSelf(config, events, GoTo(s, id, inv, pc));
    }

    lemma WalksOn(a: Pc, b: Pc, c: Pc)
      requires Walks(a, b) && Walks(b, c)
      ensures Walks(a, c)
    {
      ReachesOn(config, events, GoTo(s, id, inv, a), GoTo(s, id, inv, b), GoTo(s, id, inv, c));
    }

    /** Uninterrupted, a read takes the invocation from one place to the next. */
    lemma ReadAlone(pc: Pc, pick: PointerKey)
      requires Valid() && Reading(pc) && (pc.Gets? && pc.pending != {} ==> pick in pc.pending)
      ensures Walks(pc, Read(s.pointers, States(), Context(), pc, pick))
    {
      var at := GoTo(s, id, inv, pc);
      ReachesNext(config, events, at, Step(id, pick, false));
      var next := Read(s.pointers, States(), Context(), pc, pick);
      assert at.invocations[id := inv.(pc := pc).(pc := next)] == s.invocations[id := inv.(pc := next)];
    }

    ghost predicate HeadsDone(i: nat, found: seq<ProcessingState>)
      requires Valid()
    {
      && i <= |States()|
      && BestRanked(found) == FindState(s.pointers, States()[..i], Context().Entity(), Context().attempt)
    }

    function Found(i: nat, found: seq<ProcessingState>): seq<ProcessingState>
      requires inv.n < |inv.event.d.group.Contexts()| && i < |States()|
    {
      if PointerKeyOf(States()[i], Context()) in s.pointers then found + [States()[i]] else found
    }

    lemma HeadAlone(i: nat, found: seq<ProcessingState>)
      requires Valid() && i < |States()|
      ensures Walks(Heads(i, found), Heads(i + 1, Found(i, found)))
    {
      hide Reaches;
      ReadAlone(Heads(i, found), ANY_KEY);
    }

    lemma HeadsOneMore(i: nat, found: seq<ProcessingState>)
      requires Valid() && i < |States()| && HeadsDone(i, found)
      ensures HeadsDone(i + 1, Found(i, found))
    {
      hide FindState, BestRanked;
      OneHeadMore(s.pointers, States(), Context().Entity(), Context().attempt, i, found);
    }

    lemma HeadsAlone(i: nat, found: seq<ProcessingState>) returns (all: seq<ProcessingState>)
      requires Valid() && HeadsDone(i, found)
      ensures Walks(Heads(i, found), Heads(|States()|, all)) && HeadsDone(|States()|, all)
      decreases |States()| - i
    {
      if i == |States()| {
        WalksSelf(Heads(i, found));
        all := found;
      } else {
        HeadAlone(i, found);
        HeadsOneMore(i, found);
        all := HeadsAlone(i + 1, Found(i, found));
        WalksOn(Heads(i, found), Heads(i + 1, Found(i, found)), Heads(|States()|, all));
      }
    }

    lemma GetsAlone(i: nat, pending: set<PointerKey>, hits: seq<(ProcessingState, nat)>)
      returns (listing: seq<PointerKey>, all: seq<(ProcessingState, nat)>)
      requires Valid() && i < |States()| && pending <= s.pointers
      ensures Walks(Gets(i, pending, hits), Gets(i, {}, all))
      ensures forall k :: k in listing <==> k in pending
      ensures |all| == |hits| + |listing| && all[..|hits|] == hits
      ensures forall p | 0 <= p < |listing| :: all[|hits| + p] == (States()[i], listing[p].attempt)
      decreases |pending|
    {
      if pending == {} {
        WalksSelf(Gets(i, {}, hits));
        listing, all := [], hits;
      } else {
        var pick :| pick in pending;
        var next := hits + [(States()[i], pick.attempt)];
        ReadAlone(Gets(i, pending, hits), pick);
        var rest, every := GetsAlone(i, pending - {pick}, next);
        listing, all := [pick] + rest, every;
        assert every[..|next|][..|hits|] == every[..|hits|];
        assert forall p | 1 <= p < |listing| :: listing[p] == rest[p - 1];
        WalksOn(Gets(i, pending, hits), Gets(i, pending - {pick}, next), Gets(i, {}, all));
      }
    }

    ghost predicate ListsDone(i: nat, hits: seq<(ProcessingState, nat)>, origin: seq<nat>)
      requires Valid()
    {
      i <= |States()| && Collected(s.pointers, States()[..i], Context().Entity(), hits, origin)
    }

    lemma ListAlone(i: nat, hits: seq<(ProcessingState, nat)>, origin: seq<nat>)
      returns (next: seq<(ProcessingState, nat)>, origin': seq<nat>)
      requires Valid() && i < |States()| && ListsDone(i, hits, origin)
      ensures Walks(Lists(i, hits), Lists(i + 1, next)) && ListsDone(i + 1, next, origin')
    {
      var states, e := States(), Context().Entity();
      var pending := set k | k in s.pointers && k.state == states[i].name && k.entity == e;
      ReadAlone(Lists(i, hits), ANY_KEY);
      var listing, all := GetsAlone(i, pending, hits);
      ReadAlone(Gets(i, {}, all), ANY_KEY);
      WalksOn(Lists(i, hits), Gets(i, pending, hits), Gets(i, {}, all));
      WalksOn(Lists(i, hits), Gets(i, {}, all), Lists(i + 1, all));
      next, origin' := all, origin + seq(|listing|, _ => i);
      assert forall p | |hits| <= p < |all| :: all[p] == all[|hits| + (p - |hits|)];
      CollectedOneMore(s.pointers, states, i, e, hits, origin, all, origin', listing);
    }

    lemma ListsAlone(i: nat, hits: seq<(ProcessingState, nat)>, origin: seq<nat>)
      returns (all: seq<(ProcessingState, nat)>, origins: seq<nat>)
      requires Valid() && ListsDone(i, hits, origin)
      ensures Walks(Lists(i, hits), Lists(|States()|, all)) && ListsDone(|States()|, all, origins)
      decreases |States()| - i
    {
      if i == |States()| {
        WalksSelf(Lists(i, hits));
        all, origins := hits, origin;
      } else {
        var next, origin' := ListAlone(i, hits, origin);
        all, origins := ListsAlone(i + 1, next, origin');
        WalksOn(Lists(i, hits), Lists(i + 1, next), Lists(|States()|, all));
      }
    }

    ghost function Previously(): Previous
      requires Valid()
    {
      PreviousOf(s.pointers, States(), Context())
    }

    /** Uninterrupted, the lookups come to what the sequential model reads. */
    lemma LookupAlone()
      requires Valid()
      ensures Walks(Heads(0, []), AppendRecord(Previously()))
    {
      var n := |States()|;
      assert States()[..n] == States() && States()[..0] == [];
      var found := HeadsAlone(0, []);
      BestRankedIsOne(found);
      ReadAlone(Heads(n, found), ANY_KEY);
      if found != [] {
        WalksOn(Heads(0, []), Heads(n, found), AppendRecord(Previously()));
      } else {
        WalksOn(Heads(0, []), Heads(n, []), Lists(0, []));
        var hits, origins := ListsAlone(0, [], []);
        WalksOn(Heads(0, []), Lists(0, []), Lists(n, hits));
        ReadAlone(Lists(n, hits), ANY_KEY);
        BestHitIsActive(s.pointers, States(), Context().Entity(), hits, origins);
        assert FromHits(hits, Context().attempt) == Previously();
        WalksOn(Heads(0, []), Lists(n, hits), AppendRecord(Previously()));
      }
    }

    // ---------- writing alone

    function With(pointers: set<PointerKey>): System {
      s.(pointers := pointers)
    }

    lemma SweepsAlone(pointers: Pointers, p: Previous, k: nat, i: nat, faults: Faults)
      requires Valid() && s.pointers == pointers.Keys && k <= |config.submitterStates|
      ensures Reaches(config, events, GoTo(s, id, inv, Sweep(0, p)),
                GoTo(With(DropSubmitters(pointers, Context(), config.submitterStates[..k], i, faults).Keys), id, inv, Sweep(k, p)))
    {
      if k == 0 {
        ReachesSelf(config, events, GoTo(s, id, inv, Sweep(0, p)));
      } else {
        SweepsAlone(pointers, p, k - 1, i, faults);
        var states := config.submitterStates;
        var before := DropSubmitters(pointers, Context(), states[..k - 1], i, faults);
        var at, action := GoTo(With(before.Keys), id, inv, Sweep(k - 1, p)), Step(id, ANY_KEY, (i, k - 1) in faults.submitter);
        assert states[..k][..k - 1] == states[..k - 1] && states[..k][k - 1] == states[k - 1];
        var after := DropSubmitters(pointers, Context(), states[..k], i, faults);
        var key := PointerKeyOf(states[k - 1], Context());
        assert (before - {key}).Keys == before.Keys - {key};
        ReachesNext(config, events, at, action);
        var there := GoTo(With(after.Keys), id, inv, Sweep(k, p));
        assert at.invocations[id := inv.(pc := Sweep(k - 1, p)).(pc := Sweep(k, p))] == there.invocations;
        assert Do(config, events, at, action) == there;
        ReachesOn(config, events, GoTo(s, id, inv, Sweep(0, p)), at, there);
      }
    }

    ghost function SweptKeys(pointers: Pointers, i: nat, faults: Faults): set<PointerKey>
      requires Valid()
    {
      DropSubmitters(pointers, Context(), config.submitterStates, i, faults).Keys
    }

    /** The lookups, the record and the sweep. */
    lemma ToTheDecision(pointers: Pointers, i: nat, faults: Faults)
      requires Valid() && s.pointers == pointers.Keys
      ensures Reaches(config, events, GoTo(s, id, inv, Heads(0, [])),
                GoTo(With(SweptKeys(pointers, i, faults)), id, inv, Sweep(|config.submitterStates|, Previously())))
    {
      var p, n := Previously(), |config.submitterStates|;
      LookupAlone();
      var looked := GoTo(s, id, inv, AppendRecord(p));
      var recorded := GoTo(s, id, inv, Sweep(0, p));
      ReachesNext(config, events, looked, Step(id, ANY_KEY, false));
      assert looked.invocations[id := inv.(pc := AppendRecord(p)).(pc := Sweep(0, p))] == recorded.invocations;
      ReachesOn(config, events, GoTo(s, id, inv, Heads(0, [])), looked, recorded);
      assert config.submitterStates[..n] == config.submitterStates;
      SweepsAlone(pointers, p, n, i, faults);
      ReachesOn(config, events, GoTo(s, id, inv, Heads(0, [])), recorded,
        GoTo(With(SweptKeys(pointers, i, faults)), id, inv, Sweep(n, p)));
    }

    ghost predicate Writes()
      requires Valid()
    {
      IsFresh(Previously(), inv.event.state, Context().attempt) && !IsUnchanged(Previously(), inv.event.state, Context().attempt)
    }

    /** The write itself, up to the delete of the old pointer. */
    lemma ToTheWrite(pointers: Pointers, i: nat, faults: Faults) returns (t: System)
      requires Valid() && s.pointers == pointers.Keys && Writes()
      ensures t.pointers == SweptKeys(pointers, i, faults) + {KeyOf(MarkOf(inv))}
      ensures t.handled == s.handled && t.written == s.written + {MarkOf(inv)} && t.invocations == s.invocations
      ensures Reaches(config, events, GoTo(s, id, inv, Heads(0, [])),
                if Previously().state.None? then Finish(t, id, inv) else GoTo(t, id, inv, Remove(Previously())))
    {
      var p, swept := Previously(), With(SweptKeys(pointers, i, faults));
      ToTheDecision(pointers, i, faults);
      var decision := GoTo(swept, id, inv, Sweep(|config.submitterStates|, p));
      var write := GoTo(swept, id, inv, Put(p));
      ReachesNext(config, events, decision, Step(id, ANY_KEY, false));
      assert decision.invocations[id := inv.(pc := Sweep(|config.submitterStates|, p)).(pc := Put(p))] == write.invocations;
      ReachesOn(config, events, GoTo(s, id, inv, Heads(0, [])), decision, write);
      t := swept.(pointers := swept.pointers + {KeyOf(MarkOf(inv))}, written := s.written + {MarkOf(inv)});
      ReachesNext(config, events, write, Step(id, ANY_KEY, false));
      FinishIsTheSame(t, Put(p));
      var after := if p.state.None? then Finish(t, id, inv) else GoTo(t, id, inv, Remove(p));
      assert write.invocations[id := inv.(pc := Put(p)).(pc := Remove(p))] == GoTo(t, id, inv, Remove(p)).invocations;
      ReachesOn(config, events, GoTo(s, id, inv, Heads(0, [])), write, after);
    }

    lemma FinishIsTheSame(t: System, pc: Pc)
      requires Valid()
      ensures Finish(GoTo(t, id, inv, pc), id, inv.(pc := pc)) == Finish(t, id, inv)
    {
      var next := inv.(n := inv.n + 1, pc := Heads(0, []));
      assert GoTo(t, id, inv, pc).invocations[id := next] == t.invocations[id := next];
      assert GoTo(t, id, inv, pc).invocations - {id} == t.invocations - {id};
    }

    lemma RemoveAlone(t: System, p: Previous, fails: bool)
      requires Valid() && p.state.Some?
      ensures Reaches(config, events, GoTo(t, id, inv, Remove(p)),
                Finish(if fails then t
                       else t.(pointers := t.pointers - {PointerKey(p.state.value.name, Context().Entity(), p.attempt)}), id, inv))
    {
      var at := GoTo(t, id, inv, Remove(p));
      ReachesNext(config, events, at, Step(id, ANY_KEY, fails));
      var after := if fails then t
                   else t.(pointers := t.pointers - {PointerKey(p.state.value.name, Context().Entity(), p.attempt)});
      FinishIsTheSame(after, Remove(p));
    }

    /** An event that changes nothing ends at the decision. */
    lemma SkipsAlone(pointers: Pointers, i: nat, faults: Faults)
      requires Valid() && s.pointers == pointers.Keys && !Writes()
      ensures Reaches(config, events, GoTo(s, id, inv, Heads(0, [])), Finish(With(SweptKeys(pointers, i, faults)), id, inv))
    {
      var p, swept := Previously(), With(SweptKeys(pointers, i, faults));
      ToTheDecision(pointers, i, faults);
      var decision := GoTo(swept, id, inv, Sweep(|config.submitterStates|, p));
      ReachesNext(config, events, decision, Step(id, ANY_KEY, false));
      FinishIsTheSame(swept, Sweep(|config.submitterStates|, p));
      ReachesOn(config, events, GoTo(s, id, inv, Heads(0, [])), decision, Finish(swept, id, inv));
    }

    /** Uninterrupted, the handling of one entity moves the pointers as the sequential model says. */
    lemma ContextAlone(pointers: Pointers, i: nat, faults: Faults) returns (t: System)
      requires Valid() && s.pointers == pointers.Keys
      ensures t.pointers == MovePointer(pointers, States(), config.submitterStates, Context(), inv.event.state, i, faults).Keys
      ensures t.handled == s.handled && t.invocations == s.invocations
      ensures Reaches(config, events, GoTo(s, id, inv, Heads(0, [])), Finish(t, id, inv))
    {
      var p := Previously();
      if !Writes() {
        SkipsAlone(pointers, i, faults);
        t := With(SweptKeys(pointers, i, faults));
      } else {
        t := ToTheWrite(pointers, i, faults);
        if p.state.Some? {
          var written := t;
          if i !in faults.oldPointer {
            t := t.(pointers := t.pointers - {PointerKey(p.state.value.name, Context().Entity(), p.attempt)});
          }
          RemoveAlone(written, p, i in faults.oldPointer);
          ReachesOn(config, events, GoTo(s, id, inv, Heads(0, [])), GoTo(written, id, inv, Remove(p)), Finish(t, id, inv));
        }
      }
    }
  }

  // ---------- whole groups and whole runs alone

  /** An invocation at the start of the n-th entity of its event's group. */
  function Arrived(event: Event, n: nat): Invocation {
    Invocation(event, n, Heads(0, []))
  }

  /** `s` with an invocation at the n-th entity, or none when it has been through all. */
  function At(s: System, id: nat, event: Event, n: nat): map<nat, Invocation> {
    if n < |event.d.group.Contexts()| then s.invocations[id := Arrived(event, n)] else s.invocations
  }

  /** The pointers before and after each of a group's entities is handled. */
  ghost predicate IsTrail(trail: seq<Pointers>, config: Config, x: Event, faults: Faults) {
    && 0 < |trail| <= |x.d.group.Contexts()| + 1
    && forall i | 0 <= i < |trail| - 1 :: Moves(trail[i], trail[i + 1], config, x, faults, i)
  }

  ghost predicate Moves(before: Pointers, after: Pointers, config: Config, x: Event, faults: Faults, i: nat)
    requires i < |x.d.group.Contexts()|
  {
    after == MovePointer(before, States(config.outcomes), config.submitterStates, x.d.group.Contexts()[i], x.state, i, faults)
  }

  lemma EntityAlone(
    config: Config, events: iset<Event>, s: System, id: nat, x: Event, before: Pointers, after: Pointers, n: nat, faults: Faults)
    returns (t: System)
    requires n < |x.d.group.Contexts()| && id in s.invocations && s.invocations[id] == Arrived(x, n)
    requires s.pointers == before.Keys && Moves(before, after, config, x, faults, n)
    ensures Reaches(config, events, s, t)
    ensures t.pointers == after.Keys
    ensures t.invocations == At(s.(invocations := s.invocations - {id}), id, x, n + 1)
    ensures t.handled == s.handled + {MarkOf(Arrived(x, n))}
  {
    assert s.invocations[id := Arrived(x, n)] == s.invocations;
    var t' := Reader(config, events, s, id, Arrived(x, n)).ContextAlone(before, n, faults);
    t := Finish(t', id, Arrived(x, n));
    assert s.invocations[id := Arrived(x, n + 1)] == (s.invocations - {id})[id := Arrived(x, n + 1)];
  }

  /** Started and left alone, an invocation goes through its entities one after another. */
  lemma {:induction false} TrailAlone(
    config: Config, events: iset<Event>, s: System, id: nat, x: Event, trail: seq<Pointers>, faults: Faults)
    returns (t: System)
    requires id !in s.invocations && x in events && x.d.group.Contexts() != []
    requires IsTrail(trail, config, x, faults) && s.pointers == trail[0].Keys
    ensures Reaches(config, events, s, t)
    ensures t.pointers == trail[|trail| - 1].Keys
    ensures t.invocations == At(s, id, x, |trail| - 1)
    ensures s.handled <= t.handled
    ensures forall i | 0 <= i < |trail| - 1 :: MarkOf(Arrived(x, i)) in t.handled
    decreases |trail|
  {
    hide Moves, Reaches, MarkOf;
    var n := |trail| - 1;
    if n == 0 {
      ReachesNext(config, events, s, Spawn(id, x));
      t := Do(config, events, s, Spawn(id, x));
    } else {
      var before := TrailAlone(config, events, s, id, x, trail[..n], faults);
      t := EntityAlone(config, events, before, id, x, trail[n - 1], trail[n], n - 1, faults);
      assert before.invocations - {id} == s.invocations;
      ReachesOn(config, events, s, before, t);
    }
  }

  ghost function PointersAfter(config: Config, w: World, x: Event, faults: Faults, n: nat): Pointers
    requires n <= |x.d.group.Contexts()|
  {
    RecordEntities(w, config, x.d, x.state, faults, n).pointers
  }

  lemma RecordingMoves(config: Config, w: World, x: Event, faults: Faults, i: nat)
    requires i < |x.d.group.Contexts()|
    ensures Moves(PointersAfter(config, w, x, faults, i), PointersAfter(config, w, x, faults, i + 1), config, x, faults, i)
  {
  }

  lemma RecordingIsATrail(config: Config, w: World, x: Event, faults: Faults, n: nat) returns (trail: seq<Pointers>)
    requires n <= |x.d.group.Contexts()|
    ensures IsTrail(trail, config, x, faults) && |trail| == n + 1
    ensures trail[0] == PointersAfter(config, w, x, faults, 0) && trail[n] == PointersAfter(config, w, x, faults, n)
  {
    hide PointersAfter, Moves;
    trail := seq(n + 1, i requires 0 <= i <= n => PointersAfter(config, w, x, faults, i));
    forall i | 0 <= i < n ensures Moves(trail[i], trail[i + 1], config, x, faults, i) {
      RecordingMoves(config, w, x, faults, i);
    }
  }

  /** That is what the sequential model says of its first `n` entities. */
  lemma GroupAlone(config: Config, events: iset<Event>, s: System, w: World, id: nat, x: Event, faults: Faults, n: nat)
    returns (t: System)
    requires id !in s.invocations && x in events && x.d.group.Contexts() != []
    requires n <= |x.d.group.Contexts()| && s.pointers == w.pointers.Keys
    ensures Reaches(config, events, s, t)
    ensures t.pointers == RecordEntities(w, config, x.d, x.state, faults, n).pointers.Keys
    ensures t.invocations == At(s, id, x, n)
    ensures s.handled <= t.handled
    ensures forall i | 0 <= i < n :: MarkOf(Arrived(x, i)) in t.handled
  {
    var trail := RecordingIsATrail(config, w, x, faults, n);
    t := TrailAlone(config, events, s, id, x, trail, faults);
  }

  /** A run of the sequential model that the interleaved machine is given the events of. */
  ghost predicate Playable(config: Config, events: iset<Event>, steps: seq<MonitorRuns.Step>) {
    forall i | 0 <= i < |steps| ::
      && LegalStep(config, steps[i])
      && (steps[i].Handle? ==> steps[i].d.group.Contexts() != [] && Event(steps[i].d, steps[i].state) in events)
  }

  /** Every sequential run is one execution of the interleaved machine, so what is proved of all
      executions holds of it, and what goes wrong in it goes wrong in the machine. */
  lemma {:induction false} SequentialRunsAreExecutions(config: Config, events: iset<Event>, steps: seq<MonitorRuns.Step>)
    returns (t: System)
    requires Playable(config, events, steps)
    ensures Reaches(config, events, START, t)
    ensures t.pointers == Run(EMPTY_WORLD, config, steps).pointers.Keys && t.invocations == map[]
  {
    if steps == [] {
      ReachesSelf(config, events, START);
      t := START;
    } else {
      var n := |steps| - 1;
      var before := SequentialRunsAreExecutions(config, events, steps[..n]);
      t := StepAlone(config, events, before, Run(EMPTY_WORLD, config, steps[..n]), steps[n]);
      ReachesOn(config, events, START, before, t);
    }
  }

  lemma StepAlone(config: Config, events: iset<Event>, s: System, w: World, step: MonitorRuns.Step) returns (t: System)
    requires Playable(config, events, [step]) && s.pointers == w.pointers.Keys && s.invocations == map[]
    ensures Reaches(config, events, s, t)
    ensures t.pointers == Take(w, config, step).pointers.Keys && t.invocations == map[]
  {
    assert step == [step][0];
    match step
    case Handle(d, state, faults) =>
      t := GroupAlone(config, events, s, w, 0, Event(d, state), faults, |d.group.Contexts()|);
      RoutingKeepsPointers(w, config, d, state, faults);
    case Claim(context, state) =>
      var action := SubmitterPut(PointerKeyOf(state, context));
      ReachesNext(config, events, s, action);
      t := Do(config, events, s, action);
    case Release(context, state) =>
      var action := SubmitterDelete(PointerKeyOf(state, context));
      ReachesNext(config, events, s, action);
      t := Do(config, events, s, action);
  }
}
