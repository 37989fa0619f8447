/** The three-object log store (`log_store.py`). A key is modelled by what it is built from;
    module Keys shows that the strings S3 sees tell the same keys apart. */
module LogStore {
  import opened Prelude
  import opened Models

  datatype PointerKey = PointerKey(state: string, entity: Entity, attempt: nat)
  datatype PointerBody = PointerBody(inputEntityId: string, outputEntityId: string, attempt: nat)
  datatype RecordKey = RecordKey(entity: Entity, attempt: nat)
  datatype OutputKey = OutputKey(
    state: string, jobType: string, partitionFields: seq<(string, string)>, outputEntityId: string)

  datatype EventRecord = EventRecord(
    state: string, timestamp: string, batchJobId: Option<string>, exitCode: Option<int>)

  /** What an event says about its Batch job, each part possibly absent. */
  datatype BatchFields = BatchFields(
    batchJobId: Option<string>, logStreamName: Option<string>,
    createdAt: Option<string>, startedAt: Option<string>, stoppedAt: Option<string>)

  datatype Record = Record(
    context: JobContext, batchJobId: Option<string>, events: seq<EventRecord>, currentState: string,
    logStreamName: Option<string>, createdAt: Option<string>, startedAt: Option<string>, stoppedAt: Option<string>)

  type Pointers = map<PointerKey, PointerBody>
  type Records = map<RecordKey, Record>

  function PointerKeyOf(state: ProcessingState, context: JobContext): PointerKey {
    PointerKey(state.name, context.Entity(), context.attempt)
  }

  function RecordKeyOf(context: JobContext): RecordKey {
    RecordKey(context.Entity(), context.attempt)
  }

  function OutputKeyOf(state: ProcessingState, context: JobContext): OutputKey {
    OutputKey(state.name, context.jobType, context.partitionFields, context.outputEntityId)
  }

  function BodyOf(context: JobContext): PointerBody {
    PointerBody(context.inputEntityId, context.outputEntityId, context.attempt)
  }

  // ---------- order on (attempt, rank)

  /** `(attempt, state.rank)` compared as tuples are. */
  predicate AtMost(a: nat, s: ProcessingState, b: nat, t: ProcessingState) {
    a < b || (a == b && s.Rank() <= t.Rank())
  }

  predicate Below(a: nat, s: ProcessingState, b: nat, t: ProcessingState) {
    a < b || (a == b && s.Rank() < t.Rank())
  }

  // ---------- lookups

  /** Position `j` holds the first of the highest-ranked scanned states with a pointer. */
  ghost predicate FirstBest(keys: set<PointerKey>, states: seq<ProcessingState>, e: Entity, attempt: nat, j: nat) {
    && j < |states|
    && PointerKey(states[j].name, e, attempt) in keys
    && forall i | 0 <= i < |states| && PointerKey(states[i].name, e, attempt) in keys ::
         && states[i].Rank() <= states[j].Rank()
         && (i < j ==> states[i].Rank() < states[j].Rank())
  }

  /** The state an exact (entity, attempt) is recorded in. */
  function FindState(keys: set<PointerKey>, states: seq<ProcessingState>, e: Entity, attempt: nat)
    : (r: Option<ProcessingState>)
    ensures r.None? <==> forall s | s in states :: PointerKey(s.name, e, attempt) !in keys
    ensures r.Some? ==> exists j: nat :: FirstBest(keys, states, e, attempt, j) && states[j] == r.value
  {
    if states == [] then None
    else
      var n := |states| - 1;
      var before := FindState(keys, states[..n], e, attempt);
      var s := states[n];
      assert forall t :: t in states <==> t in states[..n] || t == s;
      if PointerKey(s.name, e, attempt) !in keys then
        assert before.Some? ==> exists j: nat :: FirstBest(keys, states, e, attempt, j) && states[j] == before.value by {
          if before.Some? {
            var j: nat :| FirstBest(keys, states[..n], e, attempt, j) && states[..n][j] == before.value;
            FirstBestOfPrefix(keys, states, e, attempt, j);
          }
        }
        before
      else if before.Some? && before.value.Rank() >= s.Rank() then
        assert exists j: nat :: FirstBest(keys, states, e, attempt, j) && states[j] == before.value by {
          var j: nat :| FirstBest(keys, states[..n], e, attempt, j) && states[..n][j] == before.value;
          FirstBestOfPrefix(keys, states, e, attempt, j);
        }
        before
      else
        assert FirstBest(keys, states, e, attempt, n) by {
          forall i | 0 <= i < n && PointerKey(states[i].name, e, attempt) in keys
            ensures states[i].Rank() < s.Rank()
          {
            assert states[..n][i] == states[i];
          }
        }
        Some(s)
  }

  lemma FirstBestOfPrefix(keys: set<PointerKey>, states: seq<ProcessingState>, e: Entity, attempt: nat, j: nat)
    requires states != [] && FirstBest(keys, states[..|states| - 1], e, attempt, j)
    requires PointerKey(states[|states| - 1].name, e, attempt) in keys ==>
               states[j].Rank() >= states[|states| - 1].Rank()
    ensures FirstBest(keys, states, e, attempt, j)
  {
    var n := |states| - 1;
    forall i | 0 <= i < |states| && PointerKey(states[i].name, e, attempt) in keys
      ensures states[i].Rank() <= states[j].Rank() && (i < j ==> states[i].Rank() < states[j].Rank())
    {
      if i < n {
        assert states[..n][i] == states[i];
      }
    }
  }

  ghost function Names(states: seq<ProcessingState>): set<string> {
    set s | s in states :: s.name
  }

  /** The attempts an entity has a pointer for in any of the scanned states. */
  ghost function PointerAttempts(keys: set<PointerKey>, states: seq<ProcessingState>, e: Entity): set<nat> {
    set k | k in keys && k.entity == e && k.state in Names(states) :: k.attempt
  }

  lemma PointerAttemptsFound(keys: set<PointerKey>, states: seq<ProcessingState>, e: Entity, a: nat)
    ensures a in PointerAttempts(keys, states, e) <==> FindState(keys, states, e, a).Some?
  {
    if a in PointerAttempts(keys, states, e) {
      var k :| k in keys && k.entity == e && k.state in Names(states) && k.attempt == a;
      var s :| s in states && s.name == k.state;
      assert k == PointerKey(s.name, e, a);
    }
    if FindState(keys, states, e, a).Some? {
      var s :| s in states && PointerKey(s.name, e, a) in keys;
      assert s.name in Names(states);
    }
  }

  ghost function Greatest(s: set<nat>): (m: nat)
    requires s != {}
    ensures m in s && forall n | n in s :: n <= m
  {
    var x :| x in s;
    if s == {x} then x
    else
      assert s == {x} + (s - {x});
      Max(x, Greatest(s - {x}))
  }

  /** An entity's authoritative pointer: highest attempt, then highest rank. */
  ghost function ActivePointer(keys: set<PointerKey>, states: seq<ProcessingState>, e: Entity)
    : Option<(ProcessingState, nat)>
  {
    var attempts := PointerAttempts(keys, states, e);
    if attempts == {} then None
    else
      var a := Greatest(attempts);
      PointerAttemptsFound(keys, states, e, a);
      Some((FindState(keys, states, e, a).value, a))
  }

  /** A pointer of a scanned state that no other is above, or none at all. */
  ghost predicate NoneAbove(
    keys: set<PointerKey>, states: seq<ProcessingState>, e: Entity, active: Option<(ProcessingState, nat)>)
  {
    if active.None? then forall s, a | s in states :: PointerKey(s.name, e, a) !in keys
    else
      && active.value.0 in states
      && PointerKey(active.value.0.name, e, active.value.1) in keys
      && forall s, a | s in states && PointerKey(s.name, e, a) in keys ::
           AtMost(a, s, active.value.1, active.value.0)
  }

  lemma ActiveIsGreatest(keys: set<PointerKey>, states: seq<ProcessingState>, e: Entity)
    ensures NoneAbove(keys, states, e, ActivePointer(keys, states, e))
    ensures var active := ActivePointer(keys, states, e);
            active.Some? ==> FindState(keys, states, e, active.value.1) == Some(active.value.0)
  {
    var active := ActivePointer(keys, states, e);
    forall s, a | s in states && PointerKey(s.name, e, a) in keys
      ensures active.Some? && AtMost(a, s, active.value.1, active.value.0)
    {
      PointerAttemptsFound(keys, states, e, a);
    }
    if active.Some? {
      PointerAttemptsFound(keys, states, e, active.value.1);
    }
  }

  /** `max(hits, key=rank)`: the first of the highest-ranked. */
  function BestRanked(hits: seq<ProcessingState>): Option<ProcessingState> {
    if hits == [] then None
    else
      var before := BestRanked(hits[..|hits| - 1]);
      var s := hits[|hits| - 1];
      if before.Some? && before.value.Rank() >= s.Rank() then before else Some(s)
  }

  /** `max(hits, key=(attempt, rank))`, as a position. */
  function BestHit(hits: seq<(ProcessingState, nat)>): (p: nat)
    requires hits != []
    ensures p < |hits|
    ensures forall q | 0 <= q < |hits| :: AtMost(hits[q].1, hits[q].0, hits[p].1, hits[p].0)
    ensures forall q | 0 <= q < p :: Below(hits[q].1, hits[q].0, hits[p].1, hits[p].0)
  {
    var n := |hits| - 1;
    if n == 0 then 0
    else
      var p := BestHit(hits[..n]);
      assert forall q | 0 <= q < n :: hits[..n][q] == hits[q];
      if AtMost(hits[n].1, hits[n].0, hits[p].1, hits[p].0) then p else n
  }

  /** Hits collected state by state, in scan order, from a complete listing. */
  ghost predicate Collected(
    keys: set<PointerKey>, states: seq<ProcessingState>, e: Entity,
    hits: seq<(ProcessingState, nat)>, origin: seq<nat>)
  {
    && |origin| == |hits|
    && (forall p | 0 <= p < |hits| ::
          && origin[p] < |states|
          && hits[p].0 == states[origin[p]]
          && PointerKey(hits[p].0.name, e, hits[p].1) in keys)
    && (forall p, q | 0 <= p < q < |hits| :: origin[p] <= origin[q])
    && (forall i, a | 0 <= i < |states| && PointerKey(states[i].name, e, a) in keys ::
          exists p | 0 <= p < |hits| :: origin[p] == i && hits[p].1 == a)
  }

  lemma BestHitIsActive(
    keys: set<PointerKey>, states: seq<ProcessingState>, e: Entity,
    hits: seq<(ProcessingState, nat)>, origin: seq<nat>)
    requires Collected(keys, states, e, hits, origin)
    ensures ActivePointer(keys, states, e) == if hits == [] then None else Some(hits[BestHit(hits)])
  {
    ActiveIsGreatest(keys, states, e);
    var active := ActivePointer(keys, states, e);
    if hits != [] {
      assert PointerKey(hits[0].0.name, e, hits[0].1) in keys && states[origin[0]] in states;
      var i :| 0 <= i < |states| && states[i] == active.value.0;
      var q :| 0 <= q < |hits| && origin[q] == i && hits[q].1 == active.value.1;
      ActiveIsThisHit(keys, states, e, hits, origin, BestHit(hits), q);
    } else {
      assert forall i, a | 0 <= i < |states| :: PointerKey(states[i].name, e, a) !in keys;
    }
  }

  lemma ActiveIsThisHit(
    keys: set<PointerKey>, states: seq<ProcessingState>, e: Entity,
    hits: seq<(ProcessingState, nat)>, origin: seq<nat>, p: nat, q: nat)
    requires Collected(keys, states, e, hits, origin) && p < |hits| && q < |hits|
    requires NoneAbove(keys, states, e, Some(hits[q]))
    requires FindState(keys, states, e, hits[q].1) == Some(hits[q].0)
    requires AtMost(hits[q].1, hits[q].0, hits[p].1, hits[p].0)
    requires forall r | 0 <= r < p :: Below(hits[r].1, hits[r].0, hits[p].1, hits[p].0)
    ensures hits[p] == hits[q]
  {
    var (s, a) := hits[q];
    assert states[origin[p]] in states && states[origin[q]] in states;
    assert AtMost(hits[p].1, hits[p].0, a, s);
    var j: nat :| FirstBest(keys, states, e, a, j) && states[j] == s;
    var r :| 0 <= r < |hits| && origin[r] == j && hits[r].1 == a;
    assert p <= r;
    FirstBestComesFirst(keys, states, e, a, j, origin[p], hits[p].0);
  }

  /** A state as high as the found one and scanned no later is it. */
  lemma FirstBestComesFirst(
    keys: set<PointerKey>, states: seq<ProcessingState>, e: Entity, a: nat, j: nat, i: nat, s: ProcessingState)
    requires FirstBest(keys, states, e, a, j) && i <= j && states[i] == s && PointerKey(s.name, e, a) in keys
    requires s.Rank() == states[j].Rank()
    ensures i == j
  {
  }

  // ---------- updates

  /** Write new, then delete old; a delete that fails is only logged. */
  function WritePointer(
    pointers: Pointers, context: JobContext, newState: ProcessingState,
    oldState: Option<ProcessingState>, oldAttempt: nat, deleteFails: bool): Pointers
  {
    var written := pointers[PointerKeyOf(newState, context) := BodyOf(context)];
    if oldState.None? || deleteFails then written
    else written - {PointerKey(oldState.value.name, context.Entity(), oldAttempt)}
  }

  function OrElse<T>(value: Option<T>, otherwise: Option<T>): Option<T> {
    if value.Some? then value else otherwise
  }

  function NewRecord(context: JobContext, event: EventRecord, batch: BatchFields): Record {
    Record(context, batch.batchJobId, [], event.state, None, None, None, None)
  }

  function AppendEvent(records: Records, context: JobContext, event: EventRecord, batch: BatchFields): Records {
    var key := RecordKeyOf(context);
    var r := if key in records then records[key] else NewRecord(context, event, batch);
    records[key := r.(
      events := r.events + [event],
      currentState := event.state,
      logStreamName := OrElse(batch.logStreamName, r.logStreamName),
      createdAt := OrElse(batch.createdAt, r.createdAt),
      startedAt := OrElse(batch.startedAt, r.startedAt),
      stoppedAt := OrElse(batch.stoppedAt, r.stoppedAt))]
  }

  class S3RecordStore {
    var pointers: Pointers
    var records: Records
    var outputs: set<OutputKey>

    /** A pointer's body repeats the entity and the attempt of its key. */
    ghost predicate Valid()
      reads this
    {
      forall k | k in pointers :: pointers[k].attempt == k.attempt && pointers[k].inputEntityId == k.entity.inputEntityId
    }

    constructor ()
      ensures Valid() && pointers == map[] && records == map[] && outputs == {}
    {
      pointers, records, outputs := map[], map[], {};
    }

    /** One HEAD per scanned state. */
    method FindStatePointer(context: JobContext, states: seq<ProcessingState>) returns (state: Option<ProcessingState>)
      ensures state == FindState(pointers.Keys, states, context.Entity(), context.attempt)
    {
      var hits: seq<ProcessingState> := [];
      for i := 0 to |states|
        invariant BestRanked(hits) == FindState(pointers.Keys, states[..i], context.Entity(), context.attempt)
      {
        assert states[..i + 1][..i] == states[..i];
        if PointerKeyOf(states[i], context) in pointers {
          assert (hits + [states[i]])[..|hits|] == hits;
          hits := hits + [states[i]];
        }
      }
      assert states[..|states|] == states;
      state := BestRanked(hits);
    }

    /** The pointers listed under one state's prefix for an entity, in whatever order. */
    method ListPointers(state: string, e: Entity) returns (contents: seq<PointerKey>)
      ensures forall k :: k in contents <==> k in pointers && k.state == state && k.entity == e
    {
      contents := [];
      var rest := set k | k in pointers && k.state == state && k.entity == e;
      while rest != {}
        invariant forall k :: k in contents || k in rest <==> k in pointers && k.state == state && k.entity == e
      {
        var k :| k in rest;
        rest := rest - {k};
        contents := contents + [k];
      }
    }

    /** One listing per scanned state, reading the attempt from each pointer's body. */
    method FindActivePointer(e: Entity, states: seq<ProcessingState>) returns (active: Option<(ProcessingState, nat)>)
      requires Valid()
      ensures active == ActivePointer(pointers.Keys, states, e)
    {
      var hits: seq<(ProcessingState, nat)> := [];
      ghost var origin: seq<nat> := [];
      for i := 0 to |states|
        invariant Collected(pointers.Keys, states[..i], e, hits, origin)
      {
        ghost var hits0, origin0 := hits, origin;
        var listing := ListPointers(states[i].name, e);
        for j := 0 to |listing|
          invariant |hits| == |hits0| + j && |origin| == |hits|
          invariant hits[..|hits0|] == hits0 && origin[..|hits0|] == origin0
          invariant forall p | |hits0| <= p < |hits| ::
                      origin[p] == i && hits[p] == (states[i], listing[p - |hits0|].attempt)
        {
          hits := hits + [(states[i], pointers[listing[j]].attempt)];
          origin := origin + [i];
        }
        CollectedOneMore(pointers.Keys, states, i, e, hits0, origin0, hits, origin, listing);
      }
      assert states[..|states|] == states;
      BestHitIsActive(pointers.Keys, states, e, hits, origin);
      active := if hits == [] then None else Some(hits[BestHit(hits)]);
    }

    method WriteStatePointer(
      context: JobContext, newState: ProcessingState, oldState: Option<ProcessingState>,
      oldAttempt: Option<nat>, deleteFails: bool)
      requires Valid()
      modifies this`pointers
      ensures Valid()
      ensures pointers == WritePointer(old(pointers), context, newState, oldState,
                            if oldAttempt.None? then context.attempt else oldAttempt.value, deleteFails)
    {
      pointers := pointers[PointerKeyOf(newState, context) := BodyOf(context)];
      if oldState.Some? {
        var oldContext := if oldAttempt.None? || oldAttempt.value == context.attempt then context
                          else context.(attempt := oldAttempt.value);
        if !deleteFails {
          pointers := pointers - {PointerKeyOf(oldState.value, oldContext)};
        }
      }
    }

    /** Claim a pointer only if nobody has. S3 may also refuse for another write going on at once, and then
        nothing is written either. */
    method WriteStatePointerConditional(context: JobContext, state: ProcessingState, conflict: bool) returns (written: bool)
      requires Valid()
      modifies this`pointers
      ensures Valid()
      ensures written <==> PointerKeyOf(state, context) !in old(pointers) && !conflict
      ensures pointers == if written then old(pointers)[PointerKeyOf(state, context) := BodyOf(context)]
                          else old(pointers)
    {
      written := PointerKeyOf(state, context) !in pointers && !conflict;
      if written {
        pointers := pointers[PointerKeyOf(state, context) := BodyOf(context)];
      }
    }

    method DeleteStatePointer(context: JobContext, state: ProcessingState, deleteFails: bool)
      requires Valid()
      modifies this`pointers
      ensures Valid()
      ensures pointers == if deleteFails then old(pointers) else old(pointers) - {PointerKeyOf(state, context)}
    {
      if !deleteFails {
        pointers := pointers - {PointerKeyOf(state, context)};
      }
    }

    method AppendCanonicalEvent(context: JobContext, event: EventRecord, batch: BatchFields)
      modifies this`records
      ensures records == AppendEvent(old(records), context, event, batch)
    {
      var key := RecordKeyOf(context);
      var record := if key in records then records[key] else NewRecord(context, event, batch);
      record := record.(events := record.events + [event]);
      record := record.(currentState := event.state);
      if batch.logStreamName.Some? {
        record := record.(logStreamName := batch.logStreamName);
      }
      if batch.createdAt.Some? {
        record := record.(createdAt := batch.createdAt);
      }
      if batch.startedAt.Some? {
        record := record.(startedAt := batch.startedAt);
      }
      if batch.stoppedAt.Some? {
        record := record.(stoppedAt := batch.stoppedAt);
      }
      records := records[key := record];
    }

    method WriteOutputIndex(context: JobContext, state: ProcessingState)
      modifies this`outputs
      ensures outputs == old(outputs) + {OutputKeyOf(state, context)}
    {
      outputs := outputs + {OutputKeyOf(state, context)};
    }

    /** 1 for an entity with no active pointer, else one past the active attempt. */
    method NextAttempt(e: Entity, states: seq<ProcessingState>) returns (attempt: nat)
      requires Valid()
      ensures attempt == AttemptAfter(pointers.Keys, states, e)
    {
      var active := FindActivePointer(e, states);
      attempt := if active.None? then 1 else active.value.1 + 1;
    }

    /** The attempts of an entity's records, newest first. */
    method RecordedAttempts(e: Entity) returns (recorded: seq<nat>)
      ensures NewestFirst(recorded)
      ensures forall a :: a in recorded <==> a in AttemptsOn(records, e)
    {
      var rest := set k | k in records && k.entity == e :: k.attempt;
      recorded := [];
      while rest != {}
        invariant NewestFirst(recorded)
        invariant forall a, i | a in rest && 0 <= i < |recorded| :: a < recorded[i]
        invariant forall a :: a in recorded || a in rest <==> a in AttemptsOn(records, e)
      {
        var newest := TakeNewest(rest);
        rest := rest - {newest};
        recorded := recorded + [newest];
      }
    }

    method TakeNewest(attempts: set<nat>) returns (newest: nat)
      requires attempts != {}
      ensures newest == Greatest(attempts)
    {
      var rest := attempts;
      newest :| newest in rest;
      rest := rest - {newest};
      while rest != {}
        invariant rest <= attempts && newest in attempts
        invariant forall a | a in attempts && a !in rest :: a <= newest
      {
        var a :| a in rest;
        rest := rest - {a};
        if a > newest {
          newest := a;
        }
      }
      assert Greatest(attempts) in attempts && newest <= Greatest(attempts);
    }

    /** Every event of a Batch job resolves to the attempt its records already carry, else to
        the one after the furthest-along entity's. */
    method AttemptForBatchJob(es: seq<Entity>, batchJobId: string) returns (attempt: nat)
      ensures attempt == InferAttempt(records, es, batchJobId)
    {
      attempt := 1;
      for i := 0 to |es|
        invariant FirstMatch(records, es[..i], batchJobId).None?
        invariant attempt == PastAll(records, es[..i])
      {
        assert es[..i + 1][..i] == es[..i];
        var recorded := RecordedAttempts(es[i]);
        ghost var all := AttemptsOn(records, es[i]);
        var before := attempt;
        for j := 0 to |recorded|
          invariant forall k | 0 <= k < j :: CanonicalBatchJobId(records, es[i], recorded[k]) != Some(batchJobId)
          invariant attempt == if j == 0 then before else Max(before, recorded[0] + 1)
        {
          assert recorded[j] in recorded;
          if CanonicalBatchJobId(records, es[i], recorded[j]) == Some(batchJobId) {
            NewestMatch(records, es[i], batchJobId, recorded, j);
            FirstMatchExtends(records, es, i + 1, batchJobId);
            return recorded[j];
          }
          attempt := Max(attempt, recorded[j] + 1);
        }
        assert all != {} ==> recorded != [] && recorded[0] == Greatest(all) by {
          if all != {} {
            assert Greatest(all) in recorded;
            assert recorded[0] in all;
          }
        }
        assert all == {} ==> recorded == [] by {
          if recorded != [] { assert recorded[0] in recorded; }
        }
      }
      assert es[..|es|] == es;
    }

    method NextGroupAttempt(
      jobType: string, partitionFields: seq<(string, string)>, inputEntityIds: seq<string>,
      states: seq<ProcessingState>) returns (r: Result<nat, string>)
      requires Valid()
      ensures r == if inputEntityIds == [] then Err("max() of nothing")
                   else Ok(Largest(AttemptsAfter(pointers.Keys, states, jobType, partitionFields, inputEntityIds)))
    {
      if inputEntityIds == [] {
        return Err("max() of nothing");
      }
      ghost var all := AttemptsAfter(pointers.Keys, states, jobType, partitionFields, inputEntityIds);
      var attempt := NextAttempt(EntityOf(jobType, partitionFields, inputEntityIds[0]), states);
      assert all[..1] == [attempt];
      for i := 1 to |inputEntityIds|
        invariant attempt == Largest(all[..i])
      {
        var next := NextAttempt(EntityOf(jobType, partitionFields, inputEntityIds[i]), states);
        LargestOneMore(all, i);
        if next > attempt {
          attempt := next;
        }
      }
      assert all[..|inputEntityIds|] == all;
      r := Ok(attempt);
    }
  }

  function Largest(s: seq<nat>): (m: nat)
    requires s != []
    ensures m in s && forall i | 0 <= i < |s| :: s[i] <= m
  {
    var n := |s| - 1;
    if n == 0 then s[0]
    else
      var before := Largest(s[..n]);
      assert forall i | 0 <= i < n :: s[i] == s[..n][i];
      if s[n] > before then s[n] else before
  }

  lemma LargestOneMore(s: seq<nat>, i: nat)
    requires 0 < i < |s|
    ensures Largest(s[..i + 1]) == Max(Largest(s[..i]), s[i])
  {
    assert s[..i + 1][..i] == s[..i];
  }

  /** Each entity's next attempt. */
  ghost function AttemptsAfter(
    keys: set<PointerKey>, states: seq<ProcessingState>, jobType: string,
    partitionFields: seq<(string, string)>, inputEntityIds: seq<string>): seq<nat>
  {
    seq(|inputEntityIds|, i requires 0 <= i < |inputEntityIds| =>
      AttemptAfter(keys, states, EntityOf(jobType, partitionFields, inputEntityIds[i])))
  }

  // ---------- inferring attempts from records

  ghost function AttemptsOn(records: Records, e: Entity): set<nat> {
    set k | k in records && k.entity == e :: k.attempt
  }

  /** The Batch job id on a record, or none when there is no record. */
  function CanonicalBatchJobId(records: Records, e: Entity, attempt: nat): Option<string> {
    if RecordKey(e, attempt) in records then records[RecordKey(e, attempt)].batchJobId else None
  }

  /** The newest attempt of an entity whose record carries the Batch job's id. */
  ghost function MatchOf(records: Records, e: Entity, batchJobId: string): Option<nat> {
    var seen := set a | a in AttemptsOn(records, e) && CanonicalBatchJobId(records, e, a) == Some(batchJobId);
    if seen == {} then None else Some(Greatest(seen))
  }

  ghost function FirstMatch(records: Records, es: seq<Entity>, batchJobId: string): Option<nat> {
    if es == [] then None
    else
      var before := FirstMatch(records, es[..|es| - 1], batchJobId);
      if before.Some? then before else MatchOf(records, es[|es| - 1], batchJobId)
  }

  /** One past every recorded attempt of the entities, at least 1. */
  ghost function PastAll(records: Records, es: seq<Entity>): nat {
    if es == [] then 1
    else
      var before, attempts := PastAll(records, es[..|es| - 1]), AttemptsOn(records, es[|es| - 1]);
      if attempts == {} then before else Max(before, Greatest(attempts) + 1)
  }

  ghost function InferAttempt(records: Records, es: seq<Entity>, batchJobId: string): nat {
    var seen := FirstMatch(records, es, batchJobId);
    if seen.Some? then seen.value else PastAll(records, es)
  }

  lemma NewestMatch(records: Records, e: Entity, batchJobId: string, recorded: seq<nat>, j: nat)
    requires NewestFirst(recorded) && forall a :: a in recorded <==> a in AttemptsOn(records, e)
    requires j < |recorded| && CanonicalBatchJobId(records, e, recorded[j]) == Some(batchJobId)
    requires forall k | 0 <= k < j :: CanonicalBatchJobId(records, e, recorded[k]) != Some(batchJobId)
    ensures MatchOf(records, e, batchJobId) == Some(recorded[j])
  {
    var seen := set a | a in AttemptsOn(records, e) && CanonicalBatchJobId(records, e, a) == Some(batchJobId);
    assert recorded[j] in recorded && recorded[j] in seen;
    var k :| 0 <= k < |recorded| && recorded[k] == Greatest(seen);
  }

  lemma {:induction false} FirstMatchExtends(records: Records, es: seq<Entity>, i: nat, batchJobId: string)
    requires i <= |es| && FirstMatch(records, es[..i], batchJobId).Some?
    ensures FirstMatch(records, es, batchJobId) == FirstMatch(records, es[..i], batchJobId)
  {
    if i == |es| {
      assert es[..i] == es;
    } else {
      assert es[..|es| - 1][..i] == es[..i];
      FirstMatchExtends(records, es[..|es| - 1], i, batchJobId);
    }
  }

  ghost predicate NewestFirst(recorded: seq<nat>) {
    forall i, j | 0 <= i < j < |recorded| :: recorded[i] > recorded[j]
  }

  ghost function AttemptAfter(keys: set<PointerKey>, states: seq<ProcessingState>, e: Entity): nat {
    var active := ActivePointer(keys, states, e);
    if active.None? then 1 else active.value.1 + 1
  }

  lemma CollectedOneMore(
    keys: set<PointerKey>, states: seq<ProcessingState>, i: nat, e: Entity,
    hits0: seq<(ProcessingState, nat)>, origin0: seq<nat>,
    hits: seq<(ProcessingState, nat)>, origin: seq<nat>, listing: seq<PointerKey>)
    requires i < |states| && Collected(keys, states[..i], e, hits0, origin0)
    requires forall k :: k in listing <==> k in keys && k.state == states[i].name && k.entity == e
    requires |hits| == |hits0| + |listing| && |origin| == |hits|
    requires hits[..|hits0|] == hits0 && origin[..|hits0|] == origin0
    requires forall p | |hits0| <= p < |hits| ::
               origin[p] == i && hits[p] == (states[i], listing[p - |hits0|].attempt)
    ensures Collected(keys, states[..i + 1], e, hits, origin)
  {
    var n := |hits0|;
    assert forall p | 0 <= p < n :: hits[p] == hits0[p] && origin[p] == origin0[p];
    forall p | n <= p < |hits| ensures PointerKey(hits[p].0.name, e, hits[p].1) in keys {
      var k := listing[p - n];
      assert k in listing && k == PointerKey(states[i].name, e, k.attempt);
    }
    forall j, a | 0 <= j < i + 1 && PointerKey(states[j].name, e, a) in keys
      ensures exists p | 0 <= p < |hits| :: origin[p] == j && hits[p].1 == a
    {
      if j < i {
        assert states[..i][j] == states[j];
        var p :| 0 <= p < n && origin0[p] == j && hits0[p].1 == a;
        assert origin[p] == j && hits[p].1 == a;
      } else {
        assert PointerKey(states[i].name, e, a) in listing;
        var q :| 0 <= q < |listing| && listing[q] == PointerKey(states[i].name, e, a);
        assert origin[n + q] == j && hits[n + q].1 == a;
      }
    }
  }
}
