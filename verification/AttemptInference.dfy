/** Attempts inferred from the records of a system that submits each retry as a new Batch job
    without saying which attempt it is. */
module AttemptInference {
  import opened Prelude
  import opened Models
  import opened LogStore
  import opened Monitor
  import opened MonitorRuns

  /** An event of an unnumbered Batch job; whatever attempt its group carries is replaced. */
  datatype Arrival = Arrival(d: Delivery, state: ProcessingState, faults: Faults) {
    function Job(): string {
      d.detail.jobId
    }

    function Entities(): seq<Entity> {
      seq(|d.group.inputEntityIds|, i requires 0 <= i < |d.group.inputEntityIds| =>
        EntityOf(d.group.jobType, d.group.partitionFields, d.group.inputEntityIds[i]))
    }

    function Numbered(attempt: nat): Delivery {
      d.(group := d.group.(attempt := attempt))
    }
  }

  ghost function Infer(records: Records, a: Arrival): nat {
    InferAttempt(records, a.Entities(), a.Job())
  }

  /** Resolve an event's attempt from the records, then handle it. */
  ghost function Handled(w: World, config: Config, a: Arrival): World {
    Apply(w, config, a.Numbered(Infer(w.records, a)), a.state, a.faults)
  }

  ghost function After(config: Config, arrivals: seq<Arrival>): World {
    if arrivals == [] then EMPTY_WORLD
    else Handled(After(config, arrivals[..|arrivals| - 1]), config, arrivals[|arrivals| - 1])
  }

  /** The attempts the run assigned, event by event. */
  ghost function Attempts(config: Config, arrivals: seq<Arrival>): (r: seq<nat>)
    ensures |r| == |arrivals|
  {
    if arrivals == [] then []
    else
      var before := arrivals[..|arrivals| - 1];
      Attempts(config, before) + [Infer(After(config, before).records, arrivals[|arrivals| - 1])]
  }

  /** A Batch job always names the same entities, in whatever order. */
  ghost predicate SameEntities(arrivals: seq<Arrival>) {
    forall i, j, e | 0 <= i < |arrivals| && 0 <= j < |arrivals| && arrivals[i].Job() == arrivals[j].Job() ::
      e in arrivals[i].Entities() <==> e in arrivals[j].Entities()
  }

  /** Every event on the record came from this Batch job. */
  ghost predicate Owned(r: Record, job: string) {
    r.batchJobId == Some(job) && forall ev | ev in r.events :: ev.batchJobId == Some(job)
  }

  ghost predicate Stable(arrivals: seq<Arrival>, attempts: seq<nat>)
    requires |attempts| == |arrivals|
  {
    forall i, j | 0 <= i < |arrivals| && 0 <= j < |arrivals| && arrivals[i].Job() == arrivals[j].Job() ::
      attempts[i] == attempts[j]
  }

  ghost predicate Distinct(arrivals: seq<Arrival>, attempts: seq<nat>)
    requires |attempts| == |arrivals|
  {
    forall i, j, e | 0 <= i < |arrivals| && 0 <= j < |arrivals| && e in arrivals[i].Entities() && e in arrivals[j].Entities()
                     && attempts[i] == attempts[j] :: arrivals[i].Job() == arrivals[j].Job()
  }

  /** Each event is on its entities' records at its attempt; each record is one job's. */
  ghost predicate Recorded(records: Records, arrivals: seq<Arrival>, attempts: seq<nat>)
    requires |attempts| == |arrivals|
  {
    && (forall i, e | 0 <= i < |arrivals| && e in arrivals[i].Entities() ::
          RecordKey(e, attempts[i]) in records && Owned(records[RecordKey(e, attempts[i])], arrivals[i].Job()))
    && (forall k | k in records ::
          exists i | 0 <= i < |arrivals| :: k.entity in arrivals[i].Entities() && k.attempt == attempts[i])
    && (forall i | 0 <= i < |arrivals| && arrivals[i].Entities() == [] :: attempts[i] == 1)
  }

  // ---------- what the lookup returns

  lemma {:induction false} PastAllIsPast(records: Records, es: seq<Entity>, e: Entity, a: nat)
    requires e in es && RecordKey(e, a) in records
    ensures a < PastAll(records, es)
  {
    var n := |es| - 1;
    var attempts := AttemptsOn(records, es[n]);
    if e == es[n] {
      assert RecordKey(e, a) in records && a in attempts;
    } else {
      assert e in es[..n];
      PastAllIsPast(records, es[..n], e, a);
    }
  }

  lemma {:induction false} NoMatch(records: Records, es: seq<Entity>, job: string)
    requires forall e, a | e in es :: CanonicalBatchJobId(records, e, a) != Some(job)
    ensures FirstMatch(records, es, job).None?
  {
    if es != [] {
      NoMatch(records, es[..|es| - 1], job);
      assert es[|es| - 1] in es;
    }
  }

  lemma {:induction false} OneMatch(records: Records, es: seq<Entity>, job: string, n: nat)
    requires forall e, a | e in es :: CanonicalBatchJobId(records, e, a) == Some(job) <==> a == n
    ensures FirstMatch(records, es, job) == if es == [] then None else Some(n)
  {
    if es != [] {
      OneMatch(records, es[..|es| - 1], job, n);
      var e := es[|es| - 1];
      assert e in es && CanonicalBatchJobId(records, e, n) == Some(job);
      assert RecordKey(e, n) in records && n in AttemptsOn(records, e);
      var seen := set a | a in AttemptsOn(records, e) && CanonicalBatchJobId(records, e, a) == Some(job);
      assert seen == {n};
      assert MatchOf(records, e, job) == Some(n);
    }
  }

  lemma EmptyOrNot(es: seq<Entity>)
    ensures es == [] || exists e :: e in es
  {
    if es != [] {
      assert es[0] in es;
    }
  }

  /** A job already seen resolves to its attempt, whatever has been recorded since. */
  lemma SeenJobKeepsItsAttempt(records: Records, arrivals: seq<Arrival>, attempts: seq<nat>, a: Arrival, i: nat)
    requires |attempts| == |arrivals| && Recorded(records, arrivals, attempts) && Stable(arrivals, attempts)
    requires i < |arrivals| && arrivals[i].Job() == a.Job()
    requires forall e :: e in arrivals[i].Entities() <==> e in a.Entities()
    ensures Infer(records, a) == attempts[i]
  {
    forall e, n: nat | e in a.Entities()
      ensures CanonicalBatchJobId(records, e, n) == Some(a.Job()) <==> n == attempts[i]
    {
      if RecordKey(e, n) in records {
        var j :| 0 <= j < |arrivals| && e in arrivals[j].Entities() && n == attempts[j];
      }
    }
    OneMatch(records, a.Entities(), a.Job(), attempts[i]);
    if a.Entities() == [] {
      EmptyOrNot(arrivals[i].Entities());
    }
  }

  /** A new job gets an attempt none of its entities has a record at. */
  lemma NewJobGetsANewAttempt(records: Records, arrivals: seq<Arrival>, attempts: seq<nat>, a: Arrival)
    requires |attempts| == |arrivals| && Recorded(records, arrivals, attempts)
    requires forall i | 0 <= i < |arrivals| :: arrivals[i].Job() != a.Job()
    ensures forall e | e in a.Entities() :: RecordKey(e, Infer(records, a)) !in records
    ensures a.Entities() == [] ==> Infer(records, a) == 1
  {
    forall e, n: nat | e in a.Entities() ensures CanonicalBatchJobId(records, e, n) != Some(a.Job()) {
      if RecordKey(e, n) in records {
        var i :| 0 <= i < |arrivals| && e in arrivals[i].Entities() && n == attempts[i];
      }
    }
    NoMatch(records, a.Entities(), a.Job());
    forall e | e in a.Entities() ensures RecordKey(e, Infer(records, a)) !in records {
      if RecordKey(e, Infer(records, a)) in records {
        PastAllIsPast(records, a.Entities(), e, Infer(records, a));
      }
    }
  }

  // ---------- what handling records

  lemma {:induction false} RecordOwns(w: World, config: Config, d: Delivery, s: ProcessingState, faults: Faults, n: nat, k: RecordKey)
    requires n <= |d.group.Contexts()|
    requires k in w.records && k.attempt == d.group.attempt && CoversWithin(d.group, k.entity, n) ==>
               Owned(w.records[k], d.detail.jobId)
    ensures var after := RecordEntities(w, config, d, s, faults, n).records;
            if k.attempt == d.group.attempt && CoversWithin(d.group, k.entity, n)
            then k in after && Owned(after[k], d.detail.jobId)
            else (k in after <==> k in w.records) && (k in after ==> after[k] == w.records[k])
  {
    hide MovePointer, AppendEvent;
    if n > 0 {
      CoversOneMore(d.group, k.entity, n);
      RecordOwns(w, config, d, s, faults, n - 1, k);
      RecordsOneMore(w, config, d, s, faults, n);
      AppendOwns(RecordEntities(w, config, d, s, faults, n - 1).records, d.group.Contexts()[n - 1], EventOf(d, s),
        BatchFieldsOf(d.detail), d.detail.jobId, k);
    }
  }

  lemma RecordsOneMore(w: World, config: Config, d: Delivery, s: ProcessingState, faults: Faults, n: nat)
    requires 0 < n <= |d.group.Contexts()|
    ensures RecordEntities(w, config, d, s, faults, n).records
         == AppendEvent(RecordEntities(w, config, d, s, faults, n - 1).records, d.group.Contexts()[n - 1], EventOf(d, s),
              BatchFieldsOf(d.detail))
  {
    hide MovePointer, AppendEvent;
  }

  lemma AppendOwns(records: Records, context: JobContext, event: EventRecord, batch: BatchFields, job: string, k: RecordKey)
    requires event.batchJobId == Some(job) && batch.batchJobId == Some(job)
    ensures var after := AppendEvent(records, context, event, batch);
            if k == RecordKeyOf(context)
            then k in after && (k !in records || Owned(records[k], job) ==> Owned(after[k], job))
            else (k in after <==> k in records) && (k in after ==> after[k] == records[k])
  {
  }

  lemma ArrivalCovers(a: Arrival, attempt: nat, e: Entity)
    ensures var group := a.Numbered(attempt).group;
            CoversWithin(group, e, |group.Contexts()|) <==> e in a.Entities()
  {
    var contexts := a.Numbered(attempt).group.Contexts();
    assert |contexts| == |a.Entities()| && forall i | 0 <= i < |contexts| :: contexts[i].Entity() == a.Entities()[i];
  }

  /** Handling an event files it on exactly its entities' records at its attempt. */
  lemma HandledRecords(w: World, config: Config, a: Arrival, k: RecordKey)
    requires var n := Infer(w.records, a);
             k in w.records && k.attempt == n && k.entity in a.Entities() ==> Owned(w.records[k], a.Job())
    ensures var n, after := Infer(w.records, a), Handled(w, config, a).records;
            if k.attempt == n && k.entity in a.Entities() then k in after && Owned(after[k], a.Job())
            else (k in after <==> k in w.records) && (k in after ==> after[k] == w.records[k])
  {
    var n := Infer(w.records, a);
    var d := a.Numbered(n);
    ArrivalCovers(a, n, k.entity);
    RecordOwns(w, config, d, a.state, a.faults, |d.group.Contexts()|, k);
    RoutingKeepsPointers(w, config, d, a.state, a.faults);
  }

  // ---------- whole runs

  /** The attempt inferred next keeps attempts stable, and any record already at it is the job's own. */
  lemma OneMoreAttempt(records: Records, arrivals: seq<Arrival>, attempts: seq<nat>, a: Arrival)
    requires |attempts| == |arrivals| && SameEntities(arrivals + [a])
    requires Recorded(records, arrivals, attempts) && Stable(arrivals, attempts)
    ensures Stable(arrivals + [a], attempts + [Infer(records, a)])
    ensures forall k: RecordKey | k in records && k.attempt == Infer(records, a) && k.entity in a.Entities() ::
              Owned(records[k], a.Job())
  {
    var n, all := Infer(records, a), arrivals + [a];
    assert all[|arrivals|] == a && forall i | 0 <= i < |arrivals| :: all[i] == arrivals[i];
    if i :| 0 <= i < |arrivals| && arrivals[i].Job() == a.Job() {
      assert forall e :: e in all[i].Entities() <==> e in all[|arrivals|].Entities();
      SeenJobKeepsItsAttempt(records, arrivals, attempts, a, i);
      forall k: RecordKey | k in records && k.attempt == n && k.entity in a.Entities() ensures Owned(records[k], a.Job()) {
        assert k == RecordKey(k.entity, attempts[i]);
      }
    } else {
      NewJobGetsANewAttempt(records, arrivals, attempts, a);
      forall k: RecordKey | k.attempt == n && k.entity in a.Entities() ensures k !in records {
        assert k == RecordKey(k.entity, n);
      }
    }
  }

  lemma OneMoreArrival(w: World, config: Config, arrivals: seq<Arrival>, attempts: seq<nat>, a: Arrival)
    requires |attempts| == |arrivals| && SameEntities(arrivals + [a])
    requires Recorded(w.records, arrivals, attempts) && Stable(arrivals, attempts)
    ensures Recorded(Handled(w, config, a).records, arrivals + [a], attempts + [Infer(w.records, a)])
    ensures Stable(arrivals + [a], attempts + [Infer(w.records, a)])
  {
    var n, after := Infer(w.records, a), Handled(w, config, a).records;
    OneMoreAttempt(w.records, arrivals, attempts, a);
    forall k: RecordKey
      ensures if k.attempt == n && k.entity in a.Entities() then k in after && Owned(after[k], a.Job())
              else (k in after <==> k in w.records) && (k in after ==> after[k] == w.records[k])
    {
      HandledRecords(w, config, a, k);
    }
    RecordedAfter(w.records, after, arrivals, attempts, a, n);
  }

  lemma OwnedByOne(r: Record, job: string, other: string)
    requires Owned(r, job) && Owned(r, other)
    ensures job == other
  {
  }

  lemma RecordedAfter(
    before: Records, after: Records, arrivals: seq<Arrival>, attempts: seq<nat>, a: Arrival, n: nat)
    requires |attempts| == |arrivals| && Recorded(before, arrivals, attempts)
    requires forall k: RecordKey ::
               if k.attempt == n && k.entity in a.Entities() then k in after && Owned(after[k], a.Job())
               else (k in after <==> k in before) && (k in after ==> after[k] == before[k])
    requires forall e | e in a.Entities() && RecordKey(e, n) in before :: Owned(before[RecordKey(e, n)], a.Job())
    requires a.Entities() == [] ==> n == 1
    ensures Recorded(after, arrivals + [a], attempts + [n])
  {
    hide Owned;
    var all, numbers := arrivals + [a], attempts + [n];
    assert all[|arrivals|] == a && forall i | 0 <= i < |arrivals| :: all[i] == arrivals[i] && numbers[i] == attempts[i];
    forall i, e | 0 <= i < |all| && e in all[i].Entities()
      ensures RecordKey(e, numbers[i]) in after && Owned(after[RecordKey(e, numbers[i])], all[i].Job())
    {
      if i < |arrivals| && numbers[i] == n && e in a.Entities() {
        OwnedByOne(before[RecordKey(e, n)], arrivals[i].Job(), a.Job());
      }
    }
    forall k | k in after
      ensures exists i | 0 <= i < |all| :: k.entity in all[i].Entities() && k.attempt == numbers[i]
    {
      if k.attempt == n && k.entity in a.Entities() {
        assert k.entity in all[|arrivals|].Entities() && k.attempt == numbers[|arrivals|];
      } else {
        var i :| 0 <= i < |arrivals| && k.entity in arrivals[i].Entities() && k.attempt == attempts[i];
        assert k.entity in all[i].Entities() && k.attempt == numbers[i];
      }
    }
  }

  lemma {:induction false} RunRecords(config: Config, arrivals: seq<Arrival>)
    requires SameEntities(arrivals)
    ensures Recorded(After(config, arrivals).records, arrivals, Attempts(config, arrivals))
    ensures Stable(arrivals, Attempts(config, arrivals))
  {
    if arrivals != [] {
      var n := |arrivals| - 1;
      assert SameEntities(arrivals[..n]);
      RunRecords(config, arrivals[..n]);
      assert arrivals[..n] + [arrivals[n]] == arrivals;
      OneMoreArrival(After(config, arrivals[..n]), config, arrivals[..n], Attempts(config, arrivals[..n]), arrivals[n]);
    }
  }

  /** In every run that numbers each event from the records, all events of one Batch job get one
      attempt, and two Batch jobs that share an entity never get the same. */
  lemma InferredAttemptsAreStableAndDistinct(config: Config, arrivals: seq<Arrival>)
    requires SameEntities(arrivals)
    ensures Stable(arrivals, Attempts(config, arrivals))
    ensures Distinct(arrivals, Attempts(config, arrivals))
  {
    RunRecords(config, arrivals);
  }

  /** A record never mixes the events of two Batch jobs. */
  lemma RecordsAreNotShared(config: Config, arrivals: seq<Arrival>, k: RecordKey)
    requires SameEntities(arrivals) && k in After(config, arrivals).records
    ensures exists i | 0 <= i < |arrivals| ::
              && k.entity in arrivals[i].Entities() && k.attempt == Attempts(config, arrivals)[i]
              && Owned(After(config, arrivals).records[k], arrivals[i].Job())
  {
    RunRecords(config, arrivals);
    var i :| 0 <= i < |arrivals| && k.entity in arrivals[i].Entities() && k.attempt == Attempts(config, arrivals)[i];
    assert k == RecordKey(k.entity, Attempts(config, arrivals)[i]);
  }

  /** Whichever order the next event lists its entities in, it resolves to the same attempt. */
  lemma EntityOrderDoesNotMatter(config: Config, arrivals: seq<Arrival>, a: Arrival, b: Arrival)
    requires SameEntities(arrivals + [a]) && a.Job() == b.Job()
    requires forall e :: e in a.Entities() <==> e in b.Entities()
    ensures Infer(After(config, arrivals).records, a) == Infer(After(config, arrivals).records, b)
  {
    var records, attempts, all := After(config, arrivals).records, Attempts(config, arrivals), arrivals + [a];
    assert all[|arrivals|] == a && forall i | 0 <= i < |arrivals| :: all[i] == arrivals[i];
    assert SameEntities(arrivals) by {
      forall i, j, e | 0 <= i < |arrivals| && 0 <= j < |arrivals| && arrivals[i].Job() == arrivals[j].Job()
        ensures e in arrivals[i].Entities() <==> e in arrivals[j].Entities()
      {
        assert all[i].Job() == all[j].Job();
      }
    }
    RunRecords(config, arrivals);
    if i :| 0 <= i < |arrivals| && arrivals[i].Job() == a.Job() {
      assert forall e :: e in all[i].Entities() <==> e in all[|arrivals|].Entities();
      SeenJobKeepsItsAttempt(records, arrivals, attempts, a, i);
      SeenJobKeepsItsAttempt(records, arrivals, attempts, b, i);
    } else {
      NewJobOrderDoesNotMatter(records, arrivals, attempts, a, b);
    }
  }

  lemma NewJobOrderDoesNotMatter(records: Records, arrivals: seq<Arrival>, attempts: seq<nat>, a: Arrival, b: Arrival)
    requires |attempts| == |arrivals| && Recorded(records, arrivals, attempts) && a.Job() == b.Job()
    requires forall i | 0 <= i < |arrivals| :: arrivals[i].Job() != a.Job()
    requires forall e :: e in a.Entities() <==> e in b.Entities()
    ensures Infer(records, a) == Infer(records, b)
  {
    forall e, n: nat | e in a.Entities() ensures CanonicalBatchJobId(records, e, n) != Some(a.Job()) {
      if RecordKey(e, n) in records {
        var i :| 0 <= i < |arrivals| && e in arrivals[i].Entities() && n == attempts[i];
      }
    }
    NoMatch(records, a.Entities(), a.Job());
    NoMatch(records, b.Entities(), b.Job());
    PastAllOfFewer(records, a.Entities(), b.Entities());
    PastAllOfFewer(records, b.Entities(), a.Entities());
  }

  lemma {:induction false} PastAllOfFewer(records: Records, es: seq<Entity>, fs: seq<Entity>)
    requires forall e | e in es :: e in fs
    ensures PastAll(records, es) <= PastAll(records, fs)
  {
    PastAllIsPositive(records, fs);
    if es != [] {
      var n := |es| - 1;
      PastAllOfFewer(records, es[..n], fs);
      var attempts := AttemptsOn(records, es[n]);
      if attempts != {} {
        var k :| k in records && k.entity == es[n] && k.attempt == Greatest(attempts);
        assert k == RecordKey(es[n], Greatest(attempts)) && es[n] in fs;
        PastAllIsPast(records, fs, es[n], Greatest(attempts));
      }
    }
  }

  lemma {:induction false} PastAllIsPositive(records: Records, es: seq<Entity>)
    ensures PastAll(records, es) >= 1
  {
    if es != [] {
      PastAllIsPositive(records, es[..|es| - 1]);
    }
  }

  // ---------- how far a new job goes

  lemma {:induction false} PastAllIsOnePast(records: Records, es: seq<Entity>)
    ensures PastAll(records, es) == 1
         || exists e, a: nat :: e in es && RecordKey(e, a) in records && PastAll(records, es) == a + 1
  {
    if es != [] {
      var n := |es| - 1;
      var attempts := AttemptsOn(records, es[n]);
      PastAllIsOnePast(records, es[..n]);
      if attempts != {} {
        assert RecordKey(es[n], Greatest(attempts)) in records && es[n] in es;
      }
      if e, a: nat :| e in es[..n] && RecordKey(e, a) in records && PastAll(records, es[..n]) == a + 1 {
        assert e in es;
      }
    }
  }

  ghost predicate Shares(a: Arrival, b: Arrival) {
    exists e :: e in a.Entities() && e in b.Entities()
  }

  /** 1 if no earlier event shares an entity, otherwise one past the greatest attempt of those that do. */
  ghost predicate OnePastTheFurthest(a: Arrival, arrivals: seq<Arrival>, attempts: seq<nat>, n: nat)
    requires |attempts| == |arrivals|
  {
    && (forall i | 0 <= i < |arrivals| && Shares(a, arrivals[i]) :: attempts[i] < n)
    && (if forall i | 0 <= i < |arrivals| :: !Shares(a, arrivals[i]) then n == 1
        else exists i :: 0 <= i < |arrivals| && Shares(a, arrivals[i]) && n == attempts[i] + 1)
  }

  /** What a run gives the event that ends it. */
  ghost function LastAttempt(config: Config, arrivals: seq<Arrival>): nat
    requires arrivals != []
  {
    Attempts(config, arrivals)[|arrivals| - 1]
  }

  /** Every run gives a Batch job it has not seen attempt 1 if no earlier event shares an entity with it,
      and otherwise exactly one past the furthest attempt given to an event that does. */
  lemma NewJobGetsOnePastTheFurthest(config: Config, arrivals: seq<Arrival>, a: Arrival)
    requires SameEntities(arrivals + [a])
    requires forall i | 0 <= i < |arrivals| :: arrivals[i].Job() != a.Job()
    ensures OnePastTheFurthest(a, arrivals, Attempts(config, arrivals), LastAttempt(config, arrivals + [a]))
  {
    hide OnePastTheFurthest, Infer, Recorded, Stable;
    var all, attempts, records := arrivals + [a], Attempts(config, arrivals), After(config, arrivals).records;
    assert all[..|all| - 1] == arrivals && all[|arrivals|] == a;
    EarlierEntitiesAreSame(arrivals, a);
    RunRecords(config, arrivals);
    NewJobIsPastAll(records, arrivals, attempts, a);
    assert LastAttempt(config, all) == Infer(records, a);
  }

  lemma EarlierEntitiesAreSame(arrivals: seq<Arrival>, a: Arrival)
    requires SameEntities(arrivals + [a])
    ensures SameEntities(arrivals)
  {
    var all := arrivals + [a];
    assert forall i | 0 <= i < |arrivals| :: all[i] == arrivals[i];
    forall i, j, e | 0 <= i < |arrivals| && 0 <= j < |arrivals| && arrivals[i].Job() == arrivals[j].Job()
      ensures e in arrivals[i].Entities() <==> e in arrivals[j].Entities()
    {
      assert all[i].Job() == all[j].Job();
    }
  }

  lemma NewJobIsPastAll(records: Records, arrivals: seq<Arrival>, attempts: seq<nat>, a: Arrival)
    requires |attempts| == |arrivals| && Recorded(records, arrivals, attempts)
    requires forall i | 0 <= i < |arrivals| :: arrivals[i].Job() != a.Job()
    ensures OnePastTheFurthest(a, arrivals, attempts, Infer(records, a))
  {
    forall e, n: nat | e in a.Entities() ensures CanonicalBatchJobId(records, e, n) != Some(a.Job()) {
      if RecordKey(e, n) in records {
        var i :| 0 <= i < |arrivals| && e in arrivals[i].Entities() && n == attempts[i];
      }
    }
    NoMatch(records, a.Entities(), a.Job());
    PastAllIsOnePast(records, a.Entities());
    forall i | 0 <= i < |arrivals| && Shares(a, arrivals[i]) ensures attempts[i] < Infer(records, a) {
      var e :| e in a.Entities() && e in arrivals[i].Entities();
      PastAllIsPast(records, a.Entities(), e, attempts[i]);
    }
    if e, n: nat :| e in a.Entities() && RecordKey(e, n) in records && PastAll(records, a.Entities()) == n + 1 {
      var i :| 0 <= i < |arrivals| && e in arrivals[i].Entities() && n == attempts[i];
      assert Shares(a, arrivals[i]);
    }
  }
}
