/** A canonical record is the log of the events delivered for its (entity, attempt), stale ones
    included: which events, in which order, and what the summary fields make of them. */
module RecordLog {
  import opened Prelude
  import opened Models
  import opened LogStore
  import opened Monitor
  import opened MonitorRuns

  /** One event as it reaches one record. */
  datatype Entry = Entry(context: JobContext, event: EventRecord, batch: BatchFields)

  /** The entries an event's first `n` contexts append to the record under `key`. */
  ghost function EntriesOf(step: Step, key: RecordKey, n: nat): seq<Entry>
    requires step.Handle? && n <= |step.d.group.Contexts()|
  {
    if n == 0 then []
    else
      var context := step.d.group.Contexts()[n - 1];
      EntriesOf(step, key, n - 1)
      + if RecordKeyOf(context) == key then [Entry(context, EventOf(step.d, step.state), BatchFieldsOf(step.d.detail))]
        else []
  }

  ghost function Log(steps: seq<Step>, key: RecordKey): seq<Entry> {
    if steps == [] then []
    else
      var step := steps[|steps| - 1];
      Log(steps[..|steps| - 1], key)
      + if step.Handle? then EntriesOf(step, key, |step.d.group.Contexts()|) else []
  }

  function Events(log: seq<Entry>): seq<EventRecord> {
    seq(|log|, i requires 0 <= i < |log| => log[i].event)
  }

  /** The last present value of a field, over a log. */
  ghost predicate IsLastPresent(log: seq<Entry>, field: BatchFields -> Option<string>, value: Option<string>) {
    if value.None? then forall i | 0 <= i < |log| :: field(log[i].batch) == None
    else exists i | 0 <= i < |log| :: field(log[i].batch) == value && forall j | i < j < |log| :: field(log[j].batch) == None
  }

  /** What a record's fields say of the events that made it. */
  ghost predicate Summarises(r: Record, log: seq<Entry>) {
    && log != []
    && r.context == log[0].context
    && r.batchJobId == log[0].batch.batchJobId
    && r.events == Events(log)
    && r.currentState == log[|log| - 1].event.state
    && IsLastPresent(log, (b: BatchFields) => b.logStreamName, r.logStreamName)
    && IsLastPresent(log, (b: BatchFields) => b.createdAt, r.createdAt)
    && IsLastPresent(log, (b: BatchFields) => b.startedAt, r.startedAt)
    && IsLastPresent(log, (b: BatchFields) => b.stoppedAt, r.stoppedAt)
  }

  lemma LastPresentStep(log: seq<Entry>, entry: Entry, field: BatchFields -> Option<string>, value: Option<string>)
    requires IsLastPresent(log, field, value)
    ensures IsLastPresent(log + [entry], field, OrElse(field(entry.batch), value))
  {
    var longer := log + [entry];
    assert longer[|log|] == entry && forall i | 0 <= i < |log| :: longer[i] == log[i];
    if field(entry.batch).Some? {
      assert field(longer[|log|].batch) == field(entry.batch);
    } else if value.Some? {
      var i :| 0 <= i < |log| && field(log[i].batch) == value && forall j | i < j < |log| :: field(log[j].batch) == None;
      assert field(longer[i].batch) == value;
    }
  }

  ghost predicate RecordsAre(records: Records, key: RecordKey, log: seq<Entry>) {
    && (key in records <==> log != [])
    && (key in records ==> Summarises(records[key], log))
  }

  /** Appending extends one record's log by one entry and leaves the others alone. */
  lemma AppendExtends(records: Records, entry: Entry, key: RecordKey, log: seq<Entry>)
    requires RecordsAre(records, key, log)
    ensures RecordsAre(AppendEvent(records, entry.context, entry.event, entry.batch), key,
              if RecordKeyOf(entry.context) == key then log + [entry] else log)
  {
    if RecordKeyOf(entry.context) == key {
      var r := if key in records then records[key] else NewRecord(entry.context, entry.event, entry.batch);
      assert Events(log + [entry]) == Events(log) + [entry.event];
      LastPresentStep(log, entry, (b: BatchFields) => b.logStreamName, r.logStreamName);
      LastPresentStep(log, entry, (b: BatchFields) => b.createdAt, r.createdAt);
      LastPresentStep(log, entry, (b: BatchFields) => b.startedAt, r.startedAt);
      LastPresentStep(log, entry, (b: BatchFields) => b.stoppedAt, r.stoppedAt);
    }
  }

  lemma {:induction false} RecordExtends(
    w: World, config: Config, step: Step, n: nat, key: RecordKey, log: seq<Entry>)
    requires step.Handle? && n <= |step.d.group.Contexts()| && RecordsAre(w.records, key, log)
    ensures RecordsAre(RecordEntities(w, config, step.d, step.state, step.faults, n).records, key,
              log + EntriesOf(step, key, n))
  {
    hide MovePointer;
    if n == 0 {
      assert log + [] == log;
    } else {
      RecordExtends(w, config, step, n - 1, key, log);
      var context, before := step.d.group.Contexts()[n - 1], log + EntriesOf(step, key, n - 1);
      var entry := Entry(context, EventOf(step.d, step.state), BatchFieldsOf(step.d.detail));
      AppendExtends(RecordEntities(w, config, step.d, step.state, step.faults, n - 1).records, entry, key, before);
      assert log + EntriesOf(step, key, n) == if RecordKeyOf(context) == key then before + [entry] else before;
    }
  }

  /** In every run from an empty store, a record exists exactly for the (entity, attempt)s some
      event was delivered for, and holds exactly their log. */
  lemma {:induction false} RecordIsItsLog(config: Config, steps: seq<Step>, key: RecordKey)
    ensures RecordsAre(Run(EMPTY_WORLD, config, steps).records, key, Log(steps, key))
  {
    if steps != [] {
      var n := |steps| - 1;
      RecordIsItsLog(config, steps[..n], key);
      var before, step := Run(EMPTY_WORLD, config, steps[..n]), steps[n];
      if step.Handle? {
        RecordExtends(before, config, step, |step.d.group.Contexts()|, key, Log(steps[..n], key));
        RoutingKeepsPointers(before, config, step.d, step.state, step.faults);
      } else {
        assert Log(steps, key) == Log(steps[..n], key);
      }
    }
  }

  // ---------- the event itself

  /** The event is appended to the record under this key. */
  ghost predicate ReachesRecord(step: Step, key: RecordKey) {
    ReachesWithin(step, key, if step.Handle? then |step.d.group.Contexts()| else 0)
  }

  ghost predicate ReachesWithin(step: Step, key: RecordKey, n: nat) {
    step.Handle? && exists i :: 0 <= i < n <= |step.d.group.Contexts()| && RecordKeyOf(step.d.group.Contexts()[i]) == key
  }

  /** The later value where there is one. */
  function IfPresent(later: Option<string>, earlier: Option<string>): Option<string> {
    match later
    case Some(_) => later
    case None => earlier
  }

  /** What the record under a key says after an event that reached it, in the event's own terms. */
  ghost predicate Tells(before: Records, after: Records, step: Step, key: RecordKey)
    requires step.Handle?
  {
    var detail := step.d.detail;
    && key in after && after[key].events != []
    && after[key].events[|after[key].events| - 1]
         == EventRecord(step.state.name, step.d.eventTime, Some(detail.jobId), detail.exitCode)
    && after[key].currentState == step.state.name
    && after[key].batchJobId == (if key in before then before[key].batchJobId else Some(detail.jobId))
    && after[key].logStreamName == IfPresent(detail.logStreamName, if key in before then before[key].logStreamName else None)
    && after[key].createdAt == IfPresent(detail.createdAt, if key in before then before[key].createdAt else None)
    && after[key].startedAt == IfPresent(detail.startedAt, if key in before then before[key].startedAt else None)
    && after[key].stoppedAt == IfPresent(detail.stoppedAt, if key in before then before[key].stoppedAt else None)
  }

  lemma {:induction false} RecordingTells(w: World, config: Config, step: Step, n: nat, key: RecordKey)
    requires step.Handle? && n <= |step.d.group.Contexts()|
    ensures var after := RecordEntities(w, config, step.d, step.state, step.faults, n).records;
            if ReachesWithin(step, key, n) then Tells(w.records, after, step, key)
            else (key in after <==> key in w.records) && (key in after ==> after[key] == w.records[key])
  {
    hide MovePointer;
    if n > 0 {
      RecordingTells(w, config, step, n - 1, key);
      var middle := RecordEntities(w, config, step.d, step.state, step.faults, n - 1).records;
      AppendTells(w.records, middle, step, n, key);
    }
  }

  lemma AppendTells(before: Records, middle: Records, step: Step, n: nat, key: RecordKey)
    requires step.Handle? && 0 < n <= |step.d.group.Contexts()|
    requires if ReachesWithin(step, key, n - 1) then Tells(before, middle, step, key)
             else (key in middle <==> key in before) && (key in middle ==> middle[key] == before[key])
    ensures var after := AppendEvent(middle, step.d.group.Contexts()[n - 1], EventOf(step.d, step.state), BatchFieldsOf(step.d.detail));
            if ReachesWithin(step, key, n) then Tells(before, after, step, key)
            else (key in after <==> key in before) && (key in after ==> after[key] == before[key])
  {
    var context := step.d.group.Contexts()[n - 1];
    assert ReachesWithin(step, key, n) <==> ReachesWithin(step, key, n - 1) || RecordKeyOf(context) == key;
  }

  /** After any run, an event that reaches a record ends it with its state, time, Batch job and exit code,
      makes its state the current one, and leaves its log stream and times wherever it has them. */
  lemma RecordTellsTheEvent(config: Config, steps: seq<Step>, step: Step, key: RecordKey)
    requires ReachesRecord(step, key)
    ensures Tells(Run(EMPTY_WORLD, config, steps).records, Run(EMPTY_WORLD, config, steps + [step]).records, step, key)
  {
    hide Tells;
    var all := steps + [step];
    assert all[..|all| - 1] == steps && all[|all| - 1] == step;
    var before := Run(EMPTY_WORLD, config, steps);
    RecordingTells(before, config, step, |step.d.group.Contexts()|, key);
    RoutingKeepsPointers(before, config, step.d, step.state, step.faults);
  }

  /** A record only grows: what a run has recorded stays a prefix of what a longer run records. */
  lemma {:induction false} LogGrows(steps: seq<Step>, more: seq<Step>, key: RecordKey)
    ensures Log(steps, key) <= Log(steps + more, key)
  {
    if more == [] {
      assert steps + more == steps;
    } else {
      var n := |more| - 1;
      LogGrows(steps, more[..n], key);
      assert (steps + more)[..|steps + more| - 1] == steps + more[..n];
    }
  }

  // ---------- conservation

  ghost function EventCount(records: Records): nat {
    if records == map[] then 0
    else
      var k :| k in records;
      |records[k].events| + EventCount(records - {k})
  }

  lemma EventCountSplits(records: Records, k: RecordKey)
    requires k in records
    ensures EventCount(records) == |records[k].events| + EventCount(records - {k})
    decreases |records|
  {
    var j :| j in records && EventCount(records) == |records[j].events| + EventCount(records - {j});
    if j != k {
      EventCountSplits(records - {j}, k);
      EventCountSplits(records - {k}, j);
      assert records - {j} - {k} == records - {k} - {j};
    }
  }

  lemma AppendCountsOne(records: Records, entry: Entry)
    ensures EventCount(AppendEvent(records, entry.context, entry.event, entry.batch)) == EventCount(records) + 1
  {
    var key, after := RecordKeyOf(entry.context), AppendEvent(records, entry.context, entry.event, entry.batch);
    EventCountSplits(after, key);
    if key in records {
      EventCountSplits(records, key);
      assert after - {key} == records - {key};
    } else {
      assert after - {key} == records;
    }
  }

  lemma {:induction false} RecordCounts(w: World, config: Config, step: Step, n: nat)
    requires step.Handle? && n <= |step.d.group.Contexts()|
    ensures EventCount(RecordEntities(w, config, step.d, step.state, step.faults, n).records) == EventCount(w.records) + n
  {
    hide MovePointer, AppendEvent, EventCount;
    if n > 0 {
      RecordCounts(w, config, step, n - 1);
      var before := RecordEntities(w, config, step.d, step.state, step.faults, n - 1).records;
      var entry := Entry(step.d.group.Contexts()[n - 1], EventOf(step.d, step.state), BatchFieldsOf(step.d.detail));
      assert RecordEntities(w, config, step.d, step.state, step.faults, n).records
          == AppendEvent(before, entry.context, entry.event, entry.batch);
      AppendCountsOne(before, entry);
    }
  }

  /** Deliveries times entities. */
  function Deliveries(steps: seq<Step>): nat {
    if steps == [] then 0
    else
      var step := steps[|steps| - 1];
      Deliveries(steps[..|steps| - 1]) + if step.Handle? then |step.d.group.inputEntityIds| else 0
  }

  /** No event is lost and none is invented: the events on record are one per delivery and entity. */
  lemma {:induction false} EventsAreConserved(config: Config, steps: seq<Step>)
    ensures EventCount(Run(EMPTY_WORLD, config, steps).records) == Deliveries(steps)
  {
    if steps != [] {
      var n := |steps| - 1;
      EventsAreConserved(config, steps[..n]);
      var before, step := Run(EMPTY_WORLD, config, steps[..n]), steps[n];
      if step.Handle? {
        RecordCounts(before, config, step, |step.d.group.Contexts()|);
        RoutingKeepsPointers(before, config, step.d, step.state, step.faults);
      }
    }
  }
}
