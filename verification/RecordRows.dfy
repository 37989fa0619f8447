/** From the monitor to the table: the row the rollup makes of a canonical record, and when two
    records share a row (`log_store.py`, `rollup.py`). */
module RecordRows {
  import opened Prelude
  import opened OrderedDict
  import opened Timestamps
  import opened Models
  import opened LogStore
  import opened Monitor
  import opened MonitorRuns
  import opened RecordLog
  import Rows

  /** Every event time is one the monitor's own printing produces. */
  ghost predicate Timed(steps: seq<Step>) {
    forall i | 0 <= i < |steps| && steps[i].Handle? :: IsTimestamp(steps[i].d.eventTime)
  }

  ghost predicate TimedLog(log: seq<Entry>) {
    forall i | 0 <= i < |log| :: IsTimestamp(log[i].event.timestamp)
  }

  ghost predicate TimedRecord(r: Record) {
    forall i | 0 <= i < |r.events| :: IsTimestamp(r.events[i].timestamp)
  }

  /** The record as the rollup parses it. */
  ghost function Parsed(r: Record): Rows.Body
    requires TimedRecord(r)
  {
    Rows.Body(Some(r.context.jobType), r.context.partitionFields, r.context.inputEntityId, r.context.attempt,
      Some(r.currentState),
      seq(|r.events|, i requires 0 <= i < |r.events| =>
        Rows.BodyEvent(r.events[i].state, Some(r.events[i].timestamp), r.events[i].batchJobId, r.events[i].exitCode)),
      Rows.Details(Some(r.context.outputEntityId), r.batchJobId, r.logStreamName, r.createdAt, r.startedAt, r.stoppedAt))
  }

  /** All of a record's entries are of its entity and attempt, at times the run delivered. */
  lemma {:induction false} EntriesAreOwn(step: Step, key: RecordKey, n: nat)
    requires step.Handle? && n <= |step.d.group.Contexts()| && IsTimestamp(step.d.eventTime)
    ensures TimedLog(EntriesOf(step, key, n))
    ensures forall i | 0 <= i < |EntriesOf(step, key, n)| :: RecordKeyOf(EntriesOf(step, key, n)[i].context) == key
  {
    hide IsTimestamp;
    if n > 0 {
      EntriesAreOwn(step, key, n - 1);
    }
  }

  lemma {:induction false} LogIsOwn(steps: seq<Step>, key: RecordKey)
    requires Timed(steps)
    ensures TimedLog(Log(steps, key))
    ensures forall i | 0 <= i < |Log(steps, key)| :: RecordKeyOf(Log(steps, key)[i].context) == key
  {
    hide IsTimestamp, EntriesOf;
    if steps != [] {
      var n := |steps| - 1;
      LogIsOwn(steps[..n], key);
      if steps[n].Handle? {
        EntriesAreOwn(steps[n], key, |steps[n].d.group.Contexts()|);
      }
    }
  }

  /** After any run a record flattens exactly when its entity has every partition key, and its row is
      of its own entity and attempt, at the state and the time of the event delivered to it last,
      straggler or not. */
  lemma RowTellsTheLastDelivery(config: Config, steps: seq<Step>, key: RecordKey, sourceKey: string, names: seq<string>)
    requires Timed(steps) && key in Run(EMPTY_WORLD, config, steps).records
    ensures TimedRecord(Run(EMPTY_WORLD, config, steps).records[key]) && Log(steps, key) != []
    ensures var body := Parsed(Run(EMPTY_WORLD, config, steps).records[key]);
            var last := Log(steps, key)[|Log(steps, key)| - 1].event;
            && (Rows.Flattens(body, names) <==>
                  forall i | 0 <= i < |names| && names[i] != "job_type" :: HasKey(key.entity.partitionFields, names[i]))
            && (Rows.Flattens(body, names) ==>
                  var row := Rows.RowOf(sourceKey, body, names);
                  && row.lastEventTimestamp == last.timestamp && row.currentState == Some(last.state)
                  && row.key.inputEntityId == key.entity.inputEntityId && row.key.attempt == key.attempt
                  && |row.events| == |Log(steps, key)| && row.sourceKey == sourceKey)
  {
    hide IsTimestamp, Run, Log;
    var log, r := Log(steps, key), Run(EMPTY_WORLD, config, steps).records[key];
    RecordIsItsLog(config, steps, key);
    LogIsOwn(steps, key);
    assert RecordKeyOf(log[0].context) == key;
    assert forall i | 0 <= i < |r.events| :: r.events[i] == log[i].event;
    ParsedFlattens(r, names);
  }

  lemma ParsedFlattens(r: Record, names: seq<string>)
    requires TimedRecord(r) && r.events != []
    ensures Rows.Flattens(Parsed(r), names) <==>
              forall i | 0 <= i < |names| && names[i] != "job_type" :: HasKey(r.context.partitionFields, names[i])
  {
    hide IsTimestamp;
    var body := Parsed(r);
    forall i | 0 <= i < |names|
      ensures Rows.PartitionValue(body, names[i]).Some? <==>
                names[i] == "job_type" || HasKey(r.context.partitionFields, names[i])
    {
    }
  }

  /** Whatever a run did before, an event that reaches a record gives its row the event's own state and
      time, its last event, and its log stream and times wherever it has them. */
  lemma RowTellsTheEvent(
    config: Config, steps: seq<Step>, step: Step, key: RecordKey, sourceKey: string, names: seq<string>)
    requires Timed(steps + [step]) && ReachesRecord(step, key)
    requires forall i | 0 <= i < |names| && names[i] != "job_type" :: HasKey(key.entity.partitionFields, names[i])
    ensures var records := Run(EMPTY_WORLD, config, steps + [step]).records;
            && key in records && TimedRecord(records[key]) && Rows.Flattens(Parsed(records[key]), names)
            && RowTells(Rows.RowOf(sourceKey, Parsed(records[key]), names), step, key, sourceKey, names)
  {
    hide IsTimestamp, Run, Parsed, Rows.Flattens, Rows.RowOf, NaturalKeyOf, RowTells;
    var all := steps + [step];
    RecordTellsTheEvent(config, steps, step, key);
    RowTellsTheLastDelivery(config, all, key, sourceKey, names);
    LogIsOwn(all, key);
    RecordIsItsLog(config, all, key);
    var records := Run(EMPTY_WORLD, config, all).records;
    RowHasTheNaturalKey(records[key], sourceKey, names);
    RowOfTold(Run(EMPTY_WORLD, config, steps).records, records, step, key, sourceKey, names);
  }

  ghost predicate RowTells(row: Rows.Row, step: Step, key: RecordKey, sourceKey: string, names: seq<string>)
    requires step.Handle?
  {
    var detail := step.d.detail;
    && row.key == NaturalKeyOf(key, names) && row.sourceKey == sourceKey
    && row.lastEventTimestamp == step.d.eventTime && row.currentState == Some(step.state.name)
    && row.events != []
    && (var last := row.events[|row.events| - 1];
        && last.state == step.state.name && last.timestamp.Some? && last.timestamp.value == step.d.eventTime
        && last.batchJobId == Some(detail.jobId) && last.exitCode == detail.exitCode)
    && (detail.logStreamName.Some? ==> row.details.logStreamName == detail.logStreamName)
    && (detail.createdAt.Some? ==> row.details.createdAt == detail.createdAt)
    && (detail.startedAt.Some? ==> row.details.startedAt == detail.startedAt)
    && (detail.stoppedAt.Some? ==> row.details.stoppedAt == detail.stoppedAt)
  }

  lemma RowOfTold(
    before: Records, after: Records, step: Step, key: RecordKey, sourceKey: string, names: seq<string>)
    requires step.Handle? && Tells(before, after, step, key) && TimedRecord(after[key])
    requires Rows.Flattens(Parsed(after[key]), names)
    requires Rows.RowOf(sourceKey, Parsed(after[key]), names).key == NaturalKeyOf(key, names)
    ensures RowTells(Rows.RowOf(sourceKey, Parsed(after[key]), names), step, key, sourceKey, names)
  {
    hide IsTimestamp, NaturalKeyOf;
  }

  /** A row's columns are the record's, each its own: who wrote the output, the Batch job, the log stream
      and the three times, and every event as it was recorded. */
  lemma RowCarriesTheRecord(r: Record, sourceKey: string, names: seq<string>)
    requires TimedRecord(r) && Rows.Flattens(Parsed(r), names)
    ensures var row := Rows.RowOf(sourceKey, Parsed(r), names);
            && row.details.outputEntityId == Some(r.context.outputEntityId) && row.details.batchJobId == r.batchJobId
            && row.details.logStreamName == r.logStreamName && row.details.createdAt == r.createdAt
            && row.details.startedAt == r.startedAt && row.details.stoppedAt == r.stoppedAt
            && row.currentState == Some(r.currentState) && |row.events| == |r.events|
            && forall i | 0 <= i < |r.events| ::
                 && row.events[i].state == r.events[i].state && row.events[i].timestamp == Some(r.events[i].timestamp)
                 && row.events[i].batchJobId == r.events[i].batchJobId && row.events[i].exitCode == r.events[i].exitCode
  {
    hide IsTimestamp;
  }

  // ---------- records and rows

  function FieldNames(fields: seq<(string, string)>): seq<string> {
    seq(|fields|, i requires 0 <= i < |fields| => fields[i].0)
  }

  /** The entity has exactly the declared partition keys, in the declared order. */
  ghost predicate AsDeclared(e: Entity, names: seq<string>) {
    && DistinctKeys(e.partitionFields) && !HasKey(e.partitionFields, "job_type")
    && names == ["job_type"] + FieldNames(e.partitionFields)
  }

  /** The natural key of an entity's record at an attempt. */
  function NaturalKeyOf(k: RecordKey, names: seq<string>): Rows.NaturalKey {
    Rows.NaturalKey(
      seq(|names|, i requires 0 <= i < |names| =>
        if names[i] == "job_type" then k.entity.jobType
        else var v := Get(k.entity.partitionFields, names[i]); if v.Some? then v.value else ""),
      k.entity.inputEntityId, k.attempt)
  }

  lemma RowHasTheNaturalKey(r: Record, sourceKey: string, names: seq<string>)
    requires TimedRecord(r) && Rows.Flattens(Parsed(r), names)
    ensures Rows.RowOf(sourceKey, Parsed(r), names).key == NaturalKeyOf(RecordKeyOf(r.context), names)
  {
    hide IsTimestamp;
    var row, key := Rows.RowOf(sourceKey, Parsed(r), names), NaturalKeyOf(RecordKeyOf(r.context), names);
    forall i | 0 <= i < |names| ensures row.key.partition[i] == key.partition[i] {
      assert Rows.PartitionValue(Parsed(r), names[i]).Some?;
    }
    assert row.key.partition == key.partition;
  }

  /** When every entity has exactly the declared partition keys, records and rows are one to one. */
  lemma DeclaredFieldsKeepRowsApart(k: RecordKey, k': RecordKey, names: seq<string>)
    requires AsDeclared(k.entity, names) && AsDeclared(k'.entity, names)
    ensures NaturalKeyOf(k, names) == NaturalKeyOf(k', names) <==> k == k'
  {
    if NaturalKeyOf(k, names) == NaturalKeyOf(k', names) {
      var f, g := k.entity.partitionFields, k'.entity.partitionFields;
      var p, q := NaturalKeyOf(k, names).partition, NaturalKeyOf(k', names).partition;
      assert names[0] == "job_type" && p[0] == q[0];
      assert |f| == |names| - 1 == |g|;
      forall i | 0 <= i < |f| ensures f[i] == g[i] {
        assert names[i + 1] == f[i].0 == g[i].0;
        GetIsUnique(f, i);
        GetIsUnique(g, i);
        assert p[i + 1] == q[i + 1];
      }
      assert f == g;
    }
  }

  /** A field that is not declared is part of the object's key and not of the row's: two records then
      share one row, and so do two orders of the same fields. */
  lemma UndeclaredFieldsCollapse(jobType: string, id: string, a: nat)
    ensures var names := ["job_type", "day"];
            var k := RecordKey(EntityOf(jobType, [("day", "1"), ("run", "a")], id), a);
            var k' := RecordKey(EntityOf(jobType, [("day", "1"), ("run", "b")], id), a);
            var k'' := RecordKey(EntityOf(jobType, [("run", "a"), ("day", "1")], id), a);
            && k != k' && NaturalKeyOf(k, names) == NaturalKeyOf(k', names)
            && k != k'' && NaturalKeyOf(k, names) == NaturalKeyOf(k'', names)
  {
    var names := ["job_type", "day"];
    var f, g, h := [("day", "1"), ("run", "a")], [("day", "1"), ("run", "b")], [("run", "a"), ("day", "1")];
    assert f[1] != g[1] && f[0] != h[0];
    assert h[1..] == [("day", "1")];
    assert Get(f, "day") == Get(g, "day") == Get(h, "day") == Some("1");
    var k, k', k'' := RecordKey(EntityOf(jobType, f, id), a), RecordKey(EntityOf(jobType, g, id), a), RecordKey(EntityOf(jobType, h, id), a);
    assert NaturalKeyOf(k, names).partition == [jobType, "1"];
    assert NaturalKeyOf(k', names).partition == [jobType, "1"];
    assert NaturalKeyOf(k'', names).partition == [jobType, "1"];
  }
}
