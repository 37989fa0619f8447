/** A reconcile pass that changes nothing: the record of an entity whose last event is a straggler is
    selected before the pass and after it (`lambda_core.py`, `rollup.py`). */
module StragglerPass {
  import opened Prelude
  import opened OrderedDict
  import opened Timestamps
  import Models
  import JobDetails
  import LogStore
  import Monitor
  import MonitorRuns
  import RecordLog
  import RecordRows
  import Keys
  import opened Rows
  import opened Winners
  import opened Queue
  import opened Rollup
  import opened RollupProtocol
  import opened Convergence
  import opened SoloRollup
  import opened ReconcilePass

  // ---------- an execution from the start

  /** One object written, notified of, and rolled up by an invocation that has the queue to itself. */
  lemma RollUpOne(config: RollupConfig, s: System, id: nat, run: nat, path: string, now: int) returns (t: System)
    requires config.maxKeys >= 1 && id !in s.sent && run !in s.runs
    ensures Reaches(config, s, t, now)
    ensures t.table == RollUp(s.table, RowsOf(FetchAll(s.objects, config.names, [path])), now)
    ensures t.objects == s.objects && t.modified == s.modified && t.runs == s.runs && t.dead == s.dead
    ensures t.visible == s.visible - {id} && t.inFlight == s.inFlight - {id}
    ensures t.sent == s.sent[id := Note(Some(path), s.clock)]
  {
    var notify := Notify(id, Some(path));
    ReachesNext(config, s, notify, now);
    var noted := Do(config, s, notify);
    var solo := Solo(config, noted, run, [id], now);
    assert solo.Notes(0) == [] && solo.Notes(1) == [Notification(Some(path))];
    assert FirstSeen([Notification(Some(path))]) == [path];
    t := solo.InvocationAlone();
    ReachesOn(config, s, noted, t, now);
    assert (set i | i in [id]) == {id};
  }

  lemma OneRow(objects: map<string, Content>, names: seq<string>, path: string, body: Body)
    requires path in objects && objects[path] == Content.Parsed(body) && Flattens(body, names)
    ensures RowsOf(FetchAll(objects, names, [path])) == [RowOf(path, body, names)]
  {
    hide Flattens, RowOf;
    var outcomes := FetchAll(objects, names, [path]);
    assert outcomes == [Flattened(RowOf(path, body, names))] && outcomes[..0] == [];
  }

  /** Rolled up into an empty table, a row is all there is. */
  lemma FirstRow(row: Row, now: int)
    ensures RollUp(map[], [row], now) == map[row.key := TableRow(row, now)]
  {
    hide IsTimestamp, Instant;
    var after := RollUp(map[], [row], now);
    OneRowIsNewest(row);
    BatchTakes(map[], Batch([row], now), 0);
    forall key ensures key in after <==> key == row.key {
      RollUpIsAJoin(map[], [row], now, key);
      assert [row][0] == row;
    }
  }

  /** An earlier row of the same key changes nothing. */
  lemma EarlierRow(table: Table, row: Row, now: int)
    requires Instant(row.lastEventTimestamp) < InstantAt(table, row.key)
    ensures RollUp(table, [row], now) == table
  {
    hide IsTimestamp, Instant, RollUp;
    var after := RollUp(table, [row], now);
    forall key ensures (key in after <==> key in table) && (key in table ==> after[key] == table[key]) {
      BatchLeaves(table, Batch([row], now), key);
    }
  }

  /** An object is rolled up, and rewritten later with an earlier last event. The inventory then selects
      it, a pass rolls it up again, and the table, and so everything the inventory selects, is as before. */
  ghost predicate FutilePass(
    config: RollupConfig, before: seq<Action>, since: seq<Action>, inventory: set<Entry>, path: string,
    first: Body, latest: Body)
    requires Flattens(first, config.names)
  {
    && CanAll(config, START, before) && CanAll(config, DoAll(config, START, before), since)
    && var s := DoAll(config, START, before);
       var t := DoAll(config, s, since);
       && s.table == FirstTable(path, first, config.names)
       && s.objects == map[path := Content.Parsed(latest)] && t.objects == s.objects
       && Selected(inventory, s.table, path)
       && NotifiedSince(t, s.clock, path) && t.visible + t.inFlight + t.dead == {} && t.runs == map[]
       && (forall entry, i | entry in inventory && 0 <= i < |since| ::
             since[i].Merge? ==> since[i].now >= entry.lastModified)
       && CameFrom(Batches(config, s, since), path)
       && (forall key :: Selected(inventory, t.table, key) <==> Selected(inventory, s.table, key))
  }

  function FirstTable(path: string, first: Body, names: seq<string>): Table
    requires Flattens(first, names)
  {
    map[RowOf(path, first, names).key := TableRow(RowOf(path, first, names), FIRST_MERGE)]
  }

  /** What the bodies must be: two states of one record, the later written of the earlier event. */
  ghost predicate StragglerBodies(names: seq<string>, path: string, first: Body, latest: Body) {
    && Flattens(first, names) && Flattens(latest, names)
    && RowOf(path, first, names).key == RowOf(path, latest, names).key
    && Instant(RowOf(path, latest, names).lastEventTimestamp) < Instant(RowOf(path, first, names).lastEventTimestamp)
  }

  const FIRST_MERGE := 1
  const REWRITTEN := 2
  const SECOND_MERGE := 3

  lemma StragglerWrittenAfterRollup(config: RollupConfig, path: string, first: Body, latest: Body) returns (s: System)
    requires config.maxKeys >= 1 && StragglerBodies(config.names, path, first, latest)
    ensures Reaches(config, START, s, FIRST_MERGE)
    ensures s.table == FirstTable(path, first, config.names)
    ensures s.objects == map[path := Content.Parsed(latest)] && s.runs == map[] && s.sent.Keys == {0}
    ensures s.visible == {} && s.inFlight == {} && s.dead == {} && ModifiedAt(s, path) == s.clock
  {
    hide IsTimestamp, Instant, RollUp, Flattens, RowOf, Reaches;
    var write, rewrite := Write(path, Some(Content.Parsed(first))), Write(path, Some(Content.Parsed(latest)));
    ReachesNext(config, START, write, FIRST_MERGE);
    var written := Do(config, START, write);
    var rolled := RollUpOne(config, written, 0, 0, path, FIRST_MERGE);
    OneRow(written.objects, config.names, path, first);
    FirstRow(RowOf(path, first, config.names), FIRST_MERGE);
    ReachesOn(config, START, written, rolled, FIRST_MERGE);
    ReachesNext(config, rolled, rewrite, FIRST_MERGE);
    s := Do(config, rolled, rewrite);
    ReachesOn(config, START, rolled, s, FIRST_MERGE);
  }

  lemma PassOverTheStraggler(config: RollupConfig, s: System, path: string, first: Body, latest: Body) returns (t: System)
    requires config.maxKeys >= 1 && StragglerBodies(config.names, path, first, latest)
    requires s.table == FirstTable(path, first, config.names)
    requires s.objects == map[path := Content.Parsed(latest)] && s.runs == map[] && s.sent.Keys == {0}
    requires s.visible == {} && s.inFlight == {} && s.dead == {}
    ensures Reaches(config, s, t, SECOND_MERGE) && t.table == s.table && t.objects == s.objects
    ensures t.modified == s.modified && t.runs == map[]
    ensures t.visible == {} && t.inFlight == {} && t.dead == {} && NotifiedSince(t, s.clock, path)
  {
    hide IsTimestamp, Instant, RollUp, Flattens, RowOf, Reaches;
    t := RollUpOne(config, s, 1, 1, path, SECOND_MERGE);
    OneRow(s.objects, config.names, path, latest);
    EarlierRow(s.table, RowOf(path, latest, config.names), SECOND_MERGE);
    assert 1 in t.sent && t.sent[1].key == Some(path) && !Held(t, 1);
  }

  /** For any two such bodies there is such a pass. */
  lemma StragglerIsFutile(config: RollupConfig, path: string, first: Body, latest: Body)
    returns (before: seq<Action>, since: seq<Action>, inventory: set<Entry>)
    requires config.maxKeys >= 1 && StragglerBodies(config.names, path, first, latest)
    ensures FutilePass(config, before, since, inventory, path, first, latest)
  {
    hide IsTimestamp, Instant, RollUp, Flattens, RowOf, Do, Can;
    var s := StragglerWrittenAfterRollup(config, path, first, latest);
    var t := PassOverTheStraggler(config, s, path, first, latest);
    before :| CanAll(config, START, before) && DoAll(config, START, before) == s && MergesAt(before, FIRST_MERGE);
    since :| CanAll(config, s, since) && DoAll(config, s, since) == t && MergesAt(since, SECOND_MERGE);
    var entry := Entry(0, path, true, false, REWRITTEN);
    inventory := {entry};
    var row := RowOf(path, first, config.names);
    assert Flattens(first, config.names);
    RowKeepsItsPath(path, first, config.names);
    assert RowFrom(s.table, row.key, path) && Listed(inventory, entry) && Matches(s.table, entry);
    var got := FetchedSince(config, before, since, path);
    DoAllKeepsInv(config, START, before);
    DoAllKeepsInv(config, s, since);
    assert Current(config, t, got);
    assert CameFrom(Batches(config, s, since), path);
  }

  lemma RowKeepsItsPath(path: string, body: Body, names: seq<string>)
    requires Flattens(body, names)
    ensures RowOf(path, body, names).sourceKey == path
  {
  }

  // ---------- records of the monitor

  ghost function RecordBody(monitor: Monitor.Config, steps: seq<MonitorRuns.Step>, key: LogStore.RecordKey): Body
    requires var records := MonitorRuns.Run(MonitorRuns.EMPTY_WORLD, monitor, steps).records;
             key in records && RecordRows.TimedRecord(records[key])
  {
    RecordRows.Parsed(MonitorRuns.Run(MonitorRuns.EMPTY_WORLD, monitor, steps).records[key])
  }

  /** Whatever the monitor did before, an event followed by a straggler of the same record gives such a
      pass. */
  lemma EveryStragglerIsFutile(
    monitor: Monitor.Config, steps: seq<MonitorRuns.Step>, late: MonitorRuns.Step, straggler: MonitorRuns.Step,
    key: LogStore.RecordKey, config: RollupConfig, path: string)
    returns (before: seq<Action>, since: seq<Action>, inventory: set<Entry>)
    requires config.maxKeys >= 1
    requires RecordRows.Timed(steps + [late]) && RecordRows.Timed(steps + [late] + [straggler])
    requires RecordLog.ReachesRecord(late, key) && RecordLog.ReachesRecord(straggler, key)
    requires forall i | 0 <= i < |config.names| && config.names[i] != "job_type" ::
               HasKey(key.entity.partitionFields, config.names[i])
    requires IsTimestamp(late.d.eventTime) && IsTimestamp(straggler.d.eventTime)
    requires Instant(straggler.d.eventTime) < Instant(late.d.eventTime)
    ensures var first := MonitorRuns.Run(MonitorRuns.EMPTY_WORLD, monitor, steps + [late]).records;
            key in first && RecordRows.TimedRecord(first[key])
    ensures var latest := MonitorRuns.Run(MonitorRuns.EMPTY_WORLD, monitor, steps + [late] + [straggler]).records;
            key in latest && RecordRows.TimedRecord(latest[key])
    ensures var first := RecordBody(monitor, steps + [late], key);
            var latest := RecordBody(monitor, steps + [late] + [straggler], key);
            Flattens(first, config.names) && FutilePass(config, before, since, inventory, path, first, latest)
  {
    hide IsTimestamp, Instant, Flattens, RowOf, FutilePass, MonitorRuns.Run, RecordRows.Parsed, RecordLog.ReachesRecord;
    RecordRows.RowTellsTheEvent(monitor, steps, late, key, path, config.names);
    RecordRows.RowTellsTheEvent(monitor, steps + [late], straggler, key, path, config.names);
    before, since, inventory := StragglerIsFutile(config, path,
      RecordBody(monitor, steps + [late], key), RecordBody(monitor, steps + [late] + [straggler], key));
  }

  // ---------- a case

  const MONITOR := Monitor.Config(Models.RetryPolicy(3, []), [], [], false, false)
  const GROUP := Models.JobGroup("job", [], ["entity"], "output", 1)
  const RECORD := LogStore.RecordKey(Models.EntityOf("job", [], "entity"), 1)
  const ROLLUP := RollupConfig(["job_type"], 1, 1)

  function StatusEvent(status: string, state: Models.ProcessingState, time: string): MonitorRuns.Step {
    var detail := JobDetails.Detail("batch-job", status, None, None, None, None, None, None);
    MonitorRuns.Handle(Monitor.Delivery(detail, time, GROUP), state, Monitor.Faults({}, {}))
  }

  lemma TwoInstants() returns (early: Timestamp, late: Timestamp)
    ensures Instant(early) < Instant(late)
  {
    var next := EPOCH.(second := 1);
    InstantOfText(EPOCH);
    InstantOfText(next);
    assert Days(EPOCH) == Days(next);
    early, late := Isoformat(EPOCH, UTC), Isoformat(next, UTC);
  }

  lemma StatusEventIsLegal(status: string, state: Models.ProcessingState, time: Timestamp)
    requires (status == "SUCCEEDED" && state == Models.SUCCESS) || (status == "RUNNING" && state == Models.AWAITING)
    ensures MonitorRuns.LegalStep(MONITOR, StatusEvent(status, state, time))
    ensures RecordLog.ReachesRecord(StatusEvent(status, state, time), RECORD)
    ensures IsTimestamp(StatusEvent(status, state, time).d.eventTime)
  {
    var step := StatusEvent(status, state, time);
    assert LogStore.RecordKeyOf(step.d.group.Contexts()[0]) == RECORD;
  }

  /** The next pass need not match fewer keys: a job succeeds and is rolled up, a late event of its
      running state is appended, and the pass over what the inventory then selects leaves the selection
      as it was. */
  lemma NextPassMayMatchAsMany() returns (
    steps: seq<MonitorRuns.Step>, before: seq<Action>, since: seq<Action>, inventory: set<Entry>, path: string)
    ensures path == Keys.CanonicalKey("", RECORD)
    ensures |steps| == 2 && MonitorRuns.ValidConfig(MONITOR) && MonitorRuns.Legal(MONITOR, steps) && RecordRows.Timed(steps)
    ensures forall n | 0 < n <= 2 ::
              var records := MonitorRuns.Run(MonitorRuns.EMPTY_WORLD, MONITOR, steps[..n]).records;
              RECORD in records && RecordRows.TimedRecord(records[RECORD])
    ensures var first, latest := RecordBody(MONITOR, steps[..1], RECORD), RecordBody(MONITOR, steps[..2], RECORD);
            Flattens(first, ROLLUP.names) && FutilePass(ROLLUP, before, since, inventory, path, first, latest)
  {
    hide IsTimestamp, Instant, Flattens, FutilePass, MonitorRuns.Run, RecordRows.TimedRecord;
    var early, late := TwoInstants();
    var done := StatusEvent("SUCCEEDED", Models.SUCCESS, late);
    var straggler := StatusEvent("RUNNING", Models.AWAITING, early);
    StatusEventIsLegal("SUCCEEDED", Models.SUCCESS, late);
    StatusEventIsLegal("RUNNING", Models.AWAITING, early);
    steps, path := [done, straggler], Keys.CanonicalKey("", RECORD);
    assert steps[..1] == [] + [done] && steps[..2] == [] + [done] + [straggler];
    before, since, inventory := EveryStragglerIsFutile(MONITOR, [], done, straggler, RECORD, ROLLUP, path);
  }
}
