/** Canonical records as table rows: fetching, flattening, deduplicating and merging them
    (`rollup.py`, `rollup_schema.py`). */
module Rows {
  import opened Prelude
  import opened OrderedDict
  import opened Text
  import opened Timestamps

  datatype BodyEvent = BodyEvent(state: string, timestamp: Option<Timestamp>, batchJobId: Option<string>, exitCode: Option<int>)

  datatype Details = Details(
    outputEntityId: Option<string>, batchJobId: Option<string>, logStreamName: Option<string>,
    createdAt: Option<string>, startedAt: Option<string>, stoppedAt: Option<string>)

  /** A parsed canonical record, any of it possibly absent but what its S3 key is built from. */
  datatype Body = Body(
    jobType: Option<string>, partitionFields: Dict<string, string>, inputEntityId: string, attempt: int,
    currentState: Option<string>, events: seq<BodyEvent>, details: Details)

  /** What the MERGE joins on: partition values, input entity and attempt. */
  datatype NaturalKey = NaturalKey(partition: seq<string>, inputEntityId: string, attempt: int)

  datatype Row = Row(
    key: NaturalKey, currentState: Option<string>, events: seq<BodyEvent>, lastEventTimestamp: Timestamp,
    details: Details, sourceKey: string)

  // ---------- flattening

  function PartitionValue(body: Body, name: string): Option<string> {
    if name == "job_type" then body.jobType else Get(body.partitionFields, name)
  }

  predicate Flattens(body: Body, names: seq<string>) {
    && body.events != []
    && (forall i | 0 <= i < |names| :: PartitionValue(body, names[i]).Some?)
    && body.events[|body.events| - 1].timestamp.Some?
  }

  function PartitionValues(body: Body, names: seq<string>): seq<string>
    requires forall i | 0 <= i < |names| :: PartitionValue(body, names[i]).Some?
  {
    seq(|names|, i requires 0 <= i < |names| => PartitionValue(body, names[i]).value)
  }

  function RowOf(sourceKey: string, body: Body, names: seq<string>): Row
    requires Flattens(body, names)
  {
    Row(NaturalKey(PartitionValues(body, names), body.inputEntityId, body.attempt), body.currentState, body.events,
      body.events[|body.events| - 1].timestamp.value, body.details, sourceKey)
  }

  /** `record_to_row`; None where it raises. */
  method RecordToRow(sourceKey: string, body: Body, names: seq<string>) returns (r: Option<Row>)
    ensures r == if Flattens(body, names) then Some(RowOf(sourceKey, body, names)) else None
  {
    if body.events == [] {
      return None;
    }
    var values: seq<string> := [];
    for i := 0 to |names|
      invariant |values| == i
      invariant forall k | 0 <= k < i :: PartitionValue(body, names[k]) == Some(values[k])
    {
      var value := PartitionValue(body, names[i]);
      if value.None? {
        return None;
      }
      values := values + [value.value];
    }
    var last := body.events[|body.events| - 1];
    if last.timestamp.None? {
      return None;
    }
    assert values == PartitionValues(body, names);
    r := Some(Row(NaturalKey(values, body.inputEntityId, body.attempt), body.currentState, body.events,
                last.timestamp.value, body.details, sourceKey));
  }

  // ---------- fetching

  /** An object's contents, or something that does not parse. */
  datatype Content = Parsed(body: Body) | Unreadable

  datatype Outcome = Flattened(row: Row) | Missing | Malformed

  function Fetch(objects: map<string, Content>, names: seq<string>, key: string): Outcome {
    if key !in objects then Missing
    else if objects[key].Parsed? && Flattens(objects[key].body, names) then Flattened(RowOf(key, objects[key].body, names))
    else Malformed
  }

  function RowsOf(outcomes: seq<Outcome>): seq<Row> {
    if outcomes == [] then []
    else
      var before, last := RowsOf(outcomes[..|outcomes| - 1]), outcomes[|outcomes| - 1];
      if last.Flattened? then before + [last.row] else before
  }

  function FetchAll(objects: map<string, Content>, names: seq<string>, keys: seq<string>): seq<Outcome> {
    seq(|keys|, i requires 0 <= i < |keys| => Fetch(objects, names, keys[i]))
  }

  function Count(outcomes: seq<Outcome>, outcome: Outcome): nat {
    multiset(outcomes)[outcome]
  }

  datatype FetchResult = FetchResult(rows: seq<Row>, missing: nat, malformed: nat)

  /** `fetch_rows`, one key after another. A GET refused for another reason than a missing object
      ends it. */
  method FetchRows(objects: map<string, Content>, keys: seq<string>, names: seq<string>, refused: set<string>)
    returns (r: Result<FetchResult, string>)
    ensures r.Err? <==> exists k | k in keys :: k in refused
    ensures r.Ok? ==>
              var outcomes := FetchAll(objects, names, keys);
              r.value == FetchResult(RowsOf(outcomes), Count(outcomes, Missing), Count(outcomes, Malformed))
  {
    hide RowOf, Flattens;
    var rows: seq<Row>, missing: nat, malformed: nat := [], 0, 0;
    ghost var outcomes := FetchAll(objects, names, keys);
    for i := 0 to |keys|
      invariant forall k | 0 <= k < i :: keys[k] !in refused
      invariant rows == RowsOf(outcomes[..i])
      invariant missing == Count(outcomes[..i], Missing) && malformed == Count(outcomes[..i], Malformed)
    {
      assert outcomes[..i + 1] == outcomes[..i] + [outcomes[i]];
      if keys[i] in refused {
        return Err("get refused");
      }
      if keys[i] !in objects {
        missing := missing + 1;
      } else {
        var row := None;
        if objects[keys[i]].Parsed? {
          row := RecordToRow(keys[i], objects[keys[i]].body, names);
        }
        if row.Some? {
          rows := rows + [row.value];
        } else {
          malformed := malformed + 1;
        }
      }
    }
    assert outcomes[..|keys|] == outcomes;
    r := Ok(FetchResult(rows, missing, malformed));
  }

  /** Every outcome is a row, a missing object or a malformed one, and no row is lost. */
  lemma {:induction false} OutcomesAreAccountedFor(outcomes: seq<Outcome>)
    ensures |RowsOf(outcomes)| + Count(outcomes, Missing) + Count(outcomes, Malformed) == |outcomes|
    ensures forall row :: row in RowsOf(outcomes) <==> Flattened(row) in outcomes
  {
    if outcomes != [] {
      var n := |outcomes| - 1;
      OutcomesAreAccountedFor(outcomes[..n]);
      assert outcomes == outcomes[..n] + [outcomes[n]];
    }
  }

  /** The positions of the keys without an object, and of those whose object does not give a row. */
  function AbsentKeys(objects: map<string, Content>, keys: seq<string>): set<nat> {
    set i: nat | i < |keys| && keys[i] !in objects
  }

  function UnusableKeys(objects: map<string, Content>, names: seq<string>, keys: seq<string>): set<nat> {
    set i: nat | i < |keys| && keys[i] in objects
                 && (objects[keys[i]].Unreadable? || !Flattens(objects[keys[i]].body, names))
  }

  /** Missing are exactly the keys without an object, malformed exactly those whose object gives no row, and
      every other key gives its own row. */
  lemma {:induction false} CountsAreExact(objects: map<string, Content>, names: seq<string>, keys: seq<string>)
    ensures var outcomes := FetchAll(objects, names, keys);
            && Count(outcomes, Missing) == |AbsentKeys(objects, keys)|
            && Count(outcomes, Malformed) == |UnusableKeys(objects, names, keys)|
            && |RowsOf(outcomes)| == |keys| - |AbsentKeys(objects, keys)| - |UnusableKeys(objects, names, keys)|
  {
    hide Flattens, RowOf, Fetch, Count, AbsentKeys, UnusableKeys;
    var outcomes := FetchAll(objects, names, keys);
    if keys == [] {
      NoKeys(objects, names);
    } else {
      var n := |keys| - 1;
      CountsAreExact(objects, names, keys[..n]);
      assert outcomes == FetchAll(objects, names, keys[..n]) + [Fetch(objects, names, keys[n])];
      OneKeyMore(objects, names, keys);
      OneOutcomeMore(FetchAll(objects, names, keys[..n]), Fetch(objects, names, keys[n]));
    }
    OutcomesAreAccountedFor(outcomes);
  }

  lemma NoKeys(objects: map<string, Content>, names: seq<string>)
    ensures AbsentKeys(objects, []) == {} && UnusableKeys(objects, names, []) == {}
    ensures FetchAll(objects, names, []) == [] && Count([], Missing) == 0 && Count([], Malformed) == 0
  {
  }

  lemma OneOutcomeMore(outcomes: seq<Outcome>, outcome: Outcome)
    ensures Count(outcomes + [outcome], Missing) == Count(outcomes, Missing) + (if outcome.Missing? then 1 else 0)
    ensures Count(outcomes + [outcome], Malformed) == Count(outcomes, Malformed) + (if outcome.Malformed? then 1 else 0)
  {
  }

  lemma OneKeyMore(objects: map<string, Content>, names: seq<string>, keys: seq<string>)
    requires keys != []
    ensures var n, last := |keys| - 1, Fetch(objects, names, keys[|keys| - 1]);
            && |AbsentKeys(objects, keys)| == |AbsentKeys(objects, keys[..n])| + (if last.Missing? then 1 else 0)
            && |UnusableKeys(objects, names, keys)|
                 == |UnusableKeys(objects, names, keys[..n])| + (if last.Malformed? then 1 else 0)
  {
    hide Flattens, RowOf;
    var n := |keys| - 1;
    assert forall i | 0 <= i < n :: keys[..n][i] == keys[i];
    OneElementMore(AbsentKeys(objects, keys), AbsentKeys(objects, keys[..n]), n, Fetch(objects, names, keys[n]).Missing?);
    OneElementMore(UnusableKeys(objects, names, keys), UnusableKeys(objects, names, keys[..n]), n,
                   Fetch(objects, names, keys[n]).Malformed?);
  }

  lemma OneElementMore(all: set<nat>, before: set<nat>, n: nat, last: bool)
    requires n !in before && (forall i :: i in all <==> i in before || (i == n && last))
    ensures |all| == |before| + (if last then 1 else 0)
  {
    assert all == before + (if last then {n} else {});
  }

  /** Rows come in the order of their keys. */
  lemma {:induction false} RowsInOrder(outcomes: seq<Outcome>, i: nat, j: nat) returns (p: nat, q: nat)
    requires i < j < |RowsOf(outcomes)|
    ensures p < q < |outcomes|
    ensures outcomes[p] == Flattened(RowsOf(outcomes)[i]) && outcomes[q] == Flattened(RowsOf(outcomes)[j])
  {
    var n := |outcomes| - 1;
    var before := RowsOf(outcomes[..n]);
    if j < |before| {
      p, q := RowsInOrder(outcomes[..n], i, j);
    } else {
      OutcomesAreAccountedFor(outcomes[..n]);
      assert before[i] in before;
      p :| 0 <= p < n && outcomes[..n][p] == Flattened(before[i]);
      q := n;
    }
  }

  // ---------- deduplicating

  /** Keep the row with the greatest timestamp text under each natural key, the first of equals. */
  function Newest(rows: seq<Row>): Dict<NaturalKey, Row> {
    if rows == [] then []
    else
      var before, row := Newest(rows[..|rows| - 1]), rows[|rows| - 1];
      var current := Get(before, row.key);
      if current.None? || LexLess(current.value.lastEventTimestamp, row.lastEventTimestamp)
      then Put(before, row.key, row) else before
  }

  function Deduped(rows: seq<Row>): seq<Row> {
    seq(|Newest(rows)|, i requires 0 <= i < |Newest(rows)| => Newest(rows)[i].1)
  }

  /** `dedupe_rows_by_natural_key` */
  method DedupeRowsByNaturalKey(rows: seq<Row>) returns (deduped: seq<Row>)
    ensures deduped == Deduped(rows)
  {
    hide LexLess, Get, Put, IsTimestamp;
    var newest: Dict<NaturalKey, Row> := [];
    for i := 0 to |rows|
      invariant newest == Newest(rows[..i])
    {
      assert rows[..i + 1][..i] == rows[..i];
      var row := rows[i];
      var current := Get(newest, row.key);
      if current.None? || LexLess(current.value.lastEventTimestamp, row.lastEventTimestamp) {
        newest := Put(newest, row.key, row);
      }
    }
    assert rows[..|rows|] == rows;
    deduped := seq(|newest|, i requires 0 <= i < |newest| => newest[i].1);
  }

  /** `row` is one of the rows of its key that no other of them is later than. */
  ghost predicate IsNewest(rows: seq<Row>, row: Row) {
    row in rows && forall other | other in rows && other.key == row.key :: Instant(other.lastEventTimestamp) <= Instant(row.lastEventTimestamp)
  }

  ghost predicate KeyIn(rows: seq<Row>, key: NaturalKey) {
    exists row :: row in rows && row.key == key
  }

  lemma {:induction false} NewestHasDistinctKeys(rows: seq<Row>)
    ensures DistinctKeys(Newest(rows))
  {
    if rows != [] {
      var n := |rows| - 1;
      NewestHasDistinctKeys(rows[..n]);
      PutKeepsDistinct(Newest(rows[..n]), rows[n].key, rows[n]);
    }
  }

  ghost predicate FoundNewest(rows: seq<Row>, key: NaturalKey, r: Option<Row>) {
    if r.None? then !KeyIn(rows, key) else r.value.key == key && IsNewest(rows, r.value)
  }

  lemma {:induction false} NewestOfEachKey(rows: seq<Row>, key: NaturalKey)
    ensures FoundNewest(rows, key, Get(Newest(rows), key))
  {
    if rows != [] {
      var n := |rows| - 1;
      NewestOfEachKey(rows[..n], key);
      assert rows == rows[..n] + [rows[n]];
      NewestOneMore(Newest(rows[..n]), rows[n], key);
      OneRowMore(rows[..n], rows[n], key, Get(Newest(rows[..n]), key));
    }
  }

  /** What the dictionary holds under a key after one more row. */
  lemma NewestOneMore(before: Dict<NaturalKey, Row>, row: Row, key: NaturalKey)
    ensures var current := Get(before, row.key);
            var better := current.None? || LexLess(current.value.lastEventTimestamp, row.lastEventTimestamp);
            Get(if better then Put(before, row.key, row) else before, key)
            == if key == row.key && better then Some(row) else Get(before, key)
  {
    GetPut(before, row.key, row, key);
  }

  /** Row `i` is the first of those of its key with the greatest timestamp text. */
  ghost predicate IsFirstNewest(rows: seq<Row>, i: nat) {
    && i < |rows|
    && forall j | 0 <= j < |rows| && rows[j].key == rows[i].key ::
         && !LexLess(rows[i].lastEventTimestamp, rows[j].lastEventTimestamp)
         && (j < i ==> LexLess(rows[j].lastEventTimestamp, rows[i].lastEventTimestamp))
  }

  /** The dictionary's row of a key is the first of its rows with the greatest text. */
  ghost predicate FirstKept(rows: seq<Row>, key: NaturalKey, r: Option<Row>) {
    if r.None? then forall j | 0 <= j < |rows| :: rows[j].key != key
    else exists i: nat :: IsFirstNewest(rows, i) && rows[i] == r.value && rows[i].key == key
  }

  lemma {:induction false} DedupeKeepsTheFirst(rows: seq<Row>, key: NaturalKey)
    ensures FirstKept(rows, key, Get(Newest(rows), key))
  {
    if rows != [] {
      var n := |rows| - 1;
      DedupeKeepsTheFirst(rows[..n], key);
      NewestOneMore(Newest(rows[..n]), rows[n], key);
      FirstKeptOneMore(rows, key, Get(Newest(rows[..n]), key));
    }
  }

  lemma FirstKeptOneMore(rows: seq<Row>, key: NaturalKey, before: Option<Row>)
    requires rows != [] && FirstKept(rows[..|rows| - 1], key, before)
    ensures var row := rows[|rows| - 1];
            FirstKept(rows, key,
              if key == row.key && (before.None? || LexLess(before.value.lastEventTimestamp, row.lastEventTimestamp))
              then Some(row) else before)
  {
    hide LexLess, IsTimestamp;
    var n := |rows| - 1;
    if before.Some? {
      var i: nat :| IsFirstNewest(rows[..n], i) && rows[..n][i] == before.value && rows[..n][i].key == key;
      FirstNewestOneMore(rows, i);
    } else {
      FirstOfItsKey(rows);
      assert forall j | 0 <= j < n :: rows[..n][j] == rows[j];
    }
  }

  lemma FirstOfItsKey(rows: seq<Row>)
    requires rows != []
    ensures var n := |rows| - 1;
            (forall j | 0 <= j < n :: rows[j].key != rows[n].key) ==> IsFirstNewest(rows, n)
  {
    hide LexLess, IsTimestamp;
    LexIrreflexive(rows[|rows| - 1].lastEventTimestamp);
  }

  /** A later row of the key takes over, and any other leaves the first newest as it was. */
  lemma FirstNewestOneMore(rows: seq<Row>, i: nat)
    requires rows != [] && IsFirstNewest(rows[..|rows| - 1], i)
    ensures var n := |rows| - 1;
            if rows[n].key == rows[i].key && LexLess(rows[i].lastEventTimestamp, rows[n].lastEventTimestamp)
            then IsFirstNewest(rows, n) else IsFirstNewest(rows, i)
  {
    hide LexLess, IsTimestamp;
    var n := |rows| - 1;
    LexIrreflexive(rows[n].lastEventTimestamp);
    forall j | 0 <= j < n && rows[j].key == rows[i].key
      ensures !LexLess(rows[i].lastEventTimestamp, rows[j].lastEventTimestamp)
      ensures j < i ==> LexLess(rows[j].lastEventTimestamp, rows[i].lastEventTimestamp)
    {
      assert rows[..n][j] == rows[j] && rows[..n][i] == rows[i];
    }
    if rows[n].key == rows[i].key && LexLess(rows[i].lastEventTimestamp, rows[n].lastEventTimestamp) {
      LaterThanAll(rows, i);
    }
  }

  lemma LaterThanAll(rows: seq<Row>, i: nat)
    requires i < |rows| && LexLess(rows[i].lastEventTimestamp, rows[|rows| - 1].lastEventTimestamp)
    requires forall j | 0 <= j < |rows| - 1 && rows[j].key == rows[i].key ::
               !LexLess(rows[i].lastEventTimestamp, rows[j].lastEventTimestamp)
    ensures forall j | 0 <= j < |rows| - 1 && rows[j].key == rows[i].key ::
              && LexLess(rows[j].lastEventTimestamp, rows[|rows| - 1].lastEventTimestamp)
              && !LexLess(rows[|rows| - 1].lastEventTimestamp, rows[j].lastEventTimestamp)
  {
    hide LexLess, IsTimestamp;
    forall j | 0 <= j < |rows| - 1 && rows[j].key == rows[i].key
      ensures LexLess(rows[j].lastEventTimestamp, rows[|rows| - 1].lastEventTimestamp)
      ensures !LexLess(rows[|rows| - 1].lastEventTimestamp, rows[j].lastEventTimestamp)
    {
      LexBelow(rows[j].lastEventTimestamp, rows[i].lastEventTimestamp, rows[|rows| - 1].lastEventTimestamp);
    }
  }

  lemma OneRowMore(before: seq<Row>, row: Row, key: NaturalKey, current: Option<Row>)
    requires FoundNewest(before, key, current)
    ensures row.key != key ==> FoundNewest(before + [row], key, current)
    ensures row.key == key ==>
              FoundNewest(before + [row], key,
                if current.None? || LexLess(current.value.lastEventTimestamp, row.lastEventTimestamp) then Some(row) else current)
  {
    var rows := before + [row];
    assert forall r :: r in rows <==> r in before || r == row;
    if row.key == key && current.Some? {
      NewerTextIsNotEarlier(current.value.lastEventTimestamp, row.lastEventTimestamp);
    }
  }

  /** At most one source row to each target row. */
  ghost predicate OnePerKey(rows: seq<Row>) {
    forall i, j | 0 <= i < j < |rows| :: rows[i].key != rows[j].key
  }

  lemma EntryIsNewest(rows: seq<Row>, i: nat)
    requires i < |Newest(rows)|
    ensures Deduped(rows)[i].key == Newest(rows)[i].0 && IsNewest(rows, Deduped(rows)[i])
  {
    NewestHasDistinctKeys(rows);
    NewestOfEachKey(rows, Newest(rows)[i].0);
    GetIsUnique(Newest(rows), i);
  }

  lemma DedupeKeepsKeys(rows: seq<Row>, key: NaturalKey)
    ensures KeyIn(Deduped(rows), key) <==> KeyIn(rows, key)
  {
    var d, deduped := Newest(rows), Deduped(rows);
    if KeyIn(rows, key) {
      NewestOfEachKey(rows, key);
      var i :| 0 <= i < |d| && d[i] == (key, Get(d, key).value);
      EntryIsNewest(rows, i);
      assert deduped[i] in deduped;
    }
    if KeyIn(deduped, key) {
      var i :| 0 <= i < |deduped| && deduped[i].key == key;
      EntryIsNewest(rows, i);
    }
  }

  /** Deduplication drops no natural key, leaves each once, and keeps a row no other row of the
      key is later than. */
  lemma DedupeKeepsTheNewest(rows: seq<Row>)
    ensures OnePerKey(Deduped(rows))
    ensures forall key :: KeyIn(Deduped(rows), key) <==> KeyIn(rows, key)
    ensures forall row | row in Deduped(rows) :: IsNewest(rows, row)
  {
    NewestHasDistinctKeys(rows);
    forall i | 0 <= i < |Newest(rows)|
      ensures Deduped(rows)[i].key == Newest(rows)[i].0 && IsNewest(rows, Deduped(rows)[i])
    {
      EntryIsNewest(rows, i);
    }
    forall key ensures KeyIn(Deduped(rows), key) <==> KeyIn(rows, key) {
      DedupeKeepsKeys(rows, key);
    }
  }

  // ---------- merging

  datatype TableRow = TableRow(row: Row, rolledUpAt: int)

  type Table = map<NaturalKey, TableRow>

  /** The staged row the MERGE matches to a natural key. */
  function SourceFor(staged: seq<Row>, key: NaturalKey): (r: Option<Row>)
    ensures r.Some? ==> r.value in staged && r.value.key == key
    ensures r.None? ==> !KeyIn(staged, key)
  {
    if staged == [] then None
    else if staged[0].key == key then Some(staged[0])
    else SourceFor(staged[1..], key)
  }

  ghost function KeysIn(rows: seq<Row>): set<NaturalKey> {
    set row | row in rows :: row.key
  }

  /** The MERGE: a matched row is replaced unless it is later than the source, an unmatched source
      row is inserted, and everything else stays. */
  ghost function Merge(table: Table, staged: seq<Row>, now: int): Table
    requires OnePerKey(staged)
  {
    map key | key in table.Keys + KeysIn(staged) ::
      var source := SourceFor(staged, key);
      if source.Some?
         && (key !in table || Instant(source.value.lastEventTimestamp) >= Instant(table[key].row.lastEventTimestamp))
      then TableRow(source.value, now) else table[key]
  }

  ghost function InstantAt(table: Table, key: NaturalKey): int {
    if key in table then Instant(table[key].row.lastEventTimestamp) else -1
  }

  ghost function RollUp(table: Table, rows: seq<Row>, now: int): Table {
    DedupeKeepsTheNewest(rows);
    Merge(table, Deduped(rows), now)
  }

  /** One natural key before and after rows are rolled up. */
  ghost predicate JoinedAt(table: Table, rows: seq<Row>, now: int, after: Table, key: NaturalKey) {
    && (key in after <==> key in table || KeyIn(rows, key))
    && InstantAt(table, key) <= InstantAt(after, key)
    && (forall row | row in rows && row.key == key :: Instant(row.lastEventTimestamp) <= InstantAt(after, key))
    && (key in after ==>
          || (key in table && after[key] == table[key])
          || (after[key].row in rows && after[key].row.key == key && after[key].rolledUpAt == now))
  }

  lemma MergeAt(table: Table, staged: seq<Row>, now: int, key: NaturalKey)
    requires OnePerKey(staged)
    ensures var source, after := SourceFor(staged, key), Merge(table, staged, now);
            && (key in after <==> key in table || source.Some?)
            && (source.None? && key in table ==> after[key] == table[key])
            && (source.Some? ==>
                  after[key] == if Instant(source.value.lastEventTimestamp) >= InstantAt(table, key)
                                then TableRow(source.value, now) else table[key])
  {
    assert key in KeysIn(staged) <==> KeyIn(staged, key);
  }

  /** One dedupe and MERGE: every natural key ends at the latest of what it had and what came. */
  lemma RollUpIsAJoin(table: Table, rows: seq<Row>, now: int, key: NaturalKey)
    ensures JoinedAt(table, rows, now, RollUp(table, rows, now), key)
  {
    DedupeKeepsTheNewest(rows);
    var staged, source := Deduped(rows), SourceFor(Deduped(rows), key);
    MergeAt(table, staged, now, key);
    assert KeyIn(staged, key) <==> KeyIn(rows, key);
    if source.Some? {
      assert IsNewest(rows, source.value);
    }
  }

  // ---------- any batches, in any order, with any replays

  datatype Batch = Batch(rows: seq<Row>, now: int)

  ghost function RollUpAll(table: Table, batches: seq<Batch>): Table {
    if batches == [] then table
    else RollUp(RollUpAll(table, batches[..|batches| - 1]), batches[|batches| - 1].rows, batches[|batches| - 1].now)
  }

  ghost predicate Came(batches: seq<Batch>, row: Row) {
    exists i :: 0 <= i < |batches| && row in batches[i].rows
  }

  lemma CameOneMore(batches: seq<Batch>, row: Row)
    requires batches != []
    ensures Came(batches, row) <==> Came(batches[..|batches| - 1], row) || row in batches[|batches| - 1].rows
  {
    var n := |batches| - 1;
    if Came(batches[..n], row) {
      var i :| 0 <= i < n && row in batches[..n][i].rows;
      assert row in batches[i].rows;
    }
    if Came(batches, row) && row !in batches[n].rows {
      var i :| 0 <= i < |batches| && row in batches[i].rows;
      assert row in batches[..n][i].rows;
    }
  }

  /** The table after some batches against what it was and what came, at one natural key. */
  ghost predicate Joined(table: Table, batches: seq<Batch>, after: Table, key: NaturalKey) {
    && (key in table ==> key in after)
    && InstantAt(table, key) <= InstantAt(after, key)
    && (forall row | Came(batches, row) && row.key == key ::
          key in after && Instant(row.lastEventTimestamp) <= InstantAt(after, key))
    && (key in after ==>
          (key in table && after[key] == table[key]) || (after[key].row.key == key && Came(batches, after[key].row)))
  }

  /** After any batches, each natural key is at the greatest instant of all that came and what it
      had, with one of the rows attaining it. */
  lemma {:induction false} BatchesJoin(table: Table, batches: seq<Batch>, key: NaturalKey)
    ensures Joined(table, batches, RollUpAll(table, batches), key)
  {
    if batches != [] {
      var n := |batches| - 1;
      BatchesJoin(table, batches[..n], key);
      RollUpIsAJoin(RollUpAll(table, batches[..n]), batches[n].rows, batches[n].now, key);
      forall row ensures Came(batches, row) <==> Came(batches[..n], row) || row in batches[n].rows {
        CameOneMore(batches, row);
      }
      JoinedOneMore(table, batches, RollUpAll(table, batches[..n]), RollUpAll(table, batches), key);
    }
  }

  lemma JoinedOneMore(table: Table, batches: seq<Batch>, before: Table, after: Table, key: NaturalKey)
    requires batches != [] && Joined(table, batches[..|batches| - 1], before, key)
    requires JoinedAt(before, batches[|batches| - 1].rows, batches[|batches| - 1].now, after, key)
    requires forall row :: Came(batches, row) <==> Came(batches[..|batches| - 1], row) || row in batches[|batches| - 1].rows
    ensures Joined(table, batches, after, key)
  {
    forall row | Came(batches, row) && row.key == key
      ensures key in after && Instant(row.lastEventTimestamp) <= InstantAt(after, key)
    {
      if row in batches[|batches| - 1].rows {
        assert KeyIn(batches[|batches| - 1].rows, key);
      }
    }
  }

  /** However the same rows are cut into batches, ordered or replayed, the same natural keys are
      in the table, each at the same instant: the greatest that came. */
  lemma CuttingDoesNotMatter(table: Table, batches: seq<Batch>, others: seq<Batch>, key: NaturalKey)
    requires forall row :: Came(batches, row) <==> Came(others, row)
    ensures key in RollUpAll(table, batches) <==> key in RollUpAll(table, others)
    ensures InstantAt(RollUpAll(table, batches), key) == InstantAt(RollUpAll(table, others), key)
  {
    OneGoesNoFurther(table, batches, others, key);
    OneGoesNoFurther(table, others, batches, key);
  }

  lemma OneGoesNoFurther(table: Table, batches: seq<Batch>, others: seq<Batch>, key: NaturalKey)
    requires forall row :: Came(batches, row) <==> Came(others, row)
    ensures key in RollUpAll(table, batches) ==> key in RollUpAll(table, others)
    ensures InstantAt(RollUpAll(table, batches), key) <= InstantAt(RollUpAll(table, others), key)
  {
    BatchesJoin(table, batches, key);
    BatchesJoin(table, others, key);
  }
}
