/** Which row a natural key ends with, told from the table before and the rows that came
    (`rollup.py`, `rollup_schema.py`). */
module Winners {
  import opened Prelude
  import opened OrderedDict
  import opened Text
  import opened Timestamps
  import opened Rows

  /** Row `j` of batch `i` takes the key: the first newest of its batch, no earlier than the table's row
      or than anything that came under the key, and later than what came in later batches. */
  ghost predicate Wins(table: Table, batches: seq<Batch>, key: NaturalKey, i: nat, j: nat) {
    && i < |batches| && j < |batches[i].rows| && batches[i].rows[j].key == key
    && IsFirstNewest(batches[i].rows, j)
    && InstantAt(table, key) <= Instant(batches[i].rows[j].lastEventTimestamp)
    && (forall row | Came(batches, row) && row.key == key ::
          Instant(row.lastEventTimestamp) <= Instant(batches[i].rows[j].lastEventTimestamp))
    && (forall k, row | i < k < |batches| && row in batches[k].rows && row.key == key ::
          Instant(row.lastEventTimestamp) < Instant(batches[i].rows[j].lastEventTimestamp))
  }

  /** Everything that came under the key is earlier than the row already there. */
  ghost predicate Outdone(table: Table, batches: seq<Batch>, key: NaturalKey) {
    forall row | Came(batches, row) && row.key == key :: Instant(row.lastEventTimestamp) < InstantAt(table, key)
  }

  // ---------- one batch

  lemma FirstNewestIsUnique(rows: seq<Row>, i: nat, j: nat)
    requires IsFirstNewest(rows, i) && IsFirstNewest(rows, j) && rows[i].key == rows[j].key
    ensures i == j
  {
    hide LexLess, IsTimestamp;
  }

  lemma FirstNewestExists(rows: seq<Row>, key: NaturalKey) returns (j: nat)
    requires KeyIn(rows, key)
    ensures j < |rows| && IsFirstNewest(rows, j) && rows[j].key == key
  {
    hide LexLess, IsTimestamp;
    DedupeKeepsTheFirst(rows, key);
    j :| IsFirstNewest(rows, j) && rows[j].key == key;
  }

  lemma FirstNewestIsLatest(rows: seq<Row>, j: nat)
    requires IsFirstNewest(rows, j)
    ensures forall row | row in rows && row.key == rows[j].key ::
              Instant(row.lastEventTimestamp) <= Instant(rows[j].lastEventTimestamp)
  {
    hide LexLess, IsTimestamp, Instant;
    forall row | row in rows && row.key == rows[j].key
      ensures Instant(row.lastEventTimestamp) <= Instant(rows[j].lastEventTimestamp)
    {
      var k :| 0 <= k < |rows| && rows[k] == row;
      assert !LexLess(rows[j].lastEventTimestamp, rows[k].lastEventTimestamp);
      NewerTextIsNotEarlier(rows[j].lastEventTimestamp, row.lastEventTimestamp);
    }
  }

  /** What a batch brings to a key is the first newest of its rows there. */
  lemma SourceIsFirstNewest(rows: seq<Row>, j: nat)
    requires IsFirstNewest(rows, j)
    ensures SourceFor(Deduped(rows), rows[j].key) == Some(rows[j])
  {
    hide LexLess, IsTimestamp, Newest, Deduped, Instant;
    var key := rows[j].key;
    DedupeKeepsKeys(rows, key);
    assert KeyIn(rows, key);
    SourceIsNewest(rows, key);
    DedupeKeepsTheFirst(rows, key);
    var i: nat :| IsFirstNewest(rows, i) && rows[i] == Get(Newest(rows), key).value && rows[i].key == key;
    FirstNewestIsUnique(rows, i, j);
  }

  lemma SourceIsNewest(rows: seq<Row>, key: NaturalKey)
    requires SourceFor(Deduped(rows), key).Some?
    ensures SourceFor(Deduped(rows), key) == Get(Newest(rows), key)
  {
    hide LexLess, IsTimestamp, Newest;
    var source := SourceFor(Deduped(rows), key).value;
    var p :| 0 <= p < |Deduped(rows)| && Deduped(rows)[p] == source;
    EntryIsNewest(rows, p);
    NewestHasDistinctKeys(rows);
    GetIsUnique(Newest(rows), p);
  }

  lemma BatchTakes(table: Table, batch: Batch, j: nat)
    requires j < |batch.rows| && IsFirstNewest(batch.rows, j)
    requires InstantAt(table, batch.rows[j].key) <= Instant(batch.rows[j].lastEventTimestamp)
    ensures var after, key := RollUp(table, batch.rows, batch.now), batch.rows[j].key;
            key in after && after[key] == TableRow(batch.rows[j], batch.now)
  {
    hide IsFirstNewest, IsTimestamp, Instant, Newest;
    SourceIsFirstNewest(batch.rows, j);
    DedupeKeepsTheNewest(batch.rows);
    MergeAt(table, Deduped(batch.rows), batch.now, batch.rows[j].key);
  }

  lemma BatchLeaves(table: Table, batch: Batch, key: NaturalKey)
    requires forall row | row in batch.rows && row.key == key :: Instant(row.lastEventTimestamp) < InstantAt(table, key)
    ensures var after := RollUp(table, batch.rows, batch.now);
            (key in after <==> key in table) && (key in table ==> after[key] == table[key])
  {
    hide IsTimestamp, Instant, Newest;
    DedupeKeepsTheNewest(batch.rows);
    MergeAt(table, Deduped(batch.rows), batch.now, key);
    var source := SourceFor(Deduped(batch.rows), key);
    if source.Some? {
      assert IsNewest(batch.rows, source.value);
    }
  }

  // ---------- all batches

  /** The table is as it was where everything that came is earlier. */
  lemma {:induction false} NobodyWins(table: Table, batches: seq<Batch>, key: NaturalKey)
    requires Outdone(table, batches, key)
    ensures var after := RollUpAll(table, batches);
            (key in after <==> key in table) && (key in table ==> after[key] == table[key])
  {
    hide IsTimestamp, Instant, RollUp;
    if batches != [] {
      var n := |batches| - 1;
      forall row ensures Came(batches, row) <==> Came(batches[..n], row) || row in batches[n].rows {
        CameOneMore(batches, row);
      }
      NobodyWins(table, batches[..n], key);
      assert InstantAt(RollUpAll(table, batches[..n]), key) == InstantAt(table, key);
      BatchLeaves(RollUpAll(table, batches[..n]), batches[n], key);
    }
  }

  /** The winner has the key, at the time of its batch. */
  lemma {:induction false} WinnerTakesTheKey(table: Table, batches: seq<Batch>, key: NaturalKey, i: nat, j: nat)
    requires Wins(table, batches, key, i, j)
    ensures var after := RollUpAll(table, batches);
            key in after && after[key] == TableRow(batches[i].rows[j], batches[i].now)
  {
    hide IsTimestamp, Instant, RollUp, IsFirstNewest;
    var n := |batches| - 1;
    var before, row := RollUpAll(table, batches[..n]), batches[i].rows[j];
    if i == n {
      BatchesJoin(table, batches[..n], key);
      if key in before && !(key in table && before[key] == table[key]) {
        CameOneMore(batches, before[key].row);
      }
      assert InstantAt(before, key) <= Instant(row.lastEventTimestamp);
      BatchTakes(before, batches[n], j);
    } else {
      WinsBefore(table, batches, key, i, j);
      WinnerTakesTheKey(table, batches[..n], key, i, j);
      BatchLeaves(before, batches[n], key);
    }
  }

  lemma WinsBefore(table: Table, batches: seq<Batch>, key: NaturalKey, i: nat, j: nat)
    requires Wins(table, batches, key, i, j) && i < |batches| - 1
    ensures Wins(table, batches[..|batches| - 1], key, i, j)
  {
    hide IsTimestamp, Instant, IsFirstNewest;
    var n := |batches| - 1;
    assert batches[..n][i] == batches[i];
    forall row | Came(batches[..n], row) ensures Came(batches, row) {
      CameOneMore(batches, row);
    }
  }

  /** Where something that came is no earlier than the row there, some row wins. */
  lemma {:induction false} SomebodyWins(table: Table, batches: seq<Batch>, key: NaturalKey) returns (i: nat, j: nat)
    requires !Outdone(table, batches, key)
    ensures Wins(table, batches, key, i, j)
  {
    hide IsTimestamp, Instant, IsFirstNewest;
    var row :| Came(batches, row) && row.key == key && Instant(row.lastEventTimestamp) >= InstantAt(table, key);
    var n := |batches| - 1;
    CameOneMore(batches, row);
    if Outdone(table, batches[..n], key) {
      assert row in batches[n].rows;
      i, j := LastWins(table, batches, key, InstantAt(table, key), row);
    } else {
      var i', j' := SomebodyWins(table, batches[..n], key);
      var best := batches[i'].rows[j'];
      if later :| later in batches[n].rows && later.key == key
                  && Instant(later.lastEventTimestamp) >= Instant(best.lastEventTimestamp) {
        i, j := LastWins(table, batches, key, Instant(best.lastEventTimestamp), later);
      } else {
        i, j := i', j';
        StillWins(table, batches, key, i, j);
      }
    }
  }

  /** A batch past everything before it wins with its first newest row. */
  lemma LastWins(table: Table, batches: seq<Batch>, key: NaturalKey, bound: int, row: Row) returns (i: nat, j: nat)
    requires batches != [] && row in batches[|batches| - 1].rows && row.key == key
    requires InstantAt(table, key) <= bound <= Instant(row.lastEventTimestamp)
    requires forall other | Came(batches[..|batches| - 1], other) && other.key == key ::
               Instant(other.lastEventTimestamp) <= bound
    ensures Wins(table, batches, key, i, j)
  {
    hide IsTimestamp, Instant, IsFirstNewest;
    i := |batches| - 1;
    assert KeyIn(batches[i].rows, key);
    j := FirstNewestExists(batches[i].rows, key);
    FirstNewestIsLatest(batches[i].rows, j);
    forall other | Came(batches, other) && other.key == key
      ensures Instant(other.lastEventTimestamp) <= Instant(batches[i].rows[j].lastEventTimestamp)
    {
      CameOneMore(batches, other);
    }
  }

  lemma StillWins(table: Table, batches: seq<Batch>, key: NaturalKey, i: nat, j: nat)
    requires batches != [] && Wins(table, batches[..|batches| - 1], key, i, j)
    requires forall row | row in batches[|batches| - 1].rows && row.key == key ::
               Instant(row.lastEventTimestamp) < Instant(batches[i].rows[j].lastEventTimestamp)
    ensures Wins(table, batches, key, i, j)
  {
    hide IsTimestamp, Instant, IsFirstNewest;
    var n := |batches| - 1;
    assert batches[..n][i] == batches[i];
    forall row | Came(batches, row) && row.key == key
      ensures Instant(row.lastEventTimestamp) <= Instant(batches[i].rows[j].lastEventTimestamp)
    {
      CameOneMore(batches, row);
    }
    forall k, row | i < k < |batches| && row in batches[k].rows && row.key == key
      ensures Instant(row.lastEventTimestamp) < Instant(batches[i].rows[j].lastEventTimestamp)
    {
      if k < n {
        assert batches[..n][k] == batches[k];
      }
    }
  }

  /** There is a winner exactly when the key is not outdone, and only one. */
  lemma OneWinner(table: Table, batches: seq<Batch>, key: NaturalKey, i: nat, j: nat, i': nat, j': nat)
    requires Wins(table, batches, key, i, j)
    ensures !Outdone(table, batches, key)
    ensures Wins(table, batches, key, i', j') ==> i' == i && j' == j
  {
    hide IsTimestamp, Instant, IsFirstNewest;
    assert batches[i].rows[j] in batches[i].rows && Came(batches, batches[i].rows[j]);
    if Wins(table, batches, key, i', j') {
      assert batches[i'].rows[j'] in batches[i'].rows && Came(batches, batches[i'].rows[j']);
      assert i' == i;
      FirstNewestIsUnique(batches[i].rows, j, j');
    }
  }
}
