/** Which keys the same inventory selects once rows have been rolled up, told from the table before
    and the rows that came (`rollup.py`, `rollup_schema.py`). */
module Convergence {
  import opened Timestamps
  import opened Rows
  import opened Winners

  /** One line of an S3 inventory; `report` is its `dt`. */
  datatype Entry = Entry(report: int, key: string, isLatest: bool, isDeleteMarker: bool, lastModified: int)

  ghost predicate Listed(inventory: set<Entry>, entry: Entry) {
    && entry in inventory && entry.isLatest && !entry.isDeleteMarker
    && forall other | other in inventory :: other.report <= entry.report
  }

  ghost predicate RowFrom(table: Table, key: NaturalKey, source: string) {
    key in table && table[key].row.sourceKey == source
  }

  /** The query's condition on one line: no row came from the object, or one of those that did was
      rolled up before the object was last written. */
  ghost predicate Matches(table: Table, entry: Entry) {
    || (forall key :: !RowFrom(table, key, entry.key))
    || (exists key :: RowFrom(table, key, entry.key) && entry.lastModified > table[key].rolledUpAt)
  }

  /** The reconcile query selects this key. */
  ghost predicate Selected(inventory: set<Entry>, table: Table, key: string) {
    exists entry :: Listed(inventory, entry) && entry.key == key && Matches(table, entry)
  }

  /** The newest report lists each object there is, as of its last write. Earlier reports, earlier versions
      and delete markers may say anything. */
  ghost predicate Reports(inventory: set<Entry>, modified: map<string, int>, newest: int) {
    && (exists entry :: entry in inventory && entry.report == newest)
    && (forall entry | entry in inventory :: entry.report <= newest)
    && (forall entry | entry in inventory && entry.report == newest && entry.isLatest && !entry.isDeleteMarker ::
          entry.key in modified && entry.lastModified == modified[entry.key])
    && (forall key | key in modified :: Entry(newest, key, true, false, modified[key]) in inventory)
  }

  /** The query selects exactly the objects there are of which no row came, or a row rolled up before the
      object was last written. */
  lemma ReportSelectsExactly(inventory: set<Entry>, modified: map<string, int>, newest: int, table: Table, key: string)
    requires Reports(inventory, modified, newest)
    ensures Selected(inventory, table, key) <==>
              && key in modified
              && ((forall k :: !RowFrom(table, k, key)) || exists k :: RowFrom(table, k, key) && modified[key] > table[k].rolledUpAt)
  {
    if key in modified {
      var entry := Entry(newest, key, true, false, modified[key]);
      assert Listed(inventory, entry);
      assert forall other | Listed(inventory, other) && other.key == key :: other.lastModified == modified[key];
    }
  }

  // ---------- one natural key

  ghost predicate NoneBefore(batches: seq<Batch>, time: int) {
    forall i | 0 <= i < |batches| :: batches[i].now >= time
  }

  /** Every row an object gives is under one natural key. */
  ghost predicate KeyFixed(table: Table, batches: seq<Batch>, source: string, key: NaturalKey) {
    && (forall k | RowFrom(table, k, source) :: k == key)
    && (forall row | Came(batches, row) && row.sourceKey == source :: row.key == key)
  }

  ghost predicate CameFrom(batches: seq<Batch>, source: string) {
    exists row :: Came(batches, row) && row.sourceKey == source
  }

  /** The row that wins the key is another object's. */
  ghost predicate OtherWins(table: Table, batches: seq<Batch>, key: NaturalKey, source: string) {
    exists i: nat, j: nat :: Wins(table, batches, key, i, j) && batches[i].rows[j].sourceKey != source
  }

  lemma OnlyThere(table: Table, batches: seq<Batch>, source: string, key: NaturalKey, k: NaturalKey)
    requires KeyFixed(table, batches, source, key) && RowFrom(RollUpAll(table, batches), k, source)
    ensures k == key
  {
    hide IsTimestamp, Instant, RollUpAll;
    BatchesJoin(table, batches, k);
    var after := RollUpAll(table, batches);
    if k in table && after[k] == table[k] {
      assert RowFrom(table, k, source);
    }
  }

  lemma MatchesAtTheKey(table: Table, batches: seq<Batch>, entry: Entry, key: NaturalKey)
    requires KeyFixed(table, batches, entry.key, key)
    ensures var after := RollUpAll(table, batches);
            Matches(after, entry) <==>
              !RowFrom(after, key, entry.key) || entry.lastModified > after[key].rolledUpAt
  {
    hide IsTimestamp, Instant, RollUpAll;
    forall k | RowFrom(RollUpAll(table, batches), k, entry.key) ensures k == key {
      OnlyThere(table, batches, entry.key, key, k);
    }
  }

  /** Whether the inventory selects an object after any rollups no earlier than its last write: if
      everything that came under its natural key is earlier than the row there, as before; otherwise
      exactly if the row that wins the key is another object's. */
  lemma SelectedAfterExactlyWhen(table: Table, batches: seq<Batch>, entry: Entry, key: NaturalKey)
    requires KeyFixed(table, batches, entry.key, key) && NoneBefore(batches, entry.lastModified)
    ensures Matches(RollUpAll(table, batches), entry) <==>
              if Outdone(table, batches, key) then Matches(table, entry) else OtherWins(table, batches, key, entry.key)
  {
    hide IsTimestamp, Instant, RollUpAll, Outdone, IsFirstNewest;
    MatchesAtTheKey(table, batches, entry, key);
    if Outdone(table, batches, key) {
      NobodyWins(table, batches, key);
      assert RowFrom(RollUpAll(table, batches), key, entry.key) <==> RowFrom(table, key, entry.key);
    } else {
      var i, j := SomebodyWins(table, batches, key);
      WinnerTakesTheKey(table, batches, key, i, j);
      WinnerIsARow(table, batches, key, i, j);
      forall i': nat, j': nat | Wins(table, batches, key, i', j') ensures i' == i && j' == j {
        OneWinner(table, batches, key, i, j, i', j');
      }
      assert batches[i].now >= entry.lastModified;
    }
  }

  lemma WinnerIsARow(table: Table, batches: seq<Batch>, key: NaturalKey, i: nat, j: nat)
    requires Wins(table, batches, key, i, j)
    ensures i < |batches| && j < |batches[i].rows|
    ensures Came(batches, batches[i].rows[j]) && batches[i].rows[j].key == key
  {
    assert batches[i].rows[j] in batches[i].rows;
  }

  /** A row rolled up before every batch is still there exactly if it is later than every row that came
      for its natural key. */
  lemma OutlastedOnlyByLater(table: Table, batches: seq<Batch>, key: NaturalKey, time: int)
    requires NoneBefore(batches, time) && key in table && table[key].rolledUpAt < time
    ensures key in RollUpAll(table, batches)
    ensures RollUpAll(table, batches)[key] == table[key] <==>
              forall row | Came(batches, row) && row.key == key ::
                Instant(row.lastEventTimestamp) < InstantAt(table, key)
  {
    hide IsTimestamp, Instant, RollUpAll, IsFirstNewest;
    assert Outdone(table, batches, key) <==>
      forall row | Came(batches, row) && row.key == key :: Instant(row.lastEventTimestamp) < InstantAt(table, key);
    if Outdone(table, batches, key) {
      NobodyWins(table, batches, key);
    } else {
      var i, j := SomebodyWins(table, batches, key);
      WinnerTakesTheKey(table, batches, key, i, j);
      assert batches[i].now >= time;
    }
  }

  /** A selected object is selected again exactly if everything that came under its natural key is
      earlier than the row there (in particular if nothing came), or another object's row wins. */
  lemma SelectedAgainExactlyWhen(table: Table, batches: seq<Batch>, entry: Entry, key: NaturalKey)
    requires Matches(table, entry) && KeyFixed(table, batches, entry.key, key) && NoneBefore(batches, entry.lastModified)
    ensures Matches(RollUpAll(table, batches), entry) <==>
              Outdone(table, batches, key) || OtherWins(table, batches, key, entry.key)
  {
    hide IsTimestamp, Instant, RollUpAll, Outdone, IsFirstNewest;
    SelectedAfterExactlyWhen(table, batches, entry, key);
    if i: nat, j: nat :| Wins(table, batches, key, i, j) {
      OneWinner(table, batches, key, i, j, i, j);
    }
  }

  /** When no other object shares the natural key, exactly if nothing came from the object or all of it
      is earlier than the row it already has. */
  lemma SelectedAgainAlone(table: Table, batches: seq<Batch>, entry: Entry, key: NaturalKey)
    requires Matches(table, entry) && KeyFixed(table, batches, entry.key, key) && NoneBefore(batches, entry.lastModified)
    requires key in table ==> table[key].row.sourceKey == entry.key
    requires forall row | Came(batches, row) && row.key == key :: row.sourceKey == entry.key
    ensures Matches(RollUpAll(table, batches), entry) <==>
              || !CameFrom(batches, entry.key)
              || forall row | Came(batches, row) && row.key == key ::
                   Instant(row.lastEventTimestamp) < InstantAt(table, key)
  {
    hide IsTimestamp, Instant, RollUpAll, IsFirstNewest;
    SelectedAgainExactlyWhen(table, batches, entry, key);
    forall i: nat, j: nat | Wins(table, batches, key, i, j) ensures batches[i].rows[j].sourceKey == entry.key {
      WinnerIsARow(table, batches, key, i, j);
    }
  }

  /** An object that was not selected is selected afterwards exactly if another object's row takes the
      natural key from the row it had. */
  lemma NewlySelectedExactlyWhen(table: Table, batches: seq<Batch>, entry: Entry, key: NaturalKey)
    requires !Matches(table, entry) && KeyFixed(table, batches, entry.key, key) && NoneBefore(batches, entry.lastModified)
    ensures RowFrom(table, key, entry.key)
    ensures Matches(RollUpAll(table, batches), entry) <==> OtherWins(table, batches, key, entry.key)
    ensures Matches(RollUpAll(table, batches), entry) ==>
              key in RollUpAll(table, batches) && RollUpAll(table, batches)[key].row.sourceKey != entry.key
  {
    hide IsTimestamp, Instant, RollUpAll, Outdone, IsFirstNewest;
    SelectedAfterExactlyWhen(table, batches, entry, key);
    forall i: nat, j: nat | Wins(table, batches, key, i, j)
      ensures !Outdone(table, batches, key)
      ensures key in RollUpAll(table, batches) && RollUpAll(table, batches)[key] == TableRow(batches[i].rows[j], batches[i].now)
    {
      OneWinner(table, batches, key, i, j, i, j);
      WinnerTakesTheKey(table, batches, key, i, j);
    }
  }

  // ---------- the whole selection

  /** An object and a natural key belong together, before or in what came. */
  ghost predicate Pairs(table: Table, batches: seq<Batch>, key: NaturalKey, source: string) {
    || RowFrom(table, key, source)
    || exists row :: Came(batches, row) && row.key == key && row.sourceKey == source
  }

  ghost predicate OneToOne(table: Table, batches: seq<Batch>) {
    forall k, s, k', s' | Pairs(table, batches, k, s) && Pairs(table, batches, k', s') :: k == k' <==> s == s'
  }

  lemma OneToOneFixes(table: Table, batches: seq<Batch>, key: NaturalKey, source: string)
    requires OneToOne(table, batches) && Pairs(table, batches, key, source)
    ensures KeyFixed(table, batches, source, key) && !OtherWins(table, batches, key, source)
  {
    hide IsTimestamp, Instant, IsFirstNewest;
    forall k | RowFrom(table, k, source) ensures k == key {
      assert Pairs(table, batches, k, source);
    }
    forall row | Came(batches, row) && row.sourceKey == source ensures row.key == key {
      assert Pairs(table, batches, row.key, source);
    }
    forall i: nat, j: nat | Wins(table, batches, key, i, j) ensures batches[i].rows[j].sourceKey == source {
      WinnerIsARow(table, batches, key, i, j);
      assert Pairs(table, batches, key, batches[i].rows[j].sourceKey);
    }
  }

  /** Something came from the object that is no earlier than the row under its natural key. */
  ghost predicate CameInTime(table: Table, batches: seq<Batch>, source: string) {
    exists row :: Came(batches, row) && row.sourceKey == source
                  && InstantAt(table, row.key) <= Instant(row.lastEventTimestamp)
  }

  /** When natural keys are one to one and every selected object gives a row no earlier than the table's,
      nothing is selected afterwards. */
  lemma NothingLeftToSelect(inventory: set<Entry>, table: Table, batches: seq<Batch>)
    requires OneToOne(table, batches)
    requires forall entry | Listed(inventory, entry) :: NoneBefore(batches, entry.lastModified)
    requires forall entry | Listed(inventory, entry) && Matches(table, entry) :: CameInTime(table, batches, entry.key)
    ensures forall key :: !Selected(inventory, RollUpAll(table, batches), key)
  {
    forall entry | Listed(inventory, entry) ensures !Matches(RollUpAll(table, batches), entry) {
      EntryIsSettled(table, batches, entry);
    }
  }

  lemma EntryIsSettled(table: Table, batches: seq<Batch>, entry: Entry)
    requires OneToOne(table, batches) && NoneBefore(batches, entry.lastModified)
    requires Matches(table, entry) ==> CameInTime(table, batches, entry.key)
    ensures !Matches(RollUpAll(table, batches), entry)
  {
    hide IsTimestamp, Instant, RollUpAll, IsFirstNewest, OneToOne, OtherWins;
    if Matches(table, entry) {
      var row :| Came(batches, row) && row.sourceKey == entry.key
                 && InstantAt(table, row.key) <= Instant(row.lastEventTimestamp);
      assert Pairs(table, batches, row.key, entry.key);
      OneToOneFixes(table, batches, row.key, entry.key);
      SelectedAgainExactlyWhen(table, batches, entry, row.key);
    } else {
      var key :| RowFrom(table, key, entry.key);
      assert Pairs(table, batches, key, entry.key);
      OneToOneFixes(table, batches, key, entry.key);
      NewlySelectedExactlyWhen(table, batches, entry, key);
    }
  }

  // ---------- two objects under one natural key

  /** Rollups of one row each, of the two in turn. */
  function Turns(a: Row, b: Row, now: int, n: nat): seq<Batch> {
    seq(n, i => Batch([if i % 2 == 0 then b else a], now))
  }

  /** Two objects of one natural key and one instant displace each other for ever: however many passes
      roll up just the one that is selected, the other is selected next. */
  lemma TiedObjectsTakeTurns(table: Table, a: Row, b: Row, ea: Entry, eb: Entry, now: int, n: nat)
    requires a.key == b.key && a.sourceKey != b.sourceKey && Instant(a.lastEventTimestamp) == Instant(b.lastEventTimestamp)
    requires a.key in table && table[a.key].row == a && table[a.key].rolledUpAt >= ea.lastModified
    requires forall key | RowFrom(table, key, a.sourceKey) || RowFrom(table, key, b.sourceKey) :: key == a.key
    requires ea.key == a.sourceKey && eb.key == b.sourceKey && now >= ea.lastModified && now >= eb.lastModified
    ensures Matches(RollUpAll(table, Turns(a, b, now, n)), eb) <==> n % 2 == 0
    ensures Matches(RollUpAll(table, Turns(a, b, now, n)), ea) <==> n % 2 == 1
  {
    hide IsTimestamp, Instant, RollUpAll, IsFirstNewest, OtherWins;
    var batches := Turns(a, b, now, n);
    forall row | Came(batches, row) ensures row == a || row == b {
      var i :| 0 <= i < |batches| && row in batches[i].rows;
    }
    MatchesAtTheKey(table, batches, ea, a.key);
    MatchesAtTheKey(table, batches, eb, a.key);
    if n == 0 {
      assert RollUpAll(table, batches) == table by {
        NothingRolledUp(table, batches);
      }
    } else {
      LastTurnWins(table, a, b, now, n);
      WinnerTakesTheKey(table, batches, a.key, n - 1, 0);
    }
  }

  lemma NothingRolledUp(table: Table, batches: seq<Batch>)
    requires batches == []
    ensures RollUpAll(table, batches) == table
  {
  }

  lemma LastTurnWins(table: Table, a: Row, b: Row, now: int, n: nat)
    requires n > 0 && a.key == b.key && Instant(a.lastEventTimestamp) == Instant(b.lastEventTimestamp)
    requires a.key in table && table[a.key].row == a
    ensures Wins(table, Turns(a, b, now, n), a.key, n - 1, 0)
  {
    hide IsTimestamp, Instant;
    var batches := Turns(a, b, now, n);
    var last := if (n - 1) % 2 == 0 then b else a;
    assert batches[n - 1].rows == [last];
    OneRowIsNewest(last);
    forall row | Came(batches, row) ensures row == a || row == b {
      var i :| 0 <= i < |batches| && row in batches[i].rows;
    }
  }

  lemma OneRowIsNewest(row: Row)
    ensures IsFirstNewest([row], 0)
  {
    FirstOfItsKey([row]);
  }
}
