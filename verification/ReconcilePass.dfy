/** A reconcile pass in the running system: the chain that enqueues what the query selects, and what
    the same inventory selects once those notifications have left the queue (`rollup.py`). */
module ReconcilePass {
  import opened Prelude
  import opened Timestamps
  import opened Rows
  import opened Winners
  import opened Rollup
  import opened RollupProtocol
  import opened Convergence
  import opened Reconcile

  // ---------- what an execution merges

  /** What the merges among some actions merged. */
  ghost function Batches(config: RollupConfig, s: System, actions: seq<Action>): seq<Batch>
    requires CanAll(config, s, actions)
    decreases |actions|
  {
    if actions == [] then []
    else
      var rest := Batches(config, Do(config, s, actions[0]), actions[1..]);
      if actions[0].Merge? then [Batch(RowsOf(Outcomes(s.runs[actions[0].run].got)), actions[0].now)] + rest else rest
  }

  lemma {:induction false} RollUpAllFrom(table: Table, batch: Batch, batches: seq<Batch>)
    ensures RollUpAll(table, [batch] + batches) == RollUpAll(RollUp(table, batch.rows, batch.now), batches)
  {
    var all := [batch] + batches;
    if batches == [] {
      assert all == [batch];
      assert all[..0] == [] && RollUpAll(table, []) == table;
    } else {
      var n := |batches| - 1;
      RollUpAllFrom(table, batch, batches[..n]);
      assert all[..|all| - 1] == [batch] + batches[..n] && all[|all| - 1] == batches[n];
    }
  }

  lemma {:induction false} TableIsItsBatches(config: RollupConfig, s: System, actions: seq<Action>)
    requires CanAll(config, s, actions)
    ensures DoAll(config, s, actions).table == RollUpAll(s.table, Batches(config, s, actions))
    decreases |actions|
  {
    if actions != [] {
      var next := Do(config, s, actions[0]);
      TableIsItsBatches(config, next, actions[1..]);
      if actions[0].Merge? {
        RollUpAllFrom(s.table, Batches(config, s, actions)[0], Batches(config, next, actions[1..]));
        assert Batches(config, s, actions) == [Batches(config, s, actions)[0]] + Batches(config, next, actions[1..]);
      }
    }
  }

  lemma CameLater(batch: Batch, batches: seq<Batch>, row: Row)
    ensures row in batch.rows || Came(batches, row) ==> Came([batch] + batches, row)
  {
    var all := [batch] + batches;
    if row in batch.rows {
      assert row in all[0].rows;
    } else if Came(batches, row) {
      var i :| 0 <= i < |batches| && row in batches[i].rows;
      assert row in all[i + 1].rows;
    }
  }

  /** What was merged in the course of some actions came in their batches. */
  lemma {:induction false} MergedSince(config: RollupConfig, s: System, actions: seq<Action>, got: Got)
    requires CanAll(config, s, actions)
    requires got in DoAll(config, s, actions).merged && got !in s.merged && got.outcome.Flattened?
    ensures Came(Batches(config, s, actions), got.outcome.row)
    decreases |actions|
  {
    if actions != [] {
      var next := Do(config, s, actions[0]);
      var rest := Batches(config, next, actions[1..]);
      if got !in next.merged {
        MergedSince(config, next, actions[1..], got);
      } else {
        var r := s.runs[actions[0].run];
        var i :| 0 <= i < |r.got| && r.got[i] == got;
        assert Outcomes(r.got)[i] == Flattened(got.outcome.row);
        OutcomesAreAccountedFor(Outcomes(r.got));
      }
      if actions[0].Merge? {
        var batch := Batches(config, s, actions)[0];
        CameLater(batch, rest, got.outcome.row);
        assert Batches(config, s, actions) == [batch] + rest;
      }
    }
  }

  // ---------- one selected key

  /** The key was notified of at or after a time, and the notification has left the queue. */
  ghost predicate NotifiedSince(s: System, time: nat, key: string) {
    exists id :: id in s.sent && s.sent[id].key == Some(key) && s.sent[id].sentAt >= time && !Held(s, id)
  }

  /** Reconciling converges, key by key. Take any reachable state, an object the query selects there, and
      any further execution in which it is notified of and the notification leaves the queue: it was
      fetched since and its row, if it gave one, was merged since; and the same inventory selects it
      again exactly if everything that came under its natural key is earlier than the row there, or
      another object's row wins the key. */
  lemma ReconcileConverges(
    config: RollupConfig, before: seq<Action>, since: seq<Action>, inventory: set<Entry>, entry: Entry, key: NaturalKey)
    returns (got: Got)
    requires CanAll(config, START, before) && CanAll(config, DoAll(config, START, before), since)
    requires var s := DoAll(config, START, before);
             var t, batches := DoAll(config, s, since), Batches(config, s, since);
             && Listed(inventory, entry) && Matches(s.table, entry)
             && KeyFixed(s.table, batches, entry.key, key) && NoneBefore(batches, entry.lastModified)
             && NotifiedSince(t, s.clock, entry.key)
    ensures var s := DoAll(config, START, before);
            var t, batches := DoAll(config, s, since), Batches(config, s, since);
            && got in t.merged && got.key == entry.key && got.at >= s.clock
            && (got.outcome.Flattened? ==> got.outcome.row.sourceKey == entry.key && Came(batches, got.outcome.row))
            && (Matches(t.table, entry) <==>
                  Outdone(s.table, batches, key) || OtherWins(s.table, batches, key, entry.key))
  {
    hide IsTimestamp, Instant, Outdone, OtherWins;
    var s := DoAll(config, START, before);
    var t, batches := DoAll(config, s, since), Batches(config, s, since);
    got := FetchedSince(config, before, since, entry.key);
    TableIsItsBatches(config, s, since);
    SelectedAgainExactlyWhen(s.table, batches, entry, key);
  }

  /** A key notified of since has been fetched since, and what it gave came in a batch since. */
  lemma FetchedSince(config: RollupConfig, before: seq<Action>, since: seq<Action>, key: string) returns (got: Got)
    requires CanAll(config, START, before) && CanAll(config, DoAll(config, START, before), since)
    requires NotifiedSince(DoAll(config, DoAll(config, START, before), since), DoAll(config, START, before).clock, key)
    ensures var s := DoAll(config, START, before);
            var t, batches := DoAll(config, s, since), Batches(config, s, since);
            && got in t.merged && got.key == key && got.at >= s.clock
            && (got.outcome.Flattened? ==> got.outcome.row.sourceKey == key && Came(batches, got.outcome.row))
  {
    hide IsTimestamp, Instant, Do, Can;
    var s := DoAll(config, START, before);
    var t := DoAll(config, s, since);
    DoAllKeepsInv(config, START, before);
    DoAllKeepsInv(config, s, since);
    var id :| id in t.sent && t.sent[id].key == Some(key) && t.sent[id].sentAt >= s.clock && !Held(t, id);
    got :| SettledBy(t, t.sent[id], got);
    assert Current(config, t, got);
    if got.outcome.Flattened? {
      assert got in s.merged ==> Current(config, s, got);
      MergedSince(config, s, since, got);
    }
  }

  // ---------- the whole pass

  /** The chain ran to its end over a result that holds exactly what the query selected, and each key it
      enqueued was notified of and has left the queue. */
  ghost predicate CompletePass(
    inventory: set<Entry>, s: System, t: System, pages: Pages, maxDepth: int, query: nat, hops: seq<Hop>)
  {
    && IsChain(pages, maxDepth, query, hops) && hops[|hops| - 1].truncated == 0
    && (forall key :: key in DataRows(pages, 0, |pages|) <==> Selected(inventory, s.table, key))
    && (forall key | key in Enqueued(pages, hops) :: NotifiedSince(t, s.clock, key))
  }

  /** A complete pass misses no selected key. */
  lemma PassReachesEverySelected(
    inventory: set<Entry>, s: System, t: System, pages: Pages, maxDepth: int, query: nat, hops: seq<Hop>, entry: Entry)
    requires CompletePass(inventory, s, t, pages, maxDepth, query, hops)
    requires Listed(inventory, entry) && Matches(s.table, entry)
    ensures NotifiedSince(t, s.clock, entry.key)
  {
    hide NotifiedSince, IsTimestamp, Matches, Listed;
    ChainEnqueuesAPrefix(pages, maxDepth, query, hops);
    assert Selected(inventory, s.table, entry.key);
  }

  /** After a complete pass the inventory selects an object, whether or not it did before, exactly as the
      rows that came under its natural key decide. */
  lemma PassSelectsExactly(
    config: RollupConfig, before: seq<Action>, since: seq<Action>, inventory: set<Entry>,
    pages: Pages, maxDepth: int, query: nat, hops: seq<Hop>, entry: Entry, key: NaturalKey)
    requires CanAll(config, START, before) && CanAll(config, DoAll(config, START, before), since)
    requires var s := DoAll(config, START, before);
             var t, batches := DoAll(config, s, since), Batches(config, s, since);
             && CompletePass(inventory, s, t, pages, maxDepth, query, hops) && Listed(inventory, entry)
             && KeyFixed(s.table, batches, entry.key, key) && NoneBefore(batches, entry.lastModified)
    ensures var s := DoAll(config, START, before);
            var t, batches := DoAll(config, s, since), Batches(config, s, since);
            && (Matches(t.table, entry) <==>
                  OtherWins(s.table, batches, key, entry.key)
                  || (Matches(s.table, entry) && Outdone(s.table, batches, key)))
            && (Matches(s.table, entry) ==>
                  exists got :: got in t.merged && got.key == entry.key && got.at >= s.clock
                                && (got.outcome.Flattened? ==> Came(batches, got.outcome.row)))
  {
    hide IsTimestamp, Instant, Outdone, OtherWins, Matches, Listed, CompletePass;
    var s := DoAll(config, START, before);
    var t, batches := DoAll(config, s, since), Batches(config, s, since);
    TableIsItsBatches(config, s, since);
    if Matches(s.table, entry) {
      PassReachesEverySelected(inventory, s, t, pages, maxDepth, query, hops, entry);
      var got := FetchedSince(config, before, since, entry.key);
      SelectedAgainExactlyWhen(s.table, batches, entry, key);
    } else {
      NewlySelectedExactlyWhen(s.table, batches, entry, key);
    }
  }

  /** Every selected object fetched and merged since a time flattened, to a row no earlier than the
      table's then. */
  ghost predicate AllInTime(inventory: set<Entry>, table: Table, t: System, time: nat) {
    forall got | got in t.merged && got.at >= time && Selected(inventory, table, got.key) ::
      && got.outcome.Flattened?
      && InstantAt(table, got.outcome.row.key) <= Instant(got.outcome.row.lastEventTimestamp)
  }

  /** One complete pass leaves nothing to select when natural keys are one to one and every selected
      object, when fetched, flattens to a row no earlier than the one the table had. */
  lemma CompletePassLeavesNothing(
    config: RollupConfig, before: seq<Action>, since: seq<Action>, inventory: set<Entry>,
    pages: Pages, maxDepth: int, query: nat, hops: seq<Hop>)
    requires CanAll(config, START, before) && CanAll(config, DoAll(config, START, before), since)
    requires var s := DoAll(config, START, before);
             var t, batches := DoAll(config, s, since), Batches(config, s, since);
             && CompletePass(inventory, s, t, pages, maxDepth, query, hops)
             && OneToOne(s.table, batches) && AllInTime(inventory, s.table, t, s.clock)
             && (forall entry | Listed(inventory, entry) :: NoneBefore(batches, entry.lastModified))
    ensures forall key :: !Selected(inventory, DoAll(config, DoAll(config, START, before), since).table, key)
  {
    hide IsTimestamp, Instant, Matches, Listed, CompletePass, OneToOne, NoneBefore;
    var s := DoAll(config, START, before);
    var t, batches := DoAll(config, s, since), Batches(config, s, since);
    TableIsItsBatches(config, s, since);
    forall entry | Listed(inventory, entry) && Matches(s.table, entry) ensures CameInTime(s.table, batches, entry.key) {
      PassReachesEverySelected(inventory, s, t, pages, maxDepth, query, hops, entry);
      var got := FetchedSince(config, before, since, entry.key);
      assert Selected(inventory, s.table, got.key);
      assert Came(batches, got.outcome.row) && got.outcome.row.sourceKey == entry.key;
    }
    NothingLeftToSelect(inventory, s.table, batches);
  }
}
