/** The rollup machine against one invocation: left alone, the machine's steps come to what
    `run_rollup` is proved to do. */
module SoloRollup {
  import opened Rows
  import opened Queue
  import opened Rollup
  import opened RollupProtocol

  /** Every merge among the actions is stamped `now`. */
  ghost predicate MergesAt(actions: seq<Action>, now: int) {
    forall i | 0 <= i < |actions| :: actions[i].Merge? ==> actions[i].now == now
  }

  ghost predicate Reaches(config: RollupConfig, s: System, t: System, now: int) {
    exists actions :: CanAll(config, s, actions) && DoAll(config, s, actions) == t && MergesAt(actions, now)
  }

  lemma {:induction false} DoAllConcat(config: RollupConfig, s: System, before: seq<Action>, after: seq<Action>)
    requires CanAll(config, s, before) && CanAll(config, DoAll(config, s, before), after)
    ensures CanAll(config, s, before + after)
    ensures DoAll(config, s, before + after) == DoAll(config, DoAll(config, s, before), after)
    decreases |before|
  {
    hide Can, Do;
    if before == [] {
      assert before + after == after;
    } else {
      DoAllConcat(config, Do(config, s, before[0]), before[1..], after);
      assert (before + after)[1..] == before[1..] + after && (before + after)[0] == before[0];
    }
  }

  lemma ReachesOn(config: RollupConfig, s: System, t: System, u: System, now: int)
    requires Reaches(config, s, t, now) && Reaches(config, t, u, now)
    ensures Reaches(config, s, u, now)
  {
    hide Can, Do;
    var before :| CanAll(config, s, before) && DoAll(config, s, before) == t && MergesAt(before, now);
    var after :| CanAll(config, t, after) && DoAll(config, t, after) == u && MergesAt(after, now);
    DoAllConcat(config, s, before, after);
    assert MergesAt(before + after, now);
  }

  lemma ReachesNext(config: RollupConfig, s: System, action: Action, now: int)
    requires Can(config, s, action) && (action.Merge? ==> action.now == now)
    ensures Reaches(config, s, Do(config, s, action), now)
  {
    hide Can, Do;
    var t := Do(config, s, action);
    assert [action][1..] == [] && CanAll(config, t, []);
    assert CanAll(config, s, [action]) && DoAll(config, s, [action]) == DoAll(config, t, []);
    assert MergesAt([action], now);
  }

  lemma ReachesSelf(config: RollupConfig, s: System, now: int)
    ensures Reaches(config, s, s, now)
  {
    assert CanAll(config, s, []) && DoAll(config, s, []) == s && MergesAt([], now);
  }

  // ---------- one invocation

  /** An invocation about to drain these messages, in this order, from a system it has to itself;
      its merge will be stamped `now`. */
  datatype Solo = Solo(config: RollupConfig, s: System, run: nat, ids: seq<nat>, now: int) {
    ghost predicate Valid() {
      && run !in s.runs && Queue.Distinct(ids)
      && (forall id | id in ids :: id in s.visible && id in s.sent)
      && forall i | 0 <= i < |ids| :: |Keys(i)| < config.maxKeys
    }

    ghost function Notes(n: nat): seq<Notification>
      requires n <= |ids| && forall id | id in ids :: id in s.sent
    {
      seq(n, i requires 0 <= i < n => Notification(s.sent[ids[i]].key))
    }

    ghost function Keys(n: nat): seq<string>
      requires n <= |ids| && forall id | id in ids :: id in s.sent
    {
      FirstSeen(Notes(n))
    }

    ghost function TakenBy(n: nat): seq<Taken>
      requires n <= |ids| && forall id | id in ids :: id in s.sent
    {
      seq(n, i requires 0 <= i < n => Taken(ids[i], s.sent[ids[i]]))
    }

    ghost function IdsBefore(n: nat): set<nat>
      requires n <= |ids|
    {
      set i | 0 <= i < n :: ids[i]
    }

    lemma RunKeys(phase: Phase, n: nat, got: seq<Got>, deleted: nat)
      requires Valid() && n <= |ids|
      ensures Run(phase, TakenBy(n), got, deleted).Keys() == Keys(n)
    {
      assert Run(phase, TakenBy(n), got, deleted).Notes() == Notes(n);
    }

    /** With the first `n` messages received. */
    ghost function Drained(n: nat): System
      requires Valid() && n <= |ids|
    {
      s.(clock := s.clock + 1 + n, visible := s.visible - IdsBefore(n), inFlight := s.inFlight + IdsBefore(n),
         runs := s.runs[run := Run(Draining, TakenBy(n), [], 0)])
    }

    lemma DrainsAlone(n: nat)
      requires Valid() && n <= |ids|
      ensures Reaches(config, s, Drained(n), now)
    {
      if n == 0 {
        ReachesNext(config, s, Spawn(run), now);
        assert TakenBy(0) == [] && IdsBefore(0) == {};
        assert s.visible - {} == s.visible && s.inFlight + {} == s.inFlight;
        assert Do(config, s, Spawn(run)) == Drained(0);
      } else {
        DrainsAlone(n - 1);
        DrainsOne(n);
        ReachesOn(config, s, Drained(n - 1), Drained(n), now);
      }
    }

    lemma DrainsOne(n: nat)
      requires Valid() && 0 < n <= |ids|
      ensures Reaches(config, Drained(n - 1), Drained(n), now)
    {
      hide FirstSeen, Reaches;
      var before, batch := Drained(n - 1), [ids[n - 1]];
      RunKeys(Draining, n - 1, [], 0);
      assert ids[n - 1] !in IdsBefore(n - 1);
      assert ids[n - 1] in ids;
      assert Can(config, before, Receive(run, batch));
      ReachesNext(config, before, Receive(run, batch), now);
      var more := seq(|batch|, i requires 0 <= i < |batch| => Taken(batch[i], s.sent[batch[i]]));
      assert TakenBy(n - 1) + more == TakenBy(n);
      assert (set id | id in batch) == {ids[n - 1]} && IdsBefore(n) == IdsBefore(n - 1) + {ids[n - 1]};
      assert before.visible - {ids[n - 1]} == s.visible - IdsBefore(n);
      assert before.inFlight + {ids[n - 1]} == s.inFlight + IdsBefore(n);
      assert before.runs[run := Run(Draining, TakenBy(n), [], 0)] == s.runs[run := Run(Draining, TakenBy(n), [], 0)];
      assert Do(config, before, Receive(run, batch)) == Drained(n);
    }

    ghost function GotBy(n: nat): seq<Got>
      requires Valid() && n <= |Keys(|ids|)|
    {
      seq(n, i requires 0 <= i < n =>
        Got(Keys(|ids|)[i], s.clock + 1 + |ids| + i, Rows.Fetch(s.objects, config.names, Keys(|ids|)[i])))
    }

    /** With everything received and the first `n` keys fetched. */
    ghost function Fetched(n: nat): System
      requires Valid() && n <= |Keys(|ids|)|
    {
      var d := Drained(|ids|);
      d.(clock := d.clock + n,
         runs := d.runs[run := Run(if n == 0 then Draining else Fetching, TakenBy(|ids|), GotBy(n), 0)])
    }

    lemma FetchesAlone(n: nat)
      requires Valid() && n <= |Keys(|ids|)|
      ensures Reaches(config, s, Fetched(n), now)
    {
      if n == 0 {
        DrainsAlone(|ids|);
        assert GotBy(0) == [];
        assert Fetched(0) == Drained(|ids|);
      } else {
        FetchesAlone(n - 1);
        FetchesOne(n);
        ReachesOn(config, s, Fetched(n - 1), Fetched(n), now);
      }
    }

    lemma FetchesOne(n: nat)
      requires Valid() && 0 < n <= |Keys(|ids|)|
      ensures Reaches(config, Fetched(n - 1), Fetched(n), now)
    {
      hide FirstSeen, Reaches;
      var before := Fetched(n - 1);
      RunKeys(before.runs[run].phase, |ids|, GotBy(n - 1), 0);
      ReachesNext(config, before, Action.Fetch(run), now);
      assert GotBy(n) == GotBy(n - 1) + [GetOf(config, before, Keys(|ids|)[n - 1])];
      assert before.runs[run := Run(Fetching, TakenBy(|ids|), GotBy(n), 0)] == Fetched(n).runs;
      assert Do(config, before, Action.Fetch(run)) == Fetched(n);
    }

    ghost function Staged(): seq<Row>
      requires Valid()
    {
      RowsOf(FetchAll(s.objects, config.names, Keys(|ids|)))
    }

    /** Merged, with the first `n` receipt handles deleted. */
    ghost function Deleted(n: nat, clock: nat): System
      requires Valid() && n <= |ids|
    {
      var f, k := Fetched(|Keys(|ids|)|), |Keys(|ids|)|;
      f.(clock := clock, visible := s.visible - IdsBefore(|ids|) - IdsBefore(n),
         inFlight := s.inFlight + IdsBefore(|ids|) - IdsBefore(n),
         runs := f.runs[run := Run(Deleting, TakenBy(|ids|), GotBy(k), n)],
         table := RollUp(s.table, Staged(), now),
         merged := s.merged + set got | got in GotBy(k))
    }

    lemma MergesAlone()
      requires Valid()
      ensures Reaches(config, s, Deleted(0, s.clock + 2 + |ids| + |Keys(|ids|)|), now)
    {
      var k := |Keys(|ids|)|;
      var before, after := Fetched(k), Deleted(0, s.clock + 2 + |ids| + k);
      FetchesAlone(k);
      RunKeys(before.runs[run].phase, |ids|, GotBy(k), 0);
      assert Outcomes(GotBy(k)) == FetchAll(s.objects, config.names, Keys(|ids|));
      ReachesNext(config, before, Action.Merge(run, now), now);
      assert IdsBefore(0) == {};
      assert before.visible == after.visible && before.inFlight == after.inFlight;
      assert Do(config, before, Action.Merge(run, now)) == after;
      ReachesOn(config, s, before, after, now);
    }

    lemma DeletesAlone(n: nat, clock: nat) returns (end: nat)
      requires Valid() && n <= |ids|
      ensures Reaches(config, Deleted(n, clock), Deleted(|ids|, end), now)
      decreases |ids| - n
    {
      if n == |ids| {
        ReachesSelf(config, Deleted(n, clock), now);
        end := clock;
      } else {
        var next := BatchEnd(Deleted(n, clock).runs[run]);
        DeletesOne(n, clock);
        end := DeletesAlone(next, clock + 1);
        ReachesOn(config, Deleted(n, clock), Deleted(next, clock + 1), Deleted(|ids|, end), now);
      }
    }

    lemma DeletesOne(n: nat, clock: nat)
      requires Valid() && n < |ids|
      ensures var next := BatchEnd(Deleted(n, clock).runs[run]);
              n < next <= |ids| && Reaches(config, Deleted(n, clock), Deleted(next, clock + 1), now)
    {
      hide RollUp, GotBy, Keys, Staged;
      var before := Deleted(n, clock);
      var next := BatchEnd(before.runs[run]);
      var after := Deleted(next, clock + 1);
      var taken := TakenBy(|ids|);
      ReachesNext(config, before, Action.Delete(run), now);
      var gone := set t | t in taken[n..next] :: t.id;
      GoneAre(n, next);
      assert before.visible - gone == after.visible && before.inFlight - gone == after.inFlight;
      assert before.runs[run := before.runs[run].(deleted := next)] == after.runs;
      assert Do(config, before, Action.Delete(run)) == after;
    }

    lemma GoneAre(n: nat, next: nat)
      requires Valid() && n <= next <= |ids|
      ensures IdsBefore(n) + (set t | t in TakenBy(|ids|)[n..next] :: t.id) == IdsBefore(next)
    {
      var slice := TakenBy(|ids|)[n..next];
      forall id | id in IdsBefore(next) ensures id in IdsBefore(n) || exists t :: t in slice && t.id == id {
        var i :| 0 <= i < next && ids[i] == id;
        if i >= n {
          assert slice[i - n].id == id && slice[i - n] in slice;
        }
      }
      forall t | t in slice ensures t.id in IdsBefore(next) {
        var i :| 0 <= i < |slice| && slice[i] == t;
        assert t.id == ids[n + i];
      }
    }

    /** A whole invocation that nothing interrupts: the table is rolled up with the rows of the keys
        drained, and exactly the messages drained are gone. */
    lemma InvocationAlone() returns (t: System)
      requires Valid()
      ensures Reaches(config, s, t, now)
      ensures t.table == RollUp(s.table, RowsOf(FetchAll(s.objects, config.names, FirstSeen(Notes(|ids|)))), now)
      ensures t.visible == s.visible - (set id | id in ids) && t.inFlight == s.inFlight - (set id | id in ids)
      ensures t.runs == s.runs && t.dead == s.dead && t.sent == s.sent
      ensures t.objects == s.objects && t.modified == s.modified
    {
      hide RollUp, GotBy, Reaches;
      var clock := s.clock + 2 + |ids| + |Keys(|ids|)|;
      MergesAlone();
      var end := DeletesAlone(0, clock);
      var merged, deleted := Deleted(0, clock), Deleted(|ids|, end);
      ReachesOn(config, s, merged, deleted, now);
      ReachesNext(config, deleted, Crash(run), now);
      t := Do(config, deleted, Crash(run));
      ReachesOn(config, s, deleted, t, now);
      assert IdsBefore(|ids|) == (set id | id in ids);
      assert t.runs == s.runs;
    }
  }
}
