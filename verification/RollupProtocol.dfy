/** Any number of rollup invocations at once, each step of each at any time: no notification is
    lost, whichever of them crash, fail to merge, time out or are delivered twice. */
module RollupProtocol {
  import opened Prelude
  import opened Timestamps
  import opened Rows
  import opened Queue
  import opened Rollup

  /** A notification, and when it was put on the queue. */
  datatype Note = Note(key: Option<string>, sentAt: nat)

  datatype Taken = Taken(id: nat, note: Note)

  /** What a GET returned, and when. */
  datatype Got = Got(key: string, at: nat, outcome: Outcome)

  datatype Phase = Draining | Fetching | Deleting

  datatype Run = Run(phase: Phase, taken: seq<Taken>, got: seq<Got>, deleted: nat) {
    function Notes(): seq<Notification> {
      seq(|taken|, i requires 0 <= i < |taken| => Notification(taken[i].note.key))
    }

    function Keys(): seq<string> {
      FirstSeen(Notes())
    }
  }

  /** `clock` counts steps. `sent` and `merged` are history: every notification ever sent and
      everything fetched by a run that went on to merge. */
  datatype System = System(
    clock: nat, objects: map<string, Content>, modified: map<string, nat>,
    sent: map<nat, Note>, visible: set<nat>, inFlight: set<nat>, dead: set<nat>,
    runs: map<nat, Run>, table: Table, merged: set<Got>)

  datatype Action =
    | Write(path: string, content: Option<Content>) // the monitor writes or someone deletes a record
    | Notify(id: nat, key: Option<string>)           // S3's notification, however late, or a reconcile's
    | Spawn(run: nat)
    | Receive(run: nat, ids: seq<nat>)
    | Fetch(run: nat)                                // GET the next key
    | Merge(run: nat, now: int)
    | Delete(run: nat)                               // the next batch of receipt handles
    | Crash(run: nat)                                // a failed GET or merge ends a run the same way
    | Expire(id: nat)                                // the visibility timeout passes
    | GiveUp(id: nat)                                // the queue moves a message to its DLQ

  function ModifiedAt(s: System, key: string): nat {
    if key in s.modified then s.modified[key] else 0
  }

  const START := System(0, map[], map[], map[], {}, {}, {}, map[], map[], {})

  ghost predicate Can(config: RollupConfig, s: System, action: Action) {
    match action
    case Write(_, _) => true
    case Notify(id, _) => id !in s.sent
    case Spawn(run) => run !in s.runs
    case Receive(run, ids) =>
      && run in s.runs && s.runs[run].phase.Draining?
      && (forall id | id in ids :: id in s.visible && id in s.sent)
      && |ids| <= Min(RECEIVE_BATCH, config.maxKeys - |s.runs[run].Keys()|)
    case Fetch(run) => run in s.runs && !s.runs[run].phase.Deleting? && |s.runs[run].got| < |s.runs[run].Keys()|
    case Merge(run, _) => run in s.runs && !s.runs[run].phase.Deleting? && |s.runs[run].got| == |s.runs[run].Keys()|
    case Delete(run) => run in s.runs && s.runs[run].phase.Deleting? && s.runs[run].deleted < |s.runs[run].taken|
    case Crash(run) => run in s.runs
    case Expire(id) => id in s.inFlight
    case GiveUp(id) => id in s.inFlight + s.visible
  }

  function GetOf(config: RollupConfig, s: System, key: string): Got {
    Got(key, s.clock, Rows.Fetch(s.objects, config.names, key))
  }

  function Outcomes(got: seq<Got>): seq<Outcome> {
    seq(|got|, i requires 0 <= i < |got| => got[i].outcome)
  }

  function BatchEnd(run: Run): nat {
    if run.deleted + DELETE_BATCH <= |run.taken| then run.deleted + DELETE_BATCH else |run.taken|
  }

  ghost function Do(config: RollupConfig, s: System, action: Action): System
    requires Can(config, s, action)
  {
    Effect(config, s, action).(clock := s.clock + 1)
  }

  ghost function Effect(config: RollupConfig, s: System, action: Action): System
    requires Can(config, s, action)
  {
    match action
    case Write(key, content) =>
      s.(objects := if content.Some? then s.objects[key := content.value] else s.objects - {key},
         modified := s.modified[key := s.clock + 1])
    case Notify(id, key) => s.(sent := s.sent[id := Note(key, s.clock)], visible := s.visible + {id})
    case Spawn(run) => s.(runs := s.runs[run := Run(Draining, [], [], 0)])
    case Receive(run, ids) =>
      var r := s.runs[run];
      var more := seq(|ids|, i requires 0 <= i < |ids| => Taken(ids[i], s.sent[ids[i]]));
      s.(visible := s.visible - (set id | id in ids), inFlight := s.inFlight + (set id | id in ids),
         runs := s.runs[run := r.(taken := r.taken + more)])
    case Fetch(run) =>
      var r := s.runs[run];
      s.(runs := s.runs[run := r.(phase := Fetching, got := r.got + [GetOf(config, s, r.Keys()[|r.got|])])])
    case Merge(run, now) =>
      var r := s.runs[run];
      s.(runs := s.runs[run := r.(phase := Deleting)], table := RollUp(s.table, RowsOf(Outcomes(r.got)), now),
         merged := s.merged + set got | got in r.got)
    case Delete(run) =>
      var r := s.runs[run];
      var gone := set t | t in r.taken[r.deleted..BatchEnd(r)] :: t.id;
      s.(visible := s.visible - gone, inFlight := s.inFlight - gone, runs := s.runs[run := r.(deleted := BatchEnd(r))])
    case Crash(run) => s.(runs := s.runs - {run})
    case Expire(id) => s.(inFlight := s.inFlight - {id}, visible := s.visible + {id})
    case GiveUp(id) => s.(inFlight := s.inFlight - {id}, visible := s.visible - {id}, dead := s.dead + {id})
  }

  // ---------- the property

  /** The table is no older at the row's natural key than what was fetched. */
  ghost predicate Landed(table: Table, got: Got) {
    got.outcome.Flattened? ==> Instant(got.outcome.row.lastEventTimestamp) <= InstantAt(table, got.outcome.row.key)
  }

  /** The key was fetched after the notification was sent and what was fetched has landed, unless it
      was missing or malformed. */
  ghost predicate Settled(s: System, note: Note) {
    note.key.None? || exists got :: SettledBy(s, note, got)
  }

  ghost predicate SettledBy(s: System, note: Note, got: Got) {
    got in s.merged && Some(got.key) == note.key && got.at >= note.sentAt && Landed(s.table, got)
  }

  ghost predicate Held(s: System, id: nat) {
    id in s.visible || id in s.inFlight || id in s.dead
  }

  ghost predicate NoneLost(s: System) {
    forall id | id in s.sent :: Held(s, id) || Settled(s, s.sent[id])
  }

  // ---------- the invariant

  /** The i-th key was fetched after everything that named it was sent. */
  ghost predicate GotFor(config: RollupConfig, s: System, run: Run, i: nat)
    requires i < |run.got| <= |run.Keys()|
  {
    && run.got[i].key == run.Keys()[i] && Current(config, s, run.got[i])
    && forall t | t in run.taken && t.note.key == Some(run.got[i].key) :: run.got[i].at >= t.note.sentAt
  }

  ghost predicate TakenOk(s: System, t: Taken) {
    t.id in s.sent && s.sent[t.id] == t.note
  }

  ghost predicate RunOk(config: RollupConfig, s: System, run: Run) {
    && (forall t | t in run.taken :: TakenOk(s, t))
    && |run.got| <= |run.Keys()|
    && (forall i | 0 <= i < |run.got| :: GotFor(config, s, run, i))
    && (run.phase.Draining? ==> run.got == [])
    && (run.phase.Deleting? ==> forall t | t in run.taken :: Settled(s, t.note))
  }

  /** What was fetched is that object's, and is what is there if it was not written since. */
  ghost predicate Current(config: RollupConfig, s: System, got: Got) {
    && got.at < s.clock
    && (got.outcome.Flattened? ==> got.outcome.row.sourceKey == got.key)
    && (ModifiedAt(s, got.key) <= got.at ==> got.outcome == Rows.Fetch(s.objects, config.names, got.key))
  }

  ghost predicate Inv(config: RollupConfig, s: System) {
    && NoneLost(s)
    && (forall id | id in s.runs :: RunOk(config, s, s.runs[id]))
    && (forall id | id in s.sent :: s.sent[id].sentAt < s.clock)
    && (forall got | got in s.merged :: Current(config, s, got))
  }

  // ---------- nothing that was settled is unsettled

  /** Nothing is forgotten from one state to the next. */
  ghost predicate Grew(config: RollupConfig, s: System, s': System) {
    && s.merged <= s'.merged
    && (forall id | id in s.sent :: id in s'.sent && s'.sent[id] == s.sent[id])
    && (forall key :: InstantAt(s.table, key) <= InstantAt(s'.table, key))
    && (forall got | Current(config, s, got) :: Current(config, s', got))
  }

  lemma StaysSettled(config: RollupConfig, s: System, s': System, note: Note)
    requires Grew(config, s, s') && Settled(s, note)
    ensures Settled(s', note)
  {
    if note.key.Some? {
      var got :| SettledBy(s, note, got);
      assert SettledBy(s', note, got);
    }
  }

  lemma RunStaysOk(config: RollupConfig, s: System, s': System, run: Run)
    requires Grew(config, s, s') && RunOk(config, s, run)
    ensures RunOk(config, s', run)
  {
    forall t | t in run.taken ensures TakenOk(s', t) && (run.phase.Deleting? ==> Settled(s', t.note)) {
      assert TakenOk(s, t);
      if run.phase.Deleting? {
        StaysSettled(config, s, s', t.note);
      }
    }
    forall i | 0 <= i < |run.got| ensures GotFor(config, s', run, i) {
      assert GotFor(config, s, run, i);
    }
  }

  // ---------- each step keeps the invariant

  /** What a step must show: it forgets nothing, loses no message that is not settled, and leaves the
      run it moved in order. */
  lemma StepKeepsInv(config: RollupConfig, s: System, s': System, moved: nat)
    requires Inv(config, s) && Grew(config, s, s')
    requires forall id | id in s'.sent :: s'.sent[id].sentAt < s'.clock
    requires forall id | id in s'.sent && id !in s.sent :: Held(s', id)
    requires forall id | id in s.sent && Held(s, id) :: Held(s', id) || Settled(s, s.sent[id])
    requires forall id | id in s'.runs && id != moved :: id in s.runs && s'.runs[id] == s.runs[id]
    requires moved in s'.runs ==> RunOk(config, s', s'.runs[moved])
    requires forall got | got in s'.merged && got !in s.merged :: Current(config, s, got)
    ensures Inv(config, s')
  {
    forall id | id in s'.sent ensures Held(s', id) || Settled(s', s'.sent[id]) {
      if id in s.sent && Settled(s, s.sent[id]) {
        StaysSettled(config, s, s', s.sent[id]);
      }
    }
    forall id | id in s'.runs ensures RunOk(config, s', s'.runs[id]) {
      if id != moved {
        RunStaysOk(config, s, s', s.runs[id]);
      }
    }
    assert forall got | got in s'.merged :: Current(config, s, got);
  }

  /** Writes, notifications, and the queue's own moves. */
  lemma OutsideKeepsInv(config: RollupConfig, s: System, action: Action)
    requires Inv(config, s) && Can(config, s, action)
    requires action.Write? || action.Notify? || action.Expire? || action.GiveUp?
    ensures Inv(config, Do(config, s, action))
  {
    var s' := Do(config, s, action);
    assert Grew(config, s, s');
    if 0 in s.runs {
      RunStaysOk(config, s, s', s.runs[0]);
    }
    StepKeepsInv(config, s, s', 0);
  }

  lemma ReceiveKeepsInv(config: RollupConfig, s: System, run: nat, ids: seq<nat>)
    requires Inv(config, s) && Can(config, s, Receive(run, ids))
    ensures Inv(config, Do(config, s, Receive(run, ids)))
  {
    var s' := Do(config, s, Receive(run, ids));
    var r := s'.runs[run];
    assert RunOk(config, s, s.runs[run]);
    forall t | t in r.taken ensures TakenOk(s', t) {
      assert t in s.runs[run].taken ==> TakenOk(s, t);
    }
    StepKeepsInv(config, s, s', run);
  }

  lemma FetchKeepsInv(config: RollupConfig, s: System, run: nat)
    requires Inv(config, s) && Can(config, s, Fetch(run))
    ensures Inv(config, Do(config, s, Fetch(run)))
  {
    var s', r := Do(config, s, Fetch(run)), s.runs[run];
    var r' := s'.runs[run];
    assert RunOk(config, s, r) && r'.Keys() == r.Keys();
    RunStaysOk(config, s, s', r);
    forall i | 0 <= i < |r'.got| ensures GotFor(config, s', r', i) {
      if i < |r.got| {
        assert GotFor(config, s', r, i);
      } else {
        forall t | t in r'.taken ensures s.clock >= t.note.sentAt {
          assert TakenOk(s, t);
        }
      }
    }
    StepKeepsInv(config, s, s', run);
  }

  /** A run that has fetched all its keys and merged settles everything it took. */
  lemma MergeSettles(config: RollupConfig, s: System, s': System, r: Run, now: int)
    requires RunOk(config, s, r) && |r.got| == |r.Keys()|
    requires s'.table == RollUp(s.table, RowsOf(Outcomes(r.got)), now) && (forall got | got in r.got :: got in s'.merged)
    ensures forall t | t in r.taken :: Settled(s', t.note)
  {
    FirstSeenIsExact(r.Notes());
    forall t | t in r.taken && t.note.key.Some? ensures Settled(s', t.note) {
      var j :| 0 <= j < |r.taken| && r.taken[j] == t;
      assert r.Notes()[j] == Notification(Some(t.note.key.value));
      var i :| 0 <= i < |r.Keys()| && r.Keys()[i] == t.note.key.value;
      assert GotFor(config, s, r, i);
      MergedHasLanded(s.table, r.got, now, i);
      assert SettledBy(s', t.note, r.got[i]);
    }
  }

  lemma MergedHasLanded(table: Table, got: seq<Got>, now: int, i: nat)
    requires i < |got|
    ensures Landed(RollUp(table, RowsOf(Outcomes(got)), now), got[i])
  {
    var outcomes := Outcomes(got);
    OutcomesAreAccountedFor(outcomes);
    if got[i].outcome.Flattened? {
      assert outcomes[i] == got[i].outcome == Flattened(got[i].outcome.row);
      RollUpIsAJoin(table, RowsOf(outcomes), now, got[i].outcome.row.key);
    }
  }

  lemma MergeKeepsInv(config: RollupConfig, s: System, run: nat, now: int)
    requires Inv(config, s) && Can(config, s, Merge(run, now))
    ensures Inv(config, Do(config, s, Merge(run, now)))
  {
    var s', r := Do(config, s, Merge(run, now)), s.runs[run];
    var r' := s'.runs[run];
    assert RunOk(config, s, r) && r'.Keys() == r.Keys();
    forall key ensures InstantAt(s.table, key) <= InstantAt(s'.table, key) {
      RollUpIsAJoin(s.table, RowsOf(Outcomes(r.got)), now, key);
    }
    MergeSettles(config, s, s', r, now);
    RunStaysOk(config, s, s', r);
    forall i | 0 <= i < |r'.got| ensures GotFor(config, s', r', i) && Current(config, s, r.got[i]) {
      assert GotFor(config, s', r, i) && GotFor(config, s, r, i);
    }
    StepKeepsInv(config, s, s', run);
  }

  lemma DeleteKeepsInv(config: RollupConfig, s: System, run: nat)
    requires Inv(config, s) && Can(config, s, Delete(run))
    ensures Inv(config, Do(config, s, Delete(run)))
  {
    var s', r := Do(config, s, Delete(run)), s.runs[run];
    var r' := s'.runs[run];
    assert RunOk(config, s, r) && r'.Keys() == r.Keys();
    forall id | id in s.sent && Held(s, id) ensures Held(s', id) || Settled(s, s.sent[id]) {
      if t :| t in r.taken[r.deleted..BatchEnd(r)] && t.id == id {
        assert t in r.taken && TakenOk(s, t);
      }
    }
    RunStaysOk(config, s, s', r);
    forall i | 0 <= i < |r'.got| ensures GotFor(config, s', r', i) {
      assert GotFor(config, s', r, i);
    }
    StepKeepsInv(config, s, s', run);
  }

  lemma DoKeepsInv(config: RollupConfig, s: System, action: Action)
    requires Inv(config, s) && Can(config, s, action)
    ensures Inv(config, Do(config, s, action))
  {
    match action
    case Receive(run, ids) => ReceiveKeepsInv(config, s, run, ids);
    case Fetch(run) => FetchKeepsInv(config, s, run);
    case Merge(run, now) => MergeKeepsInv(config, s, run, now);
    case Delete(run) => DeleteKeepsInv(config, s, run);
    case Spawn(run) => StepKeepsInv(config, s, Do(config, s, action), run);
    case Crash(run) => StepKeepsInv(config, s, Do(config, s, action), run);
    case _ => OutsideKeepsInv(config, s, action);
  }

  // ---------- every execution

  ghost predicate CanAll(config: RollupConfig, s: System, actions: seq<Action>)
    decreases |actions|
  {
    actions == [] || (Can(config, s, actions[0]) && CanAll(config, Do(config, s, actions[0]), actions[1..]))
  }

  ghost function DoAll(config: RollupConfig, s: System, actions: seq<Action>): System
    requires CanAll(config, s, actions)
    decreases |actions|
  {
    if actions == [] then s else DoAll(config, Do(config, s, actions[0]), actions[1..])
  }

  lemma {:induction false} DoAllKeepsInv(config: RollupConfig, s: System, actions: seq<Action>)
    requires Inv(config, s) && CanAll(config, s, actions)
    ensures Inv(config, DoAll(config, s, actions))
    decreases |actions|
  {
    if actions != [] {
      DoKeepsInv(config, s, actions[0]);
      DoAllKeepsInv(config, Do(config, s, actions[0]), actions[1..]);
    }
  }

  /** No notification is lost in any execution. */
  lemma NoNotificationIsLost(config: RollupConfig, actions: seq<Action>)
    requires CanAll(config, START, actions)
    ensures NoneLost(DoAll(config, START, actions))
  {
    DoAllKeepsInv(config, START, actions);
  }

  /** Once the queue and its DLQ hold nothing, a record notified of since it was last written is in
      the table at its own timestamp or a later one, unless it does not flatten. */
  lemma EmptyQueueMeansUpToDate(config: RollupConfig, actions: seq<Action>, id: nat, key: string)
    requires CanAll(config, START, actions)
    requires var s := DoAll(config, START, actions);
             && s.visible + s.inFlight + s.dead == {}
             && id in s.sent && s.sent[id].key == Some(key) && ModifiedAt(s, key) <= s.sent[id].sentAt
    ensures var s := DoAll(config, START, actions);
            var outcome := Rows.Fetch(s.objects, config.names, key);
            outcome.Flattened? ==> Instant(outcome.row.lastEventTimestamp) <= InstantAt(s.table, outcome.row.key)
  {
    DoAllKeepsInv(config, START, actions);
    var s := DoAll(config, START, actions);
    assert id !in s.visible + s.inFlight + s.dead;
    assert !Held(s, id);
    var got :| SettledBy(s, s.sent[id], got);
    assert Current(config, s, got);
  }
}
