/** One rollup invocation: drain, fetch, dedupe, merge, delete, chain (`rollup.py`). */
module Rollup {
  import opened Prelude
  import opened Rows
  import opened Queue

  datatype RollupConfig = RollupConfig(names: seq<string>, maxKeys: int, maxDepth: int)

  /** A self-invocation's payload. */
  datatype Payload =
    | RollupPayload(depth: int)
    | ReconcilePayload(depth: int, query: nat, token: nat)

  class LambdaClient {
    var invoked: seq<Payload>

    constructor ()
      ensures invoked == []
    {
      invoked := [];
    }
  }

  class AthenaClient {
    ghost var table: Table

    constructor ()
      ensures table == map[]
    {
      table := map[];
    }

    /** Run the MERGE to the end; a query that fails changes nothing. */
    method RunMerge(staged: seq<Row>, now: int, fails: bool) returns (succeeded: bool)
      requires OnePerKey(staged)
      modifies this
      ensures succeeded == !fails
      ensures table == if fails then old(table) else Merge(old(table), staged, now)
    {
      succeeded := !fails;
      if succeeded {
        table := Merge(table, staged, now);
      }
    }
  }

  /** `_chain` */
  method Chain(lambda: LambdaClient, maxDepth: int, payload: Payload) returns (chained: bool)
    modifies lambda
    ensures chained == (payload.depth < maxDepth)
    ensures lambda.invoked == old(lambda.invoked) + (if chained then [payload] else [])
  {
    if payload.depth >= maxDepth {
      return false;
    }
    lambda.invoked := lambda.invoked + [payload];
    return true;
  }

  datatype Metrics = Metrics(rolledUp: nat, missing: nat, malformed: nat, chainDepth: int, failures: nat)

  datatype Failure = GetRefused | MergeFailed(metrics: Metrics)

  /** What AWS answers in the course of a run. */
  datatype Answers = Answers(refused: set<string>, mergeFails: bool, now: int, queueDepth: nat)

  ghost predicate AnyRefused(keys: seq<string>, refused: set<string>) {
    exists k | k in keys :: k in refused
  }

  lemma NothingToMerge(table: Table, now: int)
    ensures RollUp(table, [], now) == table
  {
  }

  /** `run_rollup`. `notes` is what it drained. A failure leaves every drained message in flight, to
      reappear; success deletes all of them, those of repeated and unreadable keys included, and
      only once their rows are in the table. It drains until the cap or an empty answer. */
  method RunRollup(
    config: RollupConfig, queue: SqsQueue, athena: AthenaClient, lambda: LambdaClient,
    objects: map<string, Content>, depth: int, answers: Answers)
    returns (r: Result<Metrics, Failure>, ghost notes: seq<Notification>, ghost handles: seq<nat>)
    requires queue.Valid()
    modifies queue, athena, lambda
    ensures queue.Valid()
    ensures multiset(queue.visible) + multiset(notes) == old(multiset(queue.visible))
    ensures |FirstSeen(notes)| <= config.maxKeys || FirstSeen(notes) == []
    ensures old(queue.answers) <= queue.answers
    ensures var asked := queue.answers[|old(queue.answers)|..];
            && StoppedDuly(asked, FirstSeen(notes), config.maxKeys) && Total(asked) == |notes|
            && (Prompt(asked) ==> queue.visible == [] || |FirstSeen(notes)| >= config.maxKeys)
    ensures var keys := FirstSeen(notes);
            var outcomes := FetchAll(objects, config.names, keys);
            var merged := |Deduped(RowsOf(outcomes))|;
            var metrics := Metrics(merged, Count(outcomes, Missing), Count(outcomes, Malformed), depth, 0);
            r == if AnyRefused(keys, answers.refused) then Err(GetRefused)
                 else if RowsOf(outcomes) != [] && answers.mergeFails
                 then Err(MergeFailed(metrics.(rolledUp := 0, failures := 1)))
                 else Ok(metrics)
    ensures r.Err? ==>
              && athena.table == old(athena.table) && lambda.invoked == old(lambda.invoked)
              && Captured(old(queue.inFlight), queue.inFlight, handles) && Received(queue.inFlight, handles) == notes
    ensures r.Ok? ==>
              && athena.table == RollUp(old(athena.table), RowsOf(FetchAll(objects, config.names, FirstSeen(notes))), answers.now)
              && queue.inFlight == old(queue.inFlight)
              && lambda.invoked == old(lambda.invoked)
                   + (if answers.queueDepth > 0 && depth + 1 < config.maxDepth then [RollupPayload(depth + 1)] else [])
  {
    var keys, drained := DrainKeys(queue, config.maxKeys);
    handles := drained;
    notes := Received(queue.inFlight, handles);
    var fetched := FetchRows(objects, keys, config.names, answers.refused);
    if fetched.Err? {
      return Err(GetRefused), notes, handles;
    }
    var metrics := Metrics(0, fetched.value.missing, fetched.value.malformed, depth, 0);
    if fetched.value.rows != [] {
      var deduped := DedupeRowsByNaturalKey(fetched.value.rows);
      DedupeKeepsTheNewest(fetched.value.rows);
      var succeeded := athena.RunMerge(deduped, answers.now, answers.mergeFails);
      if !succeeded {
        return Err(MergeFailed(metrics.(failures := 1))), notes, handles;
      }
      metrics := metrics.(rolledUp := |deduped|);
    } else {
      NothingToMerge(athena.table, answers.now);
    }
    DeleteMessages(queue, drained);
    RestoredBy(old(queue.inFlight), queue.inFlight, handles);
    if answers.queueDepth > 0 {
      var chained := Chain(lambda, config.maxDepth, RollupPayload(depth + 1));
    }
    r := Ok(metrics);
  }

  lemma RestoredBy(before: map<nat, Notification>, after: map<nat, Notification>, handles: seq<nat>)
    requires forall h | h in before :: h in after && after[h] == before[h]
    requires after.Keys == before.Keys
    ensures after == before
  {
  }
}
