/** Recording and routing one Batch job state change (`lambda_core.py`): the effect of an
    event as a function, and `monitor_job` proved to have that effect. */
module Monitor {
  import opened Prelude
  import opened Models
  import opened JobDetails
  import opened LogStore

  /** Everything the monitor writes to. */
  datatype World = World(
    pointers: Pointers, records: Records, outputs: set<OutputKey>,
    retryQueue: seq<RetryMessage>, deadLetters: seq<RetryMessage>)

  datatype Config = Config(
    policy: RetryPolicy, outcomes: ExitCodeOutcomes, submitterStates: seq<ProcessingState>,
    hasRetryQueue: bool, hasDeadLetterQueue: bool)

  datatype Delivery = Delivery(detail: Detail, eventTime: string, group: JobGroup)

  /** Which deletes S3 refuses: of the old pointer of the i-th context, and of its k-th
      submitter state. */
  datatype Faults = Faults(oldPointer: set<nat>, submitter: set<(nat, nat)>)

  /** What is known of an entity before its event: the state to move from, the attempt it is
      recorded at, and whether a newer attempt has superseded this one. */
  datatype Previous = Previous(state: Option<ProcessingState>, attempt: nat, stale: bool)

  ghost function PreviousOf(keys: set<PointerKey>, states: seq<ProcessingState>, context: JobContext): Previous {
    var e := context.Entity();
    var found := FindState(keys, states, e, context.attempt);
    if found.Some? then Previous(found, context.attempt, false)
    else
      var active := ActivePointer(keys, states, e);
      if active.None? then Previous(None, context.attempt, false)
      else if active.value.1 > context.attempt then Previous(None, context.attempt, true)
      else Previous(Some(active.value.0), active.value.1, false)
  }

  /** Not a straggler of a superseded attempt, nor ranked below what this attempt has reached. */
  predicate IsFresh(previous: Previous, newState: ProcessingState, attempt: nat) {
    && !previous.stale
    && !(previous.attempt == attempt && previous.state.Some? && newState.Rank() < previous.state.value.Rank())
  }

  predicate IsUnchanged(previous: Previous, newState: ProcessingState, attempt: nat) {
    previous.attempt == attempt && previous.state == Some(newState)
  }

  /** Delete an attempt's pointers in the submitter states. */
  function DropSubmitters(
    pointers: Pointers, context: JobContext, submitterStates: seq<ProcessingState>, i: nat, faults: Faults): Pointers
  {
    if submitterStates == [] then pointers
    else
      var n := |submitterStates| - 1;
      var before := DropSubmitters(pointers, context, submitterStates[..n], i, faults);
      if (i, n) in faults.submitter then before else before - {PointerKeyOf(submitterStates[n], context)}
  }

  /** The pointers after the event of one entity. */
  ghost function MovePointer(
    pointers: Pointers, states: seq<ProcessingState>, submitterStates: seq<ProcessingState>,
    context: JobContext, newState: ProcessingState, i: nat, faults: Faults): Pointers
  {
    var previous := PreviousOf(pointers.Keys, states, context);
    var swept := DropSubmitters(pointers, context, submitterStates, i, faults);
    if !IsFresh(previous, newState, context.attempt) || IsUnchanged(previous, newState, context.attempt) then swept
    else WritePointer(swept, context, newState, previous.state, previous.attempt, i in faults.oldPointer)
  }

  function EventOf(d: Delivery, newState: ProcessingState): EventRecord {
    EventRecord(newState.name, d.eventTime, Some(d.detail.jobId), d.detail.exitCode)
  }

  function BatchFieldsOf(detail: Detail): BatchFields {
    BatchFields(Some(detail.jobId), detail.logStreamName, detail.createdAt, detail.startedAt, detail.stoppedAt)
  }

  /** The world after the event has been recorded for the first `n` entities of its group. */
  ghost function RecordEntities(w: World, config: Config, d: Delivery, newState: ProcessingState, faults: Faults, n: nat)
    : World
    requires n <= |d.group.Contexts()|
  {
    if n == 0 then w
    else
      var before := RecordEntities(w, config, d, newState, faults, n - 1);
      var context := d.group.Contexts()[n - 1];
      before.(
        pointers := MovePointer(before.pointers, States(config.outcomes), config.submitterStates,
                      context, newState, n - 1, faults),
        records := AppendEvent(before.records, context, EventOf(d, newState), BatchFieldsOf(d.detail)))
  }

  ghost predicate FreshAt(w: World, config: Config, d: Delivery, newState: ProcessingState, faults: Faults, i: nat)
    requires i < |d.group.Contexts()|
  {
    var before := RecordEntities(w, config, d, newState, faults, i);
    var context := d.group.Contexts()[i];
    IsFresh(PreviousOf(before.pointers.Keys, States(config.outcomes), context), newState, context.attempt)
  }

  /** Some entity of the group had not already seen something at or past this event. */
  ghost predicate AnyFresh(w: World, config: Config, d: Delivery, newState: ProcessingState, faults: Faults, n: nat)
    requires n <= |d.group.Contexts()|
  {
    n > 0 && (AnyFresh(w, config, d, newState, faults, n - 1) || FreshAt(w, config, d, newState, faults, n - 1))
  }

  function MessageOf(d: Delivery, newState: ProcessingState): RetryMessage {
    RetryMessage(d.group, d.detail.jobId, newState.name)
  }

  /** Index a terminal outcome once for the group and notify the queue it belongs on. */
  function Route(w: World, config: Config, d: Delivery, newState: ProcessingState): World
    requires d.group.inputEntityIds != []
  {
    var terminal := newState.IsTerminal(d.group.attempt, config.policy.maxAttempts);
    var indexed := if terminal then w.(outputs := w.outputs + {OutputKeyOf(newState, d.group.Contexts()[0])}) else w;
    if newState.Retryable() && !terminal then
      if config.hasRetryQueue then indexed.(retryQueue := indexed.retryQueue + [MessageOf(d, newState)]) else indexed
    else if terminal && newState != SUCCESS && newState.dlq then
      if config.hasDeadLetterQueue then indexed.(deadLetters := indexed.deadLetters + [MessageOf(d, newState)]) else indexed
    else indexed
  }

  /** The effect of an event that classifies as `newState`. */
  ghost function Apply(w: World, config: Config, d: Delivery, newState: ProcessingState, faults: Faults): World {
    var n := |d.group.Contexts()|;
    var recorded := RecordEntities(w, config, d, newState, faults, n);
    if AnyFresh(w, config, d, newState, faults, n) then Route(recorded, config, d, newState) else recorded
  }

  class SqsClient {
    var retryQueue: seq<RetryMessage>
    var deadLetters: seq<RetryMessage>

    constructor ()
      ensures retryQueue == [] && deadLetters == []
    {
      retryQueue, deadLetters := [], [];
    }
  }

  ghost function WorldOf(store: S3RecordStore, sqs: SqsClient): World
    reads store, sqs
  {
    World(store.pointers, store.records, store.outputs, sqs.retryQueue, sqs.deadLetters)
  }

  /** `monitor_job`. An unknown status raises before anything is written. */
  method MonitorJob(
    detail: Detail, eventTime: string, logStore: S3RecordStore, jobGroup: JobGroup,
    config: Config, sqs: SqsClient, faults: Faults)
    returns (r: Result<ProcessingState, string>)
    requires logStore.Valid()
    modifies logStore, sqs
    ensures logStore.Valid()
    ensures r == Classify(detail, config.policy, config.outcomes)
    ensures WorldOf(logStore, sqs) ==
              if r.Err? then old(WorldOf(logStore, sqs))
              else Apply(old(WorldOf(logStore, sqs)), config, Delivery(detail, eventTime, jobGroup), r.value, faults)
  {
    var states := ComputeStates(config.outcomes);
    r := Classify(detail, config.policy, config.outcomes);
    if r.Err? {
      return;
    }
    var newState := r.value;
    ghost var d := Delivery(detail, eventTime, jobGroup);
    ghost var w := WorldOf(logStore, sqs);

    var anyFresh := RecordGroup(detail, eventTime, logStore, jobGroup, config, states, newState, faults, w);
    assert WorldOf(logStore, sqs) == RecordEntities(w, config, d, newState, faults, |jobGroup.Contexts()|) by {
      RecordEntitiesFrame(w, config, d, newState, faults, |jobGroup.Contexts()|);
    }
    if anyFresh {
      RouteGroup(d, newState, logStore, config, sqs, jobGroup, detail);
    }
  }

  /** Recording touches nothing but pointers and records. */
  lemma {:induction false} RecordEntitiesFrame(
    w: World, config: Config, d: Delivery, newState: ProcessingState, faults: Faults, n: nat)
    requires n <= |d.group.Contexts()|
    ensures var r := RecordEntities(w, config, d, newState, faults, n);
            r.outputs == w.outputs && r.retryQueue == w.retryQueue && r.deadLetters == w.deadLetters
  {
    hide MovePointer, AppendEvent;
    if n > 0 {
      RecordEntitiesFrame(w, config, d, newState, faults, n - 1);
    }
  }

  /** The loop over the group's entities. */
  method RecordGroup(
    detail: Detail, eventTime: string, logStore: S3RecordStore, jobGroup: JobGroup,
    config: Config, states: seq<ProcessingState>, newState: ProcessingState, faults: Faults, ghost w: World)
    returns (anyFresh: bool)
    requires logStore.Valid() && states == States(config.outcomes)
    requires logStore.pointers == w.pointers && logStore.records == w.records
    modifies logStore`pointers, logStore`records
    ensures logStore.Valid()
    ensures var d, n := Delivery(detail, eventTime, jobGroup), |jobGroup.Contexts()|;
            && logStore.pointers == RecordEntities(w, config, d, newState, faults, n).pointers
            && logStore.records == RecordEntities(w, config, d, newState, faults, n).records
            && anyFresh == AnyFresh(w, config, d, newState, faults, n)
  {
    ghost var d := Delivery(detail, eventTime, jobGroup);
    var contexts := jobGroup.Contexts();
    anyFresh := false;
    for n := 0 to |contexts|
      invariant logStore.Valid()
      invariant logStore.pointers == RecordEntities(w, config, d, newState, faults, n).pointers
      invariant logStore.records == RecordEntities(w, config, d, newState, faults, n).records
      invariant anyFresh == AnyFresh(w, config, d, newState, faults, n)
    {
      ghost var before := RecordEntities(w, config, d, newState, faults, n);
      var isFresh := RecordEntity(contexts[n], newState, logStore, config, states, n, faults, detail, eventTime, d);
      assert isFresh == FreshAt(w, config, d, newState, faults, n);
      anyFresh := anyFresh || isFresh;
    }
  }

  /** The tail of `monitor_job`: output index, then retry queue or dead-letter queue. */
  method RouteGroup(
    ghost d: Delivery, newState: ProcessingState, logStore: S3RecordStore, config: Config, sqs: SqsClient,
    jobGroup: JobGroup, detail: Detail)
    requires d.group == jobGroup && d.detail == detail && jobGroup.inputEntityIds != []
    modifies logStore`outputs, sqs
    ensures WorldOf(logStore, sqs) == Route(old(WorldOf(logStore, sqs)), config, d, newState)
  {
    var terminal := newState.IsTerminal(jobGroup.attempt, config.policy.maxAttempts);
    if terminal {
      logStore.WriteOutputIndex(jobGroup.Contexts()[0], newState);
    }
    var message := RetryMessage(jobGroup, detail.jobId, newState.name);
    if newState.Retryable() && !terminal {
      if config.hasRetryQueue {
        sqs.retryQueue := sqs.retryQueue + [message];
      }
    } else if terminal && newState != SUCCESS && newState.dlq {
      if config.hasDeadLetterQueue {
        sqs.deadLetters := sqs.deadLetters + [message];
      }
    }
  }

  /** An entity's previous state and attempt, and whether the event is a straggler. */
  method FindPrevious(context: JobContext, states: seq<ProcessingState>, logStore: S3RecordStore)
    returns (previous: Previous)
    requires logStore.Valid()
    ensures previous == PreviousOf(logStore.pointers.Keys, states, context)
  {
    var oldState := logStore.FindStatePointer(context, states);
    var oldAttempt := context.attempt;
    var stale := false;
    if oldState.None? {
      var active := logStore.FindActivePointer(context.Entity(), states);
      if active.Some? {
        if active.value.1 > context.attempt {
          stale := true;
        } else {
          oldState, oldAttempt := Some(active.value.0), active.value.1;
        }
      }
    }
    previous := Previous(oldState, oldAttempt, stale);
  }

  method SweepSubmitters(
    context: JobContext, submitterStates: seq<ProcessingState>, logStore: S3RecordStore, i: nat, faults: Faults)
    requires logStore.Valid()
    modifies logStore`pointers
    ensures logStore.Valid()
    ensures logStore.pointers == DropSubmitters(old(logStore.pointers), context, submitterStates, i, faults)
  {
    for k := 0 to |submitterStates|
      invariant logStore.Valid()
      invariant logStore.pointers == DropSubmitters(old(logStore.pointers), context, submitterStates[..k], i, faults)
    {
      assert submitterStates[..k + 1][..k] == submitterStates[..k];
      logStore.DeleteStatePointer(context, submitterStates[k], (i, k) in faults.submitter);
    }
    assert submitterStates[..|submitterStates|] == submitterStates;
  }

  /** The loop body: one entity's record, submitter pointers and state pointer. */
  method RecordEntity(
    context: JobContext, newState: ProcessingState, logStore: S3RecordStore, config: Config,
    states: seq<ProcessingState>, i: nat, faults: Faults, detail: Detail, eventTime: string, ghost d: Delivery)
    returns (isFresh: bool)
    requires logStore.Valid() && d.detail == detail && d.eventTime == eventTime
    modifies logStore`pointers, logStore`records
    ensures logStore.Valid()
    ensures isFresh == IsFresh(PreviousOf(old(logStore.pointers).Keys, states, context), newState, context.attempt)
    ensures logStore.pointers == MovePointer(old(logStore.pointers), states, config.submitterStates,
                                   context, newState, i, faults)
    ensures logStore.records == AppendEvent(old(logStore.records), context, EventOf(d, newState), BatchFieldsOf(detail))
  {
    var previous := FindPrevious(context, states, logStore);
    var event := EventRecord(newState.name, eventTime, Some(detail.jobId), detail.exitCode);
    logStore.AppendCanonicalEvent(context, event, BatchFieldsOf(detail));
    SweepSubmitters(context, config.submitterStates, logStore, i, faults);

    var oldState, oldAttempt := previous.state, previous.attempt;
    if previous.stale
      || (oldAttempt == context.attempt && oldState.Some? && newState.Rank() < oldState.value.Rank()) {
      return false;
    }
    if !(oldAttempt == context.attempt && oldState == Some(newState)) {
      logStore.WriteStatePointer(context, newState, oldState, Some(oldAttempt), i in faults.oldPointer);
    }
    return true;
  }
}
