/** The retry loop: the monitor's messages, the queue that may deliver them again and again, and the
    resubmission of their groups (`job_resubmit_handler.py`, `submission.py`, `lambda_core.py`). */
module Retry {
  import opened Prelude
  import opened Models
  import opened JobDetails
  import opened LogStore
  import opened Monitor
  import opened Parameters

  // ---------- the resubmit handler

  /** One SQS record; a body that does not parse as a retry message is None. */
  datatype RetryRecord = RetryRecord(messageId: string, message: Option<RetryMessage>)

  /** What the deployment knows and what Batch answers: the job types with a configuration, each
      one's base parameters, and the records whose submission Batch refuses. */
  datatype Resubmission = Resubmission(bases: map<string, BatchParameters>, refused: set<nat>, codec: Codec)

  predicate CanResubmit(record: RetryRecord, i: nat, with: Resubmission) {
    record.message.Some? && record.message.value.group.jobType in with.bases && i !in with.refused
  }

  /** The parameters of a message's group at its next attempt. */
  function Resubmitted(message: RetryMessage, with: Resubmission): BatchParameters
    requires message.group.jobType in with.bases
  {
    Submitted(with.bases[message.group.jobType], message.group.NextAttempt(), with.codec)
  }

  /** The messages reported as failed: exactly those of records that could not be resubmitted. */
  function Failures(records: seq<RetryRecord>, with: Resubmission): seq<string> {
    if records == [] then []
    else
      var n := |records| - 1;
      var before := Failures(records[..n], with);
      if CanResubmit(records[n], n, with) then before else before + [records[n].messageId]
  }

  function Jobs(records: seq<RetryRecord>, with: Resubmission): seq<BatchParameters> {
    if records == [] then []
    else
      var n := |records| - 1;
      var before := Jobs(records[..n], with);
      if CanResubmit(records[n], n, with) then before + [Resubmitted(records[n].message.value, with)] else before
  }

  class BatchClient {
    var jobs: seq<BatchParameters>

    constructor ()
      ensures jobs == []
    {
      jobs := [];
    }

    method SubmitJob(parameters: BatchParameters, refused: bool) returns (accepted: bool)
      modifies this
      ensures accepted == !refused && jobs == if refused then old(jobs) else old(jobs) + [parameters]
    {
      accepted := !refused;
      if accepted {
        jobs := jobs + [parameters];
      }
    }
  }

  /** `resubmit_job`: false where it raises. */
  method ResubmitJob(client: BatchClient, group: JobGroup, i: nat, with: Resubmission) returns (accepted: bool)
    modifies client
    ensures accepted == (group.jobType in with.bases && i !in with.refused)
    ensures client.jobs == if accepted then old(client.jobs) + [Submitted(with.bases[group.jobType], group.NextAttempt(), with.codec)]
                           else old(client.jobs)
  {
    var next := group.NextAttempt();
    if next.jobType !in with.bases {
      return false;
    }
    accepted := client.SubmitJob(Submitted(with.bases[next.jobType], next, with.codec), i in with.refused);
  }

  /** The handler's loop: a record that fails is reported and does not stop the others. */
  method Handler(records: seq<RetryRecord>, client: BatchClient, with: Resubmission) returns (batchItemFailures: seq<string>)
    modifies client
    ensures batchItemFailures == Failures(records, with)
    ensures client.jobs == old(client.jobs) + Jobs(records, with)
  {
    batchItemFailures := [];
    for i := 0 to |records|
      invariant batchItemFailures == Failures(records[..i], with)
      invariant client.jobs == old(client.jobs) + Jobs(records[..i], with)
    {
      assert records[..i + 1][..i] == records[..i];
      var accepted := false;
      if records[i].message.Some? {
        accepted := ResubmitJob(client, records[i].message.value.group, i, with);
      }
      if !accepted {
        batchItemFailures := batchItemFailures + [records[i].messageId];
      }
    }
    assert records[..|records|] == records;
  }

  /** Every record is either reported, to be delivered again, or resubmitted, and never both. */
  lemma {:induction false} EachRecordOnce(records: seq<RetryRecord>, with: Resubmission)
    ensures |Failures(records, with)| + |Jobs(records, with)| == |records|
    ensures forall i | 0 <= i < |records| ::
              if CanResubmit(records[i], i, with) then Resubmitted(records[i].message.value, with) in Jobs(records, with)
              else records[i].messageId in Failures(records, with)
  {
    if records != [] {
      var n := |records| - 1;
      EachRecordOnce(records[..n], with);
      assert forall i | 0 <= i < n :: records[..n][i] == records[i];
    }
  }

  // ---------- one event

  /** An event sends at most one message: for a retry exactly when it is fresh for some entity,
      retryable and short of the last attempt, and to the dead letters only when terminal. It indexes
      the group's output exactly when fresh and terminal. */
  lemma OneEventOneMessage(w: World, config: Config, d: Delivery, s: ProcessingState, faults: Faults)
    ensures var after, isFresh := Apply(w, config, d, s, faults), AnyFresh(w, config, d, s, faults, |d.group.Contexts()|);
            && after.retryQueue == w.retryQueue
                 + (if isFresh && s.kind == RetryableFailure && d.group.attempt < config.policy.maxAttempts && config.hasRetryQueue
                    then [RetryMessage(d.group, d.detail.jobId, s.name)] else [])
            && after.deadLetters == w.deadLetters
                 + (if isFresh && config.hasDeadLetterQueue && s.dlq
                       && (s.kind == NonretryableFailure || (s.kind == RetryableFailure && d.group.attempt >= config.policy.maxAttempts)
                           || (s.kind == SuccessKind && s != SUCCESS))
                    then [RetryMessage(d.group, d.detail.jobId, s.name)] else [])
            && after.outputs == w.outputs
                 + (if isFresh && (s.kind in {SuccessKind, NonretryableFailure}
                                   || (s.kind == RetryableFailure && d.group.attempt >= config.policy.maxAttempts))
                    then {OutputKey(s.name, d.group.jobType, d.group.partitionFields, d.group.outputEntityId)} else {})
  {
    var n := |d.group.Contexts()|;
    RecordEntitiesFrame(w, config, d, s, faults, n);
  }

  // ---------- the loop

  /** A Batch job, and the retry message it was submitted for, if any. */
  datatype Job = Job(parameters: BatchParameters, cause: Option<nat>)

  /** `world.retryQueue` is every retry message ever sent, `origins` the job each one is about. */
  datatype System = System(world: World, jobs: seq<Job>, origins: seq<Option<nat>>)

  datatype Action =
    | Submit(base: BatchParameters, group: JobGroup)
    | Handle(job: nat, detail: Detail, eventTime: string, state: ProcessingState, faults: Faults)
    | HandleUntracked(d: Delivery, state: ProcessingState, faults: Faults)
    | Resubmit(m: nat)    // delivered once more, or again

  datatype Deployment = Deployment(configs: map<string, Config>, with: Resubmission)

  /** A job's group as its events report it. */
  function Decoded(dep: Deployment, s: System, j: nat): Result<JobGroup, DecodeError>
    requires j < |s.jobs|
  {
    DecodeJobGroup(s.jobs[j].parameters, dep.with.codec)
  }

  ghost predicate CanHandle(dep: Deployment, d: Delivery, state: ProcessingState) {
    && d.group.jobType in dep.configs
    && Classify(d.detail, dep.configs[d.group.jobType].policy, dep.configs[d.group.jobType].outcomes) == Ok(state)
  }

  ghost predicate Can(dep: Deployment, s: System, action: Action) {
    match action
    case Submit(_, _) => true
    case Handle(job, detail, eventTime, state, _) =>
      && job < |s.jobs| && Decoded(dep, s, job).Ok?
      && CanHandle(dep, Delivery(detail, eventTime, Decoded(dep, s, job).value), state)
    case HandleUntracked(d, state, _) => CanHandle(dep, d, state)
    case Resubmit(m) => m < |s.world.retryQueue| && s.world.retryQueue[m].group.jobType in dep.with.bases
  }

  ghost function Handled(dep: Deployment, s: System, d: Delivery, state: ProcessingState, faults: Faults, origin: Option<nat>): System
    requires CanHandle(dep, d, state)
  {
    var w := Apply(s.world, dep.configs[d.group.jobType], d, state, faults);
    s.(world := w, origins := if |w.retryQueue| > |s.world.retryQueue| then s.origins + [origin] else s.origins)
  }

  ghost function Do(dep: Deployment, s: System, action: Action): System
    requires Can(dep, s, action)
  {
    match action
    case Submit(base, group) => s.(jobs := s.jobs + [Job(Submitted(base, group, dep.with.codec), None)])
    case Handle(job, detail, eventTime, state, faults) =>
      Handled(dep, s, Delivery(detail, eventTime, Decoded(dep, s, job).value), state, faults, Some(job))
    case HandleUntracked(d, state, faults) => Handled(dep, s, d, state, faults, None)
    case Resubmit(m) => s.(jobs := s.jobs + [Job(Resubmitted(s.world.retryQueue[m], dep.with), Some(m))])
  }

  const START := System(World(map[], map[], {}, [], []), [], [])

  ghost predicate CanAll(dep: Deployment, s: System, actions: seq<Action>)
    decreases |actions|
  {
    actions == [] || (Can(dep, s, actions[0]) && CanAll(dep, Do(dep, s, actions[0]), actions[1..]))
  }

  ghost function DoAll(dep: Deployment, s: System, actions: seq<Action>): System
    requires CanAll(dep, s, actions)
    decreases |actions|
  {
    if actions == [] then s else DoAll(dep, Do(dep, s, actions[0]), actions[1..])
  }

  // ---------- what every run keeps

  function MaxAttempts(dep: Deployment, group: JobGroup): int {
    if group.jobType in dep.configs then dep.configs[group.jobType].policy.maxAttempts else 0
  }

  /** A message short of its job type's last attempt, about the job it came from. */
  ghost predicate MessageOk(dep: Deployment, s: System, m: nat)
    requires m < |s.world.retryQueue| && |s.origins| == |s.world.retryQueue|
  {
    var message := s.world.retryQueue[m];
    && message.group.attempt < MaxAttempts(dep, message.group)
    && (s.origins[m].Some? ==>
          && s.origins[m].value < |s.jobs|
          && Decoded(dep, s, s.origins[m].value) == Ok(message.group))
  }

  /** A resubmitted job is its message's group one attempt on, and within the limit. */
  ghost predicate JobOk(dep: Deployment, s: System, j: nat)
    requires j < |s.jobs|
  {
    s.jobs[j].cause.Some? ==>
      && s.jobs[j].cause.value < |s.world.retryQueue|
      && (var message := s.world.retryQueue[s.jobs[j].cause.value];
          var decoded := Decoded(dep, s, j);
          decoded.Ok? ==> decoded.value == message.group.NextAttempt().(partitionFields := Sorted(message.group.partitionFields)))
  }

  ghost predicate Inv(dep: Deployment, s: System) {
    && |s.origins| == |s.world.retryQueue|
    && (forall m: nat | m < |s.world.retryQueue| :: MessageOk(dep, s, m))
    && (forall j: nat | j < |s.jobs| :: JobOk(dep, s, j))
  }

  lemma HandledKeepsInv(dep: Deployment, s: System, d: Delivery, state: ProcessingState, faults: Faults, origin: Option<nat>)
    requires Inv(dep, s) && CanHandle(dep, d, state)
    requires origin.Some? ==> origin.value < |s.jobs| && Decoded(dep, s, origin.value) == Ok(d.group)
    ensures Inv(dep, Handled(dep, s, d, state, faults, origin))
  {
    var s' := Handled(dep, s, d, state, faults, origin);
    OneEventOneMessage(s.world, dep.configs[d.group.jobType], d, state, faults);
    forall m: nat | m < |s'.world.retryQueue| ensures MessageOk(dep, s', m) {
      assert m < |s.world.retryQueue| ==> MessageOk(dep, s, m);
    }
    forall j: nat | j < |s'.jobs| ensures JobOk(dep, s', j) {
      assert JobOk(dep, s, j);
    }
  }

  lemma SubmittedKeepsInv(dep: Deployment, s: System, job: Job)
    requires Inv(dep, s) && JobOk(dep, s.(jobs := s.jobs + [job]), |s.jobs|)
    ensures Inv(dep, s.(jobs := s.jobs + [job]))
  {
    var s' := s.(jobs := s.jobs + [job]);
    forall m: nat | m < |s'.world.retryQueue| ensures MessageOk(dep, s', m) {
      assert MessageOk(dep, s, m);
    }
    forall j: nat | j < |s'.jobs| ensures JobOk(dep, s', j) {
      assert j < |s.jobs| ==> JobOk(dep, s, j);
    }
  }

  lemma DoKeepsInv(dep: Deployment, s: System, action: Action)
    requires Faithful(dep.with.codec)
    requires Inv(dep, s) && Can(dep, s, action)
    ensures Inv(dep, Do(dep, s, action))
  {
    match action
    case Handle(job, detail, eventTime, state, faults) =>
      HandledKeepsInv(dep, s, Delivery(detail, eventTime, Decoded(dep, s, job).value), state, faults, Some(job));
    case HandleUntracked(d, state, faults) => HandledKeepsInv(dep, s, d, state, faults, None);
    case Submit(base, group) => SubmittedKeepsInv(dep, s, Job(Submitted(base, group, dep.with.codec), None));
    case Resubmit(m) =>
      var message := s.world.retryQueue[m];
      DecodeOfSubmitted(dep.with.bases[message.group.jobType], message.group.NextAttempt(), dep.with.codec);
      SubmittedKeepsInv(dep, s, Job(Resubmitted(message, dep.with), Some(m)));
  }

  lemma {:induction false} DoAllKeepsInv(dep: Deployment, s: System, actions: seq<Action>)
    requires Faithful(dep.with.codec)
    requires Inv(dep, s) && CanAll(dep, s, actions)
    ensures Inv(dep, DoAll(dep, s, actions))
    decreases |actions|
  {
    if actions != [] {
      DoKeepsInv(dep, s, actions[0]);
      DoAllKeepsInv(dep, Do(dep, s, actions[0]), actions[1..]);
    }
  }

  /** However often messages are delivered, every retry message is short of the last attempt and every
      resubmitted job is within it, one attempt past its message's. */
  lemma RetriesStayWithinTheLimit(dep: Deployment, actions: seq<Action>)
    requires Faithful(dep.with.codec)
    requires CanAll(dep, START, actions)
    ensures var s := DoAll(dep, START, actions);
            && (forall m: nat | m < |s.world.retryQueue| ::
                  s.world.retryQueue[m].group.attempt < MaxAttempts(dep, s.world.retryQueue[m].group))
            && (forall j: nat | j < |s.jobs| && s.jobs[j].cause.Some? && Decoded(dep, s, j).Ok? ::
                  && s.jobs[j].cause.value < |s.world.retryQueue|
                  && Decoded(dep, s, j).value.attempt
                       == s.world.retryQueue[s.jobs[j].cause.value].group.attempt + 1
                  && Decoded(dep, s, j).value.attempt
                       <= MaxAttempts(dep, Decoded(dep, s, j).value))
  {
    DoAllKeepsInv(dep, START, actions);
    var s := DoAll(dep, START, actions);
    forall m: nat | m < |s.world.retryQueue|
      ensures s.world.retryQueue[m].group.attempt < MaxAttempts(dep, s.world.retryQueue[m].group)
    {
      assert MessageOk(dep, s, m);
    }
    forall j: nat | j < |s.jobs| && s.jobs[j].cause.Some? && Decoded(dep, s, j).Ok?
      ensures s.jobs[j].cause.value < |s.world.retryQueue|
      ensures Decoded(dep, s, j).value.attempt == s.world.retryQueue[s.jobs[j].cause.value].group.attempt + 1
      ensures Decoded(dep, s, j).value.attempt <= MaxAttempts(dep, Decoded(dep, s, j).value)
    {
      assert JobOk(dep, s, j) && MessageOk(dep, s, s.jobs[j].cause.value);
    }
  }

  // ---------- chains

  /** `j` was submitted for a message about `i`. */
  ghost predicate Follows(dep: Deployment, s: System, i: nat, j: nat) {
    && i < |s.jobs| && j < |s.jobs| && s.jobs[j].cause.Some?
    && s.jobs[j].cause.value < |s.origins| && s.origins[s.jobs[j].cause.value] == Some(i)
    && Decoded(dep, s, j).Ok?
  }

  ghost predicate IsChain(dep: Deployment, s: System, chain: seq<nat>) {
    && chain != [] && chain[0] < |s.jobs| && Decoded(dep, s, chain[0]).Ok?
    && forall k | 0 < k < |chain| :: Follows(dep, s, chain[k - 1], chain[k])
  }

  ghost function GroupOf(dep: Deployment, s: System, j: nat): Option<JobGroup> {
    if j < |s.jobs| && Decoded(dep, s, j).Ok? then Some(Decoded(dep, s, j).value) else None
  }

  lemma {:induction false} ChainCounts(dep: Deployment, s: System, chain: seq<nat>, k: nat)
    requires Inv(dep, s) && IsChain(dep, s, chain) && k < |chain|
    ensures var first, here := GroupOf(dep, s, chain[0]), GroupOf(dep, s, chain[k]);
            && first.Some? && here.Some? && here.value.jobType == first.value.jobType
            && here.value.attempt == first.value.attempt + k
            && (k > 0 ==> here.value.attempt <= MaxAttempts(dep, first.value))
  {
    if k > 0 {
      ChainCounts(dep, s, chain, k - 1);
      assert Follows(dep, s, chain[k - 1], chain[k]);
      assert JobOk(dep, s, chain[k]) && MessageOk(dep, s, s.jobs[chain[k]].cause.value);
    }
  }

  /** A submission is followed by at most as many resubmissions as it has attempts left. */
  lemma ChainsAreBounded(dep: Deployment, actions: seq<Action>, chain: seq<nat>)
    requires Faithful(dep.with.codec)
    requires CanAll(dep, START, actions) && IsChain(dep, DoAll(dep, START, actions), chain)
    ensures var first := GroupOf(dep, DoAll(dep, START, actions), chain[0]);
            first.Some? && |chain| <= Max(1, MaxAttempts(dep, first.value) - first.value.attempt + 1)
  {
    hide DecodeJobGroup, Do, Can, Faithful;
    DoAllKeepsInv(dep, START, actions);
    ChainLength(dep, DoAll(dep, START, actions), chain);
  }

  lemma ChainLength(dep: Deployment, s: System, chain: seq<nat>)
    requires Inv(dep, s) && IsChain(dep, s, chain)
    ensures var first := GroupOf(dep, s, chain[0]);
            first.Some? && |chain| <= Max(1, MaxAttempts(dep, first.value) - first.value.attempt + 1)
  {
    ChainCounts(dep, s, chain, |chain| - 1);
  }
}
