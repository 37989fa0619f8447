/** What an event makes of its job, told from what Batch reports and what the deployment declares, and
    not from the states in between (`job_details.py`, `models.py`, `lambda_core.py`). */
module Routing {
  import opened Prelude
  import opened OrderedDict
  import opened Models
  import opened JobDetails
  import opened LogStore
  import opened Monitor
  import opened Retry
  import opened Rules

  /** The outcome declared for an exit code. */
  ghost predicate Declares(outcomes: ExitCodeOutcomes, exitCode: Option<int>, outcome: ExitCodeOutcome) {
    exitCode.Some? && exists i :: 0 <= i < |outcomes| && outcomes[i] == (exitCode.value, outcome)
  }

  ghost predicate Undeclared(outcomes: ExitCodeOutcomes, exitCode: Option<int>) {
    forall outcome :: !Declares(outcomes, exitCode, outcome)
  }

  /** The status reason, if any, starts with one of the prefixes. */
  ghost predicate SpotInterrupted(detail: Detail, policy: RetryPolicy) {
    exists i | 0 <= i < |policy.spotPrefixes| ::
      policy.spotPrefixes[i] == "" || (detail.statusReason.Some? && policy.spotPrefixes[i] <= detail.statusReason.value)
  }

  /** How Batch's report is to be read: the state's name, and whether it asks for a retry and may be
      dead-lettered. */
  datatype Reading = Reading(name: string, ended: bool, retry: bool, deadLetter: bool)

  ghost predicate Reads(detail: Detail, config: Config, reading: Reading) {
    if detail.status in {"PENDING", "RUNNABLE", "STARTING", "RUNNING"} then reading == Reading("AWAITING", false, false, false)
    else if detail.status == "SUCCEEDED" then reading == Reading("SUCCESS", true, false, false)
    else
      && detail.status == "FAILED"
      && if Undeclared(config.outcomes, detail.exitCode)
         then reading == if SpotInterrupted(detail, config.policy) then Reading("FAILURE_RETRYABLE", true, true, true)
                         else Reading("FAILURE_NONRETRYABLE", true, false, true)
         else exists outcome :: Declares(config.outcomes, detail.exitCode, outcome)
                                && reading == Reading(outcome.name, true, outcome.retryable, outcome.dlq)
  }

  /** Every event with a status Batch reports is read one way. */
  lemma ReadOneWay(detail: Detail, config: Config) returns (reading: Reading)
    requires DistinctKeys(config.outcomes)
    requires detail.status in {"PENDING", "RUNNABLE", "STARTING", "RUNNING", "SUCCEEDED", "FAILED"}
    ensures Reads(detail, config, reading) && forall other :: Reads(detail, config, other) ==> other == reading
  {
    if detail.status == "FAILED" && !Undeclared(config.outcomes, detail.exitCode) {
      var outcome :| Declares(config.outcomes, detail.exitCode, outcome);
      forall other | Declares(config.outcomes, detail.exitCode, other) ensures other == outcome {
        var i :| 0 <= i < |config.outcomes| && config.outcomes[i] == (detail.exitCode.value, outcome);
        var j :| 0 <= j < |config.outcomes| && config.outcomes[j] == (detail.exitCode.value, other);
        GetIsUnique(config.outcomes, i);
        GetIsUnique(config.outcomes, j);
      }
      reading := Reading(outcome.name, true, outcome.retryable, outcome.dlq);
    } else {
      reading :=
        if detail.status == "SUCCEEDED" then Reading("SUCCESS", true, false, false)
        else if detail.status != "FAILED" then Reading("AWAITING", false, false, false)
        else if SpotInterrupted(detail, config.policy) then Reading("FAILURE_RETRYABLE", true, true, true)
        else Reading("FAILURE_NONRETRYABLE", true, false, true);
    }
  }

  lemma ClassifiedAsRead(detail: Detail, config: Config, reading: Reading)
    requires DistinctKeys(config.outcomes) && Reads(detail, config, reading)
    ensures var r := Classify(detail, config.policy, config.outcomes);
            && r.Ok? && r.value.name == reading.name
            && (r.value.kind == RetryableFailure <==> reading.retry)
            && (r.value.kind == NonretryableFailure ==> reading.ended && r.value.dlq == reading.deadLetter)
            && (r.value.kind == RetryableFailure ==> reading.ended && r.value.dlq == reading.deadLetter)
            && (r.value.kind == SuccessKind ==> reading.ended && r.value == SUCCESS && !reading.deadLetter)
            && (r.value.kind == AwaitingKind ==> reading == Reading("AWAITING", false, false, false))
            && r.value.kind != SubmitterKind
  {
    if detail.status == "FAILED" {
      if Undeclared(config.outcomes, detail.exitCode) {
        if detail.exitCode.Some? && HasKey(config.outcomes, detail.exitCode.value) {
          var i :| 0 <= i < |config.outcomes| && config.outcomes[i].0 == detail.exitCode.value;
          assert Declares(config.outcomes, detail.exitCode, config.outcomes[i].1);
        }
        UndeclaredFailureIsRetriedExactlyForSpot(detail, config.policy, config.outcomes);
      } else {
        var outcome :| Declares(config.outcomes, detail.exitCode, outcome)
                       && reading == Reading(outcome.name, true, outcome.retryable, outcome.dlq);
        var i :| 0 <= i < |config.outcomes| && config.outcomes[i] == (detail.exitCode.value, outcome);
        EveryOutcomeIsClassified(detail, config.policy, config.outcomes, i);
        assert detail.(status := "FAILED", exitCode := Some(config.outcomes[i].0)) == detail;
      }
    }
  }

  /** A fresh event of a job that has ended indexes the group's output unless it asks for a retry it still
      has an attempt for; asks for that retry, where there is a queue for it; and otherwise is
      dead-lettered if its outcome says so, where there is a queue for that. Nothing else does any of it. */
  lemma RoutedAsRead(w: World, config: Config, d: Delivery, reading: Reading, faults: Faults)
    requires DistinctKeys(config.outcomes) && Reads(d.detail, config, reading)
    ensures var r := Classify(d.detail, config.policy, config.outcomes);
            r.Ok? &&
            var after := Apply(w, config, d, r.value, faults);
            var isFresh := AnyFresh(w, config, d, r.value, faults, |d.group.Contexts()|);
            var again := reading.retry && d.group.attempt < config.policy.maxAttempts;
            var message := RetryMessage(d.group, d.detail.jobId, reading.name);
            && after.retryQueue == w.retryQueue + (if isFresh && again && config.hasRetryQueue then [message] else [])
            && after.deadLetters == w.deadLetters
                 + (if isFresh && reading.deadLetter && !again && config.hasDeadLetterQueue then [message] else [])
            && after.outputs == w.outputs
                 + (if isFresh && reading.ended && !again
                    then {OutputKey(reading.name, d.group.jobType, d.group.partitionFields, d.group.outputEntityId)}
                    else {})
  {
    hide Apply, AnyFresh, Classify, Reads;
    ClassifiedAsRead(d.detail, config, reading);
    OneEventOneMessage(w, config, d, Classify(d.detail, config.policy, config.outcomes).value, faults);
  }

  /** For a job type as deployed: its own limit, and queues only if its failures are to be routed. */
  lemma RoutedForItsJobType(w: World, jobType: JobTypeConfig, d: Delivery, reading: Reading, faults: Faults)
    requires DistinctKeys(jobType.outcomes) && Reads(d.detail, MonitorConfig(jobType), reading)
    ensures var r := Classify(d.detail, jobType.policy, jobType.outcomes);
            r.Ok? &&
            var after := Apply(w, MonitorConfig(jobType), d, r.value, faults);
            var isFresh := AnyFresh(w, MonitorConfig(jobType), d, r.value, faults, |d.group.Contexts()|);
            var again := reading.retry && d.group.attempt < jobType.policy.maxAttempts;
            && (|after.retryQueue| > |w.retryQueue| <==> isFresh && again && jobType.routeFailures)
            && (|after.deadLetters| > |w.deadLetters| <==> isFresh && reading.deadLetter && !again && jobType.routeFailures)
  {
    hide Apply, AnyFresh, Classify, Reads;
    RoutedAsRead(w, MonitorConfig(jobType), d, reading, faults);
  }
}
