/** Classifying a Batch job state change (`job_details.py`). */
module JobDetails {
  import opened Prelude
  import opened OrderedDict
  import opened Models

  /** What the monitor reads of an event's detail, each field already resolved. */
  datatype Detail = Detail(
    jobId: string, status: string, exitCode: Option<int>, statusReason: Option<string>,
    logStreamName: Option<string>, createdAt: Option<string>, startedAt: Option<string>, stoppedAt: Option<string>)

  const AWAITING_STATUSES: set<string> := {"PENDING", "RUNNABLE", "STARTING", "RUNNING"}

  function OutcomeFor(outcomes: ExitCodeOutcomes, exitCode: Option<int>): Option<ExitCodeOutcome> {
    match exitCode
    case None => None
    case Some(code) => Get(outcomes, code)
  }

  predicate StartsWithAny(s: string, prefixes: seq<string>) {
    exists i | 0 <= i < |prefixes| :: prefixes[i] <= s
  }

  function Classify(detail: Detail, policy: RetryPolicy, outcomes: ExitCodeOutcomes): Result<ProcessingState, string> {
    if detail.status in AWAITING_STATUSES then Ok(AWAITING)
    else if detail.status == "SUCCEEDED" then Ok(SUCCESS)
    else if detail.status == "FAILED" then
      match OutcomeFor(outcomes, detail.exitCode)
      case Some(outcome) => Ok(outcome.ToProcessingState())
      case None =>
        var reason := if detail.statusReason.Some? then detail.statusReason.value else "";
        if StartsWithAny(reason, policy.spotPrefixes) then Ok(FAILURE_RETRYABLE) else Ok(FAILURE_NONRETRYABLE)
    else Err("Unrecognized job status")
  }

  /** Only a status Batch never reports is an error, and whatever is returned is a state of
      the job type. A terminal status never yields AWAITING and the others yield nothing else. */
  lemma ClassifyYieldsAPossibleState(detail: Detail, policy: RetryPolicy, outcomes: ExitCodeOutcomes)
    ensures Classify(detail, policy, outcomes).Err? <==>
              detail.status !in {"PENDING", "RUNNABLE", "STARTING", "RUNNING", "SUCCEEDED", "FAILED"}
    ensures Classify(detail, policy, outcomes).Ok? ==>
              var s := Classify(detail, policy, outcomes).value;
              && Possible(outcomes, s)
              && (s.Rank() == 1 <==> detail.status in {"PENDING", "RUNNABLE", "STARTING", "RUNNING"})
              && (s.Rank() == 2 <==> detail.status in {"SUCCEEDED", "FAILED"})
  {
    var outcome := OutcomeFor(outcomes, detail.exitCode);
    if outcome.Some? {
      var i :| 0 <= i < |outcomes| && outcomes[i] == (detail.exitCode.value, outcome.value);
    }
  }

  /** A failure with no declared outcome is retried exactly when its reason, if any, starts with one of
      the spot interruption prefixes. */
  lemma UndeclaredFailureIsRetriedExactlyForSpot(detail: Detail, policy: RetryPolicy, outcomes: ExitCodeOutcomes)
    requires detail.status == "FAILED" && (detail.exitCode.Some? ==> !HasKey(outcomes, detail.exitCode.value))
    ensures var r, reason := Classify(detail, policy, outcomes), detail.statusReason;
            && r.Ok? && r.value in {FAILURE_RETRYABLE, FAILURE_NONRETRYABLE}
            && (r.value.Retryable() <==>
                  exists i | 0 <= i < |policy.spotPrefixes| ::
                    policy.spotPrefixes[i] == "" || (reason.Some? && policy.spotPrefixes[i] <= reason.value))
  {
    var text := if detail.statusReason.Some? then detail.statusReason.value else "";
    assert StartsWithAny(text, policy.spotPrefixes) <==>
      exists i | 0 <= i < |policy.spotPrefixes| ::
        policy.spotPrefixes[i] == "" || (detail.statusReason.Some? && policy.spotPrefixes[i] <= detail.statusReason.value);
  }

  /** A failure with a declared exit code is classified as its outcome says: its name, retryable or not,
      dead-lettered or not. */
  lemma EveryOutcomeIsClassified(detail: Detail, policy: RetryPolicy, outcomes: ExitCodeOutcomes, i: nat)
    requires DistinctKeys(outcomes) && i < |outcomes|
    ensures var r, outcome := Classify(detail.(status := "FAILED", exitCode := Some(outcomes[i].0)), policy, outcomes),
                              outcomes[i].1;
            && r == Ok(outcome.ToProcessingState())
            && r.value.name == outcome.name && r.value.dlq == outcome.dlq
            && r.value.kind == (if outcome.retryable then RetryableFailure else NonretryableFailure)
  {
    GetIsUnique(outcomes, i);
  }
}
