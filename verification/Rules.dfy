/** How deploy-time validation and EventBridge rules divide Batch events between the tracked and the
    untracked path (`job_monitor_function.py`). */
module Rules {
  import opened Prelude
  import opened OrderedDict
  import opened Models
  import opened JobDetails
  import Keys
  import opened LogStore
  import opened Monitor
  import opened MonitorRuns

  datatype JobTypeConfig = JobTypeConfig(
    jobQueueArn: string, jobDefinitionArn: string, policy: RetryPolicy, outcomes: ExitCodeOutcomes,
    requiresParameters: bool, routeFailures: bool, trackedStatuses: seq<string>, submitterStates: seq<string>)

  type Configs = Dict<string, JobTypeConfig>

  /** What the rules look at in an event. */
  datatype BatchEvent = BatchEvent(status: string, jobQueue: string, jobDefinition: string, hasJobType: bool)

  const BATCH_EVENT_STATUSES: set<string> := {"PENDING", "RUNNABLE", "STARTING", "RUNNING", "SUCCEEDED", "FAILED"}
  const TERMINAL_STATUSES: set<string> := {"SUCCEEDED", "FAILED"}

  // ---------- rules

  /** A job type's own rule. */
  predicate TrackedRule(config: JobTypeConfig, event: BatchEvent) {
    && event.status in config.trackedStatuses
    && event.jobQueue == config.jobQueueArn
    && config.jobDefinitionArn + ":" <= event.jobDefinition
    && (config.requiresParameters ==> event.hasJobType)
  }

  /** A queue's catch-all rule. */
  predicate UntrackedRule(jobQueueArn: string, event: BatchEvent) {
    event.status in TERMINAL_STATUSES && event.jobQueue == jobQueueArn && !event.hasJobType
  }

  function Requiring(configs: Configs): Configs {
    if configs == [] then []
    else
      var before, last := Requiring(configs[..|configs| - 1]), configs[|configs| - 1];
      if last.1.requiresParameters then before + [last] else before
  }

  /** Queue to the first job type using it, in order of first use. */
  function FirstByQueue(configs: Configs): Dict<string, string> {
    if configs == [] then []
    else
      var before, last := FirstByQueue(configs[..|configs| - 1]), configs[|configs| - 1];
      if Get(before, last.1.jobQueueArn).Some? then before else Put(before, last.1.jobQueueArn, last.0)
  }

  function Swapped(d: Dict<string, string>): Dict<string, string> {
    seq(|d|, i requires 0 <= i < |d| => (d[i].1, d[i].0))
  }

  /** `_first_job_type_per_queue` */
  method FirstJobTypePerQueue(configs: Configs) returns (rules: Dict<string, string>)
    ensures rules == Swapped(FirstByQueue(configs))
  {
    var byQueue: Dict<string, string> := [];
    for i := 0 to |configs|
      invariant byQueue == FirstByQueue(configs[..i])
    {
      assert configs[..i + 1][..i] == configs[..i];
      if Get(byQueue, configs[i].1.jobQueueArn).None? {
        byQueue := Put(byQueue, configs[i].1.jobQueueArn, configs[i].0);
      }
    }
    assert configs[..|configs|] == configs;
    rules := seq(|byQueue|, i requires 0 <= i < |byQueue| => (byQueue[i].1, byQueue[i].0));
  }

  /** The catch-all rules, by the job type that names each. */
  function UntrackedRules(configs: Configs): Dict<string, string> {
    Swapped(FirstByQueue(Requiring(configs)))
  }

  // ---------- validation

  datatype Invalid =
    | UnknownStatuses(statuses: seq<string>)
    | MissingStatuses
    | MalformedStates
    | CollidingStates
    | EntryWithoutIndex
    | NeedsCustomHandler
    | MixedQueues

  function Unknown(statuses: seq<string>): seq<string> {
    if statuses == [] then []
    else (if statuses[0] in BATCH_EVENT_STATUSES then [] else [statuses[0]]) + Unknown(statuses[1..])
  }

  function ValidateTrackedStatuses(config: JobTypeConfig): Result<(), Invalid> {
    if Unknown(config.trackedStatuses) != [] then Err(UnknownStatuses(Unknown(config.trackedStatuses)))
    else if "SUCCEEDED" !in config.trackedStatuses || "FAILED" !in config.trackedStatuses then Err(MissingStatuses)
    else Ok(())
  }

  predicate Malformed(name: string) {
    name == "" || '/' in name || '=' in name
  }

  predicate IsOwnState(outcomes: ExitCodeOutcomes, name: string) {
    exists i | 0 <= i < |States(outcomes)| :: States(outcomes)[i].name == name
  }

  function ValidateSubmitterStates(config: JobTypeConfig): Result<(), Invalid> {
    if exists i | 0 <= i < |config.submitterStates| :: Malformed(config.submitterStates[i]) then Err(MalformedStates)
    else if exists i | 0 <= i < |config.submitterStates| :: IsOwnState(config.outcomes, config.submitterStates[i])
    then Err(CollidingStates)
    else Ok(())
  }

  /** Job types that do and do not require the parameters never share a queue. */
  ghost predicate QueuesUnmixed(configs: Configs) {
    forall i, j | 0 <= i < |configs| && 0 <= j < |configs| && configs[i].1.jobQueueArn == configs[j].1.jobQueueArn ::
      configs[i].1.requiresParameters == configs[j].1.requiresParameters
  }

  ghost predicate AllRequire(configs: Configs) {
    forall i | 0 <= i < |configs| :: configs[i].1.requiresParameters
  }

  /** Some job type using this queue has this requirement. */
  ghost predicate Uses(configs: Configs, queue: string, requirement: bool) {
    exists i :: 0 <= i < |configs| && configs[i].1.jobQueueArn == queue && configs[i].1.requiresParameters == requirement
  }

  /** `_validate_handler` */
  method ValidateHandler(configs: Configs, hasEntry: bool, hasIndex: bool) returns (r: Result<(), Invalid>)
    ensures r == if hasEntry != hasIndex then Err(EntryWithoutIndex)
                 else if !hasEntry && !AllRequire(configs) then Err(NeedsCustomHandler)
                 else if !QueuesUnmixed(configs) then Err(MixedQueues)
                 else Ok(())
  {
    if hasEntry != hasIndex {
      return Err(EntryWithoutIndex);
    }
    if (exists i | 0 <= i < |configs| :: !configs[i].1.requiresParameters) && !hasEntry {
      return Err(NeedsCustomHandler);
    }
    var requirementByQueue: map<string, set<bool>> := map[];
    for i := 0 to |configs|
      invariant Recorded(requirementByQueue, configs[..i])
    {
      var queue, requirement := configs[i].1.jobQueueArn, configs[i].1.requiresParameters;
      var already := if queue in requirementByQueue then requirementByQueue[queue] else {};
      RecordedOneMore(requirementByQueue, configs, i);
      requirementByQueue := requirementByQueue[queue := already + {requirement}];
    }
    assert configs[..|configs|] == configs;
    if exists q | q in requirementByQueue :: |requirementByQueue[q]| > 1 {
      ghost var q :| q in requirementByQueue && |requirementByQueue[q]| > 1;
      BothIn(requirementByQueue[q]);
      assert InSetAt(requirementByQueue, q, true) && InSetAt(requirementByQueue, q, false);
      assert Uses(configs, q, true) && Uses(configs, q, false);
      return Err(MixedQueues);
    }
    forall i, j | 0 <= i < |configs| && 0 <= j < |configs| && configs[i].1.jobQueueArn == configs[j].1.jobQueueArn
      ensures configs[i].1.requiresParameters == configs[j].1.requiresParameters
    {
      var q := configs[i].1.jobQueueArn;
      assert Uses(configs, q, configs[i].1.requiresParameters) && Uses(configs, q, configs[j].1.requiresParameters);
      assert InSetAt(requirementByQueue, q, configs[i].1.requiresParameters)
          && InSetAt(requirementByQueue, q, configs[j].1.requiresParameters);
      AtMostOne(requirementByQueue[q], configs[i].1.requiresParameters, configs[j].1.requiresParameters);
    }
    r := Ok(());
  }

  ghost predicate Recorded(m: map<string, set<bool>>, configs: Configs) {
    forall q: string, b: bool :: InSetAt(m, q, b) <==> Uses(configs, q, b)
  }

  ghost predicate InSetAt(m: map<string, set<bool>>, q: string, b: bool) {
    q in m && b in m[q]
  }

  lemma RecordedOneMore(m: map<string, set<bool>>, configs: Configs, i: nat)
    requires i < |configs| && Recorded(m, configs[..i])
    ensures var queue := configs[i].1.jobQueueArn;
            Recorded(m[queue := (if queue in m then m[queue] else {}) + {configs[i].1.requiresParameters}], configs[..i + 1])
  {
    var queue := configs[i].1.jobQueueArn;
    var m' := m[queue := (if queue in m then m[queue] else {}) + {configs[i].1.requiresParameters}];
    forall q: string, b: bool ensures InSetAt(m', q, b) <==> Uses(configs[..i + 1], q, b) {
      UsesOneMore(configs, i, q, b);
      assert InSetAt(m, q, b) <==> Uses(configs[..i], q, b);
    }
  }

  lemma UsesOneMore(configs: Configs, i: nat, q: string, b: bool)
    requires i < |configs|
    ensures Uses(configs[..i + 1], q, b) <==>
              Uses(configs[..i], q, b) || (q == configs[i].1.jobQueueArn && b == configs[i].1.requiresParameters)
  {
    if Uses(configs[..i], q, b) {
      var k :| 0 <= k < i && configs[..i][k].1.jobQueueArn == q && configs[..i][k].1.requiresParameters == b;
      assert configs[..i + 1][k] == configs[..i][k];
    }
    if Uses(configs[..i + 1], q, b) {
      var k :| 0 <= k < i + 1 && configs[..i + 1][k].1.jobQueueArn == q && configs[..i + 1][k].1.requiresParameters == b;
      assert k < i ==> configs[..i][k] == configs[..i + 1][k];
    }
    if q == configs[i].1.jobQueueArn && b == configs[i].1.requiresParameters {
      assert configs[..i + 1][i] == configs[i];
    }
  }

  lemma BothIn(s: set<bool>)
    requires |s| > 1
    ensures true in s && false in s
  {
    var t := s - {true};
    var u := t - {false};
    assert |t| == |s| - (if true in s then 1 else 0) && |u| == |t| - (if false in s then 1 else 0);
    assert forall b | b in u :: b != true && b != false;
    assert u == {};
  }

  lemma AtMostOne(s: set<bool>, b: bool, c: bool)
    requires |s| <= 1 && b in s && c in s
    ensures b == c
  {
    var rest := s - {b};
    assert |rest| == |s| - 1;
    assert c != b ==> c in rest;
  }

  /** What the construct accepts. */
  ghost predicate Accepted(configs: Configs, hasEntry: bool, hasIndex: bool) {
    && DistinctKeys(configs)
    && (forall i | 0 <= i < |configs| ::
          ValidateTrackedStatuses(configs[i].1).Ok? && ValidateSubmitterStates(configs[i].1).Ok?)
    && hasEntry == hasIndex && (hasEntry || AllRequire(configs))
    && QueuesUnmixed(configs)
  }

  /** What the first job type to be refused is refused for: its statuses, then its submitter states. */
  function FirstInvalid(configs: Configs): Result<(), Invalid> {
    if configs == [] then Ok(())
    else if ValidateTrackedStatuses(configs[0].1).Err? then ValidateTrackedStatuses(configs[0].1)
    else if ValidateSubmitterStates(configs[0].1).Err? then ValidateSubmitterStates(configs[0].1)
    else FirstInvalid(configs[1..])
  }

  /** The construct's validation, in its order: job type by job type, then the handler. */
  method ValidateConfigs(configs: Configs, hasEntry: bool, hasIndex: bool) returns (r: Result<(), Invalid>)
    requires DistinctKeys(configs)
    ensures r.Ok? <==> Accepted(configs, hasEntry, hasIndex)
    ensures FirstInvalid(configs).Err? ==> r == FirstInvalid(configs)
  {
    for i := 0 to |configs|
      invariant FirstInvalid(configs) == FirstInvalid(configs[i..])
      invariant forall k | 0 <= k < i ::
                  ValidateTrackedStatuses(configs[k].1).Ok? && ValidateSubmitterStates(configs[k].1).Ok?
    {
      assert configs[i..][0] == configs[i] && configs[i..][1..] == configs[i + 1..];
      r := ValidateTrackedStatuses(configs[i].1);
      if r.Err? {
        return;
      }
      r := ValidateSubmitterStates(configs[i].1);
      if r.Err? {
        return;
      }
    }
    r := ValidateHandler(configs, hasEntry, hasIndex);
  }

  // ---------- one catch-all rule to a queue

  ghost predicate QueueIn(configs: Configs, queue: string) {
    exists i :: 0 <= i < |configs| && configs[i].1.jobQueueArn == queue
  }

  lemma {:induction false} FirstByQueueIsExact(configs: Configs, queue: string)
    ensures DistinctKeys(FirstByQueue(configs))
    ensures HasKey(FirstByQueue(configs), queue) <==> QueueIn(configs, queue)
  {
    if configs != [] {
      var n := |configs| - 1;
      var before, last := FirstByQueue(configs[..n]), configs[n];
      FirstByQueueIsExact(configs[..n], queue);
      FirstByQueueIsExact(configs[..n], last.1.jobQueueArn);
      PutKeepsDistinct(before, last.1.jobQueueArn, last.0);
      GetPut(before, last.1.jobQueueArn, last.0, queue);
      QueueInOneMore(configs, queue);
    }
  }

  /** Each queue's catch-all rule is named by the first job type using the queue, and by no other's. */
  lemma {:induction false} FirstByQueueIsFirst(configs: Configs, r: nat)
    requires r < |FirstByQueue(configs)|
    ensures exists i :: IsFirstUse(configs, i, FirstByQueue(configs)[r].0, FirstByQueue(configs)[r].1)
  {
    var n := |configs| - 1;
    var before, entry := FirstByQueue(configs[..n]), FirstByQueue(configs)[r];
    FirstByQueueIsExact(configs[..n], configs[n].1.jobQueueArn);
    if r < |before| {
      FirstByQueueIsFirst(configs[..n], r);
      var i :| IsFirstUse(configs[..n], i, before[r].0, before[r].1);
      FirstUseOneMore(configs, i, before[r].0, before[r].1);
    } else {
      assert entry == (configs[n].1.jobQueueArn, configs[n].0) && !QueueIn(configs[..n], entry.0);
      assert forall j | 0 <= j < n :: configs[..n][j] == configs[j];
      assert IsFirstUse(configs, n, entry.0, entry.1);
    }
  }

  lemma FirstUseOneMore(configs: Configs, i: int, queue: string, jobType: string)
    requires configs != [] && IsFirstUse(configs[..|configs| - 1], i, queue, jobType)
    ensures IsFirstUse(configs, i, queue, jobType)
  {
    assert forall j | 0 <= j < |configs| - 1 :: configs[..|configs| - 1][j] == configs[j];
  }

  ghost predicate IsFirstUse(configs: Configs, i: int, queue: string, jobType: string) {
    && 0 <= i < |configs| && configs[i].0 == jobType && configs[i].1.jobQueueArn == queue
    && forall j | 0 <= j < i :: configs[j].1.jobQueueArn != queue
  }

  lemma QueueInOneMore(configs: Configs, queue: string)
    requires configs != []
    ensures var n := |configs| - 1;
            QueueIn(configs, queue) <==> QueueIn(configs[..n], queue) || configs[n].1.jobQueueArn == queue
  {
    var n := |configs| - 1;
    if QueueIn(configs[..n], queue) {
      var i :| 0 <= i < n && configs[..n][i].1.jobQueueArn == queue;
      assert configs[i].1.jobQueueArn == queue;
    }
    if QueueIn(configs, queue) && configs[n].1.jobQueueArn != queue {
      var i :| 0 <= i < |configs| && configs[i].1.jobQueueArn == queue;
      assert configs[..n][i].1.jobQueueArn == queue;
    }
  }

  lemma {:induction false} RequiringIsExact(configs: Configs)
    ensures forall c :: c in Requiring(configs) <==> c in configs && c.1.requiresParameters
  {
    if configs != [] {
      RequiringIsExact(configs[..|configs| - 1]);
    }
  }

  lemma UntrackedQueues(configs: Configs, queue: string)
    ensures HasKey(FirstByQueue(Requiring(configs)), queue) <==> Uses(configs, queue, true)
  {
    RequiringIsExact(configs);
    FirstByQueueIsExact(Requiring(configs), queue);
    if Uses(configs, queue, true) {
      var i :| 0 <= i < |configs| && configs[i].1.jobQueueArn == queue && configs[i].1.requiresParameters;
      assert configs[i] in Requiring(configs);
    }
    if QueueIn(Requiring(configs), queue) {
      var i :| 0 <= i < |Requiring(configs)| && Requiring(configs)[i].1.jobQueueArn == queue;
      assert Requiring(configs)[i] in configs;
    }
  }

  // ---------- the division of events

  ghost predicate Tracked(configs: Configs, event: BatchEvent) {
    exists i :: 0 <= i < |configs| && TrackedRule(configs[i].1, event)
  }

  ghost predicate MatchesUntracked(configs: Configs, event: BatchEvent, r: nat) {
    r < |UntrackedRules(configs)| && UntrackedRule(UntrackedRules(configs)[r].1, event)
  }

  /** No event takes both paths. */
  lemma NeverBothPaths(configs: Configs, hasEntry: bool, hasIndex: bool, event: BatchEvent, r: nat)
    requires Accepted(configs, hasEntry, hasIndex) && Tracked(configs, event)
    ensures !MatchesUntracked(configs, event, r)
  {
    var d := FirstByQueue(Requiring(configs));
    var i :| 0 <= i < |configs| && TrackedRule(configs[i].1, event);
    UntrackedQueues(configs, event.jobQueue);
    assert !configs[i].1.requiresParameters ==> !Uses(configs, event.jobQueue, true);
    assert r < |d| ==> UntrackedRules(configs)[r].1 == d[r].0;
  }

  /** A terminal event without the parameter goes to exactly one catch-all rule on a queue whose job
      types require it, and to none elsewhere. */
  lemma ExactlyOneCatchAll(configs: Configs, hasEntry: bool, hasIndex: bool, event: BatchEvent) returns (r: nat)
    requires Accepted(configs, hasEntry, hasIndex) && event.status in TERMINAL_STATUSES && !event.hasJobType
    ensures Uses(configs, event.jobQueue, true) ==>
              MatchesUntracked(configs, event, r) && forall q: nat | MatchesUntracked(configs, event, q) :: q == r
    ensures !Uses(configs, event.jobQueue, true) ==> forall q: nat :: !MatchesUntracked(configs, event, q)
  {
    var d := FirstByQueue(Requiring(configs));
    UntrackedQueues(configs, event.jobQueue);
    FirstByQueueIsExact(Requiring(configs), event.jobQueue);
    assert forall q | 0 <= q < |d| :: UntrackedRules(configs)[q].1 == d[q].0;
    r := 0;
    if Uses(configs, event.jobQueue, true) {
      r :| 0 <= r < |d| && d[r].0 == event.jobQueue;
    }
  }

  /** No terminal event of a monitored job goes unseen: one carrying the parameter, or on a queue that
      does not require it, is matched by its job type's own rule. */
  lemma TerminalEventsAreTracked(configs: Configs, hasEntry: bool, hasIndex: bool, event: BatchEvent, i: nat)
    requires Accepted(configs, hasEntry, hasIndex) && i < |configs| && event.status in TERMINAL_STATUSES
    requires event.jobQueue == configs[i].1.jobQueueArn && configs[i].1.jobDefinitionArn + ":" <= event.jobDefinition
    ensures TrackedRule(configs[i].1, event) <==> event.hasJobType || !configs[i].1.requiresParameters
  {
    assert ValidateTrackedStatuses(configs[i].1).Ok?;
  }

  /** An event is caught by some catch-all rule exactly when it is terminal, lacks the parameter, and is on
      a queue whose job types require it. */
  lemma CaughtExactlyWhen(configs: Configs, event: BatchEvent)
    ensures (exists r: nat :: MatchesUntracked(configs, event, r)) <==>
              event.status in {"SUCCEEDED", "FAILED"} && !event.hasJobType && Uses(configs, event.jobQueue, true)
  {
    var d := FirstByQueue(Requiring(configs));
    UntrackedQueues(configs, event.jobQueue);
    assert forall q | 0 <= q < |d| :: UntrackedRules(configs)[q].1 == d[q].0;
    if event.status in {"SUCCEEDED", "FAILED"} && !event.hasJobType && Uses(configs, event.jobQueue, true) {
      var r :| 0 <= r < |d| && d[r].0 == event.jobQueue;
      assert MatchesUntracked(configs, event, r);
    }
  }

  function Colons(s: string): nat {
    if s == "" then 0 else Colons(s[1..]) + (if s[0] == ':' then 1 else 0)
  }

  lemma {:induction false} ColonsJoin(a: string, b: string)
    ensures Colons(a + b) == Colons(a) + Colons(b)
  {
    if a == "" {
      assert a + b == b;
    } else {
      ColonsJoin(a[1..], b);
      assert (a + b)[1..] == a[1..] + b;
    }
  }

  lemma {:induction false} NoColons(s: string)
    ensures Colons(s) == 0 <==> Keys.Free(s, ':')
  {
    if s != "" {
      NoColons(s[1..]);
      assert forall i | 1 <= i < |s| :: s[i] == s[1..][i - 1];
      assert forall i | 0 <= i < |s[1..]| :: s[1..][i] == s[i + 1];
    }
  }

  /** A revision's family is told from its text: two ARNs have as many colons. */
  lemma FamilyIsTold(arn: string, family: string, revision: string)
    requires Keys.Free(revision, ':') && Colons(arn) == Colons(family)
    ensures arn + ":" <= family + ":" + revision <==> arn == family
  {
    if arn + ":" <= family + ":" + revision {
      var rest := (family + ":" + revision)[|arn + ":"|..];
      assert arn + ":" + rest == family + ":" + revision;
      ColonsJoin(arn + ":", rest);
      ColonsJoin(family + ":", revision);
      ColonsJoin(arn, ":");
      ColonsJoin(family, ":");
      NoColons(revision);
      NoColons(rest);
      LastColon(arn, rest, family, revision);
    }
  }

  lemma LastColon(a: string, x: string, b: string, y: string)
    requires a + ":" + x == b + ":" + y && Keys.Free(x, ':') && Keys.Free(y, ':')
    ensures a == b
  {
    var s := a + ":" + x;
    assert s[|a|] == ':' && s[|b|] == ':';
    assert forall i | |a| < i < |s| :: s[i] == x[i - |a| - 1];
    assert forall i | |b| < i < |s| :: s[i] == y[i - |b| - 1];
    assert |a| == |b|;
    assert a == s[..|a|] && b == s[..|a|];
  }

  /** A job type's rule takes an event of any revision of its own job definition on its own queue, at a
      status it tracks, and of no other definition or queue. */
  lemma TakenExactlyWhen(config: JobTypeConfig, event: BatchEvent, family: string, revision: string)
    requires event.jobDefinition == family + ":" + revision && Keys.Free(revision, ':')
    requires Colons(config.jobDefinitionArn) == Colons(family)
    ensures TrackedRule(config, event) <==>
              && event.status in config.trackedStatuses && event.jobQueue == config.jobQueueArn
              && family == config.jobDefinitionArn && (event.hasJobType || !config.requiresParameters)
  {
    FamilyIsTold(config.jobDefinitionArn, family, revision);
  }

  lemma {:induction false} NoneUnknown(statuses: seq<string>)
    ensures Unknown(statuses) == [] <==> forall i | 0 <= i < |statuses| :: statuses[i] in BATCH_EVENT_STATUSES
  {
    if statuses != [] {
      NoneUnknown(statuses[1..]);
      assert forall i | 1 <= i < |statuses| :: statuses[i] == statuses[1..][i - 1];
      assert forall i | 0 <= i < |statuses[1..]| :: statuses[1..][i] == statuses[i + 1];
    }
  }

  /** Statuses Batch does not report are refused by name, before anything missing is looked for. */
  lemma {:induction false} UnknownIsExact(statuses: seq<string>, status: string)
    ensures status in Unknown(statuses) <==>
              status in statuses && status !in {"PENDING", "RUNNABLE", "STARTING", "RUNNING", "SUCCEEDED", "FAILED"}
  {
    if statuses != [] {
      UnknownIsExact(statuses[1..], status);
      assert status in statuses <==> status == statuses[0] || status in statuses[1..];
    }
  }

  lemma RefusedStatusesAreNamed(config: JobTypeConfig)
    requires exists status :: status in config.trackedStatuses && status !in BATCH_EVENT_STATUSES
    ensures var r := ValidateTrackedStatuses(config);
            && r.Err? && r.error.UnknownStatuses?
            && forall status :: status in r.error.statuses <==>
                 && status in config.trackedStatuses
                 && status !in {"PENDING", "RUNNABLE", "STARTING", "RUNNING", "SUCCEEDED", "FAILED"}
  {
    hide Unknown;
    forall status
      ensures status in Unknown(config.trackedStatuses) <==>
                status in config.trackedStatuses && status !in BATCH_EVENT_STATUSES
    {
      UnknownIsExact(config.trackedStatuses, status);
    }
  }

  /** Tracked statuses are accepted exactly when the monitor can classify an event of each and both
      terminal ones are among them; so no rule of an accepted deployment delivers an event it refuses. */
  lemma AcceptedStatusesAreClassified(config: JobTypeConfig)
    ensures ValidateTrackedStatuses(config).Ok? <==>
              && "SUCCEEDED" in config.trackedStatuses && "FAILED" in config.trackedStatuses
              && forall detail: Detail | detail.status in config.trackedStatuses ::
                   Classify(detail, config.policy, config.outcomes).Ok?
  {
    hide Classify, Unknown;
    var statuses := config.trackedStatuses;
    NoneUnknown(statuses);
    forall detail: Detail
      ensures Classify(detail, config.policy, config.outcomes).Ok? <==> detail.status in BATCH_EVENT_STATUSES
    {
      ClassifyYieldsAPossibleState(detail, config.policy, config.outcomes);
    }
    forall i | 0 <= i < |statuses|
      ensures Classify(WithStatus(statuses[i]), config.policy, config.outcomes).Ok? <==> statuses[i] in BATCH_EVENT_STATUSES
      ensures WithStatus(statuses[i]).status in statuses
    {
    }
    if Unknown(statuses) == [] {
      forall detail: Detail | detail.status in statuses ensures Classify(detail, config.policy, config.outcomes).Ok? {
        var i :| 0 <= i < |statuses| && statuses[i] == detail.status;
      }
    }
  }

  function WithStatus(status: string): Detail {
    Detail("", status, None, None, None, None, None, None)
  }

  // ---------- what validation gives the monitor

  function SubmitterState(name: string): ProcessingState {
    ProcessingState(name, SubmitterKind, true)
  }

  /** The configuration the monitor runs a job type with. */
  function MonitorConfig(config: JobTypeConfig): Config {
    Config(config.policy, config.outcomes,
      seq(|config.submitterStates|, i requires 0 <= i < |config.submitterStates| => SubmitterState(config.submitterStates[i])),
      config.routeFailures, config.routeFailures)
  }

  /** Validation establishes of submitter states what the monitor and its keys need and no more: each name
      is a path segment that can stand in a field, and is not one of the monitor's own. */
  lemma ValidatedConfigIsValid(config: JobTypeConfig)
    requires DistinctKeys(config.outcomes)
    ensures ValidateSubmitterStates(config).Ok? <==>
              && ValidConfig(MonitorConfig(config))
              && forall i | 0 <= i < |config.submitterStates| ::
                   Keys.Segment(config.submitterStates[i]) && Keys.FieldName(config.submitterStates[i])
  {
    var states, m := config.submitterStates, MonitorConfig(config);
    forall i | 0 <= i < |states|
      ensures m.submitterStates[i].name == states[i]
      ensures states[i] in Names(States(config.outcomes)) <==> IsOwnState(config.outcomes, states[i])
    {
      OwnStatesAreNames(config.outcomes, states[i]);
    }
    if ValidConfig(m) {
      forall i | 0 <= i < |states| ensures !IsOwnState(config.outcomes, states[i]) {
        assert m.submitterStates[i] in m.submitterStates;
      }
    }
  }

  lemma OwnStatesAreNames(outcomes: ExitCodeOutcomes, name: string)
    ensures name in Names(States(outcomes)) <==> IsOwnState(outcomes, name)
  {
    if IsOwnState(outcomes, name) {
      var i :| 0 <= i < |States(outcomes)| && States(outcomes)[i].name == name;
      assert States(outcomes)[i] in States(outcomes);
    }
  }
}
