/** Processing states, exit-code outcomes and job groups (`models.py`). */
module Models {
  import opened Prelude
  import opened OrderedDict

  datatype Kind = SubmitterKind | AwaitingKind | SuccessKind | RetryableFailure | NonretryableFailure

  datatype ProcessingState = ProcessingState(name: string, kind: Kind, dlq: bool) {
    /** True when terminality depends on attempt exhaustion. */
    predicate Retryable() {
      kind == RetryableFailure
    }

    function Rank(): nat {
      match kind
      case SubmitterKind => 0
      case AwaitingKind => 1
      case _ => 2
    }

    predicate IsTerminal(attempt: int, maxAttempts: int) {
      match kind
      case SubmitterKind => false
      case AwaitingKind => false
      case RetryableFailure => attempt >= maxAttempts
      case _ => true
    }
  }

  const AWAITING := ProcessingState("AWAITING", AwaitingKind, true)
  const SUCCESS := ProcessingState("SUCCESS", SuccessKind, true)
  const FAILURE_RETRYABLE := ProcessingState("FAILURE_RETRYABLE", RetryableFailure, true)
  const FAILURE_NONRETRYABLE := ProcessingState("FAILURE_NONRETRYABLE", NonretryableFailure, true)

  const BASELINE_PROCESSING_STATES: seq<ProcessingState> :=
    [AWAITING, SUCCESS, FAILURE_RETRYABLE, FAILURE_NONRETRYABLE]

  datatype RetryPolicy = RetryPolicy(maxAttempts: int, spotPrefixes: seq<string>)

  datatype ExitCodeOutcome = ExitCodeOutcome(name: string, dlq: bool, retryable: bool) {
    function ToProcessingState(): ProcessingState {
      ProcessingState(name, if retryable then RetryableFailure else NonretryableFailure, dlq)
    }
  }

  /** Exit code to outcome, in declaration order. */
  type ExitCodeOutcomes = Dict<int, ExitCodeOutcome>

  /** One state per declared outcome name; the last outcome of a name wins. */
  function Declared(outcomes: ExitCodeOutcomes): Dict<string, ProcessingState> {
    if outcomes == [] then []
    else
      var last := outcomes[|outcomes| - 1].1;
      Put(Declared(outcomes[..|outcomes| - 1]), last.name, last.ToProcessingState())
  }

  function Values<K, V>(d: Dict<K, V>): seq<V> {
    seq(|d|, i requires 0 <= i < |d| => d[i].1)
  }

  /** The states a job type's lookups scan. */
  function States(outcomes: ExitCodeOutcomes): seq<ProcessingState> {
    BASELINE_PROCESSING_STATES + Values(Declared(outcomes))
  }

  /** `ExitCodeOutcomes.states`, filling its dictionary in place. */
  method ComputeStates(outcomes: ExitCodeOutcomes) returns (states: seq<ProcessingState>)
    ensures states == States(outcomes)
  {
    var declared: Dict<string, ProcessingState> := [];
    for i := 0 to |outcomes|
      invariant declared == Declared(outcomes[..i])
    {
      assert outcomes[..i + 1][..i] == outcomes[..i];
      declared := Put(declared, outcomes[i].1.name, outcomes[i].1.ToProcessingState());
    }
    assert outcomes[..|outcomes|] == outcomes;
    states := BASELINE_PROCESSING_STATES + Values(declared);
  }

  /** The states a classification can yield. */
  ghost predicate Possible(outcomes: ExitCodeOutcomes, s: ProcessingState) {
    || s in BASELINE_PROCESSING_STATES
    || exists i | 0 <= i < |outcomes| :: s == outcomes[i].1.ToProcessingState()
  }

  /** A name determines its state among those scanned. */
  ghost predicate NamesDetermine(states: seq<ProcessingState>) {
    forall s, t | s in states && t in states && s.name == t.name :: s == t
  }

  /** What a deployment must check before it relies on the monitor: outcomes sharing a
      name are the same outcome, and a name reused from the built-in lifecycle means the
      built-in state. */
  ghost predicate WellNamed(outcomes: ExitCodeOutcomes) {
    && (forall i, j | 0 <= i < |outcomes| && 0 <= j < |outcomes| && outcomes[i].1.name == outcomes[j].1.name ::
          outcomes[i].1 == outcomes[j].1)
    && (forall i, b | 0 <= i < |outcomes| && b in BASELINE_PROCESSING_STATES && outcomes[i].1.name == b.name ::
          outcomes[i].1.ToProcessingState() == b)
  }

  /** The state of the last outcome declared under a name. */
  function LastNamed(outcomes: ExitCodeOutcomes, name: string): (r: Option<ProcessingState>)
    ensures r.Some? ==> r.value.name == name
    ensures r.Some? ==> exists i | 0 <= i < |outcomes| :: r.value == outcomes[i].1.ToProcessingState()
    ensures r.None? ==> forall i | 0 <= i < |outcomes| :: outcomes[i].1.name != name
  {
    if outcomes == [] then None
    else
      var n := |outcomes| - 1;
      if outcomes[n].1.name == name then Some(outcomes[n].1.ToProcessingState())
      else
        var r := LastNamed(outcomes[..n], name);
        assert forall i | 0 <= i < n :: outcomes[..n][i] == outcomes[i];
        r
  }

  /** Each name is declared once, by its last outcome; no outcome's name is dropped. */
  lemma {:induction false} DeclaredLastWins(outcomes: ExitCodeOutcomes, name: string)
    ensures DistinctKeys(Declared(outcomes))
    ensures Get(Declared(outcomes), name) == LastNamed(outcomes, name)
  {
    if outcomes != [] {
      var n := |outcomes| - 1;
      var before, last := Declared(outcomes[..n]), outcomes[n].1;
      DeclaredLastWins(outcomes[..n], name);
      PutKeepsDistinct(before, last.name, last.ToProcessingState());
      GetPut(before, last.name, last.ToProcessingState(), name);
    }
  }

  /** Where a name is first declared. */
  ghost predicate FirstDeclared(outcomes: ExitCodeOutcomes, name: string, p: nat) {
    && p < |outcomes| && outcomes[p].1.name == name
    && forall q | 0 <= q < p :: outcomes[q].1.name != name
  }

  /** What one more outcome does to the names declared. */
  lemma OneMoreName(outcomes: ExitCodeOutcomes, i: nat)
    requires |outcomes| > 0 && i < |Declared(outcomes)|
    ensures var n := |outcomes| - 1; var before := Declared(outcomes[..n]);
            if i < |before| then Declared(outcomes)[i].0 == before[i].0
            else FirstDeclared(outcomes, Declared(outcomes)[i].0, n)
  {
    hide LastNamed, Get, Put;
    var n := |outcomes| - 1;
    var before, name := Declared(outcomes[..n]), outcomes[n].1.name;
    if i >= |before| {
      DeclaredLastWins(outcomes[..n], name);
      assert LastNamed(outcomes[..n], name).None?;
      assert forall k | 0 <= k < n :: outcomes[..n][k] == outcomes[k];
    }
  }

  /** Where the i-th declared name was first declared. */
  lemma {:induction false} FirstDeclaration(outcomes: ExitCodeOutcomes, i: nat) returns (p: nat)
    requires i < |Declared(outcomes)|
    ensures FirstDeclared(outcomes, Declared(outcomes)[i].0, p)
  {
    hide LastNamed, Get, Put;
    var n := |outcomes| - 1;
    OneMoreName(outcomes, i);
    p := n;
    if i < |Declared(outcomes[..n])| {
      p := FirstDeclaration(outcomes[..n], i);
      assert forall k | 0 <= k < n :: outcomes[..n][k] == outcomes[k];
    }
  }

  /** Declared states stand in the order in which their names were first declared, whichever
      outcome of a name was the last. */
  lemma {:induction false} DeclaredInOrder(outcomes: ExitCodeOutcomes, i: nat, j: nat) returns (p: nat, q: nat)
    requires i < j < |Declared(outcomes)|
    ensures p < q
    ensures FirstDeclared(outcomes, Declared(outcomes)[i].0, p) && FirstDeclared(outcomes, Declared(outcomes)[j].0, q)
  {
    hide LastNamed, Get, Put;
    var n := |outcomes| - 1;
    OneMoreName(outcomes, i);
    OneMoreName(outcomes, j);
    assert forall k | 0 <= k < n :: outcomes[..n][k] == outcomes[k];
    if j < |Declared(outcomes[..n])| {
      p, q := DeclaredInOrder(outcomes[..n], i, j);
    } else {
      DeclaredGrowsByOne(outcomes);
      p := FirstDeclaration(outcomes[..n], i);
      q := n;
    }
  }

  lemma DeclaredGrowsByOne(outcomes: ExitCodeOutcomes)
    requires outcomes != []
    ensures |Declared(outcomes[..|outcomes| - 1])| <= |Declared(outcomes)| <= |Declared(outcomes[..|outcomes| - 1])| + 1
  {
    hide Put;
  }

  /** A scanned state is built in or is its name's last outcome, and the other way round. */
  lemma ScannedStates(outcomes: ExitCodeOutcomes, s: ProcessingState)
    ensures s in States(outcomes) <==>
              s in BASELINE_PROCESSING_STATES || LastNamed(outcomes, s.name) == Some(s)
  {
    var d := Declared(outcomes);
    DeclaredLastWins(outcomes, s.name);
    if s in Values(d) {
      var k :| 0 <= k < |d| && Values(d)[k] == s;
      DeclaredLastWins(outcomes, d[k].0);
      GetIsUnique(d, k);
      assert LastNamed(outcomes, d[k].0) == Some(s);
    }
    if LastNamed(outcomes, s.name) == Some(s) {
      var k :| 0 <= k < |d| && d[k] == (s.name, s);
      assert Values(d)[k] == s;
    }
  }

  /** The scanned states cover every possible classification, one state per name, exactly
      when the outcomes are well named. */
  lemma ScanCoversExactlyWhenWellNamed(outcomes: ExitCodeOutcomes)
    ensures WellNamed(outcomes) <==>
              && NamesDetermine(States(outcomes))
              && forall s | Possible(outcomes, s) :: s in States(outcomes)
  {
    if WellNamed(outcomes) {
      WellNamedCovers(outcomes);
    }
    if NamesDetermine(States(outcomes)) && forall s | Possible(outcomes, s) :: s in States(outcomes) {
      CoveredIsWellNamed(outcomes);
    }
  }

  lemma WellNamedCovers(outcomes: ExitCodeOutcomes)
    requires WellNamed(outcomes)
    ensures NamesDetermine(States(outcomes))
    ensures forall s | Possible(outcomes, s) :: s in States(outcomes)
  {
    forall s ensures Possible(outcomes, s) <==> s in States(outcomes) {
      ScannedStates(outcomes, s);
    }
    forall s, t | s in States(outcomes) && t in States(outcomes) && s.name == t.name ensures s == t {
      assert Possible(outcomes, s) && Possible(outcomes, t);
    }
  }

  lemma CoveredIsWellNamed(outcomes: ExitCodeOutcomes)
    requires NamesDetermine(States(outcomes))
    requires forall s | Possible(outcomes, s) :: s in States(outcomes)
    ensures WellNamed(outcomes)
  {
    forall i | 0 <= i < |outcomes| ensures outcomes[i].1.ToProcessingState() in States(outcomes) {
      assert Possible(outcomes, outcomes[i].1.ToProcessingState());
    }
  }

  datatype JobContext = JobContext(
    jobType: string, partitionFields: seq<(string, string)>,
    inputEntityId: string, outputEntityId: string, attempt: nat)
  {
    function Entity(): Entity {
      EntityOf(jobType, partitionFields, inputEntityId)
    }
  }

  /** What a record or a state pointer is about, whatever the attempt. */
  datatype Entity = EntityOf(jobType: string, partitionFields: seq<(string, string)>, inputEntityId: string)

  datatype JobGroup = JobGroup(
    jobType: string, partitionFields: seq<(string, string)>,
    inputEntityIds: seq<string>, outputEntityId: string, attempt: nat)
  {
    function NextAttempt(): JobGroup {
      this.(attempt := attempt + 1)
    }

    /** One context per input entity, sharing the group's identity. */
    function Contexts(): seq<JobContext> {
      seq(|inputEntityIds|, i requires 0 <= i < |inputEntityIds| =>
        JobContext(jobType, partitionFields, inputEntityIds[i], outputEntityId, attempt))
    }

    ghost predicate Covers(e: Entity) {
      exists i | 0 <= i < |Contexts()| :: Contexts()[i].Entity() == e
    }
  }

  /** SQS message body for the retry and dead-letter queues. */
  datatype RetryMessage = RetryMessage(group: JobGroup, batchJobId: string, state: string)
}
