/** The bound on resubmissions is reached: a job that fails retryably each time it runs is submitted again
    until the limit (`lambda_core.py`, `submission.py`). */
module RetryLimit {
  import opened Prelude
  import opened Models
  import opened JobDetails
  import opened LogStore
  import opened Monitor
  import opened Parameters
  import opened Retry

  // ---------- attempts the monitor has pointers for

  /** Every pointer is of an earlier attempt. */
  ghost predicate AllBefore(pointers: Pointers, attempt: nat) {
    forall k | k in pointers :: k.attempt < attempt
  }

  lemma FirstIsFresh(w: World, config: Config, d: Delivery, s: ProcessingState, faults: Faults)
    requires AllBefore(w.pointers, d.group.attempt) && d.group.inputEntityIds != []
    ensures FreshAt(w, config, d, s, faults, 0)
  {
    var keys, states, context := w.pointers.Keys, States(config.outcomes), d.group.Contexts()[0];
    ActiveIsGreatest(keys, states, context.Entity());
  }

  lemma {:induction false} OneFreshIsEnough(w: World, config: Config, d: Delivery, s: ProcessingState, faults: Faults, n: nat)
    requires 0 < n <= |d.group.Contexts()| && FreshAt(w, config, d, s, faults, 0)
    ensures AnyFresh(w, config, d, s, faults, n)
  {
    hide FreshAt;
    if n > 1 {
      OneFreshIsEnough(w, config, d, s, faults, n - 1);
    }
  }

  lemma {:induction false} SweepingAddsNothing(
    pointers: Pointers, context: JobContext, submitterStates: seq<ProcessingState>, i: nat, faults: Faults)
    ensures DropSubmitters(pointers, context, submitterStates, i, faults).Keys <= pointers.Keys
  {
    if submitterStates != [] {
      SweepingAddsNothing(pointers, context, submitterStates[..|submitterStates| - 1], i, faults);
    }
  }

  lemma {:induction false} RecordingAddsItsAttempt(
    w: World, config: Config, d: Delivery, s: ProcessingState, faults: Faults, n: nat)
    requires n <= |d.group.Contexts()| && AllBefore(w.pointers, d.group.attempt + 1)
    ensures AllBefore(RecordEntities(w, config, d, s, faults, n).pointers, d.group.attempt + 1)
  {
    hide PreviousOf, AppendEvent;
    if n > 0 {
      RecordingAddsItsAttempt(w, config, d, s, faults, n - 1);
      SweepingAddsNothing(RecordEntities(w, config, d, s, faults, n - 1).pointers, d.group.Contexts()[n - 1],
        config.submitterStates, n - 1, faults);
    }
  }

  lemma HandlingAddsItsAttempt(w: World, config: Config, d: Delivery, s: ProcessingState, faults: Faults)
    requires AllBefore(w.pointers, d.group.attempt)
    ensures AllBefore(Apply(w, config, d, s, faults).pointers, d.group.attempt + 1)
  {
    hide RecordEntities, AnyFresh;
    RecordingAddsItsAttempt(w, config, d, s, faults, |d.group.Contexts()|);
  }

  // ---------- a job that always fails

  /** A group, submitted, and the failure each of its jobs meets. */
  datatype Failing = Failing(dep: Deployment, base: BatchParameters, group: JobGroup, detail: Detail,
    eventTime: string, state: ProcessingState)
  {
    ghost predicate Valid() {
      && Faithful(dep.with.codec) && group.inputEntityIds != []
      && group.jobType in dep.configs && group.jobType in dep.with.bases && Policy().hasRetryQueue
      && Classify(detail, Policy().policy, Policy().outcomes) == Ok(state) && state.Retryable()
    }

    function Policy(): Config
      requires group.jobType in dep.configs
    {
      dep.configs[group.jobType]
    }

    /** The group of the `k`-th resubmission. */
    function Nth(k: nat): JobGroup {
      group.(partitionFields := Sorted(group.partitionFields), attempt := group.attempt + k)
    }

    function Event(k: nat): Delivery {
      Delivery(detail, eventTime, Nth(k))
    }

    /** Resubmitted `k` times, and the last job has not failed yet. */
    ghost predicate At(s: System, k: nat) {
      && |s.jobs| == k + 1 && |s.world.retryQueue| == |s.origins| == k
      && (forall j: nat | j <= k :: Decoded(dep, s, j) == Ok(Nth(j)))
      && (forall j: nat | 0 < j <= k :: s.jobs[j].cause == Some(j - 1) && s.origins[j - 1] == Some(j - 1))
      && AllBefore(s.world.pointers, group.attempt + k)
    }

    lemma Begins()
      requires Valid()
      ensures Can(dep, START, Submit(base, group)) && At(Do(dep, START, Submit(base, group)), 0)
    {
      hide DecodeJobGroup, Parameters.Submitted, Faithful, Classify;
      DecodeOfSubmitted(base, group, dep.with.codec);
      var s := Do(dep, START, Submit(base, group));
      assert s.jobs == [Job(Parameters.Submitted(base, group, dep.with.codec), None)] && s.world == START.world;
      assert Decoded(dep, s, 0) == Ok(Nth(0));
    }

    /** The last job fails short of the limit: one message about it. */
    lemma Fails(s: System, k: nat)
      requires Valid() && At(s, k) && group.attempt + k < Policy().policy.maxAttempts
      ensures var failed := Handle(k, detail, eventTime, state, Faults({}, {}));
              && Can(dep, s, failed)
              && var after := Do(dep, s, failed);
                 && after.jobs == s.jobs && after.origins == s.origins + [Some(k)]
                 && after.world.retryQueue == s.world.retryQueue + [RetryMessage(Nth(k), detail.jobId, state.name)]
                 && AllBefore(after.world.pointers, group.attempt + k + 1)
    {
      hide Apply, FreshAt, Classify, DecodeJobGroup;
      assert Decoded(dep, s, k) == Ok(Nth(k));
      var faults, n := Faults({}, {}), |Nth(k).Contexts()|;
      FirstIsFresh(s.world, Policy(), Event(k), state, faults);
      OneFreshIsEnough(s.world, Policy(), Event(k), state, faults, n);
      OneEventOneMessage(s.world, Policy(), Event(k), state, faults);
      HandlingAddsItsAttempt(s.world, Policy(), Event(k), state, faults);
    }

    /** And that message is resubmitted. */
    lemma GoesOn(s: System, k: nat)
      requires Valid() && At(s, k) && group.attempt + k < Policy().policy.maxAttempts
      ensures var failed, again := Handle(k, detail, eventTime, state, Faults({}, {})), Resubmit(k);
              && Can(dep, s, failed) && Can(dep, Do(dep, s, failed), again)
              && At(Do(dep, Do(dep, s, failed), again), k + 1)
    {
      hide DecodeJobGroup, Handled, Classify;
      var failed, again := Handle(k, detail, eventTime, state, Faults({}, {})), Resubmit(k);
      Fails(s, k);
      var between := Do(dep, s, failed);
      assert between.world.retryQueue[k].group == Nth(k);
      DecodeOfSubmitted(dep.with.bases[group.jobType], Nth(k).NextAttempt(), dep.with.codec);
      SortedSorts(group.partitionFields);
      SortedSorts(Sorted(group.partitionFields));
      var after := Do(dep, between, again);
      forall j: nat | j <= k ensures Decoded(dep, after, j) == Ok(Nth(j)) {
        assert Decoded(dep, s, j) == Ok(Nth(j));
      }
    }

    lemma {:induction false} RunsOut(s: System, k: nat) returns (actions: seq<Action>, last: nat)
      requires Valid() && At(s, k)
      requires k == 0 || group.attempt + k <= Policy().policy.maxAttempts
      ensures CanAll(dep, s, actions) && At(DoAll(dep, s, actions), last)
      ensures last == Max(0, Policy().policy.maxAttempts - group.attempt)
      decreases Policy().policy.maxAttempts - group.attempt - k
    {
      hide At, Do, Can;
      if group.attempt + k < Policy().policy.maxAttempts {
        var failed, again := Handle(k, detail, eventTime, state, Faults({}, {})), Resubmit(k);
        GoesOn(s, k);
        var rest, n := RunsOut(Do(dep, Do(dep, s, failed), again), k + 1);
        last := n;
        actions := [failed] + ([again] + rest);
        assert actions[1..] == [again] + rest && ([again] + rest)[1..] == rest;
      } else {
        actions, last := [], k;
      }
    }

    lemma ChainOf(s: System, k: nat) returns (chain: seq<nat>)
      requires At(s, k)
      ensures IsChain(dep, s, chain) && |chain| == k + 1 && GroupOf(dep, s, chain[0]) == Some(Nth(0))
    {
      hide DecodeJobGroup;
      chain := seq(k + 1, i => i);
      assert Decoded(dep, s, 0) == Ok(Nth(0));
      forall j | 0 < j < |chain| ensures Follows(dep, s, chain[j - 1], chain[j]) {
        assert Decoded(dep, s, j) == Ok(Nth(j));
      }
    }
  }

  /** The bound on chains is exact: whatever a deployment with a retry queue retries, a job that fails so
      each time it runs is followed by as many resubmissions as it had attempts left. */
  lemma LimitIsReached(x: Failing) returns (actions: seq<Action>, chain: seq<nat>)
    requires x.Valid()
    ensures CanAll(x.dep, START, actions) && IsChain(x.dep, DoAll(x.dep, START, actions), chain)
    ensures var first := GroupOf(x.dep, DoAll(x.dep, START, actions), chain[0]);
            && first == Some(x.group.(partitionFields := Sorted(x.group.partitionFields)))
            && |chain| == Max(1, MaxAttempts(x.dep, first.value) - first.value.attempt + 1)
  {
    hide Do, Can, DecodeJobGroup;
    x.Begins();
    var submit := Submit(x.base, x.group);
    var rest, last := x.RunsOut(Do(x.dep, START, submit), 0);
    actions := [submit] + rest;
    assert actions[1..] == rest;
    chain := x.ChainOf(DoAll(x.dep, START, actions), last);
  }
}
