/** Attempt numbers read back from pointers: a group submitted at `next_group_attempt` is past
    everything processed for its entities. */
module GroupAttempts {
  import opened Prelude
  import opened Models
  import opened LogStore
  import opened Monitor
  import opened MonitorRuns

  /** An event at or past everything recorded for its entity is fresh. */
  lemma FreshAtTheTop(
    keys: set<PointerKey>, states: seq<ProcessingState>, context: JobContext, s: ProcessingState,
    top: Option<(nat, ProcessingState)>)
    requires ToppedBy(keys, states, context.Entity(), top)
    requires top.Some? ==> AtMost(top.value.0, top.value.1, context.attempt, s)
    ensures IsFresh(PreviousOf(keys, states, context), s, context.attempt)
  {
    PreviousIsSound(keys, states, context);
    NoMonitorKeys(keys, states, context.Entity());
  }

  lemma ActiveIsTheTop(keys: set<PointerKey>, states: seq<ProcessingState>, e: Entity)
    ensures var active := ActivePointer(keys, states, e);
            ToppedBy(keys, states, e, if active.None? then None else Some((active.value.1, active.value.0)))
  {
    ActiveIsGreatest(keys, states, e);
    NoMonitorKeys(keys, states, e);
  }

  /** After any run, failed deletes included, the attempt `next_group_attempt` computes with the
      job type's full state set exceeds every attempt processed for each of the entities. */
  lemma NextGroupAttemptExceedsAll(
    w: World, config: Config, steps: seq<Step>, jobType: string, partitionFields: seq<(string, string)>,
    ids: seq<string>, i: nat, a: nat, rank: nat)
    requires ValidConfig(config) && WellNamed(config.outcomes) && Legal(config, steps)
    requires i < |ids|
    requires MonitorKeys(w.pointers.Keys, States(config.outcomes), EntityOf(jobType, partitionFields, ids[i])) == {}
    requires Delivered(steps, EntityOf(jobType, partitionFields, ids[i]), a, rank)
    ensures a < Largest(AttemptsAfter(Run(w, config, steps).pointers.Keys, States(config.outcomes),
                  jobType, partitionFields, ids))
  {
    var e := EntityOf(jobType, partitionFields, ids[i]);
    ActivePointerIsTheJoin(w, config, steps, e);
    var all := AttemptsAfter(Run(w, config, steps).pointers.Keys, States(config.outcomes), jobType, partitionFields, ids);
    assert all[i] == AttemptAfter(Run(w, config, steps).pointers.Keys, States(config.outcomes), e);
  }

  /** And it goes no further than it must: one past an attempt processed for one of the entities, or 1. */
  lemma NextGroupAttemptGoesNoFurther(
    w: World, config: Config, steps: seq<Step>, jobType: string, partitionFields: seq<(string, string)>, ids: seq<string>)
    returns (i: nat, rank: nat)
    requires ValidConfig(config) && WellNamed(config.outcomes) && Legal(config, steps) && ids != []
    requires forall k | 0 <= k < |ids| ::
               MonitorKeys(w.pointers.Keys, States(config.outcomes), EntityOf(jobType, partitionFields, ids[k])) == {}
    ensures var next := Largest(AttemptsAfter(Run(w, config, steps).pointers.Keys, States(config.outcomes),
                          jobType, partitionFields, ids));
            && next > 0 && i < |ids|
            && (next == 1 || Delivered(steps, EntityOf(jobType, partitionFields, ids[i]), next - 1, rank))
  {
    hide MonitorKeys, Run, FindState, ActivePointer;
    var all := AttemptsAfter(Run(w, config, steps).pointers.Keys, States(config.outcomes), jobType, partitionFields, ids);
    i :| 0 <= i < |all| && all[i] == Largest(all);
    var e := EntityOf(jobType, partitionFields, ids[i]);
    var active := ActiveAfter(w, config, steps, e);
    ActivePointerIsTheJoin(w, config, steps, e);
    rank := if active.None? then 0 else active.value.0.Rank();
  }

  lemma FreshOverTop(
    w: World, config: Config, d: Delivery, s: ProcessingState, faults: Faults, i: nat, top: Option<(nat, ProcessingState)>)
    requires ValidConfig(config) && NamesDetermine(States(config.outcomes)) && s in States(config.outcomes)
    requires i < |d.group.Contexts()|
    requires ToppedBy(w.pointers.Keys, States(config.outcomes), d.group.Contexts()[i].Entity(), top)
    requires top.Some? ==> top.value.0 < d.group.attempt
    ensures FreshAt(w, config, d, s, faults, i)
  {
    var context := d.group.Contexts()[i];
    RecordJoins(w, config, d, s, faults, i, context.Entity(), top);
    FreshAtTheTop(RecordEntities(w, config, d, s, faults, i).pointers.Keys, States(config.outcomes), context, s,
      if CoversWithin(d.group, context.Entity(), i) then Join(top, d.group.attempt, s) else top);
  }

  /** The first event of a group so numbered is fresh for every one of its entities, wherever
      the group lists them. */
  lemma FirstEventIsFreshEverywhere(
    w: World, config: Config, d: Delivery, s: ProcessingState, faults: Faults, i: nat)
    requires ValidConfig(config) && WellNamed(config.outcomes) && s in States(config.outcomes)
    requires i < |d.group.inputEntityIds|
    requires d.group.attempt == Largest(AttemptsAfter(w.pointers.Keys, States(config.outcomes),
                 d.group.jobType, d.group.partitionFields, d.group.inputEntityIds))
    ensures FreshAt(w, config, d, s, faults, i)
  {
    var e := d.group.Contexts()[i].Entity();
    var active := ActivePointer(w.pointers.Keys, States(config.outcomes), e);
    ActiveIsTheTop(w.pointers.Keys, States(config.outcomes), e);
    LargestIsPastActive(w.pointers.Keys, States(config.outcomes), d.group, i);
    WellNamedCovers(config.outcomes);
    FreshOverTop(w, config, d, s, faults, i, if active.None? then None else Some((active.value.1, active.value.0)));
  }

  lemma LargestIsPastActive(keys: set<PointerKey>, states: seq<ProcessingState>, group: JobGroup, i: nat)
    requires i < |group.inputEntityIds|
    ensures var active := ActivePointer(keys, states, group.Contexts()[i].Entity());
            active.Some? ==>
              active.value.1 < Largest(AttemptsAfter(keys, states, group.jobType, group.partitionFields, group.inputEntityIds))
  {
    var all := AttemptsAfter(keys, states, group.jobType, group.partitionFields, group.inputEntityIds);
    assert all[i] == AttemptAfter(keys, states, group.Contexts()[i].Entity());
  }
}
