# batch-event-job-monitor: verified model

A Dafny model of the AWS Batch job-state monitor, of the rollup and reconcile pipeline that shares
its bucket, and of the small pieces around them (keys and the view that parses them, Batch
parameters, EventBridge rules, schema migration), with proofs about whole runs of each.

`dafny verify dfyconfig.toml` checks everything.

## The two protocols

**The monitor** keeps, for each (entity, attempt), an append-only canonical record and a state
pointer that moves by "write new, then delete old". Events may come late, twice or out of order,
the delete may fail silently, and several invocations may run at once.

- *One event at a time.* `Monitor` gives the effect of an event as a function (`Apply`) and proves
  the imperative `monitor_job` against it, over the mutable store and queues. `MonitorRuns` proves
  that in every run the active pointer is the join, over lexicographic (attempt, rank), of the events
  delivered for the entity, and that this holds of a configuration exactly when its outcomes are well
  named: outcomes that share a name are equal, and one that reuses a built-in name is that built-in
  state. Nothing in the code enforces this; for any configuration that violates it a run is built in
  which the pointer is lost or misreported.
- *Interleaved.* `Interleaving` is a machine whose steps are single S3 operations of any number of
  invocations and of the submitter. Given that names determine states (`Sound`), `TwoOutcomes` proves
  that it is safe (every event any invocation finished stays accounted for by some pointer) exactly when
  no entity has two outcomes at one attempt. The lost case needs three invocations, no crash and no
  failed delete. `HandledJoin` adds the bound from above: every pointer is some event's, and without
  crashes, once every invocation has ended, each active pointer is exactly the join of the events
  handled. `SoloRuns` ties the machine to the sequential model: every sequential run is one of its
  executions.
- *Around it.* Attempt numbering from pointers (`GroupAttempts`) and from records
  (`AttemptInference`), the records themselves (`RecordLog`), non-interference of the submitter's own
  pointers (`NonInterference`), what pointers' bodies say (`PointerBodies`), what an event makes of its job
  (`Routing`), the retry loop, whose bound is reached (`Retry`, `RetryLimit`, `Parameters`), and redelivery
  (`Redelivery`): an event delivered again, after it was handled or after a crash amid its handling, is
  as fresh as it was, so a crash loses no message and one attempt may ask for two retries.

**The pipeline.** `Queue` and `Rows` prove the drain loop, fetching, deduplication and the MERGE;
`Rollup` proves one invocation; `RollupProtocol` is a machine of any number of invocations that may
crash between any two steps, in which no notification is lost, and `SoloRollup` shows that an
invocation left alone in it does what `Rollup` proves; `Reconcile` proves the paging chain, which no
run of hops can make endless. `Winners` tells from a table and the rows that came which row each natural
key ends with; `Convergence` derives exactly which objects an inventory then selects, selected before or
not; `ReconcilePass` states it of a whole pass in the running machine, with the case in which one pass
leaves nothing; and `StragglerPass` drives the machine from its start through a pass that changes nothing.
`Timestamps` shows that comparing timestamps as text, as deduplication does, agrees with
comparing instants, as MERGE does, on the real calendar and also when one of the two omits its
fraction. `RecordRows` joins the two protocols: the row made of a record is that of the event delivered
to it last, and records and rows are one to one when entities have exactly the declared partition keys.

## Where the code differs from what it says

- `rollup.py:708-709` says the next reconcile pass "matches strictly fewer" keys. The exact condition,
  object by object, is `Convergence.SelectedAfterExactlyWhen`: with the natural key fixed and merges no
  earlier than the object's last write, an object is selected afterwards exactly if everything that came
  under its natural key is earlier than the row there and it was selected before, or another object's
  row wins the key. So a record whose last event is a straggler is selected again and again
  (`StragglerPass.EveryStragglerIsFutile`, and `StragglerPass.NextPassMayMatchAsMany` for a run of two
  events), and two objects tied under one natural key take turns
  (`Convergence.TiedObjectsTakeTurns`). `ReconcilePass.CompletePassLeavesNothing` is the case in which
  one pass suffices.
- `job_details.py:243` promises every missing or malformed parameter at once; missing ones are listed
  together, but of malformed ones only the first is (`Parameters.FirstMalformedIsNamed`).
- `log_store.py:407` speaks of five built-in states; `models.py:127-132` lists four, and the model follows
  the latter.
- The state view reads the attempt as three digits, while keys carry more from 1000 on:
  `Keys.AttemptColumnUpTo999`.
- Submitters build keys from partition fields in the order they hold them; the monitor gets them
  sorted. `Parameters.RoundTripExactlyWhenSorted` says when the two agree.

## Reading the model

A state pointer's key is modelled by what it is built from; `Keys` proves that the text keeps such
keys apart, that listing by prefix finds an entity's pointers and no others, and what goes wrong
otherwise. Deletes that S3 refuses are explicit inputs (`Faults`, `fails`). In the two machines an
execution is a finite sequence of actions from the empty system, and theorems quantify over all of
them. `iset<Event>` in `Interleaving` is the set of events the invocations may be given, each any
number of times.

Assumed of the environment: S3 is strongly consistent and a listing is complete; SQS returns no more
messages than it is asked for; a failed Athena query changes nothing, and MERGE is atomic;
`from_iso8601_timestamp` keeps whole milliseconds; event times are in UTC, as EventBridge gives them;
`json.loads` reads back what `json.dumps` writes of string maps and string lists, and `int` reads decimal digits; attempts are not negative; natural-key columns are not null.

## Model

| member | source | states |
|---|---|---|
| Models.ComputeStates | src/batch_event_job_monitor/models.py:340-352 | the loop that fills the dictionary of states computes `States`: built-in states, then one per declared name in order of first declaration |
| Models.DeclaredLastWins | src/batch_event_job_monitor/models.py:349-352 | each outcome name is declared once, by its last outcome, and none is dropped |
| Models.DeclaredInOrder | src/batch_event_job_monitor/models.py:349-352 | declared states stand in the order their names were first declared, though the last outcome of a name wins |
| Models.ScanCoversExactlyWhenWellNamed | src/batch_event_job_monitor/models.py:340-352 | lookups scan every state a classification can yield, one to a name, exactly when outcomes are well named |
| JobDetails.ClassifyYieldsAPossibleState | src/batch_event_job_monitor/job_details.py:192-210 | only a status Batch never reports is an error; terminal statuses give rank 2 and the others give AWAITING |
| JobDetails.EveryOutcomeIsClassified | src/batch_event_job_monitor/job_details.py:198-201 | the event carrying a declared exit code gets the outcome's own name, retryable or not and dead-lettered or not as it was declared |
| JobDetails.UndeclaredFailureIsRetriedExactlyForSpot | src/batch_event_job_monitor/job_details.py:202-208 | without a declared exit code a failure is retried if and only if its reason starts with a spot prefix |
| Routing.ReadOneWay | src/batch_event_job_monitor/job_details.py:192-210 | what Batch reports and the deployment declares, read without the states in between: exactly one reading for each event |
| Routing.RoutedAsRead | src/batch_event_job_monitor/lambda_core.py:176-196 | of such a reading: a retry exactly when fresh, asked for, short of the limit and with a queue for it; a dead letter exactly when fresh, declared so, not to be retried and with a queue; an output index exactly when fresh, ended and not to be retried |
| Routing.RoutedForItsJobType | src/batch_event_job_monitor/handlers/job_monitor_handler.py:133-148 | the same of a job type as deployed, whose queues are there exactly if its failures are routed |
| LogStore.FindState | src/batch_event_job_monitor/log_store.py:421-442 | the state found is the first scanned of the highest-ranked states with a pointer, and none only if no scanned state has one |
| LogStore.BestHitIsActive | src/batch_event_job_monitor/log_store.py:481-504 | the maximum over hits listed state by state is the pointer with the highest attempt, then rank |
| LogStore.ActiveIsGreatest | src/batch_event_job_monitor/log_store.py:504 | no pointer of a scanned state is above the active one, and an exact lookup at its attempt finds the same state |
| LogStore.S3RecordStore.FindStatePointer | src/batch_event_job_monitor/log_store.py:391-442 | the HEAD loop returns `FindState` of the stored pointers |
| LogStore.S3RecordStore.FindActivePointer | src/batch_event_job_monitor/log_store.py:444-504 | the listing loop returns the entity's greatest pointer, whatever order S3 lists in |
| LogStore.S3RecordStore.WriteStatePointer | src/batch_event_job_monitor/log_store.py:227-269 | puts the new pointer, then removes exactly the old one unless the delete fails |
| LogStore.S3RecordStore.WriteStatePointerConditional | src/batch_event_job_monitor/log_store.py:271-310 | writes only if no pointer is there and S3 reports no conflicting write, and says whether it did |
| LogStore.S3RecordStore.DeleteStatePointer | src/batch_event_job_monitor/log_store.py:312-332 | removes exactly one attempt's pointer in one state, or nothing if refused |
| LogStore.S3RecordStore.AppendCanonicalEvent | src/batch_event_job_monitor/log_store.py:150-225 | appends one event to one record and changes no other |
| LogStore.S3RecordStore.NextAttempt | src/batch_event_job_monitor/log_store.py:506-534 | one past the active pointer's attempt, or 1 |
| LogStore.S3RecordStore.NextGroupAttempt | src/batch_event_job_monitor/log_store.py:536-578 | the largest of the entities' next attempts; an error when there are none |
| LogStore.S3RecordStore.RecordedAttempts | src/batch_event_job_monitor/log_store.py:635-650 | exactly the attempts an entity has a record at, newest first by number |
| LogStore.S3RecordStore.AttemptForBatchJob | src/batch_event_job_monitor/log_store.py:580-633 | the attempt of the first matching record, newest first, entity by entity; otherwise one past every record |
| Monitor.MonitorJob | src/batch_event_job_monitor/lambda_core.py:97-198 | the whole imperative handler has exactly the effect `Apply` on pointers, records, outputs and both queues, and none at all when the status is unknown |
| Monitor.RecordEntity | src/batch_event_job_monitor/lambda_core.py:107-172 | one entity's step: lookups, record, submitter sweep, guard and pointer move, with the freshness it reports |
| Monitor.RouteGroup | src/batch_event_job_monitor/lambda_core.py:179-196 | output index and at most one message, by terminality, retryability and dead-letter flag |
| Monitor.FindPrevious | src/batch_event_job_monitor/lambda_core.py:108-128 | the old state and attempt, or that the event is a straggler |
| MonitorRuns.ActivePointerIsTheJoin | src/batch_event_job_monitor/lambda_core.py:107-172 | in every run, whatever deletes fail, the active pointer is the greatest (attempt, rank) delivered for the entity |
| MonitorRuns.ReorderingAndDuplicationDoNotMatter | src/batch_event_job_monitor/lambda_core.py:148-155 | any reordering or repetition of the same events ends at the same (attempt, rank) |
| MonitorRuns.ExactlyOnePointer | src/batch_event_job_monitor/lambda_core.py:107-172 | when no delete fails there is exactly one monitor pointer, that of the last delivered of the greatest events |
| MonitorRuns.JoinHoldsExactlyWhenWellNamed | src/batch_event_job_monitor/lambda_core.py:164-172 | the join property holds of every run of a configuration if and only if its outcomes are well named |
| MonitorRuns.BrokenRun | src/batch_event_job_monitor/models.py:349-352 | a run of one or two events that breaks the property, for every configuration that is not well named |
| GroupAttempts.NextGroupAttemptExceedsAll | src/batch_event_job_monitor/log_store.py:536-578 | after any run the next group attempt exceeds every attempt processed for each of its entities |
| GroupAttempts.NextGroupAttemptGoesNoFurther | src/batch_event_job_monitor/log_store.py:506-578 | it is 1, or one past an attempt processed for one of the entities |
| GroupAttempts.FirstEventIsFreshEverywhere | src/batch_event_job_monitor/lambda_core.py:112-128 | the first event of a group so numbered is fresh for every one of its entities |
| NonInterference.SubmittersDoNotInterfere | src/batch_event_job_monitor/lambda_core.py:145-146 | a run with any submitter activity leaves monitor pointers, records, outputs and messages as its events alone would |
| NonInterference.SubmittersDoNotNumberAttempts | src/batch_event_job_monitor/log_store.py:506-534 | submitter pointers do not affect the next attempt |
| NonInterference.EventSweepsItsOwn | src/batch_event_job_monitor/lambda_core.py:145-146 | an event removes a submitter pointer exactly if it is of one of its entities at its attempt |
| NonInterference.OthersAreUntouched | src/batch_event_job_monitor/lambda_core.py:107-172 | no pointer or record of an entity outside the group changes |
| PointerBodies.EveryBodyWasWritten | src/batch_event_job_monitor/log_store.py:29-36 | in every run each pointer's body is that of some step: its entity, its attempt and its group's output |
| RecordLog.RecordIsItsLog | src/batch_event_job_monitor/log_store.py:184-224 | a record is exactly the fold of the events delivered for its (entity, attempt), stale ones included: first batch job id, last state, last present log stream and times |
| RecordLog.RecordTellsTheEvent | src/batch_event_job_monitor/lambda_core.py:130-144 | after any run an event that reaches a record ends it with its classified state, its time, Batch job and exit code, makes that state current, and leaves its log stream and times where it has them |
| RecordLog.LogGrows | src/batch_event_job_monitor/log_store.py:184-224 | what a run recorded stays a prefix |
| RecordLog.EventsAreConserved | src/batch_event_job_monitor/lambda_core.py:130-144 | events on record equal deliveries times entities |
| AttemptInference.InferredAttemptsAreStableAndDistinct | src/batch_event_job_monitor/log_store.py:622-633 | all events of one Batch job get one attempt; jobs that share an entity never share one |
| AttemptInference.NewJobGetsOnePastTheFurthest | src/batch_event_job_monitor/log_store.py:630-633 | in every run a job not seen before gets 1 if no earlier event shares an entity with it, and otherwise exactly one past the furthest attempt given to one that does |
| AttemptInference.RecordsAreNotShared | src/batch_event_job_monitor/log_store.py:622-650 | each record holds the events of one Batch job only |
| AttemptInference.EntityOrderDoesNotMatter | src/batch_event_job_monitor/log_store.py:622-633 | the order in which an event lists its entities does not change its attempt |
| Interleaving.DoKeepsInv | src/batch_event_job_monitor/lambda_core.py:107-172 | every S3 operation of every invocation, crash and submitter move keeps the invariant |
| Interleaving.OneOutcomeIsSafe | src/batch_event_job_monitor/lambda_core.py:107-172 | in every interleaving, crashes and failed deletes included, some pointer stays at or above every event any invocation finished |
| Interleaving.GreatestIsNeverDeleted | src/batch_event_job_monitor/log_store.py:251-269 | in every reachable state no operation deletes the pointer with an entity's greatest (attempt, rank) |
| SoloRuns.Reader.ContextAlone | src/batch_event_job_monitor/lambda_core.py:107-172 | an uninterrupted invocation's single operations come to the sequential model's move of one entity |
| SoloRuns.GroupAlone | src/batch_event_job_monitor/lambda_core.py:107-172 | and to the sequential model's recording of a whole group |
| SoloRuns.SequentialRunsAreExecutions | src/batch_event_job_monitor/lambda_core.py:97-198 | every sequential run, with its faults, is one execution of the interleaved machine ending at the same pointers |
| TwoOutcomes.OutcomesLost | src/batch_event_job_monitor/log_store.py:251-269 | two outcomes at one attempt: an execution of three invocations that ends with no pointer for the entity |
| TwoOutcomes.SafeExactlyWhenOneOutcome | src/batch_event_job_monitor/lambda_core.py:107-172 | the interleaved monitor is safe if and only if no entity has two outcomes at one attempt |
| HandledJoin.EveryPointerIsAnEvents | src/batch_event_job_monitor/log_store.py:251-258 | in every reachable state, whatever outcomes the events report, each monitor pointer is an event's entity, attempt and state |
| HandledJoin.SettledPointerIsTheJoin | src/batch_event_job_monitor/lambda_core.py:107-172 | in every interleaving without crashes, once no invocation is left, the active pointer is exactly the greatest (attempt, rank) handled for the entity |
| Parameters.SortedSorts | src/batch_event_job_monitor/models.py:287-289 | sorting keeps every field and changes nothing exactly when already sorted |
| Parameters.DecodeOfSubmitted | src/batch_event_job_monitor/job_details.py:238-314 | a submitted group is decoded with its fields sorted, whatever other parameters the job has, and refused only when it has no entity |
| Parameters.DecodedExactlyWhenCarried | src/batch_event_job_monitor/job_details.py:238-314 | parameters from anywhere decode to a group if and only if they carry it, part by part |
| Parameters.EveryMissingIsNamed | src/batch_event_job_monitor/job_details.py:256-267 | a refusal for missing parameters names all of them and no other |
| Parameters.FirstMalformedIsNamed | src/batch_event_job_monitor/job_details.py:269-306 | of malformed ones only the first is named: attempt, fields, ids |
| Parameters.SubmissionKeepsTheRest | src/batch_event_job_monitor/submission.py:61-68 | a submission keeps every parameter of the consumer's own and adds only the reserved ones |
| Parameters.RoundTripExactlyWhenSorted | src/batch_event_job_monitor/models.py:271-291 | the decoded group is the submitted one if and only if its partition fields were sorted |
| Parameters.ResubmissionKeepsTheGroup | src/batch_event_job_monitor/submission.py:105-110 | a decoded group survives every resubmission unchanged but for its attempt |
| Retry.Handler | src/batch_event_job_monitor/handlers/job_resubmit_handler.py:46-61 | the loop reports exactly the records it could not resubmit and submits the others' groups at their next attempt, in order |
| Retry.ResubmitJob | src/batch_event_job_monitor/submission.py:73-110 | submits the next attempt's parameters, or nothing if it raises |
| Retry.EachRecordOnce | src/batch_event_job_monitor/handlers/job_resubmit_handler.py:50-59 | each record is reported or resubmitted and never both |
| Retry.OneEventOneMessage | src/batch_event_job_monitor/lambda_core.py:176-196 | exactly when an event sends a retry message or a dead letter, at most one in all, and when it indexes the output |
| Retry.RetriesStayWithinTheLimit | src/batch_event_job_monitor/models.py:98-102 | in every run with free redelivery each retry message is below the attempt limit and each resubmitted job within it |
| Retry.ChainsAreBounded | src/batch_event_job_monitor/submission.py:105-110 | a chain of resubmissions from one submission is no longer than the attempts it has left |
| RetryLimit.LimitIsReached | src/batch_event_job_monitor/lambda_core.py:188-190 | and the bound is exact: for every group a deployment retries, an execution from the start with that many resubmissions |
| Redelivery.RedeliveryIsAsFresh | src/batch_event_job_monitor/lambda_core.py:155-172 | delivered again, an event is fresh for some entity if and only if it was the first time |
| Redelivery.FreshWhereverItStopped | src/batch_event_job_monitor/lambda_core.py:107-172 | after a stop anywhere in recording, between entities or amid one, the event delivered again is fresh if and only if it was to begin with |
| Redelivery.RedeliveryAfterCrashRoutes | src/batch_event_job_monitor/lambda_core.py:172-196 | after a crash before any message was sent, delivering the event again sends and indexes exactly what an uninterrupted handling would have |
| Redelivery.RedeliveredFailureRetriesAgain | src/batch_event_job_monitor/lambda_core.py:176-193 | a fresh retryable failure delivered twice sends its retry message twice |
| Text.PrintedReadsBack | src/batch_event_job_monitor/log_store.py:92 | a number printed zero-padded is read back, however long |
| Text.PrintedWidth | src/batch_event_job_monitor/log_store.py:121 | it takes exactly the width if and only if it fits |
| Keys.PointerKeysDiffer | src/batch_event_job_monitor/log_store.py:96-122 | state pointer keys are equal as text only if built from the same state, entity and attempt |
| Keys.RecordKeysDiffer | src/batch_event_job_monitor/log_store.py:77-94 | the same for canonical record keys |
| Keys.OutputKeysDiffer | src/batch_event_job_monitor/log_store.py:124-147 | the same for output index keys |
| Keys.KindsDiffer | src/batch_event_job_monitor/log_store.py:44-53 | no pointer, record and output index share a key, whatever they are built from |
| Keys.SlashesCollide | src/batch_event_job_monitor/log_store.py:25-26 | a value with a slash gives two entities one key |
| Keys.ListingIsExact | src/batch_event_job_monitor/log_store.py:483-487 | listing under an entity's prefix in a state finds its pointers and no others |
| Keys.RecordListingIsExact | src/batch_event_job_monitor/log_store.py:639-648 | listing under an entity's record prefix finds its records and no others |
| Keys.AttemptIsReadBack | src/batch_event_job_monitor/log_store.py:647-649 | a record's attempt is read back from its name, past 999 too |
| Keys.ViewReadsBack | src/batch_event_job_monitor_cdk/partition_key_spec.py:187-190 | the leftmost match of a column's regular expression is that field's value, unless the key prefix holds a match |
| Keys.ViewRecoversThePointer | src/batch_event_job_monitor_cdk/athena_state_table.py:151-159 | each column reads back its value if and only if the key prefix has no segment of that name with another value |
| Keys.AttemptColumnUpTo999 | src/batch_event_job_monitor_cdk/athena_state_table.py:157 | the attempt column is the attempt up to 999 and null past it |
| Timestamps.TextOrderIsTimeOrder | src/batch_event_job_monitor/rollup.py:316-326 | ISO 8601 text with one offset sorts chronologically, with or without fractions |
| Timestamps.NewerTextIsNotEarlier | src/batch_event_job_monitor/rollup_schema.py:150-157 | and agrees with the instants MERGE reads from it |
| Timestamps.IsoformatIsIsoText | src/batch_event_job_monitor/lambda_core.py:132 | the text has every field of the moment at its place, and a fraction exactly when there are microseconds |
| Timestamps.MicrosInClosedForm | src/batch_event_job_monitor/rollup_schema.py:150-157 | an instant is the Gregorian calendar's, in closed form |
| Rows.RecordToRow | src/batch_event_job_monitor/rollup.py:39-99 | a row exactly when there are events, every partition key and a last timestamp |
| RecordRows.RowTellsTheLastDelivery | src/batch_event_job_monitor/rollup.py:69-98 | after any monitor run a record flattens exactly when its entity has every partition key, and its row is at the state and time of the event delivered last, straggler or not |
| RecordRows.RowTellsTheEvent | src/batch_event_job_monitor/lambda_core.py:130-144 | whatever came before, an event that reaches a record gives the record's row its own state, time and last event, and its log stream and times where it has them |
| RecordRows.RowCarriesTheRecord | src/batch_event_job_monitor/rollup.py:83-98 | each column is the record's own: output, Batch job, log stream, the three times, and every event as recorded |
| RecordRows.RowHasTheNaturalKey | src/batch_event_job_monitor/rollup_schema.py:38-51 | the row's natural key is partition values, input entity and attempt of the record |
| RecordRows.DeclaredFieldsKeepRowsApart | src/batch_event_job_monitor/rollup.py:296-300 | object keys and natural keys coincide when partition fields are exactly the declared ones, in order |
| RecordRows.UndeclaredFieldsCollapse | src/batch_event_job_monitor/rollup.py:300-303 | an extra field, or another order of fields, gives two objects one row |
| Rows.FetchRows | src/batch_event_job_monitor/rollup.py:218-288 | rows in key order and exact counts of missing and malformed; an error only for a refused GET |
| Rows.OutcomesAreAccountedFor | src/batch_event_job_monitor/rollup.py:279-288 | every key gives a row, a missing or a malformed object, and no row is lost |
| Rows.CountsAreExact | src/batch_event_job_monitor/rollup.py:279-288 | missing are exactly the keys without an object, malformed those whose object gives no row, and every other key gives one |
| Rows.RowsInOrder | src/batch_event_job_monitor/rollup.py:279-288 | rows come in the order of their keys |
| Rows.DedupeRowsByNaturalKey | src/batch_event_job_monitor/rollup.py:291-328 | the loop over the dictionary computes `Deduped` |
| Rows.DedupeKeepsTheNewest | src/batch_event_job_monitor/rollup.py:320-328 | one row to each natural key, none dropped, and none earlier than another row of its key |
| Rows.DedupeKeepsTheFirst | src/batch_event_job_monitor/rollup.py:323-327 | of rows of one key with the greatest timestamp text the first is kept |
| Rows.MergeAt | src/batch_event_job_monitor/rollup_schema.py:223-236 | what MERGE leaves under each natural key |
| Rows.RollUpIsAJoin | src/batch_event_job_monitor/rollup_schema.py:223-236 | dedupe then MERGE takes each natural key to the latest of what it had and what came |
| Rows.BatchesJoin | src/batch_event_job_monitor/rollup.py:627-661 | after any batches each key is at the greatest instant that came, with a row attaining it |
| Rows.CuttingDoesNotMatter | src/batch_event_job_monitor/rollup.py:577-580 | cutting, order and replays do not change the keys or their instants |
| Winners.WinnerTakesTheKey | src/batch_event_job_monitor/rollup_schema.py:223-236 | a natural key ends with the first newest row of the last batch whose row there attains the greatest instant, at that batch's time |
| Winners.NobodyWins | src/batch_event_job_monitor/rollup_schema.py:229-230 | a natural key is untouched when everything that came under it is earlier than the row there |
| Winners.SomebodyWins | src/batch_event_job_monitor/rollup_schema.py:223-236 | in every other case there is such a row |
| Winners.OneWinner | src/batch_event_job_monitor/rollup_schema.py:223-236 | there is only one, and only in that case |
| Queue.FirstSeenIsExact | src/batch_event_job_monitor/rollup.py:164-169 | drained keys are distinct and exactly the parseable ones seen |
| Queue.FirstSeenInOrder | src/batch_event_job_monitor/rollup.py:106-112 | drained keys come in the order first seen |
| Queue.DrainKeys | src/batch_event_job_monitor/rollup.py:127-173 | captures the handle of every message made invisible and at most the cap of keys; asks each time for what is still wanted and stops only at the cap or at the first empty answer, so that nothing visible is left short of the cap if SQS gives what is visible |
| Queue.Absorb | src/batch_event_job_monitor/rollup.py:164-171 | the inner break skips no message |
| Queue.DeleteMessages | src/batch_event_job_monitor/rollup.py:546-557 | all handles, ten at a time, and nothing else |
| Queue.EnqueueKeys | src/batch_event_job_monitor/rollup.py:682-694 | all keys, ten at a time, in order |
| Rollup.Chain | src/batch_event_job_monitor/rollup.py:560-571 | invokes exactly when the depth is below the maximum |
| Rollup.RunRollup | src/batch_event_job_monitor/rollup.py:574-673 | drains until the cap or an empty answer; failure leaves table and chain alone and every drained message in flight; success merges all rows, deletes all messages and chains when work and depth remain |
| RollupProtocol.DoKeepsInv | src/batch_event_job_monitor/rollup.py:603-667 | every step of every run, of the queue and of the writers keeps the invariant |
| RollupProtocol.NoNotificationIsLost | src/batch_event_job_monitor/rollup.py:603-667 | in every execution each notification is held by the queue or its DLQ, or had no key, or its key was fetched after it was sent and was missing, malformed, or is in the table at that instant or later |
| RollupProtocol.EmptyQueueMeansUpToDate | src/batch_event_job_monitor/rollup.py:577-580 | once the queues are empty every record notified of since its last write is in the table at its instant or later |
| SoloRollup.Solo.InvocationAlone | src/batch_event_job_monitor/rollup.py:603-667 | an uninterrupted invocation of the machine rolls up exactly the rows of the keys it drained and removes exactly the messages it drained |
| Reconcile.RunReconcile | src/batch_event_job_monitor/rollup.py:697-796 | one hop enqueues the data rows of the pages it reads, in order, and hands the rest on, or reports truncation at the depth limit |
| Reconcile.DataRowsAreAllButTheHeader | src/batch_event_job_monitor/rollup.py:749-765 | over a whole result the header is skipped once and nothing else |
| Reconcile.LinkedHopsAreBounded | src/batch_event_job_monitor/rollup.py:560-571 | any run of linked hops, ended or not, has enqueued a prefix of the data rows in order and is no longer than the depth limit and the pages allow |
| Reconcile.LimitEndsTheChain | src/batch_event_job_monitor/rollup.py:772-788 | a hop that hands on is short of both, so every chain ends |
| Reconcile.ChainEnqueuesAPrefix | src/batch_event_job_monitor/rollup.py:772-788 | an ended chain enqueued a prefix of the data rows in order, all of them exactly when not truncated or nothing is left |
| Reconcile.PagingDoesNotMatter | src/batch_event_job_monitor/rollup.py:752-788 | page breaks, clock and depth limit do not change what an untruncated chain enqueues |
| Convergence.SelectedAfterExactlyWhen | src/batch_event_job_monitor/rollup_schema.py:266-278 | the inventory selects an object after rollups, told from the table before and the rows that came: as before if all that came under its natural key is earlier than the row there, otherwise if and only if another object's row wins the key |
| Convergence.ReportSelectsExactly | src/batch_event_job_monitor/rollup_schema.py:266-278 | from a newest report, whatever older lines say, exactly the objects there are without a row, or with a row rolled up before their last write, are selected |
| Convergence.SelectedAgainExactlyWhen | src/batch_event_job_monitor/rollup.py:708-709 | a selected object is selected again if and only if all that came under its key is earlier than the row there or another object's row wins |
| Convergence.SelectedAgainAlone | src/batch_event_job_monitor/rollup.py:708-709 | with the key to itself, if and only if nothing came from it or all of it is earlier than the row it has |
| Convergence.NewlySelectedExactlyWhen | src/batch_event_job_monitor/rollup_schema.py:266-278 | an object not selected had a row, and becomes selected if and only if another object's row takes its natural key |
| Convergence.OutlastedOnlyByLater | src/batch_event_job_monitor/rollup_schema.py:229-230 | a row outlasts later batches if and only if it is later than every row that came under its key |
| Convergence.NothingLeftToSelect | src/batch_event_job_monitor/rollup.py:708-709 | with natural keys one to one and every selected object giving a row no earlier than the table's, nothing is selected afterwards |
| Convergence.TiedObjectsTakeTurns | src/batch_event_job_monitor/rollup.py:708-709 | two objects of one natural key and one instant are selected in turn, after any number of passes |
| ReconcilePass.ReconcileConverges | src/batch_event_job_monitor/rollup.py:697-796 | in any execution from any reachable state: a selected key notified of since was fetched since, its row came, and whether it is selected again is told from the table before and what came |
| ReconcilePass.PassSelectsExactly | src/batch_event_job_monitor/rollup.py:697-796 | after a complete untruncated chain whose notifications have left the queue, every selected object was fetched, and which objects are selected, before or not, is told from the table before and what came |
| ReconcilePass.CompletePassLeavesNothing | src/batch_event_job_monitor/rollup.py:708-709 | one complete pass leaves nothing selected when natural keys are one to one and every selected object fetched flattens to a row no earlier than the table's |
| StragglerPass.EveryStragglerIsFutile | src/batch_event_job_monitor/lambda_core.py:130-147 | for every monitor run, an event followed by a straggler of the same record: an execution from the start in which a pass over the record leaves the selection as it was |
| StragglerPass.NextPassMayMatchAsMany | src/batch_event_job_monitor/rollup.py:708-709 | one such execution for a legal run of two events, with the records the monitor wrote |
| Rules.FirstJobTypePerQueue | src/batch_event_job_monitor_cdk/job_monitor_function.py:426-448 | the `setdefault` loop computes `FirstByQueue`, swapped |
| Rules.FirstByQueueIsExact | src/batch_event_job_monitor_cdk/job_monitor_function.py:445-448 | one entry to each distinct queue and none else |
| Rules.FirstByQueueIsFirst | src/batch_event_job_monitor_cdk/job_monitor_function.py:445-448 | each named by the first job type using the queue |
| Rules.ValidateHandler | src/batch_event_job_monitor_cdk/job_monitor_function.py:372-423 | accepts exactly when entry and index agree, bundled handlers need parameters everywhere, and no queue mixes requirements |
| Rules.ValidateConfigs | src/batch_event_job_monitor_cdk/job_monitor_function.py:188-191 | the construct's validation accepts if and only if the configuration is `Accepted`, and refuses for the first job type at fault before the handler |
| Rules.NeverBothPaths | src/batch_event_job_monitor_cdk/job_monitor_function.py:262-314 | under an accepted configuration no event matches a tracked and an untracked rule |
| Rules.ExactlyOneCatchAll | src/batch_event_job_monitor_cdk/job_monitor_function.py:285-314 | a terminal event without the parameter matches exactly one untracked rule on a queue requiring it, and none elsewhere |
| Rules.CaughtExactlyWhen | src/batch_event_job_monitor_cdk/job_monitor_function.py:285-314 | some catch-all catches an event if and only if it is terminal, lacks the parameter and is on a queue requiring it |
| Rules.TakenExactlyWhen | src/batch_event_job_monitor_cdk/job_monitor_function.py:262-283 | a job type's rule takes an event if and only if its status is tracked, its queue and definition are the job type's own, at any revision, and it has the parameter if required |
| Rules.AcceptedStatusesAreClassified | src/batch_event_job_monitor_cdk/job_monitor_function.py:317-337 | tracked statuses are accepted if and only if both terminal ones are there and the monitor classifies every event of each |
| Rules.RefusedStatusesAreNamed | src/batch_event_job_monitor_cdk/job_monitor_function.py:326-331 | statuses Batch does not report are refused by name, all of them and no other |
| Rules.ValidatedConfigIsValid | src/batch_event_job_monitor_cdk/job_monitor_function.py:340-369 | submitter states pass validation exactly when each is a path segment fit for a field and is none of the monitor's own |
| Migration.DeclaredColumnsAreDistinct | src/batch_event_job_monitor/rollup_schema.py:54-73 | declared columns are distinct exactly when partition keys are distinct and none is a fixed column |
| Migration.RefusesExactlyWhenIncompatible | src/batch_event_job_monitor/handlers/records_table_ddl_handler.py:87-105 | migration is refused if and only if a deployed column is undeclared or retyped |
| Migration.SameTypeExactly | src/batch_event_job_monitor/handlers/records_table_ddl_handler.py:29-48 | each type has one spelling without white space and capitals, and two types are the same if and only if they have the same one |
| Migration.PlainTypesDiffer | src/batch_event_job_monitor/handlers/records_table_ddl_handler.py:29-48 | types so spelt are the same only if equal |
| Migration.SpaceMakesNoDifference | src/batch_event_job_monitor/handlers/records_table_ddl_handler.py:29-48 | a white-space character anywhere makes no difference |
| Migration.CaseMakesNoDifference | src/batch_event_job_monitor/handlers/records_table_ddl_handler.py:29-48 | nor does the case of a letter anywhere |
| Migration.FaultsAreExact | src/batch_event_job_monitor/handlers/records_table_ddl_handler.py:90-105 | the columns named as removed and as retyped are exactly those |
| Migration.PlainRetypeIsRefused | src/batch_event_job_monitor/handlers/records_table_ddl_handler.py:91-105 | a column deployed under one plain type and declared under another is refused by name |
| Migration.AttemptRetypedIsRefused | src/batch_event_job_monitor/handlers/records_table_ddl_handler.py:91-105 | "int" declared as "string" is refused |
| Migration.StoredSpellingIsAccepted | src/batch_event_job_monitor/handlers/records_table_ddl_handler.py:29-48 | the catalog's spaced spelling of the events type is not |
| Migration.Update | src/batch_event_job_monitor/handlers/records_table_ddl_handler.py:214-239 | refused before anything runs, or the statements run in order up to the first that fails, each adding its column, and that failure is raised |
| Migration.MigrationReachesTheSchema | src/batch_event_job_monitor/handlers/records_table_ddl_handler.py:106-110 | afterwards every deployed column is where it was, every declared one is there with its type, and there is no other |
| Migration.RerunEmitsTheRest | src/batch_event_job_monitor/handlers/records_table_ddl_handler.py:214-239 | stopped after any statement and run again, exactly the remaining statements are emitted |

## Left out

- Record updates by two invocations at once: `append_canonical_event` is a read-modify-write that the code itself calls not atomic, so records are proved for one event at a time and the interleaved machine treats the append as one step that pointers do not depend on.
- Listings longer than one page, and pointers or records that exist but cannot be read: assumed away, as are messages a batch send or delete refuses one by one.
- `JobDetails` field fallbacks, JSON text, gzip staging and the staging object's own deletion, metrics, Athena polling: I/O or easy; `Detail`, `Json` and `Answers` stand for their results.
- Parameters.DecodeOfSubmitted: a negative attempt, which `int` reads, is not expressible; only digits are ever written.
- Keys.ViewReadsBack: partition key names are taken literally in the regular expression, as identifiers are; the code does not escape them.
- Migration.RefusesExactlyWhenIncompatible: types are compared on ASCII text, and deployed and declared names are assumed distinct.
- Rollup.RunRollup: the fetch pool is a sequential map over one snapshot of the bucket; `RollupProtocol` lets the bucket change between fetches.
- Retry.RetriesStayWithinTheLimit: an original submission's own attempt is the submitter's choice and may be past the limit.
- ReconcilePass.ReconcileConverges: assumes that an object's rows keep one natural key and that merges are stamped no earlier than the object's last write, since the code guarantees neither.
- Rows.RecordToRow: bodies without an input entity or attempt, which the code flattens to null key columns that MERGE never matches, and timestamps other than `isoformat` text in UTC, on which MERGE fails as a whole, are not expressible; every record the monitor writes has all three (`RecordRows.RowTellsTheLastDelivery`).
- LogStore.S3RecordStore.WriteStatePointerConditional: other errors of the conditional write, which the code raises, are not modelled.
- SQS message expiry and Lambda's own retries of a failed asynchronous hop: not modelled.
- Redelivery of one notification as two copies: the queue machine redelivers after a timeout; a duplicate notification is a second `Notify`.
- CDK resources, IAM, naming, lifecycle rules, `batch_job_name`, the legacy records and outputs tables, untracked-job metrics, configuration codecs, partition projection parameters: declarative or easy.
