/** A job group as Batch job parameters and back (`models.py`, `job_details.py`, `submission.py`). */
module Parameters {
  import opened Prelude
  import opened OrderedDict
  import opened Text
  import opened Models

  /** What `json.loads` makes of a text; an array's items that are not strings are None. */
  datatype Json = JsonObject(fields: Dict<string, string>) | JsonArray(items: seq<Option<string>>) | OtherJson | NotJson

  type BatchParameters = Dict<string, string>

  /** `json.dumps`, `json.loads` and `int`; `number` is None where `int` raises. */
  datatype Codec = Codec(dumps: Json -> string, loads: string -> Json, number: string -> Option<nat>)

  /** What is dumped is loaded again, and decimal digits are read as the number they print. */
  ghost predicate Faithful(codec: Codec) {
    && (forall fields :: codec.loads(codec.dumps(JsonObject(fields))) == JsonObject(fields))
    && (forall ids :: codec.loads(codec.dumps(JsonArray(Strings(ids)))) == JsonArray(Strings(ids)))
    && (forall text | text != "" && AllDigits(text) :: codec.number(text) == Some(Value(text)))
  }

  function Strings(ids: seq<string>): seq<Option<string>> {
    seq(|ids|, i requires 0 <= i < |ids| => Some(ids[i]))
  }

  // ---------- sorting partition fields

  predicate InOrder(a: (string, string), b: (string, string)) {
    !LexLess(b.0, a.0)
  }

  function Insert(p: (string, string), fields: Dict<string, string>): Dict<string, string> {
    if fields == [] || InOrder(p, fields[0]) then [p] + fields
    else [fields[0]] + Insert(p, fields[1..])
  }

  /** `sort_keys=True` */
  function Sorted(fields: Dict<string, string>): Dict<string, string> {
    if fields == [] then [] else Insert(fields[0], Sorted(fields[1..]))
  }

  ghost predicate IsSorted(fields: Dict<string, string>) {
    forall i, j | 0 <= i < j < |fields| :: !LexLess(fields[j].0, fields[i].0)
  }

  lemma {:induction false} LexTransitive(a: string, b: string, c: string)
    requires !LexLess(b, a) && !LexLess(c, b)
    ensures !LexLess(c, a)
  {
    if LexLess(c, a) && c != [] && b != [] && a != [] && a[0] == b[0] == c[0] {
      LexTransitive(a[1..], b[1..], c[1..]);
    }
  }

  lemma {:induction false} InsertSorts(p: (string, string), fields: Dict<string, string>)
    requires IsSorted(fields)
    ensures IsSorted(Insert(p, fields))
    ensures multiset(Insert(p, fields)) == multiset{p} + multiset(fields)
  {
    hide LexLess;
    var r := Insert(p, fields);
    if fields == [] || InOrder(p, fields[0]) {
      forall j | 1 <= j < |r| ensures !LexLess(r[j].0, r[0].0) {
        if j > 1 {
          assert !LexLess(fields[j - 1].0, fields[0].0);
          LexTransitive(p.0, fields[0].0, fields[j - 1].0);
        }
      }
    } else {
      var rest := Insert(p, fields[1..]);
      InsertSorts(p, fields[1..]);
      assert fields == [fields[0]] + fields[1..];
      LexTotal(p.0, fields[0].0);
      forall j | 0 <= j < |rest| ensures !LexLess(rest[j].0, fields[0].0) {
        assert rest[j] in multiset(rest);
        if rest[j] != p {
          assert rest[j] in fields[1..];
        }
      }
    }
  }

  lemma {:induction false} LexTotal(a: string, b: string)
    ensures !LexLess(a, b) || !LexLess(b, a)
    ensures !LexLess(a, b) && !LexLess(b, a) ==> a == b
  {
    if a != [] && b != [] && a[0] == b[0] {
      LexTotal(a[1..], b[1..]);
      assert a == [a[0]] + a[1..] && b == [b[0]] + b[1..];
    }
  }

  /** Sorting keeps every field and leaves a sorted list as it is. */
  lemma {:induction false} SortedSorts(fields: Dict<string, string>)
    ensures IsSorted(Sorted(fields)) && multiset(Sorted(fields)) == multiset(fields)
    ensures Sorted(fields) == fields <==> IsSorted(fields)
  {
    if fields != [] {
      SortedSorts(fields[1..]);
      InsertSorts(fields[0], Sorted(fields[1..]));
      assert fields == [fields[0]] + fields[1..];
      if IsSorted(fields) {
        assert IsSorted(fields[1..]);
        assert |fields| > 1 ==> InOrder(fields[0], fields[1]);
      }
    }
  }

  // ---------- encoding

  const JOB_TYPE := "bejm_job_type"
  const INPUT_ENTITY_IDS := "bejm_input_entity_ids"
  const OUTPUT_ENTITY_ID := "bejm_output_entity_id"
  const PARTITION_FIELDS := "bejm_partition_fields"
  const ATTEMPT := "bejm_attempt"

  const REQUIRED := [JOB_TYPE, INPUT_ENTITY_IDS, OUTPUT_ENTITY_ID, PARTITION_FIELDS, ATTEMPT]

  function ToBatchParameters(group: JobGroup, codec: Codec): BatchParameters {
    [ (JOB_TYPE, group.jobType),
      (INPUT_ENTITY_IDS, codec.dumps(JsonArray(Strings(group.inputEntityIds)))),
      (OUTPUT_ENTITY_ID, group.outputEntityId),
      (PARTITION_FIELDS, codec.dumps(JsonObject(Sorted(group.partitionFields)))),
      (ATTEMPT, Printed(group.attempt, 1))]
  }

  /** `{**base, **ours}` */
  function Overlay(base: BatchParameters, ours: BatchParameters): BatchParameters {
    if ours == [] then base
    else
      var last := ours[|ours| - 1];
      Put(Overlay(base, ours[..|ours| - 1]), last.0, last.1)
  }

  /** The parameters `submit_job` sends, over whatever the consumer's callback gave. */
  function Submitted(base: BatchParameters, group: JobGroup, codec: Codec): BatchParameters {
    Overlay(base, ToBatchParameters(group, codec))
  }

  // ---------- decoding

  datatype DecodeError =
    | MissingParameters(names: seq<string>)
    | AttemptNotInteger
    | FieldsNotJson
    | FieldsNotObject
    | IdsNotJson
    | IdsNotStrings

  /** The required parameters that are absent, all of them, in order. */
  function Absent(parameters: BatchParameters, names: seq<string>): seq<string> {
    if names == [] then []
    else (if Get(parameters, names[0]).None? then [names[0]] else []) + Absent(parameters, names[1..])
  }

  predicate AreStrings(items: seq<Option<string>>) {
    items != [] && forall i | 0 <= i < |items| :: items[i].Some?
  }

  function Texts(items: seq<Option<string>>): seq<string>
    requires AreStrings(items)
  {
    seq(|items|, i requires 0 <= i < |items| => items[i].value)
  }

  lemma {:induction false} NoneAbsent(parameters: BatchParameters, names: seq<string>)
    ensures Absent(parameters, names) == [] <==> forall n | n in names :: Get(parameters, n).Some?
    ensures forall n :: n in Absent(parameters, names) <==> n in names && Get(parameters, n).None?
  {
    if names != [] {
      NoneAbsent(parameters, names[1..]);
      assert forall n :: n in names <==> n == names[0] || n in names[1..];
    }
  }

  /** `decode_job_group` */
  function DecodeJobGroup(parameters: BatchParameters, codec: Codec): Result<JobGroup, DecodeError> {
    var missing := Absent(parameters, REQUIRED);
    if missing != [] then Err(MissingParameters(missing))
    else
      NoneAbsent(parameters, REQUIRED);
      assert REQUIRED[0] in REQUIRED && REQUIRED[1] in REQUIRED && REQUIRED[2] in REQUIRED
          && REQUIRED[3] in REQUIRED && REQUIRED[4] in REQUIRED;
      var attempt := codec.number(Get(parameters, ATTEMPT).value);
      var fields := codec.loads(Get(parameters, PARTITION_FIELDS).value);
      var ids := codec.loads(Get(parameters, INPUT_ENTITY_IDS).value);
      if attempt.None? then Err(AttemptNotInteger)
      else if fields.NotJson? then Err(FieldsNotJson)
      else if !fields.JsonObject? then Err(FieldsNotObject)
      else if ids.NotJson? then Err(IdsNotJson)
      else if !ids.JsonArray? || !AreStrings(ids.items) then Err(IdsNotStrings)
      else
        Ok(JobGroup(Get(parameters, JOB_TYPE).value, fields.fields, Texts(ids.items),
             Get(parameters, OUTPUT_ENTITY_ID).value, attempt.value))
  }

  lemma {:induction false} GetOverlay(base: BatchParameters, ours: BatchParameters, name: string)
    requires DistinctKeys(ours)
    ensures Get(Overlay(base, ours), name) == if Get(ours, name).Some? then Get(ours, name) else Get(base, name)
  {
    if ours != [] {
      var n := |ours| - 1;
      var before, last := ours[..n], ours[n];
      GetOverlay(base, before, name);
      GetPut(Overlay(base, before), last.0, last.1, name);
      GetLast(ours, name);
    }
  }

  lemma GetLast(d: BatchParameters, name: string)
    requires DistinctKeys(d) && d != []
    ensures var n := |d| - 1;
            Get(d, name) == if d[n].0 == name then Some(d[n].1) else Get(d[..n], name)
  {
    var n := |d| - 1;
    if HasKey(d[..n], name) {
      var i :| 0 <= i < n && d[..n][i].0 == name;
      GetIsUnique(d, i);
      GetIsUnique(d[..n], i);
    } else if d[n].0 == name {
      GetIsUnique(d, n);
    } else {
      forall i | 0 <= i < |d| ensures d[i].0 != name {
        assert i < n ==> d[..n][i].0 != name;
      }
    }
  }

  lemma EncodedParameters(group: JobGroup, codec: Codec)
    ensures var p := ToBatchParameters(group, codec);
            && DistinctKeys(p)
            && Get(p, JOB_TYPE) == Some(p[0].1) && Get(p, INPUT_ENTITY_IDS) == Some(p[1].1)
            && Get(p, OUTPUT_ENTITY_ID) == Some(p[2].1) && Get(p, PARTITION_FIELDS) == Some(p[3].1)
            && Get(p, ATTEMPT) == Some(p[4].1)
  {
    var p := ToBatchParameters(group, codec);
    assert JOB_TYPE[5] == 'j' && INPUT_ENTITY_IDS[5] == 'i' && OUTPUT_ENTITY_ID[5] == 'o'
        && PARTITION_FIELDS[5] == 'p' && ATTEMPT[5] == 'a';
    assert DistinctKeys(p);
    GetIsUnique(p, 0);
    GetIsUnique(p, 1);
    GetIsUnique(p, 2);
    GetIsUnique(p, 3);
    GetIsUnique(p, 4);
  }

  lemma SubmittedParameters(base: BatchParameters, group: JobGroup, codec: Codec)
    ensures var p, ours := Submitted(base, group, codec), ToBatchParameters(group, codec);
            && Get(p, JOB_TYPE) == Some(ours[0].1) && Get(p, INPUT_ENTITY_IDS) == Some(ours[1].1)
            && Get(p, OUTPUT_ENTITY_ID) == Some(ours[2].1) && Get(p, PARTITION_FIELDS) == Some(ours[3].1)
            && Get(p, ATTEMPT) == Some(ours[4].1)
  {
    var ours := ToBatchParameters(group, codec);
    EncodedParameters(group, codec);
    GetOverlay(base, ours, JOB_TYPE);
    GetOverlay(base, ours, INPUT_ENTITY_IDS);
    GetOverlay(base, ours, OUTPUT_ENTITY_ID);
    GetOverlay(base, ours, PARTITION_FIELDS);
    GetOverlay(base, ours, ATTEMPT);
  }

  /** Submission keeps every parameter of the consumer's own. */
  lemma SubmissionKeepsTheRest(base: BatchParameters, group: JobGroup, codec: Codec, name: string)
    ensures Get(Submitted(base, group, codec), name).Some? <==> name in REQUIRED || HasKey(base, name)
    ensures name !in REQUIRED ==> Get(Submitted(base, group, codec), name) == Get(base, name)
  {
    hide Overlay, Sorted, Printed, Strings;
    var ours := ToBatchParameters(group, codec);
    EncodedParameters(group, codec);
    GetOverlay(base, ours, name);
    EncodedNames(group, codec, name);
  }

  lemma EncodedNames(group: JobGroup, codec: Codec, name: string)
    ensures HasKey(ToBatchParameters(group, codec), name) <==> name in REQUIRED
  {
    hide Sorted, Printed, Strings;
    var ours := ToBatchParameters(group, codec);
    forall i | 0 <= i < 5 ensures ours[i].0 == REQUIRED[i] {
    }
    if HasKey(ours, name) {
      var i :| 0 <= i < |ours| && ours[i].0 == name;
      assert REQUIRED[i] == name;
    }
    if name in REQUIRED {
      var i :| 0 <= i < |REQUIRED| && REQUIRED[i] == name;
      assert ours[i].0 == name;
    }
  }

  /** A submitted group is decoded from its job's events with its partition fields sorted, whatever
      other parameters the job carries; a group without entities is not decoded at all. */
  lemma DecodeOfSubmitted(base: BatchParameters, group: JobGroup, codec: Codec)
    requires Faithful(codec)
    ensures DecodeJobGroup(Submitted(base, group, codec), codec) ==
              if group.inputEntityIds == [] then Err(IdsNotStrings)
              else Ok(group.(partitionFields := Sorted(group.partitionFields)))
  {
    hide ToBatchParameters, Submitted, Sorted, Printed;
    var p, ids, fields := Submitted(base, group, codec), Strings(group.inputEntityIds), Sorted(group.partitionFields);
    SubmittedTexts(base, group, codec);
    PrintedReadsBack(group.attempt, 1);
    DecodeReads(p, codec, group.jobType, ids, group.outputEntityId, fields, group.attempt);
    if group.inputEntityIds != [] {
      assert AreStrings(ids);
      assert Texts(ids) == group.inputEntityIds;
    }
  }

  lemma SubmittedTexts(base: BatchParameters, group: JobGroup, codec: Codec)
    ensures var p := Submitted(base, group, codec);
            && Get(p, JOB_TYPE) == Some(group.jobType) && Get(p, OUTPUT_ENTITY_ID) == Some(group.outputEntityId)
            && Get(p, INPUT_ENTITY_IDS) == Some(codec.dumps(JsonArray(Strings(group.inputEntityIds))))
            && Get(p, PARTITION_FIELDS) == Some(codec.dumps(JsonObject(Sorted(group.partitionFields))))
            && Get(p, ATTEMPT) == Some(Printed(group.attempt, 1))
  {
    SubmittedParameters(base, group, codec);
  }

  lemma DecodeReads(
    p: BatchParameters, codec: Codec, jobType: string, ids: seq<Option<string>>, output: string,
    fields: Dict<string, string>, attempt: nat)
    requires Get(p, JOB_TYPE) == Some(jobType) && Get(p, OUTPUT_ENTITY_ID) == Some(output)
    requires Get(p, INPUT_ENTITY_IDS).Some? && codec.loads(Get(p, INPUT_ENTITY_IDS).value) == JsonArray(ids)
    requires Get(p, PARTITION_FIELDS).Some? && codec.loads(Get(p, PARTITION_FIELDS).value) == JsonObject(fields)
    requires Get(p, ATTEMPT).Some? && codec.number(Get(p, ATTEMPT).value) == Some(attempt)
    ensures DecodeJobGroup(p, codec) ==
              if AreStrings(ids) then Ok(JobGroup(jobType, fields, Texts(ids), output, attempt)) else Err(IdsNotStrings)
  {
    NoneAbsent(p, REQUIRED);
    assert forall n | n in REQUIRED :: Get(p, n).Some?;
    assert Absent(p, REQUIRED) == [];
  }

  /** The parameters carry the group, each part under its own name. */
  ghost predicate Carries(p: BatchParameters, codec: Codec, group: JobGroup) {
    && Get(p, "bejm_job_type") == Some(group.jobType) && Get(p, "bejm_output_entity_id") == Some(group.outputEntityId)
    && (exists text :: Get(p, "bejm_attempt") == Some(text) && codec.number(text) == Some(group.attempt))
    && (exists text :: Get(p, "bejm_partition_fields") == Some(text)
                       && codec.loads(text) == JsonObject(group.partitionFields))
    && (exists text :: Get(p, "bejm_input_entity_ids") == Some(text)
                       && codec.loads(text) == JsonArray(Strings(group.inputEntityIds)))
    && group.inputEntityIds != []
  }

  /** Parameters from anywhere are decoded as a group exactly when they carry it. */
  lemma DecodedExactlyWhenCarried(p: BatchParameters, codec: Codec, group: JobGroup)
    ensures DecodeJobGroup(p, codec) == Ok(group) <==> Carries(p, codec, group)
  {
    hide Get;
    NoneAbsent(p, REQUIRED);
    var ids := Strings(group.inputEntityIds);
    if Carries(p, codec, group) {
      DecodeReads(p, codec, group.jobType, ids, group.outputEntityId, group.partitionFields, group.attempt);
      assert AreStrings(ids);
      assert Texts(ids) == group.inputEntityIds;
    }
    if DecodeJobGroup(p, codec) == Ok(group) {
      var items := codec.loads(Get(p, INPUT_ENTITY_IDS).value).items;
      assert Strings(Texts(items)) == items;
    }
  }

  const RESERVED := {"bejm_job_type", "bejm_input_entity_ids", "bejm_output_entity_id", "bejm_partition_fields", "bejm_attempt"}

  /** Parameters that are missing are reported together, each of them and no other. */
  lemma EveryMissingIsNamed(p: BatchParameters, codec: Codec)
    requires exists name | name in RESERVED :: !HasKey(p, name)
    ensures var r := DecodeJobGroup(p, codec);
            && r.Err? && r.error.MissingParameters?
            && forall name :: name in r.error.names <==> name in RESERVED && !HasKey(p, name)
  {
    hide Get;
    NoneAbsent(p, REQUIRED);
    assert forall name :: name in REQUIRED <==> name in RESERVED;
  }

  /** Of those that are there but malformed only the first is reported: the attempt, then the fields, then the ids. */
  lemma FirstMalformedIsNamed(p: BatchParameters, codec: Codec)
    requires forall name | name in RESERVED :: HasKey(p, name)
    ensures var r, fields, ids := DecodeJobGroup(p, codec), codec.loads(Get(p, "bejm_partition_fields").value),
                                  codec.loads(Get(p, "bejm_input_entity_ids").value);
            var badAttempt := codec.number(Get(p, "bejm_attempt").value).None?;
            && (r == Err(AttemptNotInteger) <==> badAttempt)
            && (r == Err(FieldsNotJson) <==> !badAttempt && fields == NotJson)
            && (r == Err(FieldsNotObject) <==> !badAttempt && (fields.JsonArray? || fields.OtherJson?))
            && (r == Err(IdsNotJson) <==> !badAttempt && fields.JsonObject? && ids == NotJson)
            && (r == Err(IdsNotStrings) <==>
                  && !badAttempt && fields.JsonObject?
                  && (ids.JsonObject? || ids.OtherJson? || ids == JsonArray([]) || (ids.JsonArray? && None in ids.items)))
  {
    hide Get;
    NoneAbsent(p, REQUIRED);
    assert forall name :: name in REQUIRED <==> name in RESERVED;
  }

  /** The submitter and the monitor mean the same entities exactly when the partition fields were in
      order to begin with. */
  lemma RoundTripExactlyWhenSorted(base: BatchParameters, group: JobGroup, codec: Codec)
    requires Faithful(codec) && group.inputEntityIds != []
    ensures DecodeJobGroup(Submitted(base, group, codec), codec) == Ok(group) <==> IsSorted(group.partitionFields)
  {
    DecodeOfSubmitted(base, group, codec);
    SortedSorts(group.partitionFields);
  }

  /** A group decoded from an event comes back unchanged from every resubmission. */
  lemma ResubmissionKeepsTheGroup(base: BatchParameters, group: JobGroup, base': BatchParameters, codec: Codec)
    requires Faithful(codec) && group.inputEntityIds != []
    ensures var r := DecodeJobGroup(Submitted(base, group, codec), codec);
            r.Ok? && DecodeJobGroup(Submitted(base', r.value.NextAttempt(), codec), codec) == Ok(r.value.NextAttempt())
  {
    DecodeOfSubmitted(base, group, codec);
    SortedSorts(group.partitionFields);
    RoundTripExactlyWhenSorted(base', group.(partitionFields := Sorted(group.partitionFields)).NextAttempt(), codec);
  }
}
