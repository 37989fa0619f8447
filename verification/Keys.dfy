/** The S3 keys themselves: the text `log_store.py` builds, what its listings and number parsing read
    back, and what the regular expressions of the Athena view find (`athena_state_table.py`,
    `partition_key_spec.py`). */
module Keys {
  import opened Prelude
  import opened OrderedDict
  import opened Text
  import opened Models
  import opened LogStore

  // ---------- pieces of keys

  predicate Free(s: string, c: char) {
    forall i | 0 <= i < |s| :: s[i] != c
  }

  /** A value that makes one path segment. */
  predicate Segment(s: string) {
    s != "" && Free(s, '/')
  }

  predicate FieldName(s: string) {
    Free(s, '/') && Free(s, '=')
  }

  /** `_render_partition` */
  function RenderPartition(fields: seq<(string, string)>): string {
    if fields == [] then "" else (fields[0].0 + "=" + fields[0].1 + "/") + RenderPartition(fields[1..])
  }

  function StatePrefix(prefix: string, state: string, jobType: string, fields: seq<(string, string)>): string {
    prefix + "state/" + ("state=" + state + "/") + ("job_type=" + jobType + "/") + RenderPartition(fields)
  }

  function StatePointerKey(prefix: string, key: PointerKey): string {
    StatePrefix(prefix, key.state, key.entity.jobType, key.entity.partitionFields)
    + ("input_entity_id=" + key.entity.inputEntityId + "/") + Printed(key.attempt, 3)
  }

  /** What `find_active_pointer` lists for an entity in one state. */
  function ListingPrefix(prefix: string, state: string, e: Entity): string {
    StatePrefix(prefix, state, e.jobType, e.partitionFields) + ("input_entity_id=" + e.inputEntityId + "/")
  }

  function RecordPrefix(prefix: string, e: Entity): string {
    prefix + "records/" + ("job_type=" + e.jobType + "/") + RenderPartition(e.partitionFields)
    + ("input_entity_id=" + e.inputEntityId + "/")
  }

  function CanonicalKey(prefix: string, key: RecordKey): string {
    RecordPrefix(prefix, key.entity) + Printed(key.attempt, 3) + ".json"
  }

  function OutputIndexKey(prefix: string, key: OutputKey): string {
    prefix + "outputs/" + ("state=" + key.state + "/") + ("job_type=" + key.jobType + "/")
    + RenderPartition(key.partitionFields) + key.outputEntityId
  }

  // ---------- what keys must be built from to be told apart

  predicate PartitionOk(fields: seq<(string, string)>) {
    forall i | 0 <= i < |fields| :: FieldName(fields[i].0) && Segment(fields[i].1) && fields[i].0 != "input_entity_id"
  }

  predicate EntityOk(e: Entity) {
    Segment(e.jobType) && Segment(e.inputEntityId) && PartitionOk(e.partitionFields)
  }

  // ---------- splitting

  /** Text up to the first separator, and what follows it, are determined. */
  lemma SplitAt(a: string, b: string, x: string, y: string, c: char)
    requires Free(a, c) && Free(b, c) && a + [c] + x == b + [c] + y
    ensures a == b && x == y
  {
    var s := a + [c] + x;
    assert s[|a|] == c && s == b + [c] + y && s[|b|] == c;
    assert forall i | 0 <= i < |a| :: s[i] == a[i];
    assert forall i | 0 <= i < |b| :: s[i] == b[i];
    assert |a| == |b|;
    assert a == s[..|a|] && b == s[..|a|] && x == s[|a| + 1..] && y == s[|a| + 1..];
  }

  lemma FieldSplits(k: string, v: string, l: string, w: string, x: string, y: string)
    requires FieldName(k) && FieldName(l) && Segment(v) && Segment(w)
    requires k + "=" + v + "/" + x == l + "=" + w + "/" + y
    ensures k == l && v == w && x == y
  {
    assert k + "=" + v + "/" + x == (k + "=" + v) + ['/'] + x && l + "=" + w + "/" + y == (l + "=" + w) + ['/'] + y;
    SplitAt(k + "=" + v, l + "=" + w, x, y, '/');
    assert k + "=" + v == k + ['='] + v && l + "=" + w == l + ['='] + w;
    SplitAt(k, l, v, w, '=');
  }

  /** Fields and what follows them, as far as the last slash, are determined by the text. */
  lemma {:induction false} PartitionSplits(f: seq<(string, string)>, g: seq<(string, string)>, x: string, y: string)
    requires FieldsOk(f) && FieldsOk(g) && Free(x, '/') && Free(y, '/')
    requires RenderPartition(f) + x == RenderPartition(g) + y
    ensures f == g && x == y
  {
    if f != [] {
      HasSlash(f, x);
    }
    if g != [] {
      HasSlash(g, y);
    }
    assert f == [] ==> RenderPartition(f) + x == x;
    assert g == [] ==> RenderPartition(g) + y == y;
    if f != [] {
      RenderFirst(f, x);
      RenderFirst(g, y);
      FieldSplits(f[0].0, f[0].1, g[0].0, g[0].1, RenderPartition(f[1..]) + x, RenderPartition(g[1..]) + y);
      PartitionSplits(f[1..], g[1..], x, y);
      assert f == [f[0]] + f[1..] && g == [g[0]] + g[1..];
    }
  }

  predicate FieldsOk(fields: seq<(string, string)>) {
    forall i | 0 <= i < |fields| :: FieldName(fields[i].0) && Segment(fields[i].1)
  }

  lemma RenderFirst(f: seq<(string, string)>, x: string)
    requires f != []
    ensures RenderPartition(f) + x == f[0].0 + "=" + f[0].1 + "/" + (RenderPartition(f[1..]) + x)
  {
  }

  lemma HasSlash(f: seq<(string, string)>, x: string)
    requires f != []
    ensures !Free(RenderPartition(f) + x, '/')
  {
    RenderFirst(f, x);
    var i := |f[0].0 + "=" + f[0].1|;
    assert (RenderPartition(f) + x)[i] == '/';
  }

  lemma {:induction false} RenderAppends(f: seq<(string, string)>, g: seq<(string, string)>)
    ensures RenderPartition(f + g) == RenderPartition(f) + RenderPartition(g)
  {
    if f == [] {
      assert f + g == g;
    } else {
      RenderAppends(f[1..], g);
      assert (f + g)[1..] == f[1..] + g && (f + g)[0] == f[0];
    }
  }

  lemma RenderOne(k: string, v: string)
    ensures RenderPartition([(k, v)]) == k + "=" + v + "/"
  {
    assert [(k, v)][1..] == [];
  }

  /** All the fields of a pointer's path. */
  function PointerFields(state: string, e: Entity): seq<(string, string)> {
    [("state", state), ("job_type", e.jobType)] + e.partitionFields + [("input_entity_id", e.inputEntityId)]
  }

  function RecordFields(e: Entity): seq<(string, string)> {
    [("job_type", e.jobType)] + e.partitionFields + [("input_entity_id", e.inputEntityId)]
  }

  lemma RenderPointerFields(state: string, e: Entity)
    ensures RenderPartition(PointerFields(state, e))
         == ("state=" + state + "/") + RenderPartition(RecordFields(e))
  {
    assert PointerFields(state, e)[1..] == RecordFields(e);
  }

  lemma RenderRecordFields(e: Entity)
    ensures RenderPartition(RecordFields(e))
         == ("job_type=" + e.jobType + "/") + RenderPartition(e.partitionFields) + ("input_entity_id=" + e.inputEntityId + "/")
  {
    var head := [("job_type", e.jobType)];
    RenderAppends(head, e.partitionFields);
    RenderAppends(head + e.partitionFields, [("input_entity_id", e.inputEntityId)]);
    RenderOne("job_type", e.jobType);
    RenderOne("input_entity_id", e.inputEntityId);
  }

  lemma ListingPrefixIsFields(prefix: string, state: string, e: Entity)
    ensures ListingPrefix(prefix, state, e) == prefix + "state/" + RenderPartition(PointerFields(state, e))
  {
    RenderPointerFields(state, e);
    RenderRecordFields(e);
    Regroup(prefix + "state/", "state=" + state + "/", "job_type=" + e.jobType + "/", RenderPartition(e.partitionFields),
      "input_entity_id=" + e.inputEntityId + "/");
  }

  lemma Regroup(a: string, b: string, c: string, d: string, e: string)
    ensures a + b + c + d + e == a + (b + (c + d + e))
  {
  }

  lemma PointerKeyIsFields(prefix: string, k: PointerKey)
    ensures StatePointerKey(prefix, k) == ListingPrefix(prefix, k.state, k.entity) + Printed(k.attempt, 3)
    ensures StatePointerKey(prefix, k)
         == prefix + "state/" + (RenderPartition(PointerFields(k.state, k.entity)) + Printed(k.attempt, 3))
  {
    ListingPrefixIsFields(prefix, k.state, k.entity);
  }

  lemma RecordPrefixIsFields(prefix: string, e: Entity)
    ensures RecordPrefix(prefix, e) == prefix + "records/" + RenderPartition(RecordFields(e))
  {
    RenderRecordFields(e);
  }

  lemma PointerFieldsOk(state: string, e: Entity)
    requires Segment(state) && EntityOk(e)
    ensures FieldsOk(PointerFields(state, e)) && FieldsOk(RecordFields(e))
  {
  }

  lemma EntityOfFields(e: Entity, e': Entity)
    requires RecordFields(e) == RecordFields(e')
    ensures e == e'
  {
    var f, g := RecordFields(e), RecordFields(e');
    assert f[1..|f| - 1] == e.partitionFields && g[1..|g| - 1] == e'.partitionFields;
    assert f[0] == ("job_type", e.jobType) && g[0] == ("job_type", e'.jobType);
    assert f[|f| - 1] == ("input_entity_id", e.inputEntityId) && g[|g| - 1] == ("input_entity_id", e'.inputEntityId);
  }

  lemma PointerOfFields(state: string, e: Entity, state': string, e': Entity)
    requires PointerFields(state, e) == PointerFields(state', e')
    ensures state == state' && e == e'
  {
    var f, g := PointerFields(state, e), PointerFields(state', e');
    assert f[0] == ("state", state) && g[0] == ("state", state');
    assert f[1..] == RecordFields(e) && g[1..] == RecordFields(e');
    EntityOfFields(e, e');
  }

  // ---------- keys tell apart what they are built from

  lemma DigitsAreFree(s: string)
    requires AllDigits(s)
    ensures Free(s, '/')
  {
  }

  lemma SamePrefix(p: string, x: string, y: string)
    ensures p + x == p + y <==> x == y
  {
    assert (p + x)[|p|..] == x && (p + y)[|p|..] == y;
  }

  lemma PointerKeysDiffer(prefix: string, k: PointerKey, k': PointerKey)
    requires Segment(k.state) && EntityOk(k.entity) && Segment(k'.state) && EntityOk(k'.entity)
    ensures StatePointerKey(prefix, k) == StatePointerKey(prefix, k') <==> k == k'
  {
    var f, g := PointerFields(k.state, k.entity), PointerFields(k'.state, k'.entity);
    PointerKeyIsFields(prefix, k);
    PointerKeyIsFields(prefix, k');
    PointerFieldsOk(k.state, k.entity);
    PointerFieldsOk(k'.state, k'.entity);
    if StatePointerKey(prefix, k) == StatePointerKey(prefix, k') {
      SamePrefix(prefix + "state/", RenderPartition(f) + Printed(k.attempt, 3), RenderPartition(g) + Printed(k'.attempt, 3));
      DigitsAreFree(Printed(k.attempt, 3));
      DigitsAreFree(Printed(k'.attempt, 3));
      PartitionSplits(f, g, Printed(k.attempt, 3), Printed(k'.attempt, 3));
      PointerOfFields(k.state, k.entity, k'.state, k'.entity);
      PrintedIsInjective(k.attempt, k'.attempt, 3);
    }
  }

  lemma NameIsFree(a: nat)
    ensures Free(Printed(a, 3) + ".json", '/')
  {
    DigitsAreFree(Printed(a, 3));
  }

  lemma RecordKeysDiffer(prefix: string, k: RecordKey, k': RecordKey)
    requires EntityOk(k.entity) && EntityOk(k'.entity)
    ensures CanonicalKey(prefix, k) == CanonicalKey(prefix, k') <==> k == k'
  {
    var f, g := RecordFields(k.entity), RecordFields(k'.entity);
    var x, y := Printed(k.attempt, 3) + ".json", Printed(k'.attempt, 3) + ".json";
    RecordKeyIsFields(prefix, k);
    RecordKeyIsFields(prefix, k');
    PointerFieldsOk("-", k.entity);
    PointerFieldsOk("-", k'.entity);
    if CanonicalKey(prefix, k) == CanonicalKey(prefix, k') {
      SamePrefix(prefix + "records/", RenderPartition(f) + x, RenderPartition(g) + y);
      NameIsFree(k.attempt);
      NameIsFree(k'.attempt);
      PartitionSplits(f, g, x, y);
      EntityOfFields(k.entity, k'.entity);
      assert x[..|x| - 5] == Printed(k.attempt, 3) && y[..|y| - 5] == Printed(k'.attempt, 3);
      PrintedIsInjective(k.attempt, k'.attempt, 3);
    }
  }

  lemma RecordKeyIsFields(prefix: string, k: RecordKey)
    ensures CanonicalKey(prefix, k)
         == prefix + "records/" + (RenderPartition(RecordFields(k.entity)) + (Printed(k.attempt, 3) + ".json"))
  {
    RecordPrefixIsFields(prefix, k.entity);
  }

  lemma OutputKeysDiffer(prefix: string, k: OutputKey, k': OutputKey)
    requires Segment(k.state) && Segment(k.jobType) && PartitionOk(k.partitionFields) && Segment(k.outputEntityId)
    requires Segment(k'.state) && Segment(k'.jobType) && PartitionOk(k'.partitionFields) && Segment(k'.outputEntityId)
    ensures OutputIndexKey(prefix, k) == OutputIndexKey(prefix, k') <==> k == k'
  {
    var f, g := OutputFields(k), OutputFields(k');
    OutputKeyIsFields(prefix, k);
    OutputKeyIsFields(prefix, k');
    if OutputIndexKey(prefix, k) == OutputIndexKey(prefix, k') {
      SamePrefix(prefix + "outputs/", RenderPartition(f) + k.outputEntityId, RenderPartition(g) + k'.outputEntityId);
      PartitionSplits(f, g, k.outputEntityId, k'.outputEntityId);
      assert f[0] == ("state", k.state) && f[1] == ("job_type", k.jobType) && f[2..] == k.partitionFields;
      assert g[0] == ("state", k'.state) && g[1] == ("job_type", k'.jobType) && g[2..] == k'.partitionFields;
    }
  }

  function OutputFields(k: OutputKey): seq<(string, string)> {
    [("state", k.state), ("job_type", k.jobType)] + k.partitionFields
  }

  lemma OutputKeyIsFields(prefix: string, k: OutputKey)
    ensures OutputIndexKey(prefix, k) == prefix + "outputs/" + (RenderPartition(OutputFields(k)) + k.outputEntityId)
  {
    var rest := [("job_type", k.jobType)] + k.partitionFields;
    assert OutputFields(k)[1..] == rest && rest[1..] == k.partitionFields;
    assert RenderPartition(OutputFields(k)) == "state=" + k.state + "/" + RenderPartition(rest);
  }

  /** No pointer, record and output index share a key, whatever they are built from. */
  lemma KindsDiffer(prefix: string, pointer: PointerKey, record: RecordKey, output: OutputKey)
    ensures StatePointerKey(prefix, pointer) != CanonicalKey(prefix, record)
    ensures StatePointerKey(prefix, pointer) != OutputIndexKey(prefix, output)
    ensures CanonicalKey(prefix, record) != OutputIndexKey(prefix, output)
  {
    PointerKeyIsFields(prefix, pointer);
    RecordKeyIsFields(prefix, record);
    OutputKeyIsFields(prefix, output);
    FirstLetter(prefix, "state/", RenderPartition(PointerFields(pointer.state, pointer.entity)) + Printed(pointer.attempt, 3));
    FirstLetter(prefix, "records/", RenderPartition(RecordFields(record.entity)) + (Printed(record.attempt, 3) + ".json"));
    FirstLetter(prefix, "outputs/", RenderPartition(OutputFields(output)) + output.outputEntityId);
  }

  lemma FirstLetter(prefix: string, kind: string, rest: string)
    requires kind != ""
    ensures |prefix + kind + rest| > |prefix| && (prefix + kind + rest)[|prefix|] == kind[0]
  {
  }

  /** Without the requirement on values, two entities can share every key. */
  lemma SlashesCollide(prefix: string, state: string, jobType: string, id: string, a: nat)
    ensures var e, e' := EntityOf(jobType, [("a", "1/b=2")], id), EntityOf(jobType, [("a", "1"), ("b", "2")], id);
            e != e' && StatePointerKey(prefix, PointerKey(state, e, a)) == StatePointerKey(prefix, PointerKey(state, e', a))
  {
    RenderOne("a", "1/b=2");
    RenderAppends([("a", "1")], [("b", "2")]);
    RenderOne("a", "1");
    RenderOne("b", "2");
    assert [("a", "1")] + [("b", "2")] == [("a", "1"), ("b", "2")];
    assert "a" + "=" + "1/b=2" + "/" == "a=1/b=2/" == ("a" + "=" + "1" + "/") + ("b" + "=" + "2" + "/");
  }

  // ---------- listings

  /** Listing under an entity's prefix in one state finds its pointers in that state and no others. */
  lemma ListingIsExact(prefix: string, state: string, e: Entity, k: PointerKey)
    requires Segment(state) && EntityOk(e) && Segment(k.state) && EntityOk(k.entity)
    ensures ListingPrefix(prefix, state, e) <= StatePointerKey(prefix, k) <==> k.state == state && k.entity == e
  {
    var f, g := PointerFields(state, e), PointerFields(k.state, k.entity);
    var listing, key := ListingPrefix(prefix, state, e), StatePointerKey(prefix, k);
    ListingPrefixIsFields(prefix, state, e);
    PointerKeyIsFields(prefix, k);
    if listing <= key {
      var rest := key[|listing|..];
      assert key == listing + rest;
      assert listing + rest == prefix + "state/" + (RenderPartition(f) + rest);
      SamePrefix(prefix + "state/", RenderPartition(f) + rest, RenderPartition(g) + Printed(k.attempt, 3));
      PointerFieldsOk(state, e);
      PointerFieldsOk(k.state, k.entity);
      DigitsAreFree(Printed(k.attempt, 3));
      FieldsWithin(f, g, rest, Printed(k.attempt, 3));
      IdComesLast(state, e, k.state, k.entity);
    }
  }

  /** Listing under an entity's record prefix finds its records and no others. */
  lemma RecordListingIsExact(prefix: string, e: Entity, k: RecordKey)
    requires EntityOk(e) && EntityOk(k.entity)
    ensures RecordPrefix(prefix, e) <= CanonicalKey(prefix, k) <==> k.entity == e
  {
    hide RenderPartition, Printed;
    var f, g, name := RecordFields(e), RecordFields(k.entity), Printed(k.attempt, 3) + ".json";
    var listing, key := RecordPrefix(prefix, e), CanonicalKey(prefix, k);
    RecordPrefixIsFields(prefix, e);
    RecordKeyIsFields(prefix, k);
    assert key == RecordPrefix(prefix, k.entity) + name;
    if listing <= key {
      var rest := key[|listing|..];
      assert key == listing + rest == prefix + "records/" + (RenderPartition(f) + rest);
      SamePrefix(prefix + "records/", RenderPartition(f) + rest, RenderPartition(g) + name);
      PointerFieldsOk("-", e);
      PointerFieldsOk("-", k.entity);
      NameIsFree(k.attempt);
      FieldsWithin(f, g, rest, name);
      assert PointerFields("-", e) == [("state", "-")] + f && PointerFields("-", k.entity) == [("state", "-")] + g;
      IdComesLast("-", e, "-", k.entity);
    }
  }

  /** Fields followed by anything are the first of the fields that the same text renders. */
  lemma {:induction false} FieldsWithin(f: seq<(string, string)>, g: seq<(string, string)>, x: string, y: string)
    requires FieldsOk(f) && FieldsOk(g) && Free(y, '/')
    requires RenderPartition(f) + x == RenderPartition(g) + y
    ensures f <= g
  {
    if f != [] {
      HasSlash(f, x);
      assert g == [] ==> RenderPartition(g) + y == y;
      RenderFirst(f, x);
      RenderFirst(g, y);
      FieldSplits(f[0].0, f[0].1, g[0].0, g[0].1, RenderPartition(f[1..]) + x, RenderPartition(g[1..]) + y);
      FieldsWithin(f[1..], g[1..], x, y);
      assert f == [f[0]] + f[1..] && g == [g[0]] + g[1..];
    }
  }

  lemma IdComesLast(state: string, e: Entity, state': string, e': Entity)
    requires PartitionOk(e'.partitionFields) && PointerFields(state, e) <= PointerFields(state', e')
    ensures state == state' && e == e'
  {
    var f, g := PointerFields(state, e), PointerFields(state', e');
    var n := |f| - 1;
    assert f[n].0 == "input_entity_id" && g[n] == f[n];
    assert forall i | 2 <= i < |g| - 1 :: g[i] == e'.partitionFields[i - 2];
    assert f == g;
    PointerOfFields(state, e, state', e');
  }

  // ---------- reading attempts back from record names

  /** What `_recorded_attempts` reads from a listed name; None where it passes over the object. */
  function RecordedAttempt(name: string): Option<nat> {
    if |name| > 5 && name[|name| - 5..] == ".json" && AllDigits(name[..|name| - 5]) then Some(Value(name[..|name| - 5]))
    else None
  }

  /** Every record's attempt is read back from its key, past three digits too. */
  lemma AttemptIsReadBack(prefix: string, k: RecordKey)
    ensures RecordPrefix(prefix, k.entity) <= CanonicalKey(prefix, k)
    ensures RecordedAttempt(CanonicalKey(prefix, k)[|RecordPrefix(prefix, k.entity)|..]) == Some(k.attempt)
  {
    var p, name := RecordPrefix(prefix, k.entity), Printed(k.attempt, 3) + ".json";
    assert CanonicalKey(prefix, k) == p + name;
    assert (p + name)[|p|..] == name;
    assert name[..|name| - 5] == Printed(k.attempt, 3) && name[|name| - 5..] == ".json";
    PrintedReadsBack(k.attempt, 3);
  }

  /** By name the keys stop being in numeric order at four digits, which is why they are sorted by
      number. */
  lemma NamesAreNotInOrder()
    ensures LexLess(Printed(1000, 3), Printed(999, 3))
  {
    assert Printed(999, 3) == "999";
    assert Printed(1000, 3) == "1000";
    assert "1000"[0] < "999"[0];
  }

  // ---------- the view's regular expressions

  /** The longest slash-free start. */
  function Run(s: string): (r: string)
    ensures r <= s && Free(r, '/') && (|r| < |s| ==> s[|r|] == '/')
  {
    if s == "" || s[0] == '/' then "" else [s[0]] + Run(s[1..])
  }

  /** `/name=([^/]+)/` at the start of the text: its group. */
  function MatchHere(s: string, name: string): Option<string> {
    var opening := "/" + name + "=";
    if !(opening <= s) then None
    else
      var value := Run(s[|opening|..]);
      if value == "" || |opening| + |value| == |s| then None else Some(value)
  }

  /** `regexp_extract(s, '/name=([^/]+)/', 1)`: the leftmost match. */
  function RegexpExtract(s: string, name: string): Option<string> {
    if s == "" then None
    else if MatchHere(s, name).Some? then MatchHere(s, name)
    else RegexpExtract(s[1..], name)
  }

  lemma RunOf(v: string, x: string)
    requires Free(v, '/')
    ensures Run(v + "/" + x) == v
  {
    var s := v + "/" + x;
    var r := Run(s);
    assert s[|v|] == '/' && forall i | 0 <= i < |v| :: s[i] == v[i];
    assert forall i | 0 <= i < |r| :: s[i] == r[i];
    assert |r| == |v|;
    assert r == s[..|v|] && v == s[..|v|];
  }

  /** No match starts inside a segment. */
  lemma {:induction false} SegmentSkipped(seg: string, rest: string, name: string)
    requires Free(seg, '/')
    ensures RegexpExtract(seg + rest, name) == RegexpExtract(rest, name)
  {
    if seg == "" {
      assert seg + rest == rest;
    } else {
      var s := seg + rest;
      assert s[0] == seg[0] && s[1..] == seg[1..] + rest;
      assert MatchHere(s, name).None? by {
        assert ("/" + name + "=")[0] == '/';
      }
      SegmentSkipped(seg[1..], rest, name);
    }
  }

  /** A field's own segment matches its name and no other. */
  lemma FieldMatches(k: string, v: string, x: string, name: string)
    requires FieldName(k) && Segment(v) && FieldName(name)
    ensures MatchHere("/" + k + "=" + v + "/" + x, name) == if k == name then Some(v) else None
  {
    var s, opening := "/" + k + "=" + v + "/" + x, "/" + name + "=";
    if k == name {
      assert s == opening + (v + "/" + x);
      assert s[|opening|..] == v + "/" + x;
      RunOf(v, x);
    } else if opening <= s {
      var rest := s[|opening|..];
      assert s == opening + rest;
      assert s[1..] == k + ['='] + (v + "/" + x) && s[1..] == name + ['='] + rest;
      SplitAt(k, name, v + "/" + x, rest, '=');
    }
  }

  /** Among rendered fields a name finds its value, wherever it stands. */
  lemma {:induction false} FieldIsFound(fields: seq<(string, string)>, tail: string, name: string)
    requires FieldsOk(fields) && FieldName(name) && Free(tail, '/')
    ensures RegexpExtract("/" + (RenderPartition(fields) + tail), name) == Get(fields, name)
  {
    if fields == [] {
      assert "/" + (RenderPartition(fields) + tail) == "/" + tail;
      LastSegmentDoesNotMatch(tail, name);
    } else {
      var k, v, rest := fields[0].0, fields[0].1, RenderPartition(fields[1..]) + tail;
      var s := "/" + (RenderPartition(fields) + tail);
      RenderFirst(fields, tail);
      assert s == "/" + k + "=" + v + "/" + rest;
      FieldMatches(k, v, rest, name);
      if k != name {
        assert s[1..] == (k + "=" + v) + ("/" + rest);
        SegmentSkipped(k + "=" + v, "/" + rest, name);
        FieldIsFound(fields[1..], tail, name);
      }
    }
  }

  lemma LastSegmentDoesNotMatch(tail: string, name: string)
    requires Free(tail, '/')
    ensures RegexpExtract("/" + tail, name) == None
  {
    var s, opening := "/" + tail, "/" + name + "=";
    if opening <= s {
      var rest := s[|opening|..];
      assert forall i | 0 <= i < |rest| :: rest[i] == tail[i + |opening| - 1];
      assert |Run(rest)| == |rest|;
    }
    assert MatchHere(s, name).None?;
    assert s[1..] == tail + "";
    SegmentSkipped(tail, "", name);
  }

  /** A key prefix is empty or ends with a slash. */
  predicate IsKeyPrefix(prefix: string) {
    prefix == "" || prefix[|prefix| - 1] == '/'
  }

  /** A match inside the bucket's key prefix comes first; otherwise the fields decide. */
  lemma {:induction false} PrefixComesFirst(prefix: string, rest: string, name: string)
    requires IsKeyPrefix(prefix) && FieldName(name)
    ensures RegexpExtract(prefix + "state/" + rest, name)
         == if RegexpExtract(prefix, name).Some? then RegexpExtract(prefix, name) else RegexpExtract("/" + rest, name)
    decreases |prefix|
  {
    var s := prefix + "state/" + rest;
    if prefix == "" {
      assert s == "state" + ("/" + rest);
      SegmentSkipped("state", "/" + rest, name);
    } else {
      assert s[1..] == prefix[1..] + "state/" + rest;
      MatchInPrefix(prefix, rest, name);
      PrefixComesFirst(prefix[1..], rest, name);
    }
  }

  lemma MatchInPrefix(prefix: string, rest: string, name: string)
    requires prefix != "" && IsKeyPrefix(prefix) && FieldName(name)
    ensures MatchHere(prefix + "state/" + rest, name) == MatchHere(prefix, name)
  {
    var s, opening := prefix + "state/" + rest, "/" + name + "=";
    assert opening[|opening| - 1] == '=' && forall j | 1 <= j < |opening| :: opening[j] != '/';
    assert opening <= s ==> forall j | 0 <= j < |opening| :: opening[j] == s[j];
    assert forall j | 0 <= j < |prefix| :: s[j] == prefix[j];
    if |prefix| == 1 {
      assert s[6] == '/' && forall j | 1 <= j < 6 :: s[j] == "state"[j - 1] != '=';
      assert opening <= s ==> |opening| <= 6;
      assert !(opening <= s) && !(opening <= prefix);
    } else {
      assert opening <= s ==> |opening| < |prefix|;
      assert opening <= s ==> opening == s[..|opening|] == prefix[..|opening|];
      if opening <= prefix {
        var u := prefix[|opening|..];
        assert s == opening + (u + "state/" + rest);
        assert s[|opening|..] == u + ("state/" + rest);
        assert |opening| < |prefix| && u[|u| - 1] == '/';
        SameRun(u, "state/" + rest);
      }
    }
  }

  lemma {:induction false} SameRun(u: string, x: string)
    requires u != "" && u[|u| - 1] == '/'
    ensures Run(u + x) == Run(u) && |Run(u)| < |u|
  {
    if u[0] != '/' {
      assert (u + x)[1..] == u[1..] + x;
      SameRun(u[1..], x);
    }
  }

  /** The view's columns of a state pointer's key: each name reads back the value it was built with,
      unless the bucket's key prefix itself has a segment of that name with another value. */
  lemma ViewReadsBack(prefix: string, k: PointerKey, name: string)
    requires IsKeyPrefix(prefix) && Segment(k.state) && EntityOk(k.entity) && FieldName(name)
    ensures RegexpExtract(StatePointerKey(prefix, k), name)
         == if RegexpExtract(prefix, name).Some? then RegexpExtract(prefix, name)
            else Get(PointerFields(k.state, k.entity), name)
  {
    var fields := PointerFields(k.state, k.entity);
    PointerKeyIsFields(prefix, k);
    PointerFieldsOk(k.state, k.entity);
    DigitsAreFree(Printed(k.attempt, 3));
    PrefixComesFirst(prefix, RenderPartition(fields) + Printed(k.attempt, 3), name);
    FieldIsFound(fields, Printed(k.attempt, 3), name);
  }

  /** So the view recovers the state, the job type, every partition value and the input entity of a
      pointer whenever the names are distinct and the key prefix has no segment that reads as one. */
  lemma ViewRecoversThePointer(prefix: string, k: PointerKey, i: nat)
    requires IsKeyPrefix(prefix) && Segment(k.state) && EntityOk(k.entity)
    requires DistinctKeys(PointerFields(k.state, k.entity)) && i < |PointerFields(k.state, k.entity)|
    ensures var field := PointerFields(k.state, k.entity)[i];
            RegexpExtract(StatePointerKey(prefix, k), field.0) == Some(field.1) <==>
              RegexpExtract(prefix, field.0) in {None, Some(field.1)}
  {
    PointerFieldsOk(k.state, k.entity);
    ViewReadsBack(prefix, k, PointerFields(k.state, k.entity)[i].0);
    GetIsUnique(PointerFields(k.state, k.entity), i);
  }

  /** `regexp_extract(key, '/([0-9]{3})$', 1)`: three digits and the end of the text. */
  function AttemptColumn(key: string): Option<nat> {
    var n := |key| - 4;
    if n >= 0 && key[n] == '/' && AllDigits(key[n + 1..]) then Some(Value(key[n + 1..])) else None
  }

  /** The attempt column is the attempt up to 999 and null past it. */
  lemma AttemptColumnUpTo999(prefix: string, k: PointerKey)
    ensures AttemptColumn(StatePointerKey(prefix, k)) == if k.attempt <= 999 then Some(k.attempt) else None
  {
    var digits := Printed(k.attempt, 3);
    var p := ListingPrefix(prefix, k.state, k.entity);
    var key := StatePointerKey(prefix, k);
    PointerKeyIsFields(prefix, k);
    assert p[|p| - 1] == '/';
    PrintedWidth(k.attempt, 3);
    PrintedReadsBack(k.attempt, 3);
    assert Pow10(3) == 1000;
    if k.attempt <= 999 {
      assert key[|key| - 4] == '/' && key[|key| - 3..] == digits;
    } else {
      assert key[|key| - 4] == digits[|digits| - 4];
    }
  }
}
