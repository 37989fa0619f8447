/** Migrating the deployed records table to the declared schema (`records_table_ddl_handler.py`,
    `rollup_schema.py`). */
module Migration {
  import opened Prelude
  import opened OrderedDict

  /** Column names and types, in order. */
  type Columns = seq<(string, string)>

  // ---------- the declared schema

  const EVENTS_TYPE := "array<struct<state:string," + "timestamp:string," + "batch_job_id:string," + "exit_code:int>>"

  const BODY_COLUMNS: Columns :=
    [("input_entity_id", "string"), ("attempt", "int"), ("output_entity_id", "string"), ("batch_job_id", "string"),
     ("current_state", "string"), ("events", EVENTS_TYPE), ("log_stream_name", "string")]

  const TIMESTAMP_COLUMNS := ["last_event_timestamp", "created_at", "started_at", "stopped_at"]

  function Typed(names: seq<string>, columnType: string): Columns {
    seq(|names|, i requires 0 <= i < |names| => (names[i], columnType))
  }

  function RecordsColumns(partitionKeyNames: seq<string>): Columns {
    Typed(partitionKeyNames, "string") + BODY_COLUMNS + Typed(TIMESTAMP_COLUMNS, "timestamp")
    + [("source_key", "string"), ("rolled_up_at", "timestamp")]
  }

  function FixedColumns(): Columns {
    RecordsColumns([])
  }

  /** Partition keys can be declared exactly when they are distinct and none is a column already. */
  lemma DeclaredColumnsAreDistinct(names: seq<string>)
    ensures DistinctKeys(RecordsColumns(names)) <==>
              && (forall i, j | 0 <= i < j < |names| :: names[i] != names[j])
              && (forall i | 0 <= i < |names| :: !HasKey(FixedColumns(), names[i]))
  {
    var all, fixed := RecordsColumns(names), FixedColumns();
    assert all == Typed(names, "string") + fixed;
    FixedColumnsAreDistinct();
    if DistinctKeys(all) {
      forall i | 0 <= i < |names| ensures !HasKey(fixed, names[i]) {
        forall k | 0 <= k < |fixed| ensures fixed[k].0 != names[i] {
          assert all[i].0 == names[i] && all[|names| + k] == fixed[k];
        }
      }
      forall i, j | 0 <= i < j < |names| ensures names[i] != names[j] {
        assert all[i].0 == names[i] && all[j].0 == names[j];
      }
    }
  }

  lemma FixedColumnsAreDistinct()
    ensures DistinctKeys(FixedColumns())
  {
    var f := FixedColumns();
    assert f[0].0[..7] == "input_e" && f[1].0[..7] == "attempt" && f[2].0[..7] == "output_" && f[3].0[..7] == "batch_j";
    assert f[4].0[..7] == "current" && f[5].0 == "events" && f[6].0[..7] == "log_str" && f[7].0[..7] == "last_ev";
    assert f[8].0[..7] == "created" && f[9].0[..7] == "started" && f[10].0[..7] == "stopped";
    assert f[11].0[..7] == "source_" && f[12].0[..7] == "rolled_" && |f| == 13;
  }

  // ---------- comparing types

  predicate IsSpace(c: char) {
    c == ' ' || '\t' <= c <= '\r' || 28 <= c as int <= 31
  }

  function Lower(c: char): char {
    if 'A' <= c <= 'Z' then c - 'A' + 'a' else c
  }

  /** `_normalize_type`, on ASCII text. */
  function NormalizeType(t: string): string {
    if t == "" then ""
    else if IsSpace(t[0]) then NormalizeType(t[1..])
    else [Lower(t[0])] + NormalizeType(t[1..])
  }

  predicate SameType(s: string, t: string) {
    NormalizeType(s) == NormalizeType(t)
  }

  /** Written without white space and without capitals. */
  predicate Plain(t: string) {
    forall i | 0 <= i < |t| :: t[i] !in [' ', '\t', '\n', '\r'] && !(11 <= t[i] as int <= 12)
                               && !(28 <= t[i] as int <= 31) && !('A' <= t[i] <= 'Z')
  }

  lemma {:induction false} NormalizeJoins(a: string, b: string)
    ensures NormalizeType(a + b) == NormalizeType(a) + NormalizeType(b)
  {
    if a == "" {
      assert a + b == b;
    } else {
      NormalizeJoins(a[1..], b);
      assert (a + b)[1..] == a[1..] + b && (a + b)[0] == a[0];
    }
  }

  lemma {:induction false} PlainIsNormal(t: string)
    requires Plain(t)
    ensures NormalizeType(t) == t
  {
    if t != "" {
      PlainIsNormal(t[1..]);
      assert t == [t[0]] + t[1..];
    }
  }

  lemma {:induction false} NormalIsPlain(t: string)
    ensures Plain(NormalizeType(t)) && SameType(t, NormalizeType(t))
  {
    if t != "" {
      NormalIsPlain(t[1..]);
    }
    PlainIsNormal(NormalizeType(t));
  }

  /** Every type has one plain spelling, and two types are the same exactly when they have the same one. */
  lemma SameTypeExactly(s: string, t: string) returns (p: string, q: string)
    ensures Plain(p) && SameType(s, p) && Plain(q) && SameType(t, q)
    ensures forall other | Plain(other) && SameType(s, other) :: other == p
    ensures SameType(s, t) <==> p == q
  {
    NormalIsPlain(s);
    NormalIsPlain(t);
    p, q := NormalizeType(s), NormalizeType(t);
    forall other | Plain(other) && SameType(s, other) ensures other == p {
      PlainIsNormal(other);
    }
  }

  /** Between plain spellings, only equal texts are the same type. */
  lemma PlainTypesDiffer(s: string, t: string)
    requires Plain(s) && Plain(t)
    ensures SameType(s, t) <==> s == t
  {
    PlainIsNormal(s);
    PlainIsNormal(t);
  }

  /** White space anywhere makes no difference. */
  lemma SpaceMakesNoDifference(a: string, c: char, b: string)
    requires c in [' ', '\t', '\n', '\r'] || 11 <= c as int <= 12 || 28 <= c as int <= 31
    ensures SameType(a + [c] + b, a + b)
  {
    NormalizeJoins(a + [c], b);
    NormalizeJoins(a, [c]);
    NormalizeJoins(a, b);
    assert [c][1..] == [];
  }

  /** Nor does the case of a letter anywhere. */
  lemma CaseMakesNoDifference(a: string, upper: char, lower: char, b: string)
    requires 'A' <= upper <= 'Z' && 'a' <= lower <= 'z' && upper as int - 'A' as int == lower as int - 'a' as int
    ensures SameType(a + [upper] + b, a + [lower] + b)
  {
    NormalizeJoins(a + [upper], b);
    NormalizeJoins(a + [lower], b);
    NormalizeJoins(a, [upper]);
    NormalizeJoins(a, [lower]);
    assert [upper][1..] == [] && [lower][1..] == [];
  }

  // ---------- added columns

  /** `dict(columns)` */
  function DictOf(columns: Columns): Dict<string, string> {
    if columns == [] then []
    else
      var last := columns[|columns| - 1];
      Put(DictOf(columns[..|columns| - 1]), last.0, last.1)
  }

  function Removed(before: Dict<string, string>, declared: Dict<string, string>): seq<string> {
    if before == [] then []
    else (if Get(declared, before[0].0).None? then [before[0].0] else []) + Removed(before[1..], declared)
  }

  function Retyped(before: Dict<string, string>, declared: Dict<string, string>): seq<string> {
    if before == [] then []
    else
      var now := Get(declared, before[0].0);
      (if now.Some? && !SameType(now.value, before[0].1) then [before[0].0] else []) + Retyped(before[1..], declared)
  }

  function Missing(columns: Columns, before: Dict<string, string>): Columns {
    if columns == [] then []
    else
      var rest, last := Missing(columns[..|columns| - 1], before), columns[|columns| - 1];
      if Get(before, last.0).None? then rest + [last] else rest
  }

  datatype Incompatible = Incompatible(removed: seq<string>, retyped: seq<string>)

  /** `added_column_sql`: the columns its statements add, one each. */
  function AddedColumns(deployed: Columns, declared: Columns): Result<Columns, Incompatible> {
    var before, now := DictOf(deployed), DictOf(declared);
    var removed, retyped := Removed(before, now), Retyped(before, now);
    if removed != [] || retyped != [] then Err(Incompatible(removed, retyped)) else Ok(Missing(declared, before))
  }

  lemma {:induction false} DictOfIsItself(columns: Columns)
    requires DistinctKeys(columns)
    ensures DictOf(columns) == columns
  {
    if columns != [] {
      var n := |columns| - 1;
      DictOfIsItself(columns[..n]);
      assert columns == columns[..n] + [columns[n]];
      PutNew(columns[..n], columns[n].0, columns[n].1);
    }
  }

  lemma PutNew(d: Dict<string, string>, k: string, v: string)
    requires forall i | 0 <= i < |d| :: d[i].0 != k
    ensures Put(d, k, v) == d + [(k, v)]
  {
    var r := Put(d, k, v);
    assert forall i | 0 <= i < |d| :: r[i] == d[i] && r[i] != (k, v);
  }

  lemma {:induction false} IncompatibleNames(before: Dict<string, string>, declared: Dict<string, string>)
    ensures Removed(before, declared) != [] <==> exists i | 0 <= i < |before| :: !HasKey(declared, before[i].0)
    ensures Retyped(before, declared) != [] <==>
              exists i | 0 <= i < |before| ::
                Get(declared, before[i].0).Some? && !SameType(Get(declared, before[i].0).value, before[i].1)
  {
    if before != [] {
      IncompatibleNames(before[1..], declared);
      assert forall i | 1 <= i < |before| :: before[i] == before[1..][i - 1];
      assert forall i | 0 <= i < |before[1..]| :: before[1..][i] == before[i + 1];
    }
  }

  /** The columns refused are exactly those at fault. */
  lemma {:induction false} FaultsAreExact(before: Dict<string, string>, declared: Dict<string, string>, name: string)
    ensures name in Removed(before, declared) <==>
              exists i :: 0 <= i < |before| && before[i].0 == name && !HasKey(declared, name)
    ensures name in Retyped(before, declared) <==>
              exists i :: 0 <= i < |before| && before[i].0 == name && Get(declared, name).Some?
                          && !SameType(Get(declared, name).value, before[i].1)
  {
    hide SameType;
    if before != [] {
      FaultsAreExact(before[1..], declared, name);
      assert forall i | 1 <= i < |before| :: before[i] == before[1..][i - 1];
      assert forall i | 0 <= i < |before[1..]| :: before[1..][i] == before[i + 1];
    }
  }

  /** A column deployed under one plain type and declared under another is refused by name. */
  lemma PlainRetypeIsRefused(deployed: Columns, declared: Columns, i: nat, j: nat)
    requires DistinctKeys(deployed) && DistinctKeys(declared) && i < |deployed| && j < |declared|
    requires deployed[i].0 == declared[j].0 && deployed[i].1 != declared[j].1
    requires Plain(deployed[i].1) && Plain(declared[j].1)
    ensures var r := AddedColumns(deployed, declared); r.Err? && deployed[i].0 in r.error.retyped
  {
    hide SameType;
    DictOfIsItself(deployed);
    DictOfIsItself(declared);
    GetIsUnique(declared, j);
    PlainTypesDiffer(declared[j].1, deployed[i].1);
    FaultsAreExact(deployed, declared, deployed[i].0);
  }

  /** "int" declared as "string" is refused; the catalog's spacing of the events type is not. */
  lemma AttemptRetypedIsRefused()
    ensures AddedColumns([("attempt", "int")], [("attempt", "string")]) == Err(Incompatible([], ["attempt"]))
  {
    var deployed, declared := [("attempt", "int")], [("attempt", "string")];
    DictOfIsItself(deployed);
    DictOfIsItself(declared);
    assert "int" != "string" by {
      assert |"int"| != |"string"|;
    }
    PlainTypesDiffer("string", "int");
    assert deployed[1..] == [];
    assert Removed(deployed, declared) == [] && Retyped(deployed, declared) == ["attempt"];
  }

  const EVENTS_AS_STORED :=
    "array<struct<state:string," + " " + ("timestamp:string," + " " + ("batch_job_id:string," + " " + "exit_code:int>>"))

  lemma StoredSpellingIsAccepted()
    ensures AddedColumns([("events", EVENTS_AS_STORED)], [("events", EVENTS_TYPE)]) == Ok([])
  {
    hide SameType;
    SpacedEventsType();
    SameNameAndTypeAddNothing("events", EVENTS_AS_STORED, EVENTS_TYPE);
  }

  lemma SpacedEventsType()
    ensures SameType(EVENTS_TYPE, EVENTS_AS_STORED)
  {
    hide SameType;
    ThreeSpaces("array<struct<state:string,", "timestamp:string,", "batch_job_id:string,", "exit_code:int>>");
  }

  lemma ThreeSpaces(a: string, b: string, c: string, d: string)
    ensures SameType(a + b + c + d, a + " " + (b + " " + (c + " " + d)))
  {
    hide NormalizeType;
    OneSpace(c, d, d);
    OneSpace(b, c + " " + d, c + d);
    OneSpace(a, b + " " + (c + " " + d), b + (c + d));
    assert a + (b + (c + d)) == a + b + c + d;
  }

  lemma OneSpace(a: string, b: string, b': string)
    requires SameType(b, b')
    ensures SameType(a + " " + b, a + b')
  {
    hide NormalizeType;
    assert a + " " + b == a + [' '] + b;
    SpaceMakesNoDifference(a, ' ', b);
    NormalizeJoins(a, b);
    NormalizeJoins(a, b');
  }

  lemma SameNameAndTypeAddNothing(name: string, stored: string, declared: string)
    requires SameType(declared, stored)
    ensures AddedColumns([(name, stored)], [(name, declared)]) == Ok([])
  {
    hide SameType;
    var before, now := [(name, stored)], [(name, declared)];
    DictOfIsItself(before);
    DictOfIsItself(now);
    assert before[1..] == [] && now[..0] == [];
    assert Get(now, name) == Some(declared) && Get(before, name) == Some(stored);
    assert Removed(before, now) == Removed([], now) == [];
    assert SameType(declared, before[0].1) && Get(now, before[0].0) == Some(declared);
    assert Retyped(before, now) == [] + Retyped(before[1..], now) == [];
    assert Missing(now, before) == Missing(now[..0], before) == [];
  }

  /** A column's name and type are declared, spelt the same or not. */
  ghost predicate Keeps(declared: Columns, column: (string, string)) {
    exists i :: 0 <= i < |declared| && declared[i].0 == column.0 && SameType(declared[i].1, column.1)
  }

  /** Migration refuses exactly when a deployed column is not declared, or not with its type. */
  lemma RefusesExactlyWhenIncompatible(deployed: Columns, declared: Columns)
    requires DistinctKeys(deployed) && DistinctKeys(declared)
    ensures AddedColumns(deployed, declared).Ok? <==> forall i | 0 <= i < |deployed| :: Keeps(declared, deployed[i])
  {
    DictOfIsItself(deployed);
    DictOfIsItself(declared);
    IncompatibleNames(deployed, declared);
    forall i | 0 <= i < |deployed|
      ensures Keeps(declared, deployed[i]) <==>
                Get(declared, deployed[i].0).Some? && SameType(Get(declared, deployed[i].0).value, deployed[i].1)
    {
      GetKeeps(declared, deployed[i]);
    }
  }

  lemma GetKeeps(declared: Columns, column: (string, string))
    requires DistinctKeys(declared)
    ensures Keeps(declared, column) <==>
              Get(declared, column.0).Some? && SameType(Get(declared, column.0).value, column.1)
  {
    if Keeps(declared, column) {
      var i :| 0 <= i < |declared| && declared[i].0 == column.0 && SameType(declared[i].1, column.1);
      GetIsUnique(declared, i);
    }
    if Get(declared, column.0).Some? {
      var i :| 0 <= i < |declared| && declared[i] == (column.0, Get(declared, column.0).value);
    }
  }

  // ---------- running the statements

  /** What the catalog holds after a statement: the column, its type spelt as Glue likes. */
  ghost predicate Stores(added: Columns, stored: Columns) {
    && |stored| == |added|
    && forall i | 0 <= i < |added| :: stored[i].0 == added[i].0 && SameType(stored[i].1, added[i].1)
  }

  class GlueTable {
    var columns: Columns

    constructor (columns: Columns)
      ensures this.columns == columns
    {
      this.columns := columns;
    }

    /** One ALTER; `spelt` is how the catalog writes the type. */
    method AddColumn(column: (string, string), spelt: string)
      requires SameType(spelt, column.1)
      modifies this
      ensures columns == old(columns) + [(column.0, spelt)]
    {
      columns := columns + [(column.0, spelt)];
    }
  }

  /** What an Update raises: nothing was run, or the statement adding a column failed. */
  datatype UpdateError = Refused(incompatible: Incompatible) | StatementFailed(column: (string, string))

  /** The Update branch of the handler on a table that exists. `allowed` statements succeed before one
      fails; `spell` is the catalog's spelling of a type. */
  method Update(table: GlueTable, declared: Columns, allowed: nat, spell: string -> string)
    returns (r: Result<(), UpdateError>, ghost stored: Columns)
    requires forall t :: SameType(spell(t), t)
    modifies table
    ensures var plan := AddedColumns(old(table.columns), declared);
            r == if plan.Err? then Err(Refused(plan.error))
                 else if allowed < |plan.value| then Err(StatementFailed(plan.value[allowed]))
                 else Ok(())
    ensures var plan := AddedColumns(old(table.columns), declared);
            && table.columns == old(table.columns) + stored
            && Stores(if plan.Err? then [] else plan.value[..Min(allowed, |plan.value|)], stored)
  {
    var added := AddedColumns(table.columns, declared);
    stored := [];
    if added.Err? {
      return Err(Refused(added.error)), stored;
    }
    var i := 0;
    while i < |added.value| && i < allowed
      invariant 0 <= i <= Min(allowed, |added.value|)
      invariant Stores(added.value[..i], stored) && table.columns == old(table.columns) + stored
    {
      var column := added.value[i];
      table.AddColumn(column, spell(column.1));
      stored := stored + [(column.0, spell(column.1))];
      i := i + 1;
    }
    if i < |added.value| {
      return Err(StatementFailed(added.value[i])), stored;
    }
    r := Ok(());
  }

  // ---------- what a migration comes to

  lemma {:induction false} MissingIsExact(columns: Columns, before: Dict<string, string>)
    ensures forall c :: c in Missing(columns, before) <==> c in columns && Get(before, c.0).None?
    ensures DistinctKeys(columns) ==> DistinctKeys(Missing(columns, before))
  {
    if columns != [] {
      var n := |columns| - 1;
      MissingIsExact(columns[..n], before);
      var rest := Missing(columns[..n], before);
      if DistinctKeys(columns) {
        forall i | 0 <= i < |rest| ensures rest[i].0 != columns[n].0 {
          assert rest[i] in columns[..n];
          var k :| 0 <= k < n && columns[k] == rest[i];
        }
      }
    }
  }

  /** After some of the statements, the table's names are still distinct, what was there is untouched,
      and everything is as declared. */
  lemma PartlyMigrated(deployed: Columns, declared: Columns, k: nat, stored: Columns)
    requires DistinctKeys(deployed) && DistinctKeys(declared) && AddedColumns(deployed, declared).Ok?
    requires k <= |AddedColumns(deployed, declared).value|
    requires Stores(AddedColumns(deployed, declared).value[..k], stored)
    ensures DistinctKeys(deployed + stored)
    ensures forall i | 0 <= i < |deployed + stored| :: Keeps(declared, (deployed + stored)[i])
  {
    var added, all := AddedColumns(deployed, declared).value, deployed + stored;
    RefusesExactlyWhenIncompatible(deployed, declared);
    DictOfIsItself(deployed);
    MissingIsExact(declared, deployed);
    forall i | 0 <= i < |stored|
      ensures added[i] in declared && !HasKey(deployed, stored[i].0) && Keeps(declared, stored[i])
    {
      assert added[i] in added && added[..k][i] == added[i];
      var j :| 0 <= j < |declared| && declared[j] == added[i];
      assert SameType(declared[j].1, stored[i].1);
    }
    forall i, j | 0 <= i < j < |all| ensures all[i].0 != all[j].0 {
      if i >= |deployed| {
        assert added[i - |deployed|].0 != added[j - |deployed|].0;
      }
    }
    forall i | 0 <= i < |all| ensures Keeps(declared, all[i]) {
      assert i >= |deployed| ==> all[i] == stored[i - |deployed|];
    }
  }

  /** A finished migration keeps every deployed column where it was and has every declared column, with
      its type, and no other. */
  lemma MigrationReachesTheSchema(deployed: Columns, declared: Columns, stored: Columns)
    requires DistinctKeys(deployed) && DistinctKeys(declared) && AddedColumns(deployed, declared).Ok?
    requires Stores(AddedColumns(deployed, declared).value, stored)
    ensures var after := deployed + stored;
            && deployed <= after && DistinctKeys(after)
            && (forall i | 0 <= i < |declared| :: Keeps(after, declared[i]))
            && (forall i | 0 <= i < |after| :: Keeps(declared, after[i]))
  {
    hide NormalizeType, Missing, DictOf, Removed, Retyped;
    var added, after := AddedColumns(deployed, declared).value, deployed + stored;
    assert added[..|added|] == added;
    PartlyMigrated(deployed, declared, |added|, stored);
    DictOfIsItself(deployed);
    MissingIsExact(declared, deployed);
    forall i | 0 <= i < |declared| ensures Keeps(after, declared[i]) {
      if Get(deployed, declared[i].0).Some? {
        var k :| 0 <= k < |deployed| && deployed[k].0 == declared[i].0;
        assert Keeps(declared, after[k]) && after[k] == deployed[k];
        SameDeclaration(declared, i, after[k]);
      } else {
        assert declared[i] in added;
        var k :| 0 <= k < |added| && added[k] == declared[i];
        assert after[|deployed| + k] == stored[k];
      }
    }
  }

  lemma SameDeclaration(declared: Columns, i: nat, column: (string, string))
    requires DistinctKeys(declared) && i < |declared| && declared[i].0 == column.0 && Keeps(declared, column)
    ensures SameType(declared[i].1, column.1)
  {
    var j :| 0 <= j < |declared| && declared[j].0 == column.0 && SameType(declared[j].1, column.1);
    assert i == j;
  }

  /** Stopped between any two statements and run again, migration does not refuse and emits just the
      statements that were left. */
  lemma RerunEmitsTheRest(deployed: Columns, declared: Columns, k: nat, stored: Columns)
    requires DistinctKeys(deployed) && DistinctKeys(declared) && AddedColumns(deployed, declared).Ok?
    requires k <= |AddedColumns(deployed, declared).value|
    requires Stores(AddedColumns(deployed, declared).value[..k], stored)
    ensures AddedColumns(deployed + stored, declared) == Ok(AddedColumns(deployed, declared).value[k..])
  {
    var added := AddedColumns(deployed, declared).value;
    PartlyMigrated(deployed, declared, k, stored);
    RefusesExactlyWhenIncompatible(deployed + stored, declared);
    DictOfIsItself(deployed);
    DictOfIsItself(deployed + stored);
    MissingIsExact(declared, deployed);
    forall name: string ensures HasKey(deployed + stored, name) <==> HasKey(deployed, name) || HasKey(added[..k], name) {
      StoredKeys(deployed, added[..k], stored, name);
    }
    MissingAfter(declared, deployed, deployed + stored, added, k);
  }

  lemma StoredKeys(deployed: Columns, added: Columns, stored: Columns, name: string)
    requires Stores(added, stored)
    ensures HasKey(deployed + stored, name) <==> HasKey(deployed, name) || HasKey(added, name)
  {
    var all := deployed + stored;
    if HasKey(deployed, name) {
      var i :| 0 <= i < |deployed| && deployed[i].0 == name;
      assert all[i].0 == name;
    }
    if HasKey(added, name) {
      var i :| 0 <= i < |added| && added[i].0 == name;
      assert all[|deployed| + i].0 == name;
    }
    if HasKey(all, name) {
      var i :| 0 <= i < |all| && all[i].0 == name;
      assert i < |deployed| ==> deployed[i].0 == name;
      assert i >= |deployed| ==> added[i - |deployed|].0 == name;
    }
  }

  /** With the first `k` missing columns no longer missing, the rest are what is missing. */
  lemma {:induction false} MissingAfter(
    columns: Columns, before: Dict<string, string>, after: Dict<string, string>, missing: Columns, k: nat)
    requires DistinctKeys(columns) && missing == Missing(columns, before)
    requires forall name: string :: HasKey(after, name) <==> HasKey(before, name) || HasKey(missing[..Min(k, |missing|)], name)
    ensures Missing(columns, after) == missing[Min(k, |missing|)..]
  {
    hide Get;
    if columns != [] {
      var n := |columns| - 1;
      var rest, last := Missing(columns[..n], before), columns[n];
      MissingIsExact(columns, before);
      MissingIsExact(columns[..n], before);
      if k >= |missing| {
        NoneMissing(columns, before, after, missing);
      } else {
        assert missing[..k] == rest[..k] by {
          assert missing == rest || missing == rest + [last];
        }
        assert k <= |rest|;
        MissingAfter(columns[..n], before, after, rest, k);
        if Get(before, last.0).None? {
          assert !HasKey(missing[..k], last.0);
        }
      }
    }
  }

  lemma NoneMissing(columns: Columns, before: Dict<string, string>, after: Dict<string, string>, missing: Columns)
    requires missing == Missing(columns, before)
    requires forall name: string :: HasKey(after, name) <==> HasKey(before, name) || HasKey(missing, name)
    ensures Missing(columns, after) == []
  {
    MissingIsExact(columns, before);
    MissingIsExact(columns, after);
    assert Missing(columns, after) == [] || Missing(columns, after)[0] in Missing(columns, after);
  }
}
