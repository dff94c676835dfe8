/**
 * Migrating an existing database (packages/db/src/migrate-existing.ts): what each source becomes.
 * Nine kinds of source are rebuilt into one target schema. A schema is the set of parts that were
 * installed, and a fingerprint is represented by the schema it was taken of.
 */
module Migration {
  import opened Wrappers
  import Backfill

  datatype Part = S47Tables | S47Triggers | S48 | S49Tables | S49Triggers | S50 | S51 | S52 | S53 | S54 | LegacyA | LegacyB

  datatype Value = Null | Text(text: string)

  type Row = seq<Value>
  datatype Table = Table(columns: seq<string>, rows: seq<Row>)
  type Tables = map<string, Table>

  /** The columns of each table. */
  type Shape = map<string, seq<string>>

  /** A ledger row; versions are positions in the canonical migration order. */
  datatype LedgerRow = LedgerRow(version: int, fingerprint: set<Part>)

  /** ordinary: no views or virtual tables, and the ledger has its layout. intact: both SQLite checks pass. */
  datatype Db = Db(schema: set<Part>, tables: map<string, Table>, ledger: seq<LedgerRow>, intact: bool, ordinary: bool)

  const S46 := 8
  const S47 := 9
  const CURRENT := 16

  /** The schema that each version from S47 on is approved with. */
  function SchemaOf(v: int): set<Part> {
    {S47Tables, S47Triggers} + (if v >= 10 then {S48} else {}) + (if v >= 11 then {S49Tables, S49Triggers} else {})
    + (if v >= 12 then {S50} else {}) + (if v >= 13 then {S51} else {}) + (if v >= 14 then {S52} else {})
    + (if v >= 15 then {S53} else {}) + (if v >= CURRENT then {S54} else {})
  }

  // ---------- recognising the source ----------

  function RowFor(ledger: seq<LedgerRow>, v: int): Option<LedgerRow> {
    if ledger == [] then None else if ledger[0].version == v then Some(ledger[0]) else RowFor(ledger[1..], v)
  }

  /** validateDatabase */
  predicate Valid(db: Db) {
    db.ordinary && db.intact && RowFor(db.ledger, CURRENT).Some? &&
    RowFor(db.ledger, CURRENT).value.fingerprint == SchemaOf(CURRENT) && db.schema == SchemaOf(CURRENT)
  }

  /** The checks from the newest version down to S46. */
  function Claimed(db: Db, v: int): Option<int>
    requires S46 <= v < CURRENT
    decreases v
  {
    var row := RowFor(db.ledger, v);
    if v == S46 then
      if row.None? || (exists r :: r in db.ledger && r.version > S46) then None
      else if row.value.fingerprint != db.schema || db.schema !in {{LegacyA}, {LegacyB}} then None
      else Some(S46)
    else if row.Some? then
      if row.value.fingerprint != SchemaOf(v) || db.schema != SchemaOf(v) then None else Some(v)
    else Claimed(db, v - 1)
  }

  /** sourceVariant: None stands for any of its errors, S46 for both of its variants. */
  function SourceVersion(db: Db): Option<int> {
    if !db.ordinary || !db.intact then None
    else if db.ledger == [] || (exists r :: r in db.ledger && !(0 <= r.version <= CURRENT)) then None
    else if RowFor(db.ledger, CURRENT).Some? then (if Valid(db) then Some(CURRENT) else None)
    else Claimed(db, CURRENT - 1)
  }

  /** The first of the rows with the greatest version. */
  ghost predicate IsNewest(ledger: seq<LedgerRow>, i: int) {
    0 <= i < |ledger| && (forall j :: 0 <= j < |ledger| ==> ledger[j].version <= ledger[i].version) &&
    forall j :: 0 <= j < i ==> ledger[j].version < ledger[i].version
  }

  /** The schemas that a database of this version may have. */
  ghost predicate Approved(v: int, schema: set<Part>) {
    if v == S46 then schema == {LegacyA} || schema == {LegacyB} else S47 <= v <= CURRENT && schema == SchemaOf(v)
  }

  lemma {:induction false} RowForFinds(ledger: seq<LedgerRow>, v: int)
    ensures RowFor(ledger, v).None? <==> forall r :: r in ledger ==> r.version != v
    ensures forall i :: 0 <= i < |ledger| && ledger[i].version == v && (forall j :: 0 <= j < i ==> ledger[j].version != v) ==>
      RowFor(ledger, v) == Some(ledger[i])
  {
    if ledger != [] {
      RowForFinds(ledger[1..], v);
      assert forall r :: r in ledger <==> r == ledger[0] || r in ledger[1..];
      forall i | 0 < i < |ledger| && ledger[i].version == v && (forall j :: 0 <= j < i ==> ledger[j].version != v)
        ensures RowFor(ledger, v) == Some(ledger[i])
      {
        assert ledger[1..][i - 1] == ledger[i] && ledger[0].version != v;
        assert forall j :: 0 <= j < i - 1 ==> ledger[1..][j] == ledger[j + 1];
      }
    }
  }

  /** When nothing is newer than v, the row found for v is the newest one. */
  lemma NewestRow(ledger: seq<LedgerRow>, v: int, i: int)
    requires IsNewest(ledger, i) && forall r :: r in ledger ==> r.version <= v
    ensures RowFor(ledger, v).Some? <==> ledger[i].version == v
    ensures ledger[i].version == v ==> RowFor(ledger, v) == Some(ledger[i])
  {
    RowForFinds(ledger, v);
    assert ledger[i] in ledger;
    if ledger[i].version < v {
      forall r | r in ledger ensures r.version != v { var j :| 0 <= j < |ledger| && ledger[j] == r; }
    }
  }

  lemma {:induction false} ClaimedIff(db: Db, v: int, i: int, claimed: int)
    requires S46 <= v < CURRENT && IsNewest(db.ledger, i) && forall r :: r in db.ledger ==> r.version <= v
    ensures Claimed(db, v) == Some(claimed) <==>
      db.ledger[i].version == claimed >= S46 && db.ledger[i].fingerprint == db.schema && Approved(claimed, db.schema)
    decreases v
  {
    NewestRow(db.ledger, v, i);
    if v > S46 && db.ledger[i].version != v {
      forall r | r in db.ledger ensures r.version <= v - 1 { var j :| 0 <= j < |db.ledger| && db.ledger[j] == r; }
      ClaimedIff(db, v - 1, i, claimed);
    }
  }

  lemma {:induction false} SomeIsNewest(ledger: seq<LedgerRow>) returns (i: int)
    requires ledger != []
    ensures IsNewest(ledger, i)
  {
    var front, last := ledger[..|ledger| - 1], |ledger| - 1;
    i := last;
    if front != [] {
      var k := SomeIsNewest(front);
      if ledger[k].version >= ledger[last].version { i := k; }
    }
  }

  lemma OneIsNewest(ledger: seq<LedgerRow>, i: int, j: int)
    requires IsNewest(ledger, i) && IsNewest(ledger, j)
    ensures i == j
  {
    assert ledger[i].version <= ledger[j].version <= ledger[i].version;
  }

  /**
   * A source is recognised exactly when it is ordinary and intact, every row of its ledger has a
   * known version, and the newest row has the fingerprint of a schema approved for its version,
   * which the database also has. S46 has two approved schemas, later versions one.
   */
  lemma SourceVersionIff(db: Db, v: int)
    ensures SourceVersion(db) == Some(v) <==>
      && db.ordinary && db.intact && (forall r :: r in db.ledger ==> 0 <= r.version <= 16)
      && exists i :: IsNewest(db.ledger, i) && db.ledger[i].version == v
                     && db.ledger[i].fingerprint == db.schema && Approved(v, db.schema)
  {
    if db.ledger != [] {
      var i := SomeIsNewest(db.ledger);
      forall j | IsNewest(db.ledger, j) ensures j == i { OneIsNewest(db.ledger, i, j); }
      if forall r :: r in db.ledger ==> 0 <= r.version <= CURRENT {
        NewestRow(db.ledger, CURRENT, i);
        if db.ledger[i].version != CURRENT {
          forall r | r in db.ledger ensures r.version <= CURRENT - 1 { var j :| 0 <= j < |db.ledger| && db.ledger[j] == r; }
          ClaimedIff(db, CURRENT - 1, i, v);
        }
      }
    }
  }

  lemma SourceVersionRange(db: Db)
    requires SourceVersion(db).Some?
    ensures S46 <= SourceVersion(db).value <= CURRENT && Approved(SourceVersion(db).value, db.schema)
  {
    SourceVersionIff(db, SourceVersion(db).value);
  }

  lemma {:induction false} RowForAppended(ledger: seq<LedgerRow>, row: LedgerRow)
    requires RowFor(ledger, row.version).None?
    ensures RowFor(ledger + [row], row.version) == Some(row)
  {
    if ledger != [] {
      RowForAppended(ledger[1..], row);
      assert (ledger + [row])[1..] == ledger[1..] + [row];
    }
  }

  // ---------- the installers ----------

  const TITLES := "staff_job_title_mappings"
  const MASTERS := "student_masters"
  const VERIFICATIONS := "student_identity_verifications"
  const HISTORY := "student_identity_verification_history"
  const SETTINGS := "bosp_annual_reminder_settings"
  const POLICIES := "jenjang_lateness_policy"
  const MONTHS := "attendance_ledger_class_months"
  const REVISIONS := "attendance_ledger_revisions"

  /** The tables that the backfill queries. */
  const READ := {"attendance", "students", "jenjangs", "jenjang_config", "absence_reason_class_entries",
    "academic_classes", "academic_years"}

  /** What an installer's statements do to the tables; its indexes and triggers are behind `accepts`. */
  datatype Statement =
    | Create(created: Shape)
    | AddColumn(table: string, column: string)  // a column that may be null
    | Rebuild(table: string)                    // its rows go through a new table with the same columns and stricter constraints
    | Seed(table: string, row: Row)

  /** The parts of the SQL that are not spelled out here. */
  datatype Sql = Sql(
    creates: Part -> Shape,                       // the CREATE TABLE statements of an installer
    /** What an installer has put on a table lets it hold these rows, inserted in this order. */
    accepts: (Part, string, seq<Row>) -> bool,
    /** All constraints and triggers let the backfill insert what it writes into these tables. */
    admits: (Tables, Backfill.Written) -> bool,
    sound: Tables -> bool,                        // the integrity and foreign key checks of a finished target
    query: Tables -> Backfill.Query,
    policyRow: Backfill.Policy -> Row, monthRow: Backfill.ClassMonth -> Row, revisionRow: Backfill.Revision -> Row,
    now: string)

  function SettingsRow(sql: Sql): Row {
    [Text("1"), Text("60"), Text(sql.now)]
  }

  function Script(sql: Sql, p: Part): seq<Statement> {
    match p
    case S48 => [AddColumn(TITLES, "position_category"), AddColumn(TITLES, "is_teaching_role"), Create(sql.creates(S48))]
    case S53 => [AddColumn(MASTERS, "kk"), Rebuild(VERIFICATIONS), Rebuild(HISTORY)]
    case S54 => [Create(sql.creates(S54)), Seed(SETTINGS, SettingsRow(sql))]
    case S47Triggers => []
    case S49Triggers => []
    case _ => [Create(sql.creates(p))]
  }

  function Nulls(k: nat): Row {
    seq(k, i => Null)
  }

  /** Rows in a table that gained k columns. */
  function Pad(rows: seq<Row>, k: nat): (r: seq<Row>)
    ensures |r| == |rows|
  {
    seq(|rows|, i requires 0 <= i < |rows| => rows[i] + Nulls(k))
  }

  lemma PadTwice(rows: seq<Row>, j: nat, k: nat)
    ensures Pad(rows, 0) == rows && Pad(Pad(rows, j), k) == Pad(rows, j + k)
  {
    forall i | 0 <= i < |rows| ensures Pad(rows, 0)[i] == rows[i] && Pad(Pad(rows, j), k)[i] == Pad(rows, j + k)[i] {
      assert rows[i] + Nulls(0) == rows[i];
      assert rows[i] + Nulls(j) + Nulls(k) == rows[i] + Nulls(j + k);
    }
  }

  /** The effect of a statement, or None when SQLite refuses it. */
  function Run(sql: Sql, s: Statement, tables: Tables): Option<Tables> {
    match s
    case Create(created) =>
      if exists t :: t in created && t in tables then None
      else Some(tables + map t | t in created :: Table(created[t], []))
    case AddColumn(t, c) =>
      if t !in tables || c in tables[t].columns then None
      else Some(tables[t := Table(tables[t].columns + [c], Pad(tables[t].rows, 1))])
    case Rebuild(t) =>
      if t !in tables || !sql.accepts(S53, t, tables[t].rows) then None else Some(tables)
    case Seed(t, row) =>
      if t !in tables then None else Some(tables[t := tables[t].(rows := tables[t].rows + [row])])
  }

  function RunAll(sql: Sql, script: seq<Statement>, tables: Tables): Option<Tables> {
    if script == [] then Some(tables)
    else match RunAll(sql, script[..|script| - 1], tables)
      case None => None
      case Some(before) => Run(sql, script[|script| - 1], before)
  }

  /** Everything that installers in the given order run. */
  function Scripts(sql: Sql, parts: seq<Part>): seq<Statement> {
    if parts == [] then [] else Scripts(sql, parts[..|parts| - 1]) + Script(sql, parts[|parts| - 1])
  }

  lemma {:induction false} RunAllConcat(sql: Sql, a: seq<Statement>, b: seq<Statement>, tables: Tables)
    ensures RunAll(sql, a + b, tables) == match RunAll(sql, a, tables) case None => None case Some(t) => RunAll(sql, b, t)
  {
    if b == [] {
      assert a + b == a;
    } else {
      assert (a + b)[..|a + b| - 1] == a + b[..|b| - 1];
      RunAllConcat(sql, a, b[..|b| - 1], tables);
    }
  }

  lemma {:induction false} ScriptsConcat(sql: Sql, a: seq<Part>, b: seq<Part>)
    ensures Scripts(sql, a + b) == Scripts(sql, a) + Scripts(sql, b)
  {
    if b == [] {
      assert a + b == a;
    } else {
      assert (a + b)[..|a + b| - 1] == a + b[..|b| - 1];
      ScriptsConcat(sql, a, b[..|b| - 1]);
    }
  }

  // ---------- what installing does to rows ----------

  /** Columns that a script adds to a table that is already there. */
  function Extra(script: seq<Statement>, t: string): seq<string> {
    if script == [] then []
    else
      var last := script[|script| - 1];
      Extra(script[..|script| - 1], t) + if last.AddColumn? && last.table == t then [last.column] else []
  }

  function Seeds(script: seq<Statement>, t: string): seq<Row> {
    if script == [] then []
    else
      var last := script[|script| - 1];
      Seeds(script[..|script| - 1], t) + if last.Seed? && last.table == t then [last.row] else []
  }

  function RowsOf(tables: Tables, t: string): seq<Row> {
    if t in tables then tables[t].rows else []
  }

  /** Every table is still there; its columns and rows were only added to. */
  ghost predicate Grown(before: Tables, after: Tables, script: seq<Statement>) {
    before.Keys <= after.Keys && (forall t :: Seeds(script, t) != [] ==> t in after) &&
    forall t :: t in after ==>
      && (t in before ==> after[t].columns == before[t].columns + Extra(script, t))
      && after[t].rows == Pad(RowsOf(before, t), |Extra(script, t)|) + Seeds(script, t)
  }

  /** Columns are added, rows seeded and tables rebuilt where the installers do so. */
  predicate Proper(s: Statement) {
    match s
    case AddColumn(t, _) => t == TITLES || t == MASTERS
    case Seed(t, _) => t == SETTINGS
    case Rebuild(t) => t == VERIFICATIONS || t == HISTORY
    case _ => true
  }

  predicate AllProper(script: seq<Statement>) {
    forall i :: 0 <= i < |script| ==> Proper(script[i])
  }

  lemma {:induction false} ScriptsAreProper(sql: Sql, parts: seq<Part>)
    ensures AllProper(Scripts(sql, parts))
  {
    if parts != [] { ScriptsAreProper(sql, parts[..|parts| - 1]); }
  }

  lemma NamesDiffer()
    ensures TITLES != MASTERS && TITLES != SETTINGS && MASTERS != SETTINGS
    ensures VERIFICATIONS !in {TITLES, MASTERS, SETTINGS} && HISTORY !in {TITLES, MASTERS, SETTINGS}
    ensures POLICIES !in {TITLES, MASTERS, SETTINGS} && MONTHS !in {TITLES, MASTERS, SETTINGS} &&
      REVISIONS !in {TITLES, MASTERS, SETTINGS}
  {
    assert |TITLES| == 24 && |MASTERS| == 15 && |SETTINGS| == 29 && |VERIFICATIONS| == 30 && |HISTORY| == 37;
    assert |POLICIES| == 23 && |MONTHS| == 30 && |REVISIONS| == 27;
  }

  /** A script adds columns or rows only to the tables named above. */
  lemma {:induction false} WhereItGrows(script: seq<Statement>, t: string)
    requires AllProper(script)
    ensures Extra(script, t) != [] ==> t == TITLES || t == MASTERS
    ensures Seeds(script, t) != [] ==> t == SETTINGS
  {
    if script != [] { WhereItGrows(script[..|script| - 1], t); }
  }

  lemma PadThen(rows: seq<Row>, j: nat, x: seq<Row>, k: nat, y: seq<Row>)
    requires x == [] || k == 0
    ensures Pad(Pad(rows, j) + x, k) + y == Pad(rows, j + k) + (x + y)
  {
    PadTwice(rows, j, k);
    PadTwice(Pad(rows, j) + x, 0, 0);
    if x == [] {
      assert Pad(rows, j) + x == Pad(rows, j) && x + y == y;
    } else {
      assert Pad(rows, j) + x + y == Pad(rows, j) + (x + y);
    }
  }

  lemma StatementGrows(sql: Sql, s: Statement, before: Tables, after: Tables, t: string)
    requires Run(sql, s, before) == Some(after)
    ensures before.Keys <= after.Keys && (s.Seed? ==> s.table in after)
    ensures t in after ==>
      && (t in before ==> after[t].columns == before[t].columns + if s.AddColumn? && s.table == t then [s.column] else [])
      && after[t].rows == Pad(RowsOf(before, t), if s.AddColumn? && s.table == t then 1 else 0)
                          + if s.Seed? && s.table == t then [s.row] else []
  {
    PadTwice(RowsOf(before, t), 0, 0);
  }

  /** Installing keeps every table and every row, padded where columns are added, and adds only seeds. */
  lemma {:induction false} ScriptGrows(sql: Sql, script: seq<Statement>, before: Tables, after: Tables)
    requires AllProper(script) && RunAll(sql, script, before) == Some(after)
    ensures Grown(before, after, script)
  {
    if script == [] {
      forall t ensures Pad(RowsOf(before, t), 0) + [] == RowsOf(before, t) { PadTwice(RowsOf(before, t), 0, 0); }
    } else {
      var front, last := script[..|script| - 1], script[|script| - 1];
      var middle := RunAll(sql, front, before).value;
      ScriptGrows(sql, front, before, middle);
      forall t | t in after ensures GrownAt(before, after, script, t) { OneMoreStatement(sql, script, before, middle, after, t); }
      forall t | Seeds(script, t) != [] ensures t in after { StatementGrows(sql, last, middle, after, t); }
      StatementGrows(sql, last, middle, after, "");
    }
  }

  ghost predicate GrownAt(before: Tables, after: Tables, script: seq<Statement>, t: string)
    requires t in after
  {
    (t in before ==> after[t].columns == before[t].columns + Extra(script, t)) &&
    after[t].rows == Pad(RowsOf(before, t), |Extra(script, t)|) + Seeds(script, t)
  }

  lemma OneMoreStatement(sql: Sql, script: seq<Statement>, before: Tables, middle: Tables, after: Tables, t: string)
    requires AllProper(script) && script != [] && Grown(before, middle, script[..|script| - 1])
    requires Run(sql, script[|script| - 1], middle) == Some(after) && t in after
    ensures GrownAt(before, after, script, t)
  {
    var front, last := script[..|script| - 1], script[|script| - 1];
    var f := if last.AddColumn? && last.table == t then [last.column] else [];
    var y := if last.Seed? && last.table == t then [last.row] else [];
    StatementGrows(sql, last, middle, after, t);
    NoLateColumn(front, last, t);
    assert t in middle ==> GrownAt(before, middle, front, t);
    assert t !in middle ==> Seeds(front, t) == [];
    TableGrown(before, middle, after, t, Extra(front, t), Seeds(front, t), f, y);
  }

  lemma NoLateColumn(front: seq<Statement>, last: Statement, t: string)
    requires AllProper(front) && Proper(last)
    ensures Seeds(front, t) == [] || !(last.AddColumn? && last.table == t)
  {
    WhereItGrows(front, t);
    NamesDiffer();
  }

  /** One table through two steps, the second of which adds no column to a seeded table. */
  lemma TableGrown(a: Tables, b: Tables, c: Tables, t: string, e: seq<string>, x: seq<Row>, f: seq<string>, y: seq<Row>)
    requires t in c && a.Keys <= b.Keys && (x == [] || f == [])
    requires t in b ==> (t in a ==> b[t].columns == a[t].columns + e) && b[t].rows == Pad(RowsOf(a, t), |e|) + x
    requires t !in b ==> x == []
    requires (t in b ==> c[t].columns == b[t].columns + f) && c[t].rows == Pad(RowsOf(b, t), |f|) + y
    ensures (t in a ==> c[t].columns == a[t].columns + (e + f)) && c[t].rows == Pad(RowsOf(a, t), |e + f|) + (x + y)
  {
    if t in b { PadThen(RowsOf(a, t), |e|, x, |f|, y); }
  }

  lemma ReadTablesKeepColumns(t: string)
    requires t in READ
    ensures t != TITLES
  {
    assert |TITLES| == 24;
  }

  // ---------- the columns of a schema ----------

  function ShapeOf(tables: Tables): Shape {
    map t | t in tables :: tables[t].columns
  }

  function RunShape(s: Statement, shape: Shape): Option<Shape> {
    match s
    case Create(created) => if exists t :: t in created && t in shape then None else Some(shape + created)
    case AddColumn(t, c) => if t !in shape || c in shape[t] then None else Some(shape[t := shape[t] + [c]])
    case Rebuild(t) => if t !in shape then None else Some(shape)
    case Seed(t, _) => if t !in shape then None else Some(shape)
  }

  function RunShapes(script: seq<Statement>, shape: Shape): Option<Shape> {
    if script == [] then Some(shape)
    else match RunShapes(script[..|script| - 1], shape)
      case None => None
      case Some(before) => RunShape(script[|script| - 1], before)
  }

  lemma {:induction false} RunShapesConcat(a: seq<Statement>, b: seq<Statement>, shape: Shape)
    ensures RunShapes(a + b, shape) == match RunShapes(a, shape) case None => None case Some(s) => RunShapes(b, s)
  {
    if b == [] {
      assert a + b == a;
    } else {
      assert (a + b)[..|a + b| - 1] == a + b[..|b| - 1];
      RunShapesConcat(a, b[..|b| - 1], shape);
    }
  }

  lemma StatementShapes(sql: Sql, s: Statement, tables: Tables)
    ensures Run(sql, s, tables).Some? ==> RunShape(s, ShapeOf(tables)) == Some(ShapeOf(Run(sql, s, tables).value))
    ensures RunShape(s, ShapeOf(tables)).Some? && (s.Rebuild? ==> sql.accepts(S53, s.table, RowsOf(tables, s.table)))
      ==> Run(sql, s, tables).Some?
  {
    if Run(sql, s, tables).Some? {
      var after := Run(sql, s, tables).value;
      var shape := RunShape(s, ShapeOf(tables)).value;
      assert forall t :: t in shape <==> t in after;
      assert ShapeOf(after) == shape;
    }
  }

  /** The rows of the tables to be rebuilt satisfy the stricter constraints. */
  predicate Rebuildable(sql: Sql, script: seq<Statement>, tables: Tables) {
    forall i :: 0 <= i < |script| && script[i].Rebuild? ==> sql.accepts(S53, script[i].table, RowsOf(tables, script[i].table))
  }

  /** A script runs when its shape fits and the rows to be rebuilt do, and then it makes that shape. */
  lemma {:induction false} ScriptShapes(sql: Sql, script: seq<Statement>, tables: Tables)
    requires AllProper(script)
    ensures RunAll(sql, script, tables).Some? ==>
      RunShapes(script, ShapeOf(tables)) == Some(ShapeOf(RunAll(sql, script, tables).value))
    ensures RunShapes(script, ShapeOf(tables)).Some? && Rebuildable(sql, script, tables) ==> RunAll(sql, script, tables).Some?
  {
    if script != [] {
      var front, last := script[..|script| - 1], script[|script| - 1];
      ScriptShapes(sql, front, tables);
      if Rebuildable(sql, script, tables) {
        assert Rebuildable(sql, front, tables) by { assert forall i :: 0 <= i < |front| ==> front[i] == script[i]; }
      }
      if RunAll(sql, front, tables).Some? {
        var middle := RunAll(sql, front, tables).value;
        StatementShapes(sql, last, middle);
        if last.Rebuild? { RowsBeforeRebuild(sql, front, tables, middle, last.table); }
      }
    }
  }

  /** What is rebuilt was neither padded nor seeded. */
  lemma RowsBeforeRebuild(sql: Sql, script: seq<Statement>, before: Tables, after: Tables, t: string)
    requires AllProper(script) && RunAll(sql, script, before) == Some(after) && (t == VERIFICATIONS || t == HISTORY)
    ensures RowsOf(after, t) == RowsOf(before, t)
  {
    ScriptGrows(sql, script, before, after);
    WhereItGrows(script, t);
    NamesDiffer();
    PadTwice(RowsOf(before, t), 0, 0);
    if t !in after { assert t !in before; }
  }

  // ---------- the order of the installers ----------

  /** The triggers that are installed only after the copy. */
  predicate IsDeferred(p: Part) {
    p.S47Triggers? || p.S49Triggers?
  }

  /** Parts that must be there before p: its predecessor version's tables, or the tables a trigger is on. */
  function Needs(p: Part): set<Part> {
    match p
    case S48 => {S47Tables}
    case S49Tables => {S48}
    case S50 => {S49Tables}
    case S51 => {S50}
    case S52 => {S51}
    case S53 => {S52}
    case S54 => {S53}
    case S47Triggers => {S47Tables}
    case S49Triggers => {S49Tables}
    case _ => {}
  }

  /** Every part once, each after what it needs. */
  ghost predicate OnceAndInOrder(parts: seq<Part>) {
    forall i :: 0 <= i < |parts| ==> parts[i] !in parts[..i] && Needs(parts[i]) <= PartsOf(parts[..i])
  }

  ghost function PartsOf(parts: seq<Part>): set<Part> {
    set p | p in parts
  }

  /** The parts that are there when the source's rows are copied. */
  ghost function SourceParts(v: int): set<Part> {
    set p | p in SchemaOf(if v < S47 then S47 else v) && !IsDeferred(p)
  }

  /** What is installed before the copy, by version. */
  function Before(v: int): seq<Part> {
    if v <= 9 then [S47Tables]
    else if v == 10 then [S47Tables, S48]
    else if v == 11 then [S47Tables, S48, S49Tables]
    else if v == 12 then [S47Tables, S48, S49Tables, S50]
    else if v == 13 then [S47Tables, S48, S49Tables, S50, S51]
    else if v == 14 then [S47Tables, S48, S49Tables, S50, S51, S52]
    else [S47Tables, S48, S49Tables, S50, S51, S52, S53]
  }

  function AfterCopy(v: int): seq<Part> {
    if v <= 9 then [S48, S49Tables, S49Triggers, S50, S47Triggers]
    else if v == 10 then [S49Tables, S49Triggers, S50, S47Triggers]
    else if v == 11 then [S49Triggers, S50, S47Triggers]
    else [S49Triggers, S47Triggers]
  }

  function AtLast(v: int): seq<Part> {
    if v <= 12 then [S51, S52, S53, S54] else if v == 13 then [S52, S53, S54] else if v == 14 then [S53, S54] else [S54]
  }

  lemma BeforeIsSource(v: int)
    requires S46 <= v < CURRENT
    ensures PartsOf(Before(v)) == SourceParts(v)
  {
    var tables := SourceParts(v);
    forall p ensures p in Before(v) <==> p in tables {
      assert p in Before(v) <==>
        p == S47Tables || (v >= 10 && p == S48) || (v >= 11 && p == S49Tables) || (v >= 12 && p == S50) ||
        (v >= 13 && p == S51) || (v >= 14 && p == S52) || (v >= 15 && p == S53);
    }
  }

  /** The whole order of installers. */
  function Plan(v: int): seq<Part> {
    if v <= 11 then [S47Tables, S48, S49Tables, S49Triggers, S50, S47Triggers, S51, S52, S53, S54]
    else if v == 12 then [S47Tables, S48, S49Tables, S50, S49Triggers, S47Triggers, S51, S52, S53, S54]
    else if v == 13 then [S47Tables, S48, S49Tables, S50, S51, S49Triggers, S47Triggers, S52, S53, S54]
    else if v == 14 then [S47Tables, S48, S49Tables, S50, S51, S52, S49Triggers, S47Triggers, S53, S54]
    else [S47Tables, S48, S49Tables, S50, S51, S52, S53, S49Triggers, S47Triggers, S54]
  }

  function Position(v: int, p: Part): nat {
    match p
    case S47Tables => 0
    case S48 => 1
    case S49Tables => 2
    case S50 => if v <= 11 then 4 else 3
    case S51 => if v <= 12 then 6 else 4
    case S52 => if v <= 13 then 7 else 5
    case S53 => if v <= 14 then 8 else 6
    case S49Triggers => if v <= 11 then 3 else if v == 12 then 4 else if v == 13 then 5 else if v == 14 then 6 else 7
    case S47Triggers => if v <= 12 then 5 else if v == 13 then 6 else if v == 14 then 7 else 8
    case _ => 9
  }

  lemma PlanIsBeforeAndAfter(v: int)
    requires S46 <= v < CURRENT
    ensures Before(v) + AfterCopy(v) + AtLast(v) == Plan(v)
  {
  }

  lemma PlanPositions(v: int, p: Part, i: nat)
    requires S46 <= v < CURRENT && i < 10
    ensures |Plan(v)| == 10 && Position(v, Plan(v)[i]) == i && Plan(v)[i] in SchemaOf(CURRENT)
    ensures p in SchemaOf(CURRENT) ==> Plan(v)[Position(v, p)] == p
  {
  }

  lemma NeedsComeFirst(v: int, p: Part, q: Part)
    requires S46 <= v < CURRENT && p in SchemaOf(CURRENT) && q in Needs(p)
    ensures q in SchemaOf(CURRENT) && Position(v, q) < Position(v, p)
  {
  }

  lemma OrderedByPosition(plan: seq<Part>, v: int)
    requires S46 <= v < CURRENT && |plan| == 10
    requires forall i :: 0 <= i < 10 ==> Position(v, plan[i]) == i && plan[i] in SchemaOf(CURRENT)
    requires forall p :: p in SchemaOf(CURRENT) ==> Position(v, p) < 10 && plan[Position(v, p)] == p
    ensures PartsOf(plan) == SchemaOf(CURRENT) && OnceAndInOrder(plan)
  {
    forall i | 0 <= i < |plan| ensures plan[i] !in plan[..i] && Needs(plan[i]) <= PartsOf(plan[..i]) {
      assert forall j :: 0 <= j < i ==> Position(v, plan[j]) != Position(v, plan[i]);
      forall q | q in Needs(plan[i]) ensures q in plan[..i] {
        NeedsComeFirst(v, plan[i], q);
        assert plan[..i][Position(v, q)] == q;
      }
    }
  }

  lemma PlanIsComplete(v: int)
    requires S46 <= v < CURRENT
    ensures PartsOf(Before(v) + AfterCopy(v) + AtLast(v)) == SchemaOf(CURRENT)
    ensures OnceAndInOrder(Before(v) + AfterCopy(v) + AtLast(v))
  {
    PlanIsBeforeAndAfter(v);
    var plan := Plan(v);
    PlanPositions(v, S54, 0);
    forall i | 0 <= i < 10 ensures Position(v, plan[i]) == i && plan[i] in SchemaOf(CURRENT) { PlanPositions(v, S54, i); }
    forall p | p in SchemaOf(CURRENT) ensures Position(v, p) < 10 && plan[Position(v, p)] == p { PlanPositions(v, p, 0); }
    OrderedByPosition(plan, v);
  }

  lemma {:induction false} ExtraConcat(a: seq<Statement>, b: seq<Statement>, t: string)
    ensures Extra(a + b, t) == Extra(a, t) + Extra(b, t) && Seeds(a + b, t) == Seeds(a, t) + Seeds(b, t)
  {
    if b == [] {
      assert a + b == a;
    } else {
      assert (a + b)[..|a + b| - 1] == a + b[..|b| - 1];
      ExtraConcat(a, b[..|b| - 1], t);
    }
  }

  /** The columns that a list of installers adds to a table that is there, by name. */
  function Columns(parts: set<Part>, t: string): seq<string> {
    if S48 in parts && t == TITLES then ["position_category", "is_teaching_role"]
    else if S53 in parts && t == MASTERS then ["kk"] else []
  }

  function SettingsSeed(sql: Sql, parts: set<Part>, t: string): seq<Row> {
    if S54 in parts && t == SETTINGS then [SettingsRow(sql)] else []
  }

  lemma ExtraOfOne(s: Statement, t: string)
    ensures Extra([s], t) == (if s.AddColumn? && s.table == t then [s.column] else [])
    ensures Seeds([s], t) == (if s.Seed? && s.table == t then [s.row] else [])
  {
    assert [s][..0] == [];
  }

  lemma ScriptAdds(sql: Sql, p: Part, t: string)
    ensures Extra(Script(sql, p), t) == Columns({p}, t) && Seeds(Script(sql, p), t) == SettingsSeed(sql, {p}, t)
  {
    match p
    case S48 => TitlesAdded(sql, t);
    case S53 => MastersAdded(sql, t);
    case S54 => SettingsAdded(sql, t);
    case S47Triggers =>
    case S49Triggers =>
    case _ => ExtraOfOne(Create(sql.creates(p)), t);
  }

  lemma TitlesAdded(sql: Sql, t: string)
    ensures Extra(Script(sql, S48), t) == Columns({S48}, t) && Seeds(Script(sql, S48), t) == []
  {
    var a, b, c := AddColumn(TITLES, "position_category"), AddColumn(TITLES, "is_teaching_role"), Create(sql.creates(S48));
    ExtraOfThree(a, b, c, t);
    OnlyOne(S48, t);
    assert t == TITLES ==> [a.column] + [b.column] == ["position_category", "is_teaching_role"];
  }

  lemma MastersAdded(sql: Sql, t: string)
    ensures Extra(Script(sql, S53), t) == Columns({S53}, t) && Seeds(Script(sql, S53), t) == []
  {
    ExtraOfThree(AddColumn(MASTERS, "kk"), Rebuild(VERIFICATIONS), Rebuild(HISTORY), t);
    OnlyOne(S53, t);
  }

  lemma OnlyOne(p: Part, t: string)
    ensures Columns({p}, t) ==
      if p == S48 && t == TITLES then ["position_category", "is_teaching_role"]
      else if p == S53 && t == MASTERS then ["kk"] else []
  {
  }

  lemma SettingsAdded(sql: Sql, t: string)
    ensures Extra(Script(sql, S54), t) == [] && Seeds(Script(sql, S54), t) == SettingsSeed(sql, {S54}, t)
  {
    ExtraOfTwo(Create(sql.creates(S54)), Seed(SETTINGS, SettingsRow(sql)), t);
    assert Script(sql, S54) == [Create(sql.creates(S54))] + [Seed(SETTINGS, SettingsRow(sql))];
  }

  lemma ExtraOfThree(a: Statement, b: Statement, c: Statement, t: string)
    ensures Extra([a, b, c], t) == Extra([a], t) + Extra([b], t) + Extra([c], t)
    ensures Seeds([a, b, c], t) == Seeds([a], t) + Seeds([b], t) + Seeds([c], t)
    ensures Extra([a], t) == if a.AddColumn? && a.table == t then [a.column] else []
    ensures Extra([b], t) == if b.AddColumn? && b.table == t then [b.column] else []
    ensures Extra([c], t) == if c.AddColumn? && c.table == t then [c.column] else []
    ensures Seeds([a], t) == (if a.Seed? && a.table == t then [a.row] else [])
    ensures Seeds([b], t) == (if b.Seed? && b.table == t then [b.row] else [])
    ensures Seeds([c], t) == (if c.Seed? && c.table == t then [c.row] else [])
  {
    ExtraOfTwo(a, b, t);
    ExtraConcat([a] + [b], [c], t);
    ExtraOfOne(c, t);
    assert [a] + [b] + [c] == [a, b, c];
  }

  lemma ExtraOfTwo(a: Statement, b: Statement, t: string)
    ensures Extra([a] + [b], t) == Extra([a], t) + Extra([b], t) && Seeds([a] + [b], t) == Seeds([a], t) + Seeds([b], t)
    ensures Extra([a], t) == if a.AddColumn? && a.table == t then [a.column] else []
    ensures Extra([b], t) == if b.AddColumn? && b.table == t then [b.column] else []
    ensures Seeds([a], t) == if a.Seed? && a.table == t then [a.row] else []
    ensures Seeds([b], t) == if b.Seed? && b.table == t then [b.row] else []
  {
    ExtraConcat([a], [b], t);
    ExtraOfOne(a, t);
    ExtraOfOne(b, t);
  }

  lemma ColumnsOfMore(sql: Sql, parts: set<Part>, p: Part, t: string)
    requires p !in parts
    ensures Columns(parts + {p}, t) == Columns(parts, t) + Columns({p}, t)
    ensures SettingsSeed(sql, parts + {p}, t) == SettingsSeed(sql, parts, t) + SettingsSeed(sql, {p}, t)
  {
    NamesDiffer();
  }

  ghost predicate Once(parts: seq<Part>) {
    forall i :: 0 <= i < |parts| ==> parts[i] !in parts[..i]
  }

  /** What is known of a list of installers: its columns and its seed. */
  ghost predicate Adds(sql: Sql, parts: seq<Part>, t: string) {
    Extra(Scripts(sql, parts), t) == Columns(PartsOf(parts), t) &&
      Seeds(Scripts(sql, parts), t) == SettingsSeed(sql, PartsOf(parts), t)
  }

  lemma OneMoreAdds(sql: Sql, front: seq<Part>, last: Part, parts: seq<Part>, t: string)
    requires Adds(sql, front, t) && last !in front && parts == front + [last]
    ensures Adds(sql, parts, t)
  {
    assert parts[..|front|] == front;
    ExtraConcat(Scripts(sql, front), Script(sql, last), t);
    ScriptAdds(sql, last, t);
    ColumnsOfMore(sql, PartsOf(front), last, t);
    assert PartsOf(parts) == PartsOf(front) + {last};
  }

  lemma {:induction false} PartsAdd(sql: Sql, parts: seq<Part>, n: nat, t: string)
    requires Once(parts) && n <= |parts|
    ensures Adds(sql, parts[..n], t)
  {
    if n == 0 {
      NothingAdds(sql, t);
      assert parts[..n] == [];
    } else {
      PartsAdd(sql, parts, n - 1, t);
      OneMorePart(parts, n);
      OneMoreAdds(sql, parts[..n - 1], parts[n - 1], parts[..n], t);
    }
  }

  lemma NothingAdds(sql: Sql, t: string)
    ensures Adds(sql, [], t)
  {
  }

  lemma OneMorePart(parts: seq<Part>, n: nat)
    requires Once(parts) && 0 < n <= |parts|
    ensures parts[n - 1] !in parts[..n - 1] && parts[..n] == parts[..n - 1] + [parts[n - 1]]
  {
  }

  // ---------- a fresh database ----------

  /** The installers with tables, in the order in which a fresh database is built. */
  const FRESH := [S47Tables, S48, S49Tables, S50, S51, S52, S53, S54]

  lemma ScriptsOfOne(sql: Sql, p: Part)
    ensures Scripts(sql, [p]) == Script(sql, p)
  {
    assert [p][..0] == [] && Scripts(sql, []) == [] && [] + Script(sql, p) == Script(sql, p);
  }

  lemma SkipTrigger(sql: Sql, a: seq<Part>, p: Part, b: seq<Part>)
    requires IsDeferred(p)
    ensures Scripts(sql, a + [p] + b) == Scripts(sql, a + b)
  {
    var x, y := Scripts(sql, a), Scripts(sql, b);
    ScriptsConcat(sql, a + [p], b);
    ScriptsConcat(sql, a, [p]);
    ScriptsOfOne(sql, p);
    ScriptsConcat(sql, a, b);
    NothingBetween(x, y);
  }

  lemma NothingBetween(x: seq<Statement>, y: seq<Statement>)
    ensures x + [] + y == x + y
  {
  }

  lemma SkipTriggers(sql: Sql, a: seq<Part>, b: seq<Part>, c: seq<Part>, plan: seq<Part>, base: seq<Part>)
    requires plan == a + [S49Triggers] + b + [S47Triggers] + c && base == a + b + c
    ensures Scripts(sql, plan) == Scripts(sql, base)
  {
    SkipTrigger(sql, a + [S49Triggers] + b, S47Triggers, c);
    Reassociated(a, [S49Triggers], b, c);
    SkipTrigger(sql, a, S49Triggers, b + c);
    Reassociated(a, [], b, c);
    assert a + [] == a;
  }

  lemma Reassociated(a: seq<Part>, p: seq<Part>, b: seq<Part>, c: seq<Part>)
    ensures a + p + b + c == a + p + (b + c)
  {
  }

  /** Whatever the source, its installers run the statements of a fresh database, in their order. */
  lemma PlanRunsFreshScripts(sql: Sql, v: int)
    requires S46 <= v < CURRENT
    ensures Scripts(sql, Plan(v)) == Scripts(sql, FRESH)
  {
    if v <= 11 {
      SkipTriggers(sql, [S47Tables, S48, S49Tables], [S50], [S51, S52, S53, S54], Plan(v), FRESH);
    } else if v == 12 {
      SkipTriggers(sql, [S47Tables, S48, S49Tables, S50], [], [S51, S52, S53, S54], Plan(v), FRESH);
    } else if v == 13 {
      SkipTriggers(sql, [S47Tables, S48, S49Tables, S50, S51], [], [S52, S53, S54], Plan(v), FRESH);
    } else if v == 14 {
      SkipTriggers(sql, [S47Tables, S48, S49Tables, S50, S51, S52], [], [S53, S54], Plan(v), FRESH);
    } else {
      SkipTriggers(sql, [S47Tables, S48, S49Tables, S50, S51, S52, S53], [], [S54], Plan(v), FRESH);
    }
  }

  // ---------- copying ----------

  predicate IsIdentifierStart(c: char) {
    'a' <= c <= 'z' || 'A' <= c <= 'Z' || c == '_'
  }

  /** identifier(): anything else is rejected before it reaches SQL */
  predicate IsIdentifier(s: string) {
    s != "" && IsIdentifierStart(s[0]) && forall i :: 0 <= i < |s| ==> IsIdentifierStart(s[i]) || '0' <= s[i] <= '9'
  }

  /** Letters, digits and underscores, and no digit first. */
  lemma IdentifierIff(s: string)
    ensures IsIdentifier(s) <==>
      && s != "" && s[0] !in "0123456789"
      && forall i :: 0 <= i < |s| ==> s[i] in "abcdefghijklmnopqrstuvwxyzABCDEFGHIJKLMNOPQRSTUVWXYZ0123456789_"
  {
    forall c: char
      ensures IsIdentifierStart(c) || '0' <= c <= '9' <==> c in "abcdefghijklmnopqrstuvwxyzABCDEFGHIJKLMNOPQRSTUVWXYZ0123456789_"
    {
      CharacterIff(c);
    }
    forall c: char ensures '0' <= c <= '9' <==> c in "0123456789" { DigitIff(c); }
  }

  lemma DigitIff(c: char)
    ensures '0' <= c <= '9' <==> c in "0123456789"
  {
    assert c in "0123456789" <==> c in {'0', '1', '2', '3', '4', '5', '6', '7', '8', '9'};
  }

  lemma CharacterIff(c: char)
    ensures IsIdentifierStart(c) || '0' <= c <= '9' <==> c in "abcdefghijklmnopqrstuvwxyzABCDEFGHIJKLMNOPQRSTUVWXYZ0123456789_"
  {
    var lower, upper, rest := "abcdefghijklmnopqrstuvwxyz", "ABCDEFGHIJKLMNOPQRSTUVWXYZ", "0123456789_";
    assert "abcdefghijklmnopqrstuvwxyzABCDEFGHIJKLMNOPQRSTUVWXYZ0123456789_" == lower + upper + rest;
    LetterIff(c);
    DigitIff(c);
    assert c in rest <==> c in "0123456789" || c == '_' by { assert rest == "0123456789" + "_"; }
  }

  lemma LetterIff(c: char)
    ensures c in "abcdefghijklmnopqrstuvwxyz" <==> 'a' <= c <= 'z'
    ensures c in "ABCDEFGHIJKLMNOPQRSTUVWXYZ" <==> 'A' <= c <= 'Z'
  {
    assert c in "abcdefghijklmnopqrstuvwxyz" <==> c in {'a', 'b', 'c', 'd', 'e', 'f', 'g', 'h', 'i', 'j', 'k', 'l', 'm', 'n', 'o',
      'p', 'q', 'r', 's', 't', 'u', 'v', 'w', 'x', 'y', 'z'};
    assert c in "ABCDEFGHIJKLMNOPQRSTUVWXYZ" <==> c in {'A', 'B', 'C', 'D', 'E', 'F', 'G', 'H', 'I', 'J', 'K', 'L', 'M', 'N', 'O',
      'P', 'Q', 'R', 'S', 'T', 'U', 'V', 'W', 'X', 'Y', 'Z'};
  }

  /** A table that copyData copies: the target has it, empty and with the same columns, and its rules allow the rows. */
  ghost predicate Copyable(sql: Sql, parts: seq<Part>, name: string, source: Table, target: Tables) {
    name in target && IsIdentifier(name) && source.columns == target[name].columns && target[name].rows == [] &&
    (forall c :: c in source.columns ==> IsIdentifier(c)) && forall p :: p in parts ==> sql.accepts(p, name, source.rows)
  }

  ghost predicate CanCopy(sql: Sql, parts: seq<Part>, source: Tables, target: Tables) {
    forall t :: t in source ==> Copyable(sql, parts, t, source[t], target)
  }

  function Copied(target: Tables, source: Tables): Tables {
    map t | t in target :: if t in source then Table(target[t].columns, source[t].rows) else target[t]
  }

  // ---------- the backfill ----------

  /** The tables at the copy. */
  function AtCopy(sql: Sql, v: int, source: Tables): Option<Tables> {
    match RunAll(sql, Scripts(sql, Before(v)), map[])
    case None => None
    case Some(target) => Some(Copied(target, source))
  }

  function Readable(sql: Sql, tables: Tables): Tables {
    map t | t in tables && t in READ && t in sql.creates(S47Tables) :: tables[t]
  }

  /** The queries of the backfill see the seven tables that they name, as they are, and no other. */
  lemma BackfillReads(sql: Sql, tables: Tables, t: string)
    requires t in tables && t in sql.creates(S47Tables)
    ensures t in Readable(sql, tables) <==>
      || t == "attendance" || t == "students" || t == "jenjangs" || t == "jenjang_config"
      || t == "absence_reason_class_entries" || t == "academic_classes" || t == "academic_years"
    ensures t in Readable(sql, tables) ==> Readable(sql, tables)[t] == tables[t]
  {
  }

  /** What the backfill of a source finds. */
  function BackfillInput(sql: Sql, source: Tables): Backfill.Query {
    match AtCopy(sql, S46, source)
    case None => sql.query(map[])
    case Some(tables) => sql.query(Readable(sql, tables))
  }

  const BACKFILLED := {POLICIES, MONTHS, REVISIONS}

  function BackfillRows(sql: Sql, t: string, w: Backfill.Written): seq<Row> {
    if t == POLICIES then seq(|w.policies|, i requires 0 <= i < |w.policies| => sql.policyRow(w.policies[i]))
    else if t == MONTHS then seq(|w.ledger.months|, i requires 0 <= i < |w.ledger.months| => sql.monthRow(w.ledger.months[i]))
    else if t == REVISIONS then
      seq(|w.ledger.revisions|, i requires 0 <= i < |w.ledger.revisions| => sql.revisionRow(w.ledger.revisions[i]))
    else []
  }

  function WithBackfill(sql: Sql, tables: Tables, w: Backfill.Written): Tables {
    map t | t in tables :: tables[t].(rows := tables[t].rows + BackfillRows(sql, t, w))
  }

  function Added(sql: Sql, t: string, written: Option<Backfill.Written>): seq<Row> {
    if written.Some? then BackfillRows(sql, t, written.value) else []
  }

  // ---------- what a migration keeps and adds ----------

  /** The columns that a table of a source of version v gains. */
  function NewColumns(v: int, t: string): seq<string> {
    if v < 10 && t == TITLES then ["position_category", "is_teaching_role"] else if v < 15 && t == MASTERS then ["kk"] else []
  }

  /**
   * The target has the columns of a fresh database; every source table is there with its columns
   * first and every row in place, padded with NULL; and nothing else is there but the backfill of
   * an S46 source and one row of settings.
   */
  ghost predicate CarriesOver(sql: Sql, v: int, source: Tables, target: Tables, written: Option<Backfill.Written>) {
    && (written.Some? <==> v == S46)
    && (written.Some? ==> Backfill.IsBackfill(BackfillInput(sql, source), sql.now, written.value))
    && RunShapes(Scripts(sql, FRESH), map[]) == Some(ShapeOf(target))
    && source.Keys <= target.Keys && SETTINGS in target
    && forall t :: t in target ==> Carried(sql, v, source, target, written, t)
  }

  ghost predicate Carried(sql: Sql, v: int, source: Tables, target: Tables, written: Option<Backfill.Written>, t: string)
    requires t in target
  {
    && (t in source ==> target[t].columns == source[t].columns + NewColumns(v, t))
    && target[t].rows == Pad(RowsOf(source, t), |NewColumns(v, t)|) + Added(sql, t, written) + SettingsSeed(sql, {S54}, t)
  }

  /** Every source row is in the target at its place, equal on the source's columns and NULL in the new ones. */
  lemma SourceRowsSurvive(sql: Sql, v: int, source: Tables, target: Tables, written: Option<Backfill.Written>, t: string, i: nat)
    requires CarriesOver(sql, v, source, target, written) && t in source && i < |source[t].rows|
    ensures t in target && source[t].columns <= target[t].columns && i < |target[t].rows|
    ensures target[t].rows[i] == source[t].rows[i] + Nulls(|target[t].columns| - |source[t].columns|)
  {
    assert Carried(sql, v, source, target, written, t);
  }

  /** Nothing is added but the backfill of an S46 source, one revision for each legacy row, and one row of settings. */
  lemma RowsAreAccountedFor(sql: Sql, v: int, source: Tables, target: Tables, written: Option<Backfill.Written>, t: string)
    requires CarriesOver(sql, v, source, target, written) && t in target
    ensures |target[t].rows| == |RowsOf(source, t)| + |Added(sql, t, written)| + if t == SETTINGS then 1 else 0
    ensures Added(sql, t, written) != [] ==> v == S46 && t in BACKFILLED
    ensures v == S46 ==> |Added(sql, REVISIONS, written)| == |BackfillInput(sql, source).totals|
    ensures t == SETTINGS ==> target[t].rows[|target[t].rows| - 1] == [Text("1"), Text("60"), Text(sql.now)]
  {
    RowsAdded(sql, v, source, target, written, t);
    AddedWhere(sql, t, written);
    if v == S46 { OneRevisionEach(sql, BackfillInput(sql, source), written.value); }
  }

  // Behind the source's rows stand one row for each policy, each class-month and each revision of the backfill, in order.

  lemma PoliciesAreWritten(sql: Sql, source: Tables, target: Tables, w: Backfill.Written)
    requires POLICIES in target && Carried(sql, S46, source, target, Some(w), POLICIES)
    ensures var n := |RowsOf(source, POLICIES)|; var rows := target[POLICIES].rows;
      |rows| == n + |w.policies| && forall i :: 0 <= i < |w.policies| ==> rows[n + i] == sql.policyRow(w.policies[i])
  {
    BackfilledRows(sql, source, target, Some(w), POLICIES);
  }

  lemma MonthsAreWritten(sql: Sql, source: Tables, target: Tables, w: Backfill.Written)
    requires MONTHS in target && Carried(sql, S46, source, target, Some(w), MONTHS)
    ensures var n := |RowsOf(source, MONTHS)|; var rows := target[MONTHS].rows;
      && |rows| == n + |w.ledger.months|
      && forall i :: 0 <= i < |w.ledger.months| ==> rows[n + i] == sql.monthRow(w.ledger.months[i])
  {
    BackfilledRows(sql, source, target, Some(w), MONTHS);
  }

  lemma RevisionsAreWritten(sql: Sql, source: Tables, target: Tables, w: Backfill.Written)
    requires REVISIONS in target && Carried(sql, S46, source, target, Some(w), REVISIONS)
    ensures var n := |RowsOf(source, REVISIONS)|; var rows := target[REVISIONS].rows;
      && |rows| == n + |w.ledger.revisions|
      && forall i :: 0 <= i < |w.ledger.revisions| ==> rows[n + i] == sql.revisionRow(w.ledger.revisions[i])
  {
    BackfilledRows(sql, source, target, Some(w), REVISIONS);
  }

  /** What is carried over is so table by table, and an S46 source is backfilled. */
  lemma CarriedIs(sql: Sql, v: int, source: Tables, target: Tables, written: Option<Backfill.Written>, t: string)
    requires CarriesOver(sql, v, source, target, written) && t in target
    ensures Carried(sql, v, source, target, written, t) && (v == S46 ==> written.Some?)
  {
  }

  lemma BackfilledRows(sql: Sql, source: Tables, target: Tables, written: Option<Backfill.Written>, t: string)
    requires t in target && t in BACKFILLED && written.Some? && Carried(sql, S46, source, target, written, t)
    ensures var n := |RowsOf(source, t)|; var added := BackfillRows(sql, t, written.value); var rows := target[t].rows;
      |rows| == n + |added| && forall i :: 0 <= i < |added| ==> rows[n + i] == added[i]
  {
  }

  lemma AddedWhere(sql: Sql, t: string, written: Option<Backfill.Written>)
    ensures Added(sql, t, written) != [] ==> written.Some? && t in BACKFILLED
  {
  }

  lemma RowsAdded(sql: Sql, v: int, source: Tables, target: Tables, written: Option<Backfill.Written>, t: string)
    requires t in target && Carried(sql, v, source, target, written, t)
    ensures |target[t].rows| == |RowsOf(source, t)| + |Added(sql, t, written)| + if t == SETTINGS then 1 else 0
  {
  }

  lemma OneRevisionEach(sql: Sql, input: Backfill.Input, w: Backfill.Written)
    requires Backfill.IsBackfill(input, sql.now, w)
    ensures |BackfillRows(sql, REVISIONS, w)| == |input.totals|
  {
    assert |POLICIES| == 23 && |MONTHS| == 30 && |REVISIONS| == 27;
    var scopes :| Backfill.RevisionsOf(input, scopes, sql.now, w.ledger);
  }

  /** The four stages between an empty database and the target. */
  ghost predicate Stages(sql: Sql, v: int, source: Tables, t1: Tables, t2: Tables, t3: Tables, t4: Tables, t5: Tables,
      written: Option<Backfill.Written>) {
    && RunAll(sql, Scripts(sql, Before(v)), map[]) == Some(t1)
    && CanCopy(sql, Before(v), source, t1) && t2 == Copied(t1, source)
    && RunAll(sql, Scripts(sql, AfterCopy(v)), t2) == Some(t3)
    && t4 == (if written.Some? then WithBackfill(sql, t3, written.value) else t3)
    && RunAll(sql, Scripts(sql, AtLast(v)), t4) == Some(t5)
  }

  lemma StagesHaveNoRepeats(v: int)
    requires S46 <= v < CURRENT
    ensures Once(Before(v)) && Once(AfterCopy(v)) && Once(AtLast(v))
  {
    PlanIsComplete(v);
    StagesOfOrder(Before(v), AfterCopy(v), AtLast(v));
  }

  lemma StagesOfOrder(a: seq<Part>, b: seq<Part>, c: seq<Part>)
    requires OnceAndInOrder(a + b + c)
    ensures Once(a) && Once(b) && Once(c)
  {
    assert a + b + c == [] + a + (b + c) == a + b + c + [];
    PartIsOnce([], a, b + c);
    PartIsOnce(a, b, c);
    PartIsOnce(a + b, c, []);
  }

  lemma PartIsOnce(front: seq<Part>, part: seq<Part>, rest: seq<Part>)
    requires OnceAndInOrder(front + part + rest)
    ensures Once(part)
  {
    var plan := front + part + rest;
    forall i | 0 <= i < |part| ensures part[i] !in part[..i] {
      assert plan[|front| + i] == part[i] && plan[..|front| + i] == front + part[..i];
    }
  }

  lemma StageParts(v: int)
    requires S46 <= v < CURRENT
    ensures S54 !in Before(v) && S54 !in AfterCopy(v) && S54 in AtLast(v)
    ensures S48 in AfterCopy(v) <==> v < 10
    ensures S48 !in AtLast(v) && S53 !in AfterCopy(v)
    ensures S53 in AtLast(v) <==> v < 15
  {
  }

  /** What the installers of each stage add to a table. */
  lemma StageAdds(sql: Sql, v: int, t: string)
    requires S46 <= v < CURRENT
    ensures Seeds(Scripts(sql, Before(v)), t) == []
    ensures Extra(Scripts(sql, AfterCopy(v)), t) == (if v < 10 && t == TITLES then NewColumns(v, t) else [])
    ensures Seeds(Scripts(sql, AfterCopy(v)), t) == []
    ensures Extra(Scripts(sql, AtLast(v)), t) == (if t == MASTERS then NewColumns(v, t) else [])
    ensures Seeds(Scripts(sql, AtLast(v)), t) == SettingsSeed(sql, {S54}, t)
  {
    StageParts(v);
    StagesHaveNoRepeats(v);
    NamesDiffer();
    var a, b, c := Before(v), AfterCopy(v), AtLast(v);
    PartsAdd(sql, a, |a|, t);
    PartsAdd(sql, b, |b|, t);
    PartsAdd(sql, c, |c|, t);
    assert a[..|a|] == a && b[..|b|] == b && c[..|c|] == c;
  }

  /** Before the copy every table is empty. */
  lemma EmptyBeforeCopy(sql: Sql, v: int, t1: Tables)
    requires S46 <= v < CURRENT && RunAll(sql, Scripts(sql, Before(v)), map[]) == Some(t1)
    ensures forall t :: t in t1 ==> t1[t].rows == []
  {
    ScriptsAreProper(sql, Before(v));
    ScriptGrows(sql, Scripts(sql, Before(v)), map[], t1);
    forall t | t in t1 ensures t1[t].rows == [] {
      StageAdds(sql, v, t);
      assert t1[t].rows == Pad([], |Extra(Scripts(sql, Before(v)), t)|) + [];
    }
  }

  lemma CopiedKeepsColumns(sql: Sql, parts: seq<Part>, source: Tables, t1: Tables, t2: Tables)
    requires CanCopy(sql, parts, source, t1) && t2 == Copied(t1, source)
    ensures ShapeOf(t2) == ShapeOf(t1) && source.Keys <= t2.Keys
    ensures forall t :: t in source ==> t2[t] == source[t]
  {
    forall t | t in source ensures t in t2 && t2[t] == source[t] { assert Copyable(sql, parts, t, source[t], t1); }
    assert forall t :: t in t1 <==> t in t2;
    forall t | t in t1 ensures t2[t].columns == t1[t].columns {
      if t in source { assert Copyable(sql, parts, t, source[t], t1); }
    }
  }

  lemma BackfillKeepsColumns(sql: Sql, t3: Tables, w: Backfill.Written)
    ensures ShapeOf(WithBackfill(sql, t3, w)) == ShapeOf(t3)
  {
    var t4 := WithBackfill(sql, t3, w);
    assert forall t :: t in t3 <==> t in t4;
    assert forall t :: t in t3 ==> t4[t].columns == t3[t].columns;
  }

  /** The columns of a target are those of a fresh database. */
  lemma StagesMakeShape(sql: Sql, v: int, source: Tables, t1: Tables, t2: Tables, t3: Tables, t4: Tables, t5: Tables,
      written: Option<Backfill.Written>)
    requires S46 <= v < CURRENT && Stages(sql, v, source, t1, t2, t3, t4, t5, written)
    ensures RunShapes(Scripts(sql, FRESH), map[]) == Some(ShapeOf(t5))
  {
    var a, b, c := Scripts(sql, Before(v)), Scripts(sql, AfterCopy(v)), Scripts(sql, AtLast(v));
    ScriptsAreProper(sql, Before(v));
    ScriptsAreProper(sql, AfterCopy(v));
    ScriptsAreProper(sql, AtLast(v));
    assert ShapeOf(map[]) == map[];
    ScriptShapes(sql, a, map[]);
    CopiedKeepsColumns(sql, Before(v), source, t1, t2);
    ScriptShapes(sql, b, t2);
    if written.Some? { BackfillKeepsColumns(sql, t3, written.value); }
    ScriptShapes(sql, c, t4);
    PlanShapes(sql, v);
  }

  /** The three stages together run the scripts of a fresh database. */
  lemma PlanShapes(sql: Sql, v: int)
    requires S46 <= v < CURRENT
    ensures var a, b, c := Scripts(sql, Before(v)), Scripts(sql, AfterCopy(v)), Scripts(sql, AtLast(v));
      RunShapes(Scripts(sql, FRESH), map[]) ==
        match RunShapes(a, map[]) case None => None case Some(x) =>
          match RunShapes(b, x) case None => None case Some(y) => RunShapes(c, y)
  {
    var a, b, c := Scripts(sql, Before(v)), Scripts(sql, AfterCopy(v)), Scripts(sql, AtLast(v));
    PlanIsBeforeAndAfter(v);
    ScriptsConcat(sql, Before(v) + AfterCopy(v), AtLast(v));
    ScriptsConcat(sql, Before(v), AfterCopy(v));
    PlanRunsFreshScripts(sql, v);
    RunShapesConcat(a + b, c, map[]);
    RunShapesConcat(a, b, map[]);
  }

  /** One table before and after a stage. */
  ghost predicate GrownBy(before: Tables, after: Tables, t: string, columns: seq<string>, added: seq<Row>) {
    (t in before ==> t in after && after[t].columns == before[t].columns + columns) &&
    RowsOf(after, t) == Pad(RowsOf(before, t), |columns|) + added
  }

  lemma GrownTable(before: Tables, after: Tables, script: seq<Statement>, t: string)
    requires Grown(before, after, script)
    ensures GrownBy(before, after, t, Extra(script, t), Seeds(script, t))
  {
    if t !in after { PadTwice([], 0, 0); }
  }

  lemma AfterCopyGrows(sql: Sql, v: int, t2: Tables, t3: Tables, t: string)
    requires S46 <= v < CURRENT && RunAll(sql, Scripts(sql, AfterCopy(v)), t2) == Some(t3)
    ensures GrownBy(t2, t3, t, if v < 10 && t == TITLES then NewColumns(v, t) else [], [])
  {
    ScriptsAreProper(sql, AfterCopy(v));
    ScriptGrows(sql, Scripts(sql, AfterCopy(v)), t2, t3);
    StageAdds(sql, v, t);
    GrownTable(t2, t3, Scripts(sql, AfterCopy(v)), t);
  }

  lemma AtLastGrows(sql: Sql, v: int, t4: Tables, t5: Tables, t: string)
    requires S46 <= v < CURRENT && RunAll(sql, Scripts(sql, AtLast(v)), t4) == Some(t5)
    ensures GrownBy(t4, t5, t, if t == MASTERS then NewColumns(v, t) else [], SettingsSeed(sql, {S54}, t))
    ensures t4.Keys <= t5.Keys && SETTINGS in t5
  {
    ScriptsAreProper(sql, AtLast(v));
    ScriptGrows(sql, Scripts(sql, AtLast(v)), t4, t5);
    StageAdds(sql, v, t);
    StageAdds(sql, v, SETTINGS);
    GrownTable(t4, t5, Scripts(sql, AtLast(v)), t);
  }

  lemma RowsThroughStages(rows: seq<Row>, e: nat, added: seq<Row>, f: nat, seeds: seq<Row>, r3: seq<Row>, r4: seq<Row>,
      r5: seq<Row>)
    requires r3 == Pad(rows, e) + [] && r4 == r3 + added && r5 == Pad(r4, f) + seeds
    requires added == [] || f == 0
    ensures r5 == Pad(rows, e + f) + added + seeds
  {
    PadThen(rows, e, added, f, seeds);
    assert Pad(rows, e) + [] == Pad(rows, e);
    assert Pad(rows, e + f) + (added + seeds) == Pad(rows, e + f) + added + seeds;
  }

  lemma CarriedThroughStages(sql: Sql, v: int, source: Tables, t2: Tables, t3: Tables, t4: Tables, t5: Tables,
      written: Option<Backfill.Written>, t: string)
    requires S46 <= v < CURRENT && t in t5
    requires GrownBy(t2, t3, t, if v < 10 && t == TITLES then NewColumns(v, t) else [], [])
    requires GrownBy(t4, t5, t, if t == MASTERS then NewColumns(v, t) else [], SettingsSeed(sql, {S54}, t))
    requires RowsOf(t2, t) == RowsOf(source, t) && (t in source ==> t in t2 && t2[t].columns == source[t].columns)
    requires RowsOf(t4, t) == RowsOf(t3, t) + Added(sql, t, written) && (t in t3 ==> t in t4 && t4[t].columns == t3[t].columns)
    ensures Carried(sql, v, source, t5, written, t)
  {
    NamesDiffer();
    var e := if v < 10 && t == TITLES then NewColumns(v, t) else [];
    var f := if t == MASTERS then NewColumns(v, t) else [];
    RowsThroughStages(RowsOf(source, t), |e|, Added(sql, t, written), |f|, SettingsSeed(sql, {S54}, t), RowsOf(t3, t),
      RowsOf(t4, t), RowsOf(t5, t));
    assert e + f == NewColumns(v, t);
    if t in source { assert source[t].columns + e + f == source[t].columns + (e + f); }
  }

  lemma BackfillAddsRows(sql: Sql, t3: Tables, w: Backfill.Written, t: string)
    requires BACKFILLED <= t3.Keys
    ensures var t4 := WithBackfill(sql, t3, w);
      RowsOf(t4, t) == RowsOf(t3, t) + BackfillRows(sql, t, w) && (t in t3 ==> t in t4 && t4[t].columns == t3[t].columns)
  {
    if t !in t3 { assert t !in BACKFILLED && BackfillRows(sql, t, w) == []; }
  }

  lemma CopiedTable(sql: Sql, v: int, source: Tables, t1: Tables, t2: Tables, t: string)
    requires S46 <= v < CURRENT && RunAll(sql, Scripts(sql, Before(v)), map[]) == Some(t1)
    requires CanCopy(sql, Before(v), source, t1) && t2 == Copied(t1, source)
    ensures RowsOf(t2, t) == RowsOf(source, t) && (t in source ==> t in t2 && t2[t].columns == source[t].columns)
  {
    EmptyBeforeCopy(sql, v, t1);
    CopiedKeepsColumns(sql, Before(v), source, t1, t2);
  }

  lemma BackfilledTable(sql: Sql, t3: Tables, t4: Tables, written: Option<Backfill.Written>, t: string)
    requires t4 == if written.Some? then WithBackfill(sql, t3, written.value) else t3
    requires written.Some? ==> BACKFILLED <= t3.Keys
    ensures RowsOf(t4, t) == RowsOf(t3, t) + Added(sql, t, written) && (t in t3 ==> t in t4 && t4[t].columns == t3[t].columns)
  {
    if written.Some? { BackfillAddsRows(sql, t3, written.value, t); } else { assert RowsOf(t3, t) + [] == RowsOf(t3, t); }
  }

  lemma StagesCarryTable(sql: Sql, v: int, source: Tables, t1: Tables, t2: Tables, t3: Tables, t4: Tables, t5: Tables,
      written: Option<Backfill.Written>, t: string)
    requires S46 <= v < CURRENT && Stages(sql, v, source, t1, t2, t3, t4, t5, written) && t in t5
    requires written.Some? ==> BACKFILLED <= t3.Keys
    ensures Carried(sql, v, source, t5, written, t)
  {
    CopiedTable(sql, v, source, t1, t2, t);
    AfterCopyGrows(sql, v, t2, t3, t);
    BackfilledTable(sql, t3, t4, written, t);
    AtLastGrows(sql, v, t4, t5, t);
    CarriedThroughStages(sql, v, source, t2, t3, t4, t5, written, t);
  }

  /** No table is lost on the way. */
  lemma StagesKeepTables(sql: Sql, v: int, source: Tables, t1: Tables, t2: Tables, t3: Tables, t4: Tables, t5: Tables,
      written: Option<Backfill.Written>)
    requires S46 <= v < CURRENT && Stages(sql, v, source, t1, t2, t3, t4, t5, written)
    ensures source.Keys <= t5.Keys && SETTINGS in t5
  {
    CopiedKeepsColumns(sql, Before(v), source, t1, t2);
    AtLastGrows(sql, v, t4, t5, "");
    forall t | t in source ensures t in t5 { AfterCopyGrows(sql, v, t2, t3, t); }
  }

  /** The stages keep every source row and add what CarriesOver says. */
  lemma StagesCarryOver(sql: Sql, v: int, source: Tables, t1: Tables, t2: Tables, t3: Tables, t4: Tables, t5: Tables,
      written: Option<Backfill.Written>)
    requires S46 <= v < CURRENT && Stages(sql, v, source, t1, t2, t3, t4, t5, written)
    requires written.Some? <==> v == S46
    requires written.Some? ==> BACKFILLED <= t3.Keys && Backfill.IsBackfill(sql.query(Readable(sql, t3)), sql.now, written.value)
    ensures CarriesOver(sql, v, source, t5, written)
  {
    StagesMakeShape(sql, v, source, t1, t2, t3, t4, t5, written);
    StagesKeepTables(sql, v, source, t1, t2, t3, t4, t5, written);
    forall t | t in t5 ensures Carried(sql, v, source, t5, written, t) {
      StagesCarryTable(sql, v, source, t1, t2, t3, t4, t5, written, t);
    }
    if v == S46 { BackfillReadsSource(sql, source, t1, t2, t3); }
  }

  /** What the backfill reads is what was copied. */
  lemma BackfillReadsSource(sql: Sql, source: Tables, t1: Tables, t2: Tables, t3: Tables)
    requires RunAll(sql, Scripts(sql, Before(S46)), map[]) == Some(t1) && t2 == Copied(t1, source)
    requires RunAll(sql, Scripts(sql, AfterCopy(S46)), t2) == Some(t3)
    ensures sql.query(Readable(sql, t3)) == BackfillInput(sql, source)
  {
    S47TablesFirst(sql, t1);
    forall t | t in READ && t in t2 ensures t in t3 && t3[t] == t2[t] {
      AfterCopyGrows(sql, S46, t2, t3, t);
      ReadTablesKeepColumns(t);
      PadTwice(t2[t].rows, 0, 0);
      assert t2[t].columns + [] == t2[t].columns && Pad(t2[t].rows, 0) + [] == t2[t].rows;
    }
    assert Readable(sql, t3) == Readable(sql, t2);
  }

  lemma S47TablesFirst(sql: Sql, t1: Tables)
    requires RunAll(sql, Scripts(sql, Before(S46)), map[]) == Some(t1)
    ensures t1.Keys == sql.creates(S47Tables).Keys
  {
    var parts := Before(S46);
    assert parts == [S47Tables] && parts[..0] == [] && Scripts(sql, []) == [];
    var script := [Create(sql.creates(S47Tables))];
    assert Scripts(sql, parts) == script && script[..0] == [];
  }

  // ---------- when a migration goes through ----------

  /** The installers build a fresh database, and it has the tables the backfill writes. */
  ghost predicate Builds(sql: Sql) {
    RunShapes(Scripts(sql, FRESH), map[]).Some? && BACKFILLED <= sql.creates(S47Tables).Keys
    && sql.accepts(S53, VERIFICATIONS, []) && sql.accepts(S53, HISTORY, [])
  }

  /** The columns that a source of version v should have. */
  function SourceShape(sql: Sql, v: int): Option<Shape> {
    RunShapes(Scripts(sql, Before(v)), map[])
  }

  /** A source table that fits its version, by name, columns and rows. */
  ghost predicate Orderly(sql: Sql, v: int, name: string, table: Table) {
    SourceShape(sql, v).Some? && name in SourceShape(sql, v).value && SourceShape(sql, v).value[name] == table.columns
    && IsIdentifier(name) && (forall c :: c in table.columns ==> IsIdentifier(c))
    && forall p :: p in Before(v) ==> sql.accepts(p, name, table.rows)
  }

  /** The target of an S46 source when it is to be backfilled. */
  function AtBackfill(sql: Sql, source: Tables): Option<Tables> {
    match AtCopy(sql, S46, source)
    case None => None
    case Some(tables) => RunAll(sql, Scripts(sql, AfterCopy(S46)), tables)
  }

  /** The backfill's preflight passes, and the rules in force let it insert what it writes into the target as it then is. */
  ghost predicate CanBackfill(sql: Sql, source: Tables) {
    Backfill.Preflight(BackfillInput(sql, source)) &&
    forall w | AtBackfill(sql, source).Some? && Backfill.IsBackfill(BackfillInput(sql, source), sql.now, w) ::
      sql.admits(AtBackfill(sql, source).value, w)
  }

  /** Nothing in the source's tables stands in the way of a version v migration. */
  ghost predicate CanBuild(sql: Sql, v: int, source: Tables) {
    && Builds(sql)
    && (forall t :: t in source ==> Orderly(sql, v, t, source[t]))
    && (v < 15 ==>
      sql.accepts(S53, VERIFICATIONS, RowsOf(source, VERIFICATIONS)) &&
      sql.accepts(S53, HISTORY, RowsOf(source, HISTORY)))
    && (v == S46 ==> CanBackfill(sql, source))
  }

  lemma {:induction false} OnlyS53Rebuilds(sql: Sql, parts: seq<Part>)
    ensures forall i :: 0 <= i < |Scripts(sql, parts)| && Scripts(sql, parts)[i].Rebuild? ==>
      S53 in parts && Scripts(sql, parts)[i].table in {VERIFICATIONS, HISTORY}
  {
    if parts != [] {
      OnlyS53Rebuilds(sql, parts[..|parts| - 1]);
      assert parts == parts[..|parts| - 1] + [parts[|parts| - 1]];
    }
  }

  /** The first installers run whenever a fresh database can be built. */
  lemma BeforeRuns(sql: Sql, v: int)
    requires S46 <= v < CURRENT && Builds(sql)
    ensures RunAll(sql, Scripts(sql, Before(v)), map[]).Some?
    ensures SourceShape(sql, v) == Some(ShapeOf(RunAll(sql, Scripts(sql, Before(v)), map[]).value))
  {
    var script := Scripts(sql, Before(v));
    PlanShapes(sql, v);
    ScriptsAreProper(sql, Before(v));
    OnlyS53Rebuilds(sql, Before(v));
    assert ShapeOf(map[]) == map[];
    assert Rebuildable(sql, script, map[]);
    ScriptShapes(sql, script, map[]);
  }

  lemma OrderlyIsCopyable(sql: Sql, v: int, source: Tables, t1: Tables)
    requires S46 <= v < CURRENT && CanBuild(sql, v, source) && RunAll(sql, Scripts(sql, Before(v)), map[]) == Some(t1)
    ensures CanCopy(sql, Before(v), source, t1)
  {
    BeforeRuns(sql, v);
    EmptyBeforeCopy(sql, v, t1);
    forall t | t in source ensures Copyable(sql, Before(v), t, source[t], t1) {
      assert Orderly(sql, v, t, source[t]);
      assert t in ShapeOf(t1);
    }
  }

  lemma AfterCopyRuns(sql: Sql, v: int, source: Tables, t1: Tables, t2: Tables)
    requires S46 <= v < CURRENT && Builds(sql) && RunAll(sql, Scripts(sql, Before(v)), map[]) == Some(t1)
    requires CanCopy(sql, Before(v), source, t1) && t2 == Copied(t1, source)
    ensures RunAll(sql, Scripts(sql, AfterCopy(v)), t2).Some?
  {
    var script := Scripts(sql, AfterCopy(v));
    BeforeRuns(sql, v);
    PlanShapes(sql, v);
    CopiedKeepsColumns(sql, Before(v), source, t1, t2);
    ScriptsAreProper(sql, AfterCopy(v));
    OnlyS53Rebuilds(sql, AfterCopy(v));
    StageParts(v);
    assert Rebuildable(sql, script, t2);
    ScriptShapes(sql, script, t2);
  }

  lemma AtLastRuns(sql: Sql, v: int, source: Tables, t1: Tables, t2: Tables, t3: Tables, t4: Tables,
      written: Option<Backfill.Written>)
    requires S46 <= v < CURRENT && CanBuild(sql, v, source) && RunAll(sql, Scripts(sql, Before(v)), map[]) == Some(t1)
    requires CanCopy(sql, Before(v), source, t1) && t2 == Copied(t1, source)
    requires RunAll(sql, Scripts(sql, AfterCopy(v)), t2) == Some(t3)
    requires t4 == if written.Some? then WithBackfill(sql, t3, written.value) else t3
    ensures RunAll(sql, Scripts(sql, AtLast(v)), t4).Some?
  {
    var script := Scripts(sql, AtLast(v));
    BeforeRuns(sql, v);
    PlanShapes(sql, v);
    CopiedKeepsColumns(sql, Before(v), source, t1, t2);
    ScriptsAreProper(sql, AfterCopy(v));
    ScriptShapes(sql, Scripts(sql, AfterCopy(v)), t2);
    if written.Some? { BackfillKeepsColumns(sql, t3, written.value); }
    ScriptsAreProper(sql, AtLast(v));
    LastIsRebuildable(sql, v, source, t1, t2, t3, t4, written);
    ScriptShapes(sql, script, t4);
  }

  lemma LastIsRebuildable(sql: Sql, v: int, source: Tables, t1: Tables, t2: Tables, t3: Tables, t4: Tables,
      written: Option<Backfill.Written>)
    requires S46 <= v < CURRENT && CanBuild(sql, v, source) && RunAll(sql, Scripts(sql, Before(v)), map[]) == Some(t1)
    requires CanCopy(sql, Before(v), source, t1) && t2 == Copied(t1, source)
    requires RunAll(sql, Scripts(sql, AfterCopy(v)), t2) == Some(t3)
    requires t4 == if written.Some? then WithBackfill(sql, t3, written.value) else t3
    ensures Rebuildable(sql, Scripts(sql, AtLast(v)), t4)
  {
    OnlyS53Rebuilds(sql, AtLast(v));
    StageParts(v);
    RowsAreSourceRows(sql, v, source, t1, t2, t3, t4, written, VERIFICATIONS);
    RowsAreSourceRows(sql, v, source, t1, t2, t3, t4, written, HISTORY);
  }

  /** A table that is neither extended nor backfilled holds the source's rows until the last stage. */
  lemma RowsAreSourceRows(sql: Sql, v: int, source: Tables, t1: Tables, t2: Tables, t3: Tables, t4: Tables,
      written: Option<Backfill.Written>, t: string)
    requires S46 <= v < CURRENT && RunAll(sql, Scripts(sql, Before(v)), map[]) == Some(t1)
    requires CanCopy(sql, Before(v), source, t1) && t2 == Copied(t1, source)
    requires RunAll(sql, Scripts(sql, AfterCopy(v)), t2) == Some(t3)
    requires t4 == if written.Some? then WithBackfill(sql, t3, written.value) else t3
    requires t in {VERIFICATIONS, HISTORY}
    ensures RowsOf(t4, t) == RowsOf(source, t)
  {
    NamesDiffer();
    EmptyBeforeCopy(sql, v, t1);
    CopiedKeepsColumns(sql, Before(v), source, t1, t2);
    AfterCopyGrows(sql, v, t2, t3, t);
    PadTwice(RowsOf(t2, t), 0, 0);
    assert Pad(RowsOf(t2, t), 0) + [] == RowsOf(t2, t);
    NotBackfilled(t);
    if t in t3 { assert RowsOf(t3, t) + [] == RowsOf(t3, t); }
  }

  lemma NotBackfilled(t: string)
    requires t in {VERIFICATIONS, HISTORY}
    ensures t !in BACKFILLED
  {
    assert VERIFICATIONS[0] == 's' && HISTORY[0] == 's' && POLICIES[0] == 'j' && MONTHS[0] == 'a' && REVISIONS[0] == 'a';
  }

  // ---------- publishing ----------

  /** What a published target has kept and gained. */
  ghost predicate MigratedFrom(sql: Sql, source: Db, result: Db) {
    && SourceVersion(source).Some? && SourceVersion(source).value < CURRENT && Valid(result)
    && (exists written :: CarriesOver(sql, SourceVersion(source).value, source.tables, result.tables, written))
    && result.ledger == source.ledger + [LedgerRow(CURRENT, SchemaOf(CURRENT))]
  }

  /** A recognised source older than the current schema whose content nothing refuses. */
  ghost predicate CanMigrate(sql: Sql, source: Db) {
    && SourceVersion(source).Some? && SourceVersion(source).value < CURRENT
    && CanBuild(sql, SourceVersion(source).value, source.tables)
    && forall target, written | CarriesOver(sql, SourceVersion(source).value, source.tables, target, written) :: sql.sound(target)
  }

  /** A migrated database is recognised as current, whatever its source was. */
  lemma MigratedIsCurrent(sql: Sql, source: Db, result: Db)
    requires MigratedFrom(sql, source, result)
    ensures SourceVersion(result) == Some(CURRENT) && result != source
  {
    LedgerDecides(source, result, LedgerRow(CURRENT, SchemaOf(CURRENT)));
  }

  lemma LedgerDecides(source: Db, result: Db, row: LedgerRow)
    requires SourceVersion(source).Some? && Valid(result) && row.version == CURRENT && result.ledger == source.ledger + [row]
    ensures SourceVersion(result) == Some(CURRENT) && result != source
  {
    assert |result.ledger| == |source.ledger| + 1;
    forall r | r in result.ledger ensures 0 <= r.version <= CURRENT {
      assert r in source.ledger || r == row;
    }
  }

  /** With the ledger row added, only the integrity checks are left to decide. */
  lemma BuiltIsValidIff(source: Db, built: Db)
    requires SourceVersion(source).Some? && SourceVersion(source).value < CURRENT
    requires built.schema == SchemaOf(CURRENT) &&
      built.ledger == source.ledger + [LedgerRow(CURRENT, SchemaOf(CURRENT))] && built.ordinary
    ensures Valid(built) <==> built.intact
  {
    RowForAppended(source.ledger, LedgerRow(CURRENT, SchemaOf(CURRENT)));
  }

}
