/** Migrating an existing database (packages/db/src/migrate-existing.ts): the program. */
module MigrationRun {
  import opened Wrappers
  import opened Migration
  import Backfill

  /** The installers before the copy ran, and the copy did. */
  ghost predicate HasCopied(sql: Sql, v: int, source: Tables, t1: Tables, t2: Tables) {
    RunAll(sql, Scripts(sql, Before(v)), map[]) == Some(t1) && CanCopy(sql, Before(v), source, t1) && t2 == Copied(t1, source)
  }

  /** The installers after the copy ran, and for an S46 source the backfill did. */
  ghost predicate HasBackfilled(sql: Sql, v: int, t2: Tables, t3: Tables, t4: Tables, written: Option<Backfill.Written>) {
    && RunAll(sql, Scripts(sql, AfterCopy(v)), t2) == Some(t3)
    && (written.Some? <==> v == S46)
    && (written.Some? ==> BACKFILLED <= t3.Keys && Backfill.IsBackfill(sql.query(Readable(sql, t3)), sql.now, written.value))
    && t4 == if written.Some? then WithBackfill(sql, t3, written.value) else t3
  }

  /** The backfill finds its tables, its preflight passes, and the rules allow what it inserts. */
  ghost predicate BackfillRuns(sql: Sql, tables: Tables) {
    BACKFILLED <= tables.Keys && Backfill.Preflight(sql.query(Readable(sql, tables))) &&
    forall w | Backfill.IsBackfill(sql.query(Readable(sql, tables)), sql.now, w) :: sql.admits(tables, w)
  }

  /** The first i installers of a list took the tables from start to now. */
  ghost predicate HasRun(sql: Sql, list: seq<Part>, i: nat, start: Tables, now: Tables) {
    i <= |list| && RunAll(sql, Scripts(sql, list[..i]), start) == Some(now)
  }

  lemma NothingRun(sql: Sql, list: seq<Part>, start: Tables)
    ensures HasRun(sql, list, 0, start, start)
  {
    assert list[..0] == [] && Scripts(sql, []) == [];
  }

  lemma AllRun(sql: Sql, list: seq<Part>, start: Tables, now: Tables)
    requires HasRun(sql, list, |list|, start, now)
    ensures RunAll(sql, Scripts(sql, list), start) == Some(now)
  {
    assert list[..|list|] == list;
  }

  class Target {
    const sql: Sql
    /** Neither the operating system nor SQLite itself fails. */
    const calm: bool
    var parts: seq<Part>
    var tables: Tables
    var ledger: seq<LedgerRow>

    constructor (sql: Sql, calm: bool)
      ensures this.sql == sql && this.calm == calm && parts == [] && tables == map[] && ledger == []
    {
      this.sql, this.calm := sql, calm;
      parts, tables, ledger := [], map[], [];
    }

    /** Success of SQLite and of the operating system. */
    method Attempt() returns (ok: bool)
      ensures calm ==> ok
    {
      ok := *;
      ok := ok || calm;
    }

    /** Runs one installer, statement by statement. */
    method Install(p: Part) returns (ok: bool)
      modifies this`parts, this`tables
      ensures ok ==> parts == old(parts) + [p] && RunAll(sql, Script(sql, p), old(tables)) == Some(tables)
      ensures calm ==> (ok <==> RunAll(sql, Script(sql, p), old(tables)).Some?)
    {
      var script := Script(sql, p);
      for i := 0 to |script|
        invariant parts == old(parts) && RunAll(sql, script[..i], old(tables)) == Some(tables)
      {
        assert script[..i + 1][..i] == script[..i] && script[..i + 1][i] == script[i];
        RunPrefix(sql, script, i + 1, old(tables));
        ok := Attempt();
        var next := Run(sql, script[i], tables);
        if !ok || next.None? { return false; }
        tables := next.value;
      }
      assert script[..|script|] == script;
      parts := parts + [p];
      return true;
    }

    /** The next installer of a list that began with the given tables. */
    method InstallNext(list: seq<Part>, i: nat, ghost start: Tables) returns (ok: bool)
      requires i < |list| && HasRun(sql, list, i, start, tables)
      modifies this`parts, this`tables
      ensures ok ==> parts == old(parts) + [list[i]] && HasRun(sql, list, i + 1, start, tables)
      ensures calm && !ok ==> RunAll(sql, Scripts(sql, list), start).None?
    {
      ScriptsPrefix(sql, list, i, start);
      ok := Install(list[i]);
    }

    /** Installs parts in the given order. */
    method InstallAll(list: seq<Part>) returns (ok: bool)
      modifies this`parts, this`tables
      ensures ok ==> parts == old(parts) + list && RunAll(sql, Scripts(sql, list), old(tables)) == Some(tables)
      ensures calm ==> (ok <==> RunAll(sql, Scripts(sql, list), old(tables)).Some?)
    {
      NothingRun(sql, list, tables);
      for i := 0 to |list|
        invariant parts == old(parts) + list[..i] && HasRun(sql, list, i, old(tables), tables)
      {
        ok := InstallNext(list, i, old(tables));
        if !ok { return false; }
        assert list[..i + 1] == list[..i] + [list[i]];
      }
      assert list[..|list|] == list;
      AllRun(sql, list, old(tables), tables);
      return true;
    }

    /** copyData */
    method CopyData(previous: Db) returns (ok: bool)
      modifies this`tables, this`ledger
      ensures ok ==> CanCopy(sql, parts, previous.tables, old(tables)) && tables == Copied(old(tables), previous.tables)
      ensures ok ==> ledger == old(ledger) + previous.ledger
      ensures calm ==> (ok <==> CanCopy(sql, parts, previous.tables, old(tables)))
    {
      var pending := previous.tables.Keys;
      while pending != {}
        invariant pending <= previous.tables.Keys && ledger == old(ledger)
        invariant tables.Keys == old(tables.Keys)
        invariant forall t :: t in previous.tables && t !in pending ==> Copyable(sql, parts, t, previous.tables[t], old(tables))
        invariant forall t :: t in tables ==>
          tables[t] == if t in previous.tables && t !in pending
            then Table(old(tables)[t].columns, previous.tables[t].rows) else old(tables)[t]
      {
        var name :| name in pending;
        pending := pending - {name};
        ok := CopyTable(name, previous.tables[name]);
        if !ok { return false; }
      }
      assert tables == Copied(old(tables), previous.tables);
      ledger := ledger + previous.ledger;
      return true;
    }

    /** One table of copyData, with its checks in order. */
    method CopyTable(name: string, source: Table) returns (ok: bool)
      modifies this`tables
      ensures ok ==>
        Copyable(sql, parts, name, source, old(tables)) &&
        tables == old(tables)[name := Table(old(tables)[name].columns, source.rows)]
      ensures !ok && Copyable(sql, parts, name, source, old(tables)) ==> !calm
    {
      if name !in tables || !IsIdentifier(name) { return false; }
      if source.columns != tables[name].columns || exists c :: c in source.columns && !IsIdentifier(c) { return false; }
      ok := Attempt();
      var inserted := tables[name].rows + source.rows;
      if !ok || exists p :: p in parts && !sql.accepts(p, name, source.rows) { return false; }
      if |source.rows| != |inserted| { return false; }
      assert tables[name].rows == [] && inserted == source.rows;
      tables := tables[name := Table(tables[name].columns, inserted)];
    }

    /** backfill, on what its queries find in the target. */
    method RunBackfill() returns (ok: bool, ghost written: Option<Backfill.Written>)
      modifies this`tables
      ensures ok <==> written.Some?
      ensures ok ==> Backfill.IsBackfill(sql.query(Readable(sql, old(tables))), sql.now, written.value)
      ensures ok ==> BACKFILLED <= old(tables).Keys && tables == WithBackfill(sql, old(tables), written.value)
      ensures ok ==> sql.admits(old(tables), written.value)
      ensures calm && BackfillRuns(sql, old(tables)) ==> ok
    {
      var w := Backfill.WriteBackfill(sql.query(Readable(sql, tables)), sql.now);
      if w.None? { return false, None; }
      ok := Attempt();
      if !ok || !(BACKFILLED <= tables.Keys) || !sql.admits(tables, w.value) { return false, None; }
      tables := WithBackfill(sql, tables, w.value);
      written := w;
    }

    /** Up to the copy. */
    method CopyStage(v: int, previous: Db) returns (ok: bool, ghost t1: Tables)
      requires parts == [] && tables == map[] && ledger == [] && S46 <= v < CURRENT
      modifies this`parts, this`tables, this`ledger
      ensures ok ==> parts == Before(v) && ledger == previous.ledger && HasCopied(sql, v, previous.tables, t1, tables)
      ensures ok ==> SourceShape(sql, v).Some? && t1.Keys == SourceShape(sql, v).value.Keys && previous.tables.Keys <= t1.Keys
      ensures calm && CanBuild(sql, v, previous.tables) ==> ok
    {
      t1 := map[];
      if CanBuild(sql, v, previous.tables) { BeforeRuns(sql, v); }
      ok := InstallBefore(v);
      if !ok { return; }
      t1 := tables;
      if CanBuild(sql, v, previous.tables) { OrderlyIsCopyable(sql, v, previous.tables, t1); }
      ok := CopyData(previous);
      if ok { CopyShape(sql, v, previous.tables, t1, tables); }
    }

    /** From the copy to the backfill. */
    method BackfillStage(v: int, ghost source: Tables, ghost t1: Tables)
      returns (ok: bool, ghost t3: Tables, ghost written: Option<Backfill.Written>)
      requires S46 <= v < CURRENT && parts == Before(v) && HasCopied(sql, v, source, t1, tables)
      modifies this`parts, this`tables
      ensures ok ==> parts == Before(v) + AfterCopy(v) && HasBackfilled(sql, v, old(tables), t3, tables, written)
      ensures calm && CanBuild(sql, v, source) ==> ok
    {
      ghost var t2 := tables;
      t3, written := t2, None;
      if CanBuild(sql, v, source) { AfterCopyRuns(sql, v, source, t1, t2); }
      ok := InstallAfterCopy(v);
      if !ok { return; }
      t3 := tables;
      if v == S46 {
        if CanBuild(sql, v, source) { BackfillFits(sql, source, t1, t2, t3); }
        ok, written := RunBackfill();
      }
    }

    /** After the backfill. */
    method FinalStage(v: int, ghost source: Tables, ghost t1: Tables, ghost t2: Tables, ghost t3: Tables,
        ghost written: Option<Backfill.Written>)
      returns (ok: bool)
      requires S46 <= v < CURRENT && parts == Before(v) + AfterCopy(v)
      requires HasCopied(sql, v, source, t1, t2) && HasBackfilled(sql, v, t2, t3, tables, written)
      modifies this`parts, this`tables
      ensures ok ==> PartsOf(parts) == SchemaOf(CURRENT) && OnceAndInOrder(parts)
      ensures ok ==> CarriesOver(sql, v, source, tables, written)
      ensures calm && CanBuild(sql, v, source) ==> ok
    {
      LastStage(sql, v, source, t1, t2, t3, tables, written);
      ok := InstallLast(v);
      if ok { FinalParts(v, parts); }
    }

    /**
     * The transaction body up to the ledger row: for each source the installers run in their own
     * order around the copy, with the same result.
     */
    method Build(v: int, previous: Db) returns (ok: bool, ghost copiedInto: set<string>, ghost written: Option<Backfill.Written>)
      requires parts == [] && tables == map[] && ledger == [] && S46 <= v < CURRENT
      modifies this`parts, this`tables, this`ledger
      ensures ok ==> PartsOf(parts) == SchemaOf(CURRENT) && OnceAndInOrder(parts)
      ensures ok ==>
        SourceShape(sql, v).Some? && copiedInto == SourceShape(sql, v).value.Keys && previous.tables.Keys <= copiedInto
      ensures ok ==> CarriesOver(sql, v, previous.tables, tables, written)
      ensures ok ==> ledger == previous.ledger
      ensures calm && CanBuild(sql, v, previous.tables) ==> ok
    {
      copiedInto, written := {}, None;
      ghost var t1, t3;
      ok, t1 := CopyStage(v, previous);
      if !ok { return; }
      ghost var t2 := tables;
      copiedInto := t1.Keys;
      ok, t3, written := BackfillStage(v, previous.tables, t1);
      if !ok { return; }
      ok := FinalStage(v, previous.tables, t1, t2, t3, written);
    }

    /** Installers that run before the copy. */
    method InstallBefore(v: int) returns (ok: bool)
      requires S46 <= v < CURRENT
      modifies this`parts, this`tables
      ensures ok ==> parts == old(parts) + Before(v) && RunAll(sql, Scripts(sql, Before(v)), old(tables)) == Some(tables)
      ensures calm ==> (ok <==> RunAll(sql, Scripts(sql, Before(v)), old(tables)).Some?)
    {
      var list := [S47Tables];
      if v == 14 || v == 15 {
        list := list + [S48, S49Tables, S50, S51, S52];
        if v == 15 { list := list + [S53]; }
      }
      if v == 13 { list := list + [S48, S49Tables, S50, S51]; }
      if v == 12 { list := list + [S48, S49Tables, S50]; }
      if v == 10 || v == 11 { list := list + [S48]; }
      if v == 11 { list := list + [S49Tables]; }
      assert list == Before(v);
      ok := InstallAll(list);
    }

    /** Installers between the copy and the backfill. */
    method InstallAfterCopy(v: int) returns (ok: bool)
      requires S46 <= v < CURRENT
      modifies this`parts, this`tables
      ensures ok ==> parts == old(parts) + AfterCopy(v) && RunAll(sql, Scripts(sql, AfterCopy(v)), old(tables)) == Some(tables)
      ensures calm ==> (ok <==> RunAll(sql, Scripts(sql, AfterCopy(v)), old(tables)).Some?)
    {
      var list := [];
      if v < 10 { list := list + [S48]; }
      if v < 11 { list := list + [S49Tables, S49Triggers]; } else { list := list + [S49Triggers]; }
      if v < 12 { list := list + [S50]; }
      list := list + [S47Triggers];
      assert list == AfterCopy(v);
      ok := InstallAll(list);
    }

    /** Installers after the backfill. */
    method InstallLast(v: int) returns (ok: bool)
      requires S46 <= v < CURRENT
      modifies this`parts, this`tables
      ensures ok ==> parts == old(parts) + AtLast(v) && RunAll(sql, Scripts(sql, AtLast(v)), old(tables)) == Some(tables)
      ensures calm ==> (ok <==> RunAll(sql, Scripts(sql, AtLast(v)), old(tables)).Some?)
    {
      var list := [];
      if v < 13 { list := list + [S51]; }
      if v < 14 { list := list + [S52]; }
      if v < 15 { list := list + [S53]; }
      list := list + [S54];
      assert list == AtLast(v);
      ok := InstallAll(list);
    }
  }

  lemma RunPrefix(sql: Sql, script: seq<Statement>, i: nat, tables: Tables)
    requires i <= |script|
    ensures RunAll(sql, script, tables).Some? ==> RunAll(sql, script[..i], tables).Some?
  {
    RunAllConcat(sql, script[..i], script[i..], tables);
    assert script == script[..i] + script[i..];
  }

  lemma ScriptsPrefix(sql: Sql, list: seq<Part>, i: nat, tables: Tables)
    requires i < |list| && RunAll(sql, Scripts(sql, list[..i]), tables).Some?
    ensures RunAll(sql, Scripts(sql, list[..i + 1]), tables) ==
      RunAll(sql, Script(sql, list[i]), RunAll(sql, Scripts(sql, list[..i]), tables).value)
    ensures RunAll(sql, Scripts(sql, list), tables).Some? ==> RunAll(sql, Scripts(sql, list[..i + 1]), tables).Some?
  {
    assert list[..i + 1][..i] == list[..i];
    RunAllConcat(sql, Scripts(sql, list[..i]), Script(sql, list[i]), tables);
    assert list == list[..i + 1] + list[i + 1..];
    ScriptsConcat(sql, list[..i + 1], list[i + 1..]);
    RunAllConcat(sql, Scripts(sql, list[..i + 1]), Scripts(sql, list[i + 1..]), tables);
  }

  lemma FinalParts(v: int, parts: seq<Part>)
    requires S46 <= v < CURRENT && parts == Before(v) + AfterCopy(v) + AtLast(v)
    ensures PartsOf(parts) == SchemaOf(CURRENT) && OnceAndInOrder(parts)
  {
    PlanIsComplete(v);
  }

  lemma CopyShape(sql: Sql, v: int, source: Tables, t1: Tables, t2: Tables)
    requires HasCopied(sql, v, source, t1, t2)
    ensures SourceShape(sql, v).Some? && SourceShape(sql, v).value.Keys == t1.Keys && source.Keys <= t1.Keys
  {
    BeforeHasShape(sql, v, t1);
    CopiedKeepsColumns(sql, Before(v), source, t1, t2);
  }

  /** The last installers run if the source can be migrated, and then everything is carried over. */
  lemma LastStage(sql: Sql, v: int, source: Tables, t1: Tables, t2: Tables, t3: Tables, t4: Tables,
      written: Option<Backfill.Written>)
    requires S46 <= v < CURRENT && HasCopied(sql, v, source, t1, t2) && HasBackfilled(sql, v, t2, t3, t4, written)
    ensures var last := RunAll(sql, Scripts(sql, AtLast(v)), t4);
      (CanBuild(sql, v, source) ==> last.Some?) && (last.Some? ==> CarriesOver(sql, v, source, last.value, written))
  {
    if CanBuild(sql, v, source) { AtLastRuns(sql, v, source, t1, t2, t3, t4, written); }
    var last := RunAll(sql, Scripts(sql, AtLast(v)), t4);
    if last.Some? { StagesCarryOver(sql, v, source, t1, t2, t3, t4, last.value, written); }
  }

  lemma BeforeHasShape(sql: Sql, v: int, t1: Tables)
    requires RunAll(sql, Scripts(sql, Before(v)), map[]) == Some(t1)
    ensures SourceShape(sql, v) == Some(ShapeOf(t1)) && ShapeOf(t1).Keys == t1.Keys
  {
    ScriptsAreProper(sql, Before(v));
    assert ShapeOf(map[]) == map[];
    ScriptShapes(sql, Scripts(sql, Before(v)), map[]);
  }

  /** An S46 source that can be backfilled still can once its target is ready for it. */
  lemma BackfillFits(sql: Sql, source: Tables, t1: Tables, t2: Tables, t3: Tables)
    requires Builds(sql) && CanBackfill(sql, source)
    requires RunAll(sql, Scripts(sql, Before(S46)), map[]) == Some(t1)
    requires CanCopy(sql, Before(S46), source, t1) && t2 == Copied(t1, source)
    requires RunAll(sql, Scripts(sql, AfterCopy(S46)), t2) == Some(t3)
    ensures BackfillRuns(sql, t3)
  {
    BackfillReadsSource(sql, source, t1, t2, t3);
    S47TablesFirst(sql, t1);
    CopiedKeepsColumns(sql, Before(S46), source, t1, t2);
    forall t | t in BACKFILLED ensures t in t3 { AfterCopyGrows(sql, S46, t2, t3, t); }
    assert AtBackfill(sql, source) == Some(t3);
  }

  // ---------- publishing ----------

  datatype Outcome = Migrated | Noop | Failed | Crashed

  /** What happens to the process before its next step. */
  datatype Fate = Go | Raise | Die

  class Volume {
    /** The file at the database path, the sidecars beside it, and the temporary directory. */
    var database: Option<Db>
    var sidecars: bool
    var temporary: bool
    /** Nothing outside the model fails, and no sidecar appears. */
    const calm: bool

    constructor (db: Option<Db>, calm: bool)
      ensures database == db && !sidecars && !temporary && this.calm == calm
    {
      database, sidecars, temporary := db, false, false;
      this.calm := calm;
    }

    method Environment() returns (fate: Fate)
      ensures calm ==> fate == Go
    {
      fate := *;
      if calm { fate := Go; }
    }

    /** mkdtemp, snapshot, and the transaction: a validated target, or a reason to stop. */
    method PrepareTarget(sql: Sql, v: int, source: Db) returns (fate: Fate, target: Db)
      requires SourceVersion(source) == Some(v) && v < CURRENT
      modifies this`temporary
      ensures fate == Go ==> MigratedFrom(sql, source, target) && temporary
      ensures calm && CanMigrate(sql, source) ==> fate == Go
    {
      target := source;
      fate := Environment();
      if fate != Go { return; }
      temporary := true;
      fate := Environment();
      if fate != Go { return; }
      SourceVersionRange(source);
      var t := new Target(sql, calm);
      ghost var copiedInto, written;
      var ok;
      ok, copiedInto, written := t.Build(v, source);
      if !ok { return Raise, source; }
      var schema := set p | p in t.parts;
      assert schema == PartsOf(t.parts);
      if schema != SchemaOf(CURRENT) { return Raise, source; }
      var built := Db(schema, t.tables, t.ledger + [LedgerRow(CURRENT, SchemaOf(CURRENT))], sql.sound(t.tables), true);
      fate := Environment();
      if fate != Go { return; }
      BuiltIsValidIff(source, built);
      if !Valid(built) { return Raise, source; }
      return Go, built;
    }

    /** From the built target to the rename. */
    method Publish(target: Db) returns (fate: Fate)
      requires !sidecars
      modifies this`database, this`sidecars
      ensures database == if fate == Go then Some(target) else old(database)
      ensures fate == Go ==> !sidecars
      ensures calm ==> fate == Go
    {
      fate := Environment();        // reopen and validate, permissions, fsync, release the source
      if fate != Go { return; }
      sidecars := *;
      sidecars := sidecars && !calm;
      if sidecars { return Raise; }
      fate := Environment();
      if fate == Go { database := Some(target); }
    }

    /**
     * migrateExistingDatabase. Wherever it fails or dies, the path holds the original database or,
     * exactly when the rename took place, a validated target that carries everything over. After a
     * rename it reports success exactly when the temporary directory is gone. A current database is
     * left alone; and when nothing outside fails, a source that nothing refuses is migrated.
     */
    method Migrate(sql: Sql) returns (r: Outcome, ghost renamed: bool)
      modifies this
      ensures renamed <==> database != old(database)
      ensures renamed ==> old(database).Some? && database.Some? && MigratedFrom(sql, old(database).value, database.value)
      ensures renamed ==> (r == Migrated <==> !temporary)
      ensures r == Migrated ==> renamed && !sidecars
      ensures r == Noop ==> !renamed && database.Some? && Valid(database.value)
      ensures old(database).Some? && SourceVersion(old(database).value) in {None, Some(CURRENT)} ==> !renamed
      ensures calm && !old(sidecars) ==> !sidecars
      ensures calm && !old(sidecars) && old(database).Some? && SourceVersion(old(database).value) == Some(CURRENT) ==> r == Noop
      ensures calm && !old(sidecars) && old(database).Some? && CanMigrate(sql, old(database).value) ==> r == Migrated
    {
      renamed := false;
      if database.None? || sidecars { return Failed, renamed; }
      var source := database.value;
      var fate := Environment();
      if fate != Go { return if fate == Die then Crashed else Failed, renamed; }
      var version := SourceVersion(source);
      if version.None? { return Failed, renamed; }
      SourceVersionRange(source);
      if version.value == CURRENT { return Noop, renamed; }
      var target;
      fate, target := PrepareTarget(sql, version.value, source);
      if fate == Go {
        MigratedIsCurrent(sql, source, target);
        fate := Publish(target);
        renamed := fate == Go;
      }
      if fate == Die { return Crashed, renamed; }
      r := if fate == Go then Migrated else Failed;
      fate := Environment();        // removing the temporary directory
      if fate == Die { return Crashed, renamed; }
      if fate == Raise { return Failed, renamed; }
      temporary := false;
    }
  }

  /** After a migration that succeeded the next one changes nothing, and if nothing fails it says so. */
  method MigrateTwice(volume: Volume, sql: Sql) returns (first: Outcome, second: Outcome, ghost between: Option<Db>)
    modifies volume
    ensures first == Migrated ==>
      old(volume.database).Some? && between.Some? && MigratedFrom(sql, old(volume.database).value, between.value)
    ensures first == Migrated ==> volume.database == between && second != Migrated
    ensures first == Migrated && volume.calm ==> second == Noop
  {
    ghost var renamed, again;
    first, renamed := volume.Migrate(sql);
    between := volume.database;
    if first == Migrated { MigratedIsCurrent(sql, old(volume.database).value, between.value); }
    second, again := volume.Migrate(sql);
  }
}
