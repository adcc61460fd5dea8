/** The warehouse connection and the table operations of src/services/snowflakeService.ts.
    Each operation sends one statement; the connection applies it to its tables when the
    warehouse accepts it and records it in its statement log either way. */
module Snowflake {
  import opened Wrappers
  import opened Csv
  import opened Sql

  /** Running `stmts` from tables `t0` and log `log0` ended in tables `t` and log `log`:
      the statements sent were appended to the log, up to and including the first one that
      failed, and `failed` says whether one did. */
  ghost predicate RanFrom(t0: Tables, log0: seq<Stmt>, stmts: seq<Stmt>, failed: bool,
                          t: Tables, log: seq<Stmt>, faulty: nat -> bool, step: Step)
  {
    var run := RunFrom(t0, stmts, |log0|, faulty, step);
    log == log0 + stmts[..run.issued] && t == run.tables && failed == run.failed
  }

  lemma RanNothing(t: Tables, log: seq<Stmt>, faulty: nat -> bool, step: Step)
    ensures RanFrom(t, log, [], false, t, log, faulty, step)
  {
    assert log + [] == log;
  }

  /** Two runs in a row, the first without failure, make one run of both statement lists. */
  lemma RanThen(t0: Tables, log0: seq<Stmt>, a: seq<Stmt>, t1: Tables, log1: seq<Stmt>,
                b: seq<Stmt>, failed: bool, t2: Tables, log2: seq<Stmt>,
                faulty: nat -> bool, step: Step)
    requires RanFrom(t0, log0, a, false, t1, log1, faulty, step)
    requires RanFrom(t1, log1, b, failed, t2, log2, faulty, step)
    ensures RanFrom(t0, log0, a + b, failed, t2, log2, faulty, step)
  {
    RunAppend(t0, a, b, |log0|, faulty, step);
    var rb := RunFrom(t1, b, |log1|, faulty, step);
    assert a[..|a|] == a;
    assert (a + b)[..|a| + rb.issued] == a + b[..rb.issued];
  }

  /** Once a statement has failed, nothing after it is sent. */
  lemma RanStop(t0: Tables, log0: seq<Stmt>, a: seq<Stmt>, t1: Tables, log1: seq<Stmt>,
                b: seq<Stmt>, faulty: nat -> bool, step: Step)
    requires RanFrom(t0, log0, a, true, t1, log1, faulty, step)
    ensures RanFrom(t0, log0, a + b, true, t1, log1, faulty, step)
  {
    RunAppend(t0, a, b, |log0|, faulty, step);
    var ra := RunFrom(t0, a, |log0|, faulty, step);
    assert (a + b)[..ra.issued] == a[..ra.issued];
  }

  /** The `connection` every service shares. Statement number `n` of the session fails on
      its own when `faulty(n)` holds, standing for network and warehouse errors; otherwise
      the warehouse carries the statement out by `step`, which is the statement meaning for
      `wh`. */
  class Connection {
    var tables: Tables
    var log: seq<Stmt>
    const faulty: nat -> bool
    const wh: Warehouse
    const step: Step

    constructor (tables0: Tables, faulty: nat -> bool, wh: Warehouse)
      ensures tables == tables0 && log == []
      ensures this.faulty == faulty && this.wh == wh
      ensures Valid()
    {
      tables := tables0;
      log := [];
      this.faulty := faulty;
      this.wh := wh;
      step := (t, s) => Exec(t, s, wh);
    }

    /** The warehouse behind the connection carries statements out as `Exec` says. */
    ghost predicate Valid()
    {
      Follows(step, wh)
    }

    /** The connection went from tables `t0` and log `log0` to its current state by
        running `stmts`. */
    ghost predicate Ran(t0: Tables, log0: seq<Stmt>, stmts: seq<Stmt>, failed: bool)
      reads this
    {
      RanFrom(t0, log0, stmts, failed, tables, log, faulty, step)
    }

    /** The last statement the connection sent was `s`. */
    ghost predicate SentLast(s: Stmt)
      reads this
    {
      |log| > 0 && log[|log| - 1] == s
    }

    /** `connection.execute({sqlText, binds, complete})`: the callback reports an error
        when the statement fails, and the promise wrapped around it rejects with it. */
    method Execute(s: Stmt) returns (r: Outcome<Stmt>)
      modifies this
      ensures Ran(old(tables), old(log), [s], r.Fail?)
      ensures r.Fail? ==> r.error == s
      ensures log == old(log) + [s]
      ensures r.Pass? <==> !faulty(|old(log)|) && step(old(tables), s).Some?
      ensures tables == if r.Pass? then step(old(tables), s).value else old(tables)
    {
      var next := step(tables, s);
      if faulty(|log|) || next.None? {
        r := Fail(s);
      } else {
        tables := next.value;
        r := Pass;
      }
      log := log + [s];
      assert [s][..1] == [s];
    }
  }

  /** `ensureTableExists(tableName, columns)`: CREATE TABLE IF NOT EXISTS with one STRING
      column per name. An existing table is left as it is. */
  method EnsureTableExists(conn: Connection, name: string, cols: seq<string>) returns (r: Outcome<Stmt>)
    requires conn.Valid()
    modifies conn
    ensures conn.Ran(old(conn.tables), old(conn.log), [CreateTableIfNotExists(name, cols)], r.Fail?)
    ensures r.Fail? ==> r.error == CreateTableIfNotExists(name, cols)
    ensures r.Fail? ==> conn.SentLast(r.error)
    ensures r.Pass? <==> !conn.faulty(|old(conn.log)|) && ValidColumns(cols, conn.wh.reserved)
    ensures r.Pass? && name in old(conn.tables) ==> conn.tables == old(conn.tables)
    ensures r.Pass? && name !in old(conn.tables) ==> conn.tables == old(conn.tables)[name := Table(cols, [], None)]
    ensures r.Fail? ==> conn.tables == old(conn.tables)
  {
    r := conn.Execute(CreateTableIfNotExists(name, cols));
  }

  /** `dropTable(tableName)`: DROP TABLE IF EXISTS, which fails only on a fault and
      changes nothing when the table is absent. */
  method DropTable(conn: Connection, name: string) returns (r: Outcome<Stmt>)
    requires conn.Valid()
    modifies conn
    ensures conn.Ran(old(conn.tables), old(conn.log), [DropTableIfExists(name)], r.Fail?)
    ensures r.Fail? ==> r.error == DropTableIfExists(name)
    ensures r.Fail? ==> conn.SentLast(r.error)
    ensures r.Pass? <==> !conn.faulty(|old(conn.log)|)
    ensures r.Pass? ==> conn.tables == old(conn.tables) - {name}
    ensures name !in old(conn.tables) ==> conn.tables == old(conn.tables)
  {
    r := conn.Execute(DropTableIfExists(name));
  }

  /** `duplicateTable(original, copy)`: CREATE TABLE ... AS SELECT * gives the new table
      every row of the original, which is unchanged. It fails when the copy's name is
      taken or the original is missing. */
  method DuplicateTable(conn: Connection, original: string, copy: string) returns (r: Outcome<Stmt>)
    requires conn.Valid()
    modifies conn
    ensures conn.Ran(old(conn.tables), old(conn.log), [CreateTableAsSelect(copy, original)], r.Fail?)
    ensures r.Fail? ==> r.error == CreateTableAsSelect(copy, original)
    ensures r.Fail? ==> conn.SentLast(r.error)
    ensures r.Pass? <==> !conn.faulty(|old(conn.log)|) && copy !in old(conn.tables) && original in old(conn.tables)
    ensures r.Pass? ==> && copy in conn.tables
                        && conn.tables[copy].columns == old(conn.tables)[original].columns
                        && conn.tables[copy].rows == old(conn.tables)[original].rows
                        && original in conn.tables
                        && conn.tables[original] == old(conn.tables)[original]
    ensures r.Fail? ==> conn.tables == old(conn.tables)
  {
    r := conn.Execute(CreateTableAsSelect(copy, original));
  }

  /** `renameTable(oldName, newName)`: afterwards `oldName` is gone and `newName` holds
      what it held. It fails when `oldName` is missing or `newName` is taken. */
  method RenameTable(conn: Connection, oldName: string, newName: string) returns (r: Outcome<Stmt>)
    requires conn.Valid()
    modifies conn
    ensures conn.Ran(old(conn.tables), old(conn.log), [AlterTableRename(oldName, newName)], r.Fail?)
    ensures r.Fail? ==> r.error == AlterTableRename(oldName, newName)
    ensures r.Fail? ==> conn.SentLast(r.error)
    ensures r.Pass? <==> !conn.faulty(|old(conn.log)|) && oldName in old(conn.tables) && newName !in old(conn.tables)
    ensures r.Pass? ==> && oldName !in conn.tables
                        && newName in conn.tables
                        && conn.tables[newName] == old(conn.tables)[oldName]
    ensures r.Fail? ==> conn.tables == old(conn.tables)
  {
    r := conn.Execute(AlterTableRename(oldName, newName));
  }
}
