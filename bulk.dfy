/** `bulkInsert` (src/services/bulkInsertService.ts): the rows are written as one CSV file,
    uploaded to the table's stage and loaded with COPY INTO. */
module BulkInsertService {
  import opened Wrappers
  import opened Records
  import opened Csv
  import opened Sql
  import opened Snowflake

  /** The statements `bulkInsert` sends: none for empty input, otherwise create-if-missing
      with the first row's keys, the upload of the CSV file, and the load. */
  function BulkStatements(data: seq<Record>, name: string): seq<Stmt>
  {
    if |data| == 0 then []
    else [CreateTableIfNotExists(name, Keys(data[0])), PutFile(name, CsvContent(data)), CopyInto(name)]
  }

  /** `bulkInsert(data, tableName)`. The three statements run in order and the first
      failure is passed on. */
  method BulkInsert(conn: Connection, data: seq<Record>, name: string) returns (r: Outcome<Stmt>)
    modifies conn
    ensures conn.Ran(old(conn.tables), old(conn.log), BulkStatements(data, name), r.Fail?)
    ensures r.Fail? ==> r.error in BulkStatements(data, name)
    ensures r.Fail? ==> conn.SentLast(r.error)
  {
    ghost var t0, log0 := conn.tables, conn.log;
    if |data| == 0 {
      RanNothing(t0, log0, conn.faulty, conn.step);
      return Pass;
    }
    var create := CreateTableIfNotExists(name, Keys(data[0]));
    ghost var stmts := BulkStatements(data, name);
    assert stmts == [create] + stmts[1..];
    r := conn.Execute(create);
    if r.Fail? {
      RanStop(t0, log0, [create], conn.tables, conn.log, stmts[1..], conn.faulty, conn.step);
      return;
    }
    ghost var t1, log1 := conn.tables, conn.log;
    r := UploadAndLoad(conn, name, CsvContent(data));
    RanThen(t0, log0, [create], t1, log1, stmts[1..], r.Fail?, conn.tables, conn.log, conn.faulty, conn.step);
  }

  /** The upload of the CSV file to the table's stage and the COPY INTO that loads it,
      the second only once the first has succeeded. */
  method UploadAndLoad(conn: Connection, name: string, content: string) returns (r: Outcome<Stmt>)
    modifies conn
    ensures conn.Ran(old(conn.tables), old(conn.log), [PutFile(name, content), CopyInto(name)], r.Fail?)
    ensures r.Fail? ==> r.error in [PutFile(name, content), CopyInto(name)]
    ensures r.Fail? ==> conn.SentLast(r.error)
  {
    ghost var t0, log0 := conn.tables, conn.log;
    var put, copy := PutFile(name, content), CopyInto(name);
    assert [put] + [copy] == [put, copy];
    r := conn.Execute(put);
    if r.Fail? {
      RanStop(t0, log0, [put], conn.tables, conn.log, [copy], conn.faulty, conn.step);
      return;
    }
    ghost var t1, log1 := conn.tables, conn.log;
    r := conn.Execute(copy);
    RanThen(t0, log0, [put], t1, log1, [copy], r.Fail?, conn.tables, conn.log, conn.faulty, conn.step);
  }

  /** When the warehouse accepts them, the statements leave the table holding its earlier
      rows followed by every input row in order, each read under the first row's keys
      (missing and null values as NULL, strings unquoted again). A new table gets the
      first row's keys as columns; an existing one keeps its own, filled by position. */
  lemma BulkLoads(tables: Tables, data: seq<Record>, name: string, wh: Warehouse)
    requires ReadsCsv(wh)
    requires |data| > 0
    requires ValidColumns(Keys(data[0]), wh.reserved)
    requires forall k :: k in Keys(data[0]) ==> '\n' !in k
    requires name in tables ==> |tables[name].columns| == |data[0]|
    ensures var cols := if name in tables then tables[name].columns else Keys(data[0]);
      var before := if name in tables then tables[name].rows else [];
      ExecAll(tables, BulkStatements(data, name), wh)
        == Some(tables[name := Table(cols, before + LoadedRows(data), None)])
  {
    CsvRoundTrip(data);
    var rows := LoadedRows(data);
    forall i | 0 <= i < |rows| ensures |rows[i]| == |data[0]| {
      assert |Keys(data[0])| > 0;
    }
    var keys := Keys(data[0]);
    var cols := if name in tables then tables[name].columns else keys;
    var before := if name in tables then tables[name].rows else [];
    var stmts := BulkStatements(data, name);
    var t1 := if name in tables then tables else tables[name := Table(keys, [], None)];
    assert Exec(tables, stmts[0], wh) == Some(t1);
    var t2 := t1[name := t1[name].(staged := Some(CsvContent(data)))];
    assert Exec(t1, stmts[1], wh) == Some(t2);
    assert FitsColumns(rows, |cols|);
    assert t2[name].staged == Some(CsvContent(data));
    assert t2[name].columns == cols && t2[name].rows == before;
    assert ExecCopy(t2, name, wh) == Some(t2[name := Table(cols, before + rows, None)]);
    var t3 := tables[name := Table(cols, before + rows, None)];
    assert t2[name := Table(cols, before + rows, None)] == t3;
    assert stmts[1..][1..][1..] == [];
    assert ExecAll(t2, stmts[1..][1..], wh) == Some(t3);
    assert ExecAll(t1, stmts[1..], wh) == Some(t3);
  }

  /** A load into an existing table whose column count differs from the first row's key
      count is rejected by COPY INTO. */
  lemma BulkRejectsWidthMismatch(tables: Tables, data: seq<Record>, name: string, wh: Warehouse)
    requires ReadsCsv(wh)
    requires |data| > 0
    requires ValidColumns(Keys(data[0]), wh.reserved)
    requires forall k :: k in Keys(data[0]) ==> '\n' !in k
    requires name in tables && |tables[name].columns| != |data[0]|
    ensures ExecAll(tables, BulkStatements(data, name), wh).None?
  {
    CsvRoundTrip(data);
    var rows := LoadedRows(data);
    assert |rows[0]| == |data[0]| by {
      assert |Keys(data[0])| > 0;
    }
    var stmts := BulkStatements(data, name);
    var t1 := Exec(tables, stmts[0], wh).value;
    var t2 := Exec(t1, stmts[1], wh).value;
    assert ExecAll(t2, stmts[1..][1..], wh) == None;
  }
}
