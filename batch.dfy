/** `batchInsert` (src/services/batchInsertService.ts): create-if-missing, then one
    multi-row INSERT with positional binds per slice of `batchSize` rows. */
module BatchInsertService {
  import opened Wrappers
  import opened Records
  import opened Csv
  import opened Sql
  import opened Snowflake
  import BulkInsertService

  /** The default of the `batchSize` parameter. */
  const DefaultBatchSize: nat := 5000

  function Min(a: int, b: int): int { if a <= b then a else b }

  /** `data.slice(i, i + size)` for `i = from, from + size, from + 2 * size, ...` while
      `i < |data|`. */
  function BatchesFrom(data: seq<Record>, from: nat, size: nat): seq<seq<Record>>
    requires size > 0
    decreases |data| - from
  {
    if from >= |data| then []
    else [data[from..Min(from + size, |data|)]] + BatchesFrom(data, from + size, size)
  }

  function Batches(data: seq<Record>, size: nat): seq<seq<Record>>
    requires size > 0
  {
    BatchesFrom(data, 0, size)
  }

  function Concat(bs: seq<seq<Record>>): seq<Record>
    decreases |bs|
  {
    if bs == [] then [] else bs[0] + Concat(bs[1..])
  }

  /** The batches taken from `from` on, put back together, are the rows from `from` on. */
  lemma {:induction false} BatchesFromConcat(data: seq<Record>, from: nat, size: nat)
    requires size > 0 && from <= |data|
    ensures Concat(BatchesFrom(data, from, size)) == data[from..]
    decreases |data| - from
  {
    if from < |data| {
      var next := Min(from + size, |data|);
      if from + size <= |data| {
        BatchesFromConcat(data, from + size, size);
      } else {
        assert BatchesFrom(data, from + size, size) == [];
      }
      assert data[from..next] + data[next..] == data[from..];
    }
  }

  /** The batches partition the input: put back together in order they are the input. */
  lemma BatchesPartition(data: seq<Record>, size: nat)
    requires size > 0
    ensures Concat(Batches(data, size)) == data
  {
    BatchesFromConcat(data, 0, size);
  }

  /** Every batch is non-empty and holds at most `size` rows, every batch but the last
      exactly `size`, and there are `ceil(n / size)` of them: the smallest count whose
      batches of `size` rows hold all `n`. */
  lemma {:induction false} BatchSizes(data: seq<Record>, from: nat, size: nat)
    requires size > 0 && from <= |data|
    ensures var bs := BatchesFrom(data, from, size);
      && (|bs| - 1) * size < |data| - from <= |bs| * size
      && (forall k :: 0 <= k < |bs| ==> 0 < |bs[k]| <= size)
      && (forall k :: 0 <= k < |bs| - 1 ==> |bs[k]| == size)
    decreases |data| - from
  {
    var bs := BatchesFrom(data, from, size);
    if from < |data| {
      if from + size <= |data| {
        BatchSizes(data, from + size, size);
        var k := |BatchesFrom(data, from + size, size)|;
        assert |bs| == k + 1;
        assert (k + 1) * size == k * size + size;
      } else {
        assert BatchesFrom(data, from + size, size) == [];
      }
    }
  }

  /** Every row of every batch is a row of the input. */
  lemma {:induction false} BatchesFromRows(data: seq<Record>, from: nat, size: nat)
    requires size > 0
    ensures forall k, r :: 0 <= k < |BatchesFrom(data, from, size)| && r in BatchesFrom(data, from, size)[k] ==> r in data
    decreases |data| - from
  {
    if from < |data| {
      BatchesFromRows(data, from + size, size);
    }
  }

  /** `Object.values` of each row of a batch. */
  function ValuesOf(batch: seq<Record>): (vs: seq<seq<Value>>)
    ensures |vs| == |batch|
    ensures forall i :: 0 <= i < |batch| ==> vs[i] == Values(batch[i])
    decreases |batch|
  {
    if batch == [] then [] else [Values(batch[0])] + ValuesOf(batch[1..])
  }

  /** `batch.flatMap(row => Object.values(row))`. */
  function Binds(batch: seq<Record>): seq<Value>
  {
    Flatten(ValuesOf(batch))
  }

  /** One INSERT per batch, over the first row's keys. */
  function Inserts(name: string, keys: seq<string>, bs: seq<seq<Record>>): (stmts: seq<Stmt>)
    ensures |stmts| == |bs|
    decreases |bs|
  {
    if bs == [] then [] else [InsertValues(name, keys, |bs[0]|, Binds(bs[0]))] + Inserts(name, keys, bs[1..])
  }

  /** The statements `batchInsert` sends: none for empty input, otherwise create-if-missing
      with the first row's keys and then the inserts, batch by batch. */
  function BatchStatements(data: seq<Record>, name: string, size: nat): seq<Stmt>
    requires size > 0
  {
    if |data| == 0 then []
    else [CreateTableIfNotExists(name, Keys(data[0]))] + Inserts(name, Keys(data[0]), Batches(data, size))
  }

  /** The batches from row `i` on begin with the slice at `i`. */
  lemma InsertsStep(data: seq<Record>, i: nat, size: nat, name: string, keys: seq<string>)
    requires size > 0 && i < |data|
    ensures var batch := data[i..Min(i + size, |data|)];
      Inserts(name, keys, BatchesFrom(data, i, size))
        == [InsertValues(name, keys, |batch|, Binds(batch))] + Inserts(name, keys, BatchesFrom(data, i + size, size))
  {
  }

  /** The statements of a non-empty load are the create-if-missing followed by the
      inserts of the batches from row 0 on. */
  lemma BatchStatementsSplit(data: seq<Record>, name: string, size: nat)
    requires size > 0 && |data| > 0
    ensures var all := BatchStatements(data, name, size);
      var create := CreateTableIfNotExists(name, Keys(data[0]));
      && |all| >= 1 && all[0] == create && all[..1] == [create]
      && all[1..] == Inserts(name, Keys(data[0]), BatchesFrom(data, 0, size))
      && [create] + all[1..] == all
  {
  }

  /** One turn of the loop of `batchInsert`: the INSERT of the slice of `size` rows at
      `i`, the `k`-th statement of `all`. Afterwards the run of `all` has reached its
      `k + 1`-th statement or, if this one failed, is over. */
  method InsertBatch(conn: Connection, data: seq<Record>, i: nat, size: nat, name: string, keys: seq<string>,
                     ghost t0: Tables, ghost log0: seq<Stmt>, ghost all: seq<Stmt>, ghost k: nat)
    returns (r: Outcome<Stmt>)
    requires size > 0 && i < |data| && k < |all|
    requires all[k..] == Inserts(name, keys, BatchesFrom(data, i, size))
    requires conn.Ran(t0, log0, all[..k], false)
    modifies conn
    ensures all[k + 1..] == Inserts(name, keys, BatchesFrom(data, i + size, size))
    ensures r.Pass? ==> conn.Ran(t0, log0, all[..k + 1], false)
    ensures r.Fail? ==> conn.Ran(t0, log0, all, true) && r.error in all
    ensures r.Fail? ==> conn.SentLast(r.error)
  {
    var batch := data[i..Min(i + size, |data|)];
    var insert := InsertValues(name, keys, |batch|, Binds(batch));
    InsertsStep(data, i, size, name, keys);
    assert all[k] == insert;
    ghost var t1, log1 := conn.tables, conn.log;
    r := conn.Execute(insert);
    RanThen(t0, log0, all[..k], t1, log1, [insert], r.Fail?, conn.tables, conn.log, conn.faulty, conn.step);
    assert all[..k] + [insert] == all[..k + 1];
    if r.Fail? {
      RanStop(t0, log0, all[..k + 1], conn.tables, conn.log, all[k + 1..], conn.faulty, conn.step);
      assert all[..k + 1] + all[k + 1..] == all;
    }
  }

  /** `batchInsert(data, tableName, batchSize)`. A failing statement ends the load and is
      passed on; the batches inserted before it stay inserted. */
  method BatchInsert(conn: Connection, data: seq<Record>, name: string, size: nat) returns (r: Outcome<Stmt>)
    requires size > 0
    modifies conn
    ensures conn.Ran(old(conn.tables), old(conn.log), BatchStatements(data, name, size), r.Fail?)
    ensures r.Fail? ==> r.error in BatchStatements(data, name, size)
    ensures r.Fail? ==> conn.SentLast(r.error)
  {
    ghost var t0, log0 := conn.tables, conn.log;
    if |data| == 0 {
      RanNothing(t0, log0, conn.faulty, conn.step);
      return Pass;
    }
    var keys := Keys(data[0]);
    var create := CreateTableIfNotExists(name, keys);
    ghost var all := BatchStatements(data, name, size);
    BatchStatementsSplit(data, name, size);
    r := conn.Execute(create);
    if r.Fail? {
      RanStop(t0, log0, [create], conn.tables, conn.log, all[1..], conn.faulty, conn.step);
      return;
    }
    r := InsertBatches(conn, data, size, name, keys, t0, log0, all);
  }

  /** The loop of `batchInsert` over the slices of `size` rows, once the create-if-missing
      `all[0]` has succeeded. */
  method InsertBatches(conn: Connection, data: seq<Record>, size: nat, name: string, keys: seq<string>,
                       ghost t0: Tables, ghost log0: seq<Stmt>, ghost all: seq<Stmt>)
    returns (r: Outcome<Stmt>)
    requires size > 0 && |all| >= 1
    requires all[1..] == Inserts(name, keys, BatchesFrom(data, 0, size))
    requires conn.Ran(t0, log0, all[..1], false)
    modifies conn
    ensures conn.Ran(t0, log0, all, r.Fail?)
    ensures r.Fail? ==> r.error in all
    ensures r.Fail? ==> conn.SentLast(r.error)
  {
    ghost var k := 1;
    var i: nat := 0;
    while i < |data|
      invariant 1 <= k <= |all|
      invariant all[k..] == Inserts(name, keys, BatchesFrom(data, i, size))
      invariant conn.Ran(t0, log0, all[..k], false)
      decreases |data| - i
    {
      r := InsertBatch(conn, data, i, size, name, keys, t0, log0, all, k);
      if r.Fail? {
        return;
      }
      k := k + 1;
      i := i + size;
    }
    assert all[..k] == all;
    r := Pass;
  }

  // ---------------------------------------------------------------------------
  // What the inserts load
  // ---------------------------------------------------------------------------

  /** Every row has exactly the keys `keys`, in that order. */
  predicate Uniform(data: seq<Record>, keys: seq<string>)
  {
    forall r :: r in data ==> Keys(r) == keys
  }

  lemma {:induction false} RowCellsAppend(keys: seq<string>, a: seq<Record>, b: seq<Record>)
    ensures RowCells(keys, a + b) == RowCells(keys, a) + RowCells(keys, b)
    decreases |a|
  {
    if a == [] {
      assert a + b == b;
    } else {
      assert (a + b)[1..] == a[1..] + b;
      RowCellsAppend(keys, a[1..], b);
    }
  }

  /** A row bound positionally under its own keys holds each value in its column. */
  lemma RowOfUniform(keys: seq<string>, row: Record)
    requires Keys(row) == keys && Distinct(keys)
    ensures RowOf(keys, keys, Values(row)) == CellsOf(Project(keys, row))
  {
    WellFormedKeys(row);
    var a := RowOf(keys, keys, Values(row));
    var b := CellsOf(Project(keys, row));
    forall j | 0 <= j < |keys| ensures a[j] == b[j] {
      assert keys[j] in keys;
      assert IndexOf(keys, keys[j]) == j;
      GetAt(row, j);
    }
  }

  /** The binds of a batch of such rows, taken `|keys|` at a time and bound positionally,
      are the batch's rows, in order. */
  lemma BindsUniform(keys: seq<string>, batch: seq<Record>)
    requires Uniform(batch, keys) && Distinct(keys)
    ensures Groups(Binds(batch), |keys|, |batch|) == Some(ValuesOf(batch))
    ensures RowsOf(keys, keys, ValuesOf(batch)) == RowCells(keys, batch)
  {
    var vs := ValuesOf(batch);
    forall i | 0 <= i < |batch| ensures |vs[i]| == |keys| {
      assert batch[i] in batch;
    }
    GroupsFlatten(vs, |keys|);
    forall i | 0 <= i < |batch| ensures RowsOf(keys, keys, vs)[i] == RowCells(keys, batch)[i] {
      assert batch[i] in batch;
      RowOfUniform(keys, batch[i]);
      RowsOfAt(keys, keys, vs, i);
      RowCellsAt(keys, batch, i);
    }
  }

  /** One batch's INSERT appends the batch's rows to a table whose columns are the keys. */
  lemma InsertLoads(tables: Tables, name: string, keys: seq<string>, batch: seq<Record>, wh: Warehouse)
    requires ValidColumns(keys, wh.reserved) && Distinct(keys)
    requires name in tables && tables[name].columns == keys
    requires |batch| > 0 && Uniform(batch, keys)
    ensures Exec(tables, InsertValues(name, keys, |batch|, Binds(batch)), wh)
      == Some(tables[name := tables[name].(rows := tables[name].rows + RowCells(keys, batch))])
  {
    BindsUniform(keys, batch);
    assert AllColumnsIn(keys, tables[name].columns);
  }

  /** The inserts append the rows of all batches, in order, to the table. */
  lemma {:induction false} InsertsLoad(tables: Tables, name: string, keys: seq<string>, bs: seq<seq<Record>>,
                                       wh: Warehouse)
    requires ValidColumns(keys, wh.reserved) && Distinct(keys)
    requires name in tables && tables[name].columns == keys
    requires forall k :: 0 <= k < |bs| ==> |bs[k]| > 0 && Uniform(bs[k], keys)
    ensures ExecAll(tables, Inserts(name, keys, bs), wh)
      == Some(tables[name := tables[name].(rows := tables[name].rows + RowCells(keys, Concat(bs)))])
    decreases |bs|
  {
    var t := tables[name];
    if bs == [] {
      assert t.rows + RowCells(keys, []) == t.rows;
      assert tables[name := t] == tables;
    } else {
      var b, stmts := bs[0], Inserts(name, keys, bs);
      InsertLoads(tables, name, keys, b, wh);
      var t1 := tables[name := t.(rows := t.rows + RowCells(keys, b))];
      assert stmts[0] == InsertValues(name, keys, |b|, Binds(b));
      assert stmts[1..] == Inserts(name, keys, bs[1..]);
      assert ExecAll(tables, stmts, wh) == ExecAll(t1, stmts[1..], wh);
      InsertsLoad(t1, name, keys, bs[1..], wh);
      RowCellsAppend(keys, b, Concat(bs[1..]));
      AppendRows(t.rows, RowCells(keys, b), RowCells(keys, Concat(bs[1..])), RowCells(keys, Concat(bs)));
      UpdateTwice(tables, name, t.(rows := t.rows + RowCells(keys, b)),
                  t.(rows := t.rows + RowCells(keys, Concat(bs))));
    }
  }

  lemma AppendRows(a: seq<Row>, b: seq<Row>, c: seq<Row>, bc: seq<Row>)
    requires bc == b + c
    ensures a + b + c == a + bc
  {
  }

  lemma UpdateTwice(tables: Tables, name: string, x: Table, y: Table)
    ensures tables[name := x][name := x.(rows := y.rows)] == tables[name := x.(rows := y.rows)]
  {
  }

  /** When the warehouse accepts them, the statements leave the table holding its earlier
      rows followed by every input row in order, provided every row has the first row's
      keys in the first row's order (binds are positional) and the table, if it exists,
      has exactly those columns. */
  lemma BatchLoads(tables: Tables, data: seq<Record>, name: string, size: nat, wh: Warehouse)
    requires size > 0 && |data| > 0
    requires ValidColumns(Keys(data[0]), wh.reserved) && WellFormed(data[0]) && Uniform(data, Keys(data[0]))
    requires name in tables ==> tables[name].columns == Keys(data[0])
    ensures var keys := Keys(data[0]);
      var t := if name in tables then tables[name] else Table(keys, [], None);
      ExecAll(tables, BatchStatements(data, name, size), wh)
        == Some(tables[name := t.(rows := t.rows + RowCells(keys, data))])
  {
    var keys := Keys(data[0]);
    var t := if name in tables then tables[name] else Table(keys, [], None);
    var t1 := tables[name := t];
    assert Exec(tables, CreateTableIfNotExists(name, keys), wh) == Some(t1) by {
      if name in tables { assert tables[name := tables[name]] == tables; }
    }
    var bs := Batches(data, size);
    BatchSizes(data, 0, size);
    BatchesFromRows(data, 0, size);
    WellFormedKeys(data[0]);
    forall k | 0 <= k < |bs| ensures Uniform(bs[k], keys) {
      forall r: Record | r in bs[k] ensures Keys(r) == keys {
        assert r in data;
      }
    }
    var stmts := BatchStatements(data, name, size);
    assert stmts[0] == CreateTableIfNotExists(name, keys);
    assert stmts[1..] == Inserts(name, keys, bs);
    assert ExecAll(tables, stmts, wh) == ExecAll(t1, stmts[1..], wh);
    InsertsLoad(t1, name, keys, bs, wh);
    BatchesPartition(data, size);
    UpdateTwice(tables, name, t, t.(rows := t.rows + RowCells(keys, data)));
  }

  /** On rows that share their keys and key order, the batched inserts and the CSV load
      store the same rows. */
  lemma BatchAgreesWithBulk(tables: Tables, data: seq<Record>, name: string, size: nat, wh: Warehouse)
    requires ReadsCsv(wh)
    requires size > 0 && |data| > 0
    requires ValidColumns(Keys(data[0]), wh.reserved) && WellFormed(data[0]) && Uniform(data, Keys(data[0]))
    requires forall k :: k in Keys(data[0]) ==> '\n' !in k
    requires name in tables ==> tables[name].columns == Keys(data[0]) && tables[name].staged == None
    ensures ExecAll(tables, BatchStatements(data, name, size), wh)
      == ExecAll(tables, BulkInsertService.BulkStatements(data, name), wh)
  {
    BatchLoads(tables, data, name, size, wh);
    BulkInsertService.BulkLoads(tables, data, name, wh);
  }

}
