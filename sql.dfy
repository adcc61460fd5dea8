/** The warehouse as the pipeline sees it: a map from table names to tables of text
    columns, and the meaning of every statement the pipeline sends to it. The SQL texts
    are those of src/services/snowflakeService.ts, bulkInsertService.ts,
    batchInsertService.ts and dataInserter.ts; a statement is kept in structured form and
    `SqlOf` renders the text the source builds for it. */
module Sql {
  import opened Wrappers
  import opened Text
  import opened Records
  import opened Csv

  /** A row holds one cell per column of its table, in column order. */
  type Row = seq<Cell>

  /** A table: its columns (all STRING), its rows, and the file last uploaded to its
      table stage `@%name` that has not been loaded yet. */
  datatype Table = Table(columns: seq<string>, rows: seq<Row>, staged: Option<string>)

  type Tables = map<string, Table>

  /** The bounds `removeExistingRecords` receives: rows whose `field` falls within
      `[from, to]` are deleted. */
  datatype DateWindow = DateWindow(field: string, format: string, from: string, to: string)

  /** What the statement meaning leaves to the warehouse: `inWindow` is the date test of
      `removeExistingRecords`, whose body is not part of this model; `load` reads a
      staged file the way COPY INTO's file format says; `procedure` is what the stored
      procedure `run_master_queries` does to the tables, or `None` when it fails. Its SQL
      lives in the warehouse and is not part of this model, so it may change any table;
      `reserved` holds the words, upper-cased, that the warehouse refuses as unquoted
      identifiers. */
  datatype Warehouse = Warehouse(inWindow: (Cell, DateWindow) -> bool, load: string -> Option<seq<Row>>,
                                 procedure: Tables -> Option<Tables>, reserved: set<string>)

  /** The loader reads staged files as the CSV format `bulkInsert` names: header line
      skipped, fields optionally enclosed in double quotes, empty fields as NULL. */
  ghost predicate ReadsCsv(wh: Warehouse)
  {
    forall content :: wh.load(content) == LoadCsv(content)
  }

  datatype Stmt =
    | CreateTableIfNotExists(name: string, columns: seq<string>)
    | DropTableIfExists(name: string)
    | CreateTableAsSelect(name: string, source: string)
    | AlterTableRename(oldName: string, newName: string)
    | InsertValues(name: string, columns: seq<string>, groups: nat, binds: seq<Value>)
    | PutFile(name: string, content: string)
    | CopyInto(name: string)
    | DeleteWindow(name: string, window: DateWindow)
    | CallProcedure
    | OpenSession
    | CloseSession

  /** The statement that changes or replaces table `name`, if any (a `CreateTableAsSelect`
      only reads its source). */
  function Target(s: Stmt): Option<string>
  {
    match s
    case CreateTableIfNotExists(n, _) => Some(n)
    case DropTableIfExists(n) => Some(n)
    case CreateTableAsSelect(n, _) => Some(n)
    case AlterTableRename(_, _) => None
    case InsertValues(n, _, _, _) => Some(n)
    case PutFile(n, _) => Some(n)
    case CopyInto(n) => Some(n)
    case DeleteWindow(n, _) => Some(n)
    case CallProcedure => None
    case OpenSession => None
    case CloseSession => None
  }

  /** True when `s` may change what is stored under `name`. */
  predicate Writes(s: Stmt, name: string)
  {
    || Target(s) == Some(name)
    || (s.AlterTableRename? && (s.oldName == name || s.newName == name))
    || s.CallProcedure?
  }

  // ---------------------------------------------------------------------------
  // Statement texts
  // ---------------------------------------------------------------------------

  /** `columns.map(column => column + " STRING")`. */
  function StringColumns(cols: seq<string>): (defs: seq<string>)
    ensures |defs| == |cols|
    ensures forall i :: 0 <= i < |cols| ==> defs[i] == cols[i] + " STRING"
    decreases |cols|
  {
    if cols == [] then [] else [cols[0] + " STRING"] + StringColumns(cols[1..])
  }

  /** The column definitions of `generateCreateTableSQL`. */
  function ColumnDefinitions(cols: seq<string>): string
  {
    Join(StringColumns(cols), ", ")
  }

  /** `generateCreateTableSQL(tableName, columns)`. */
  function GenerateCreateTableSql(name: string, cols: seq<string>): string
  {
    "\n      CREATE TABLE IF NOT EXISTS " + name + " (\n        " + ColumnDefinitions(cols) + "\n      );\n    "
  }

  function Repeat(s: string, n: nat): (r: seq<string>)
    ensures |r| == n
    ensures forall i :: 0 <= i < n ==> r[i] == s
    decreases n
  {
    if n == 0 then [] else [s] + Repeat(s, n - 1)
  }

  /** `(${keys.map(() => "?").join(", ")})`: one placeholder group. */
  function Placeholders(width: nat): string
  {
    "(" + Join(Repeat("?", width), ", ") + ")"
  }

  /** The INSERT text of `batchInsert` and `insertDataToSnowflake` for a batch of `groups` rows. */
  function InsertSql(name: string, keys: seq<string>, groups: nat): string
  {
    "INSERT INTO " + name + " (" + Join(keys, ", ") + ") VALUES " + Join(Repeat(Placeholders(|keys|), groups), ", ")
  }

  /** The text sent for each statement. The upload names the file `bulkInsert` writes. */
  function SqlOf(s: Stmt): string
  {
    match s
    case CreateTableIfNotExists(n, cols) => GenerateCreateTableSql(n, cols)
    case DropTableIfExists(n) => "DROP TABLE IF EXISTS " + n + ";"
    case CreateTableAsSelect(n, src) => "CREATE TABLE " + n + " AS SELECT * FROM " + src + ";"
    case AlterTableRename(a, b) => "ALTER TABLE " + a + " RENAME TO " + b + ";"
    case InsertValues(n, cols, groups, _) => InsertSql(n, cols, groups)
    case PutFile(n, _) => "PUT 'file://temp/" + n + ".csv' @%" + n
    case CopyInto(n) =>
      "\n    COPY INTO " + n + "\n    FROM @%" + n + "\n    FILE_FORMAT = (\n      TYPE = 'CSV'\n      FIELD_OPTIONALLY_ENCLOSED_BY = '\"'\n      SKIP_HEADER = 1\n      NULL_IF = ('')\n    );\n  "
    case DeleteWindow(n, w) => "DELETE FROM " + n + " WHERE " + w.field + " BETWEEN '" + w.from + "' AND '" + w.to + "'"
    case CallProcedure => "CALL silver_lands.silver_lands_data.run_master_queries()"
    case OpenSession => ""
    case CloseSession => ""
  }

  // ---------------------------------------------------------------------------
  // Statement meaning
  // ---------------------------------------------------------------------------

  predicate IsLetter(c: char) { 'A' <= c <= 'Z' || 'a' <= c <= 'z' }

  /** A character an unquoted identifier may hold after its first. */
  predicate IdentifierChar(c: char) { IsLetter(c) || IsDigit(c) || c == '_' || c == '$' }

  function UpperChar(c: char): char
  {
    if 'a' <= c <= 'z' then (c as int - 32) as char else c
  }

  /** The name the warehouse resolves an unquoted identifier to: its letters upper-cased. */
  function Resolved(name: string): (u: string)
    ensures |u| == |name|
    ensures forall i :: 0 <= i < |name| ==> u[i] == UpperChar(name[i])
  {
    seq(|name|, i requires 0 <= i < |name| => UpperChar(name[i]))
  }

  /** An unquoted column identifier (the column lists are written without quotes): a
      letter or `_`, then letters, digits, `_` or `$`, and not a reserved word. */
  predicate ValidIdentifier(c: string, reserved: set<string>)
  {
    && |c| > 0 && (IsLetter(c[0]) || c[0] == '_')
    && (forall i :: 0 <= i < |c| ==> IdentifierChar(c[i]))
    && Resolved(c) !in reserved
  }

  /** A column list the warehouse accepts: at least one column, each a valid unquoted
      identifier, and no two resolving to the same name. */
  predicate ValidColumns(cols: seq<string>, reserved: set<string>)
  {
    && |cols| > 0
    && (forall i :: 0 <= i < |cols| ==> ValidIdentifier(cols[i], reserved))
    && (forall i, j :: 0 <= i < j < |cols| ==> Resolved(cols[i]) != Resolved(cols[j]))
  }

  /** Columns that pass are distinct, and the rule refuses a space, a reserved word and
      two names that differ only in case. */
  lemma ValidColumnsMeaning(cols: seq<string>, reserved: set<string>)
    requires "ORDER" in reserved && "UNIT" !in reserved && "NAME" !in reserved
    ensures ValidColumns(cols, reserved) ==> forall i, j :: 0 <= i < j < |cols| ==> cols[i] != cols[j]
    ensures !ValidColumns(["unit type"], reserved)
    ensures !ValidColumns(["order"], reserved)
    ensures !ValidColumns(["Name", "name"], reserved)
    ensures ValidColumns(["unit", "name"], reserved)
  {
    var spaced, word, cased := ["unit type"], ["order"], ["Name", "name"];
    assert !IdentifierChar(spaced[0][4]);
    assert Resolved(word[0]) == "ORDER";
    assert Resolved(cased[0]) == Resolved(cased[1]);
    assert Resolved("unit") == "UNIT" && Resolved("name") == "NAME";
  }

  function IndexOf(s: seq<string>, x: string): (i: nat)
    requires x in s
    ensures i < |s| && s[i] == x
    ensures forall j :: 0 <= j < i ==> s[j] != x
    decreases |s|
  {
    if s[0] == x then 0 else 1 + IndexOf(s[1..], x)
  }

  /** A bound JavaScript value as a STRING column stores it. */
  function BindCell(v: Value): Cell
  {
    CellOf(Some(v))
  }

  /** One inserted row: each table column named in the INSERT receives the bind at that
      name's position in the group, every other column NULL. */
  function RowOf(tcols: seq<string>, cols: seq<string>, vals: seq<Value>): (row: Row)
    requires |vals| == |cols|
    ensures |row| == |tcols|
    ensures forall j :: 0 <= j < |tcols| ==>
      row[j] == if tcols[j] in cols then BindCell(vals[IndexOf(cols, tcols[j])]) else NullCell
    decreases |tcols|
  {
    if tcols == [] then []
    else
      [if tcols[0] in cols then BindCell(vals[IndexOf(cols, tcols[0])]) else NullCell]
      + RowOf(tcols[1..], cols, vals)
  }

  /** The binds of a multi-row INSERT taken `width` at a time, one group per row; `None`
      unless `groups` groups use up every bind. */
  function Groups(binds: seq<Value>, width: nat, groups: nat): (r: Option<seq<seq<Value>>>)
    ensures r.Some? ==> |r.value| == groups && forall g :: 0 <= g < groups ==> |r.value[g]| == width
    decreases groups
  {
    if groups == 0 then (if binds == [] then Some([]) else None)
    else if |binds| < width then None
    else
      match Groups(binds[width..], width, groups - 1)
      case None => None
      case Some(rest) => Some([binds[..width]] + rest)
  }

  function Flatten(gs: seq<seq<Value>>): seq<Value>
    decreases |gs|
  {
    if gs == [] then [] else gs[0] + Flatten(gs[1..])
  }

  /** One more group is `width` more binds. */
  lemma GroupsMul(g: nat, width: nat)
    ensures (g + 1) * width == g * width + width
    ensures g * width >= 0
  {
  }

  /** The binds split into groups exactly when there are `groups * width` of them, and the
      groups, in order, are the binds. */
  lemma {:induction false} GroupsSplit(binds: seq<Value>, width: nat, groups: nat)
    ensures Groups(binds, width, groups).Some? <==> |binds| == groups * width
    ensures Groups(binds, width, groups).Some? ==> Flatten(Groups(binds, width, groups).value) == binds
    decreases groups
  {
    if groups > 0 {
      var g := groups - 1;
      GroupsMul(g, width);
      if |binds| >= width {
        var tail := binds[width..];
        GroupsSplit(tail, width, g);
        var r := Groups(binds, width, groups);
        if r.Some? {
          var rest := Groups(tail, width, g).value;
          assert r.value == [binds[..width]] + rest;
          assert r.value[1..] == rest;
          assert binds[..width] + tail == binds;
        }
      }
    }
  }

  /** Groups of `width` values each, flattened, split back into the same groups. */
  lemma {:induction false} GroupsFlatten(gs: seq<seq<Value>>, width: nat)
    requires forall g :: 0 <= g < |gs| ==> |gs[g]| == width
    ensures Groups(Flatten(gs), width, |gs|) == Some(gs)
    decreases |gs|
  {
    if gs != [] {
      GroupsFlatten(gs[1..], width);
      var b := Flatten(gs);
      assert |gs[0]| == width;
      assert b[..width] == gs[0];
      assert b[width..] == Flatten(gs[1..]);
      assert [gs[0]] + gs[1..] == gs;
    }
  }

  /** The rows of a multi-row INSERT, one per group of binds. */
  function RowsOf(tcols: seq<string>, cols: seq<string>, gs: seq<seq<Value>>): (rows: seq<Row>)
    requires forall g :: 0 <= g < |gs| ==> |gs[g]| == |cols|
    ensures |rows| == |gs|
    ensures forall g :: 0 <= g < |gs| ==> |rows[g]| == |tcols|
    decreases |gs|
  {
    if gs == [] then [] else [RowOf(tcols, cols, gs[0])] + RowsOf(tcols, cols, gs[1..])
  }

  /** Row `g` of an INSERT is group `g` of its binds placed in the table's columns. */
  lemma {:induction false} RowsOfAt(tcols: seq<string>, cols: seq<string>, gs: seq<seq<Value>>, g: nat)
    requires forall g :: 0 <= g < |gs| ==> |gs[g]| == |cols|
    requires g < |gs|
    ensures RowsOf(tcols, cols, gs)[g] == RowOf(tcols, cols, gs[g])
    decreases g
  {
    if g > 0 {
      RowsOfAt(tcols, cols, gs[1..], g - 1);
    }
  }

  /** True when the row's cell in column `idx` falls within the window `w`. */
  predicate InWindow(r: Row, idx: nat, w: DateWindow, inWindow: (Cell, DateWindow) -> bool)
  {
    idx < |r| && inWindow(r[idx], w)
  }

  /** The rows a windowed DELETE leaves: those whose date cell is outside the window. */
  function Filter(rows: seq<Row>, idx: nat, w: DateWindow, inWindow: (Cell, DateWindow) -> bool): (kept: seq<Row>)
    ensures |kept| <= |rows|
    ensures forall r :: r in kept <==> r in rows && !InWindow(r, idx, w, inWindow)
    decreases |rows|
  {
    if rows == [] then []
    else
      var r := rows[0];
      (if InWindow(r, idx, w, inWindow) then [] else [r]) + Filter(rows[1..], idx, w, inWindow)
  }

  /** The delete works row by row: the rows it keeps stay in their order. */
  lemma {:induction false} FilterAppend(a: seq<Row>, b: seq<Row>, idx: nat, w: DateWindow,
                                        inWindow: (Cell, DateWindow) -> bool)
    ensures Filter(a + b, idx, w, inWindow) == Filter(a, idx, w, inWindow) + Filter(b, idx, w, inWindow)
    decreases |a|
  {
    if a == [] {
      assert a + b == b;
    } else {
      assert (a + b)[0] == a[0];
      assert (a + b)[1..] == a[1..] + b;
      FilterAppend(a[1..], b, idx, w, inWindow);
    }
  }

  /** A single row is kept exactly when it is outside the window. */
  lemma FilterOne(r: Row, idx: nat, w: DateWindow, inWindow: (Cell, DateWindow) -> bool)
    ensures Filter([r], idx, w, inWindow) == if InWindow(r, idx, w, inWindow) then [] else [r]
  {
    assert [r][1..] == [];
  }

  /** Every record of a loaded file has as many fields as the table has columns. */
  predicate FitsColumns(records: seq<Row>, width: nat)
  {
    forall i :: 0 <= i < |records| ==> |records[i]| == width
  }

  /** Every name in `cols` is a column of `tcols`. */
  predicate AllColumnsIn(cols: seq<string>, tcols: seq<string>)
  {
    forall i :: 0 <= i < |cols| ==> cols[i] in tcols
  }

  /** A multi-row INSERT: rejected unless the table exists, the column list is valid and
      names columns of the table, and the binds fill `groups` rows of `|cols|` values. */
  function ExecInsert(tables: Tables, n: string, cols: seq<string>, groups: nat, binds: seq<Value>,
                      reserved: set<string>): Option<Tables>
  {
    if n !in tables || !ValidColumns(cols, reserved) || groups == 0 || !AllColumnsIn(cols, tables[n].columns) then None
    else
      match Groups(binds, |cols|, groups)
      case None => None
      case Some(gs) =>
        var t := tables[n];
        Some(tables[n := t.(rows := t.rows + RowsOf(t.columns, cols, gs))])
  }

  /** COPY INTO from the table stage: the staged file is read by the warehouse's reader
      for the stage's file format, each record's fields go to the columns by position, and
      a file that does not parse or whose records do not have one field per column is
      rejected. */
  function ExecCopy(tables: Tables, n: string, wh: Warehouse): Option<Tables>
  {
    if n !in tables then None
    else
      var t := tables[n];
      match t.staged
      case None => Some(tables)
      case Some(content) =>
        match wh.load(content)
        case None => None
        case Some(records) =>
          if !FitsColumns(records, |t.columns|) then None
          else Some(tables[n := Table(t.columns, t.rows + records, None)])
  }

  /** DELETE of the rows whose date column lies in the window. */
  function ExecDelete(tables: Tables, n: string, w: DateWindow, wh: Warehouse): Option<Tables>
  {
    if n !in tables || w.field !in tables[n].columns then None
    else
      var t := tables[n];
      Some(tables[n := t.(rows := Filter(t.rows, IndexOf(t.columns, w.field), w, wh.inWindow))])
  }

  /** What a statement does to the tables, or `None` when the warehouse rejects it. */
  function Exec(tables: Tables, s: Stmt, wh: Warehouse): Option<Tables>
  {
    match s
    case CreateTableIfNotExists(n, cols) =>
      if !ValidColumns(cols, wh.reserved) then None
      else if n in tables then Some(tables)
      else Some(tables[n := Table(cols, [], None)])
    case DropTableIfExists(n) =>
      Some(tables - {n})
    case CreateTableAsSelect(n, src) =>
      if n in tables || src !in tables then None
      else Some(tables[n := Table(tables[src].columns, tables[src].rows, None)])
    case AlterTableRename(a, b) =>
      if a !in tables || b in tables then None
      else Some((tables - {a})[b := tables[a]])
    case InsertValues(n, cols, groups, binds) => ExecInsert(tables, n, cols, groups, binds, wh.reserved)
    case PutFile(n, content) =>
      if n !in tables then None
      else Some(tables[n := tables[n].(staged := Some(content))])
    case CopyInto(n) => ExecCopy(tables, n, wh)
    case DeleteWindow(n, w) => ExecDelete(tables, n, w, wh)
    case CallProcedure => wh.procedure(tables)
    case OpenSession => Some(tables)
    case CloseSession => Some(tables)
  }

  /** Runs statements in order, stopping at the first one the warehouse rejects. */
  function ExecAll(tables: Tables, stmts: seq<Stmt>, wh: Warehouse): Option<Tables>
    decreases |stmts|
  {
    if stmts == [] then Some(tables)
    else
      match Exec(tables, stmts[0], wh)
      case None => None
      case Some(next) => ExecAll(next, stmts[1..], wh)
  }

  /** How a warehouse carries out one statement: the new tables, or `None` when it
      rejects the statement. */
  type Step = (Tables, Stmt) -> Option<Tables>

  /** `step` is the statement meaning above, for warehouse `wh`. */
  ghost predicate Follows(step: Step, wh: Warehouse)
  {
    forall tables, s :: step(tables, s) == Exec(tables, s, wh)
  }

  /** The state after running statements, how many were sent and whether the last one sent
      failed. Statement number `n` of the session fails on its own when `faulty(n)` holds
      (a network or warehouse error), besides whenever the warehouse rejects it. */
  datatype Run = Run(tables: Tables, issued: nat, failed: bool)

  function RunFrom(tables: Tables, stmts: seq<Stmt>, n: nat, faulty: nat -> bool, step: Step): (r: Run)
    ensures r.issued <= |stmts|
    ensures !r.failed ==> r.issued == |stmts|
    ensures r.failed ==> r.issued >= 1
    decreases |stmts|
  {
    if stmts == [] then Run(tables, 0, false)
    else if faulty(n) || step(tables, stmts[0]).None? then Run(tables, 1, true)
    else
      var r := RunFrom(step(tables, stmts[0]).value, stmts[1..], n + 1, faulty, step);
      Run(r.tables, r.issued + 1, r.failed)
  }

  /** A run in which no statement failed ends where running the statements without faults
      ends. */
  lemma {:induction false} RunSucceeds(tables: Tables, stmts: seq<Stmt>, n: nat, faulty: nat -> bool,
                                       step: Step, wh: Warehouse)
    requires Follows(step, wh)
    requires !RunFrom(tables, stmts, n, faulty, step).failed
    ensures ExecAll(tables, stmts, wh) == Some(RunFrom(tables, stmts, n, faulty, step).tables)
    decreases |stmts|
  {
    if stmts != [] {
      RunSucceeds(step(tables, stmts[0]).value, stmts[1..], n + 1, faulty, step, wh);
    }
  }

  /** Running `a + b` runs `a`, then, if nothing failed, `b` from where `a` ended. */
  lemma {:induction false} RunAppend(tables: Tables, a: seq<Stmt>, b: seq<Stmt>, n: nat, faulty: nat -> bool,
                                     step: Step)
    ensures var ra := RunFrom(tables, a, n, faulty, step);
      var rb := RunFrom(ra.tables, b, n + |a|, faulty, step);
      RunFrom(tables, a + b, n, faulty, step)
        == if ra.failed then ra else Run(rb.tables, |a| + rb.issued, rb.failed)
    decreases |a|
  {
    if a == [] {
      assert a + b == b;
    } else {
      assert (a + b)[0] == a[0];
      assert (a + b)[1..] == a[1..] + b;
      if !faulty(n) && step(tables, a[0]).Some? {
        RunAppend(step(tables, a[0]).value, a[1..], b, n + 1, faulty, step);
      }
    }
  }

  /** Statements that do not write `name` leave it as it was, whether they all succeed or
      one fails on the way. */
  lemma {:induction false} RunPreserves(tables: Tables, stmts: seq<Stmt>, n: nat, faulty: nat -> bool,
                                        step: Step, wh: Warehouse, name: string)
    requires Follows(step, wh)
    requires forall i :: 0 <= i < |stmts| ==> !Writes(stmts[i], name)
    ensures var r := RunFrom(tables, stmts, n, faulty, step);
      (name in r.tables <==> name in tables) && (name in tables ==> r.tables[name] == tables[name])
    decreases |stmts|
  {
    if stmts != [] && !faulty(n) && step(tables, stmts[0]).Some? {
      ExecPreserves(tables, stmts[0], wh, name);
      RunPreserves(step(tables, stmts[0]).value, stmts[1..], n + 1, faulty, step, wh, name);
    }
  }

  /** A statement that does not write `name` leaves it as it was. */
  lemma ExecPreserves(tables: Tables, s: Stmt, wh: Warehouse, name: string)
    requires !Writes(s, name)
    requires Exec(tables, s, wh).Some?
    ensures var t := Exec(tables, s, wh).value;
      (name in t <==> name in tables) && (name in tables ==> t[name] == tables[name])
  {
  }

  /** Statements that do not write `name` and all succeed leave it as it was. */
  lemma {:induction false} ExecAllPreserves(tables: Tables, stmts: seq<Stmt>, wh: Warehouse, name: string)
    requires forall i :: 0 <= i < |stmts| ==> !Writes(stmts[i], name)
    requires ExecAll(tables, stmts, wh).Some?
    ensures var t := ExecAll(tables, stmts, wh).value;
      (name in t <==> name in tables) && (name in tables ==> t[name] == tables[name])
    decreases |stmts|
  {
    if stmts != [] {
      ExecPreserves(tables, stmts[0], wh, name);
      ExecAllPreserves(Exec(tables, stmts[0], wh).value, stmts[1..], wh, name);
    }
  }

  /** Running `a + b` without faults runs `a`, then `b` from where `a` ended. */
  lemma {:induction false} ExecAllAppend(tables: Tables, a: seq<Stmt>, b: seq<Stmt>, wh: Warehouse)
    ensures ExecAll(tables, a + b, wh)
      == match ExecAll(tables, a, wh) case None => None case Some(t) => ExecAll(t, b, wh)
    decreases |a|
  {
    if a == [] {
      assert a + b == b;
    } else {
      assert (a + b)[0] == a[0];
      assert (a + b)[1..] == a[1..] + b;
      if Exec(tables, a[0], wh).Some? {
        ExecAllAppend(Exec(tables, a[0], wh).value, a[1..], b, wh);
      }
    }
  }

  // ---------------------------------------------------------------------------
  // Properties of the statement texts
  // ---------------------------------------------------------------------------

  lemma {:induction false} JoinCommaSpace(parts: seq<string>)
    requires |parts| >= 1
    ensures Join(parts, ", ") == Join([parts[0]] + SpaceLed(parts[1..]), ",")
    decreases |parts|
  {
    if |parts| > 1 {
      JoinCommaSpace(parts[1..]);
      var rest := parts[1..];
      assert SpaceLed(rest) == [" " + rest[0]] + SpaceLed(rest[1..]);
      assert ([parts[0]] + SpaceLed(rest))[1..] == SpaceLed(rest);
      assert ([rest[0]] + SpaceLed(rest[1..]))[1..] == SpaceLed(rest[1..]);
    }
  }

  function SpaceLed(parts: seq<string>): (r: seq<string>)
    ensures |r| == |parts|
    ensures forall i :: 0 <= i < |parts| ==> r[i] == " " + parts[i]
    decreases |parts|
  {
    if parts == [] then [] else [" " + parts[0]] + SpaceLed(parts[1..])
  }

  /** Each column appears as `<col> STRING`, in input order, separated by `", "`: cutting the
      definitions at the commas gives back one piece per column, in order. */
  lemma ColumnDefinitionsSplit(cols: seq<string>)
    requires |cols| >= 1
    requires forall i :: 0 <= i < |cols| ==> ',' !in cols[i]
    ensures var pieces := Split(ColumnDefinitions(cols), ',');
      && |pieces| == |cols|
      && pieces[0] == cols[0] + " STRING"
      && forall i :: 1 <= i < |cols| ==> pieces[i] == " " + cols[i] + " STRING"
  {
    var defs := StringColumns(cols);
    JoinCommaSpace(defs);
    var parts := [defs[0]] + SpaceLed(defs[1..]);
    forall i | 0 <= i < |parts| ensures ',' !in parts[i] {
      if i == 0 {
        assert parts[0] == cols[0] + " STRING";
      } else {
        assert parts[i] == " " + (cols[i] + " STRING");
      }
    }
    SplitJoin(parts, ',');
    assert forall i :: 1 <= i < |cols| ==> parts[i] == " " + (cols[i] + " STRING");
  }

  lemma MulSucc(n: nat, k: nat)
    ensures (n + 1) * k == n * k + k
  {
  }

  lemma {:induction false} CountJoin(parts: seq<string>, sep: string, c: char, k: nat)
    requires Count(sep, c) == 0
    requires forall i :: 0 <= i < |parts| ==> Count(parts[i], c) == k
    ensures Count(Join(parts, sep), c) == |parts| * k
    decreases |parts|
  {
    if |parts| > 1 {
      CountJoin(parts[1..], sep, c, k);
      CountAppend(parts[0] + sep, Join(parts[1..], sep), c);
      CountAppend(parts[0], sep, c);
      MulSucc(|parts| - 1, k);
    } else if |parts| == 1 {
      MulSucc(0, k);
    }
  }

  lemma {:induction false} CountZeroJoin(parts: seq<string>, sep: string, c: char)
    requires Count(sep, c) == 0
    requires forall i :: 0 <= i < |parts| ==> c !in parts[i]
    ensures Count(Join(parts, sep), c) == 0
    decreases |parts|
  {
    forall i | 0 <= i < |parts| ensures Count(parts[i], c) == 0 {
      CountAbsent(parts[i], c);
    }
    CountJoin(parts, sep, c, 0);
  }

  lemma {:induction false} CountAbsent(s: string, c: char)
    requires c !in s
    ensures Count(s, c) == 0
    decreases |s|
  {
    if s != [] {
      assert s[0] in s;
      CountAbsent(s[1..], c);
    }
  }

  /** One placeholder group holds `width` placeholders. */
  lemma PlaceholdersCount(width: nat)
    ensures Count(Placeholders(width), '?') == width
  {
    CountJoin(Repeat("?", width), ", ", '?', 1);
    var inner := Join(Repeat("?", width), ", ");
    CountAppend("(" + inner, ")", '?');
    CountAppend("(", inner, '?');
  }

  lemma InsertKeywordCount()
    ensures Count("INSERT INTO ", '?') == 0
  {
    CountAbsent("INSERT INTO ", '?');
  }

  lemma OpenKeywordCount()
    ensures Count(" (", '?') == 0
  {
    CountAbsent(" (", '?');
  }

  lemma ValuesKeywordCount()
    ensures Count(") VALUES ", '?') == 0
  {
    CountAbsent(") VALUES ", '?');
  }

  /** The text before the placeholder groups carries no placeholder. */
  lemma InsertHeadCount(name: string, cols: string)
    requires Count(name, '?') == 0 && Count(cols, '?') == 0
    ensures Count("INSERT INTO " + name + " (" + cols + ") VALUES ", '?') == 0
  {
    var p1, p2, p3 := "INSERT INTO ", " (", ") VALUES ";
    InsertKeywordCount();
    OpenKeywordCount();
    ValuesKeywordCount();
    CountAppend(p1, name, '?');
    CountAppend(p1 + name, p2, '?');
    CountAppend(p1 + name + p2, cols, '?');
    CountAppend(p1 + name + p2 + cols, p3, '?');
  }

  /** An INSERT for a batch of `groups` rows over `keys` carries exactly `groups * |keys|`
      placeholders (provided no table or column name contains a `?`). */
  lemma InsertPlaceholderCount(name: string, keys: seq<string>, groups: nat)
    requires '?' !in name
    requires forall i :: 0 <= i < |keys| ==> '?' !in keys[i]
    ensures Count(InsertSql(name, keys, groups), '?') == groups * |keys|
  {
    PlaceholdersCount(|keys|);
    var values := Join(Repeat(Placeholders(|keys|), groups), ", ");
    CountJoin(Repeat(Placeholders(|keys|), groups), ", ", '?', |keys|);
    CountZeroJoin(keys, ", ", '?');
    CountAbsent(name, '?');
    var head := "INSERT INTO " + name + " (" + Join(keys, ", ") + ") VALUES ";
    InsertHeadCount(name, Join(keys, ", "));
    CountAppend(head, values, '?');
  }
}
