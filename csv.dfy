/** The CSV file that `bulkInsert` writes (src/services/bulkInsertService.ts:43-58) and the
    reading of it that its `COPY INTO ... FILE_FORMAT = (TYPE = 'CSV'
    FIELD_OPTIONALLY_ENCLOSED_BY = '"' SKIP_HEADER = 1 NULL_IF = (''))` asks of the warehouse.

    Quoting follows rules 5 to 7 of section 2 of RFC 4180: a string field is enclosed in
    double quotes and every double quote inside it is written twice. Records are separated
    by a single line feed and fields by a comma. */
module Csv {
  import opened Wrappers
  import opened Text
  import opened Records

  /** A field as a STRING column receives it: SQL NULL or a text value. */
  datatype Cell = NullCell | Text(s: string)

  // ---------------------------------------------------------------------------
  // Writing (the client side)
  // ---------------------------------------------------------------------------

  /** `s.replace(/"/g, '""')`. */
  function Escape(s: string): (e: string)
    ensures Count(e, '"') == 2 * Count(s, '"')
    decreases |s|
  {
    if s == [] then ""
    else
      var e := (if s[0] == '"' then "\"\"" else [s[0]]) + Escape(s[1..]);
      CountAppend(if s[0] == '"' then "\"\"" else [s[0]], Escape(s[1..]), '"');
      e
  }

  /** One field: `null`/`undefined` become the empty field, a string is quoted with
      inner quotes doubled, a number is written as `String(n)` and a boolean as
      `String(b)`, the template's own conversion. */
  function EncodeValue(v: Option<Value>): string
  {
    match v
    case None => ""
    case Some(Null) => ""
    case Some(Str(s)) => "\"" + Escape(s) + "\""
    case Some(Num(n)) => IntToString(n)
    case Some(Bool(b)) => BoolToString(b)
  }

  /** `String(b)` of a boolean. */
  function BoolToString(b: bool): (s: string)
    ensures |s| > 0 && forall i :: 0 <= i < |s| ==> !IsSeparator(s[i]) && s[i] != '"'
    ensures b <==> s == "true"
  {
    if b then "true" else "false"
  }

  /** The values of `row` under `keys`, in the order of `keys` (`row[key]` for each key). */
  function Project(keys: seq<string>, row: Record): (vs: seq<Option<Value>>)
    ensures |vs| == |keys|
    ensures forall j :: 0 <= j < |keys| ==> vs[j] == Get(row, keys[j])
  {
    seq(|keys|, j requires 0 <= j < |keys| => Get(row, keys[j]))
  }

  /** `vs.map(encode)`: the encoded fields of one record. */
  function EncodeFields(vs: seq<Option<Value>>): (fs: seq<string>)
    ensures |fs| == |vs|
    ensures forall j :: 0 <= j < |vs| ==> fs[j] == EncodeValue(vs[j])
    decreases |vs|
  {
    if vs == [] then [] else [EncodeValue(vs[0])] + EncodeFields(vs[1..])
  }

  /** One record: the encoded fields joined by commas. */
  function EncodeLine(vs: seq<Option<Value>>): string
  {
    Join(EncodeFields(vs), ",")
  }

  /** `data.map(row => ...)`: one encoded line per row, its values under `keys`. */
  function EncodeLines(keys: seq<string>, data: seq<Record>): (lines: seq<string>)
    ensures |lines| == |data|
    ensures forall i :: 0 <= i < |data| ==> lines[i] == EncodeLine(Project(keys, data[i]))
    decreases |data|
  {
    if data == [] then [] else [EncodeLine(Project(keys, data[0]))] + EncodeLines(keys, data[1..])
  }

  /** The file content built in `bulkInsert`: the header (the keys of the first row,
      joined by commas) and one line per row with that row's values under those keys. */
  function CsvContent(data: seq<Record>): string
    requires |data| > 0
  {
    var keys := Keys(data[0]);
    Join([Join(keys, ",")] + EncodeLines(keys, data), "\n")
  }

  // ---------------------------------------------------------------------------
  // Reading (what COPY INTO does with the file)
  // ---------------------------------------------------------------------------

  predicate IsSeparator(c: char) { c == ',' || c == '\n' }

  /** What a field carries into the table once read back: an empty unquoted field matches
      `NULL_IF = ('')`, a quoted field is text, a number or a boolean is its text. */
  function CellOf(v: Option<Value>): Cell
  {
    match v
    case None => NullCell
    case Some(Null) => NullCell
    case Some(Str(s)) => Text(s)
    case Some(Num(n)) => Text(IntToString(n))
    case Some(Bool(b)) => Text(BoolToString(b))
  }

  /** The cells of one record, field by field. */
  function CellsOf(vs: seq<Option<Value>>): (cs: seq<Cell>)
    ensures |cs| == |vs|
    ensures forall j :: 0 <= j < |vs| ==> cs[j] == CellOf(vs[j])
    decreases |vs|
  {
    if vs == [] then [] else [CellOf(vs[0])] + CellsOf(vs[1..])
  }

  /** The cells of every row under `keys`, row by row. */
  function RowCells(keys: seq<string>, data: seq<Record>): (rows: seq<seq<Cell>>)
    ensures |rows| == |data|
    ensures forall i :: 0 <= i < |data| ==> |rows[i]| == |keys|
    decreases |data|
  {
    if data == [] then [] else [CellsOf(Project(keys, data[0]))] + RowCells(keys, data[1..])
  }

  /** Row `i` of the cells is record `i` read under `keys`. */
  lemma {:induction false} RowCellsAt(keys: seq<string>, data: seq<Record>, i: nat)
    requires i < |data|
    ensures RowCells(keys, data)[i] == CellsOf(Project(keys, data[i]))
    decreases i
  {
    if i > 0 {
      RowCellsAt(keys, data[1..], i - 1);
    }
  }

  /** Reads the inside of a quoted field, just after its opening quote: `""` stands for one
      quote and a lone quote closes the field. Returns the text and what follows the close. */
  function ParseQuoted(s: string): (r: Option<(string, string)>)
    ensures r.Some? ==> |r.value.1| < |s|
    decreases |s|
  {
    if s == [] then None
    else if s[0] == '"' && |s| > 1 && s[1] == '"' then
      match ParseQuoted(s[2..])
      case None => None
      case Some((body, rest)) => Some(("\"" + body, rest))
    else if s[0] == '"' then Some(("", s[1..]))
    else
      match ParseQuoted(s[1..])
      case None => None
      case Some((body, rest)) => Some(([s[0]] + body, rest))
  }

  /** Length of the unquoted field at the start of `s`. */
  function BareLength(s: string): (n: nat)
    ensures n <= |s|
    ensures n < |s| ==> IsSeparator(s[n])
    decreases |s|
  {
    if s == [] || IsSeparator(s[0]) then 0 else 1 + BareLength(s[1..])
  }

  /** Reads one field; what remains is empty or starts with a separator. */
  function ParseField(s: string): (r: Option<(Cell, string)>)
    ensures r.Some? ==> |r.value.1| <= |s|
    ensures r.Some? ==> r.value.1 == [] || IsSeparator(r.value.1[0])
  {
    if |s| > 0 && s[0] == '"' then
      match ParseQuoted(s[1..])
      case None => None
      case Some((body, rest)) =>
        if rest == [] || IsSeparator(rest[0]) then Some((Text(body), rest)) else None
    else
      var n := BareLength(s);
      Some((if n == 0 then NullCell else Text(s[..n]), s[n..]))
  }

  /** Reads the comma-separated fields of one record; what remains is empty or starts
      with the line feed that ends the record. */
  function ParseRecord(s: string): (r: Option<(seq<Cell>, string)>)
    ensures r.Some? ==> |r.value.1| <= |s|
    ensures r.Some? ==> r.value.1 == [] || r.value.1[0] == '\n'
    decreases |s|
  {
    match ParseField(s)
    case None => None
    case Some((c, rest)) =>
      if rest != [] && rest[0] == ',' then
        match ParseRecord(rest[1..])
        case None => None
        case Some((cs, rest')) => Some(([c] + cs, rest'))
      else Some(([c], rest))
  }

  /** Reads the line-separated records of `s`. */
  function ParseRecords(s: string): Option<seq<seq<Cell>>>
    decreases |s|
  {
    match ParseRecord(s)
    case None => None
    case Some((cs, rest)) =>
      if rest == [] then Some([cs])
      else
        match ParseRecords(rest[1..])
        case None => None
        case Some(more) => Some([cs] + more)
  }

  /** `SKIP_HEADER = 1`: the records after the first line (none if there is no second line). */
  function LoadCsv(content: string): Option<seq<seq<Cell>>>
    decreases |content|
  {
    if content == [] then Some([])
    else if content[0] == '\n' then ParseRecords(content[1..])
    else LoadCsv(content[1..])
  }

  // ---------------------------------------------------------------------------
  // Round trip
  // ---------------------------------------------------------------------------

  /** Un-doubling the quotes of an escaped string up to the closing quote recovers it. */
  lemma {:induction false} QuotedRoundTrip(x: string, rest: string)
    requires rest == [] || rest[0] != '"'
    ensures ParseQuoted(Escape(x) + "\"" + rest) == Some((x, rest))
    decreases |x|
  {
    var s := Escape(x) + "\"" + rest;
    if x == [] {
      assert s == "\"" + rest;
      assert s[1..] == rest;
    } else if x[0] == '"' {
      assert s == "\"\"" + (Escape(x[1..]) + "\"" + rest);
      QuotedRoundTrip(x[1..], rest);
      assert "\"" + x[1..] == x;
    } else {
      assert s == [x[0]] + (Escape(x[1..]) + "\"" + rest);
      QuotedRoundTrip(x[1..], rest);
      assert [x[0]] + x[1..] == x;
    }
  }

  lemma {:induction false} BareRoundTrip(t: string, rest: string)
    requires forall i :: 0 <= i < |t| ==> !IsSeparator(t[i])
    requires rest == [] || IsSeparator(rest[0])
    ensures BareLength(t + rest) == |t|
    decreases |t|
  {
    if t == [] {
      assert t + rest == rest;
    } else {
      assert (t + rest)[1..] == t[1..] + rest;
      BareRoundTrip(t[1..], rest);
    }
  }

  /** Reading an encoded field gives back the cell its value stands for. */
  lemma FieldRoundTrip(v: Option<Value>, rest: string)
    requires rest == [] || IsSeparator(rest[0])
    ensures ParseField(EncodeValue(v) + rest) == Some((CellOf(v), rest))
  {
    var s := EncodeValue(v) + rest;
    match v
    case None =>
      assert s == rest;
      BareRoundTrip("", rest);
    case Some(Null) =>
      assert s == rest;
      BareRoundTrip("", rest);
    case Some(Str(x)) =>
      QuotedFieldRoundTrip(x, rest);
    case Some(Num(n)) =>
      NumberFieldRoundTrip(n, rest);
    case Some(Bool(b)) =>
      BooleanFieldRoundTrip(b, rest);
  }

  lemma QuotedFieldRoundTrip(x: string, rest: string)
    requires rest == [] || IsSeparator(rest[0])
    ensures ParseField(EncodeValue(Some(Str(x))) + rest) == Some((CellOf(Some(Str(x))), rest))
  {
    var inner := Escape(x) + "\"" + rest;
    var s := "\"" + inner;
    assert EncodeValue(Some(Str(x))) + rest == s;
    assert s[0] == '"' && s[1..] == inner;
    QuotedRoundTrip(x, rest);
  }

  lemma NumberFieldRoundTrip(n: int, rest: string)
    requires rest == [] || IsSeparator(rest[0])
    ensures ParseField(EncodeValue(Some(Num(n))) + rest) == Some((CellOf(Some(Num(n))), rest))
  {
    var s := EncodeValue(Some(Num(n))) + rest;
    var t := IntToString(n);
    BareRoundTrip(t, rest);
    assert s[..|t|] == t && s[|t|..] == rest;
  }

  lemma BooleanFieldRoundTrip(b: bool, rest: string)
    requires rest == [] || IsSeparator(rest[0])
    ensures ParseField(EncodeValue(Some(Bool(b))) + rest) == Some((CellOf(Some(Bool(b))), rest))
  {
    var s := EncodeValue(Some(Bool(b))) + rest;
    var t := BoolToString(b);
    BareRoundTrip(t, rest);
    assert s[..|t|] == t && s[|t|..] == rest;
  }

  /** Reading an encoded record gives back its cells, field by field. */
  lemma {:induction false} LineRoundTrip(vs: seq<Option<Value>>, rest: string)
    requires |vs| >= 1
    requires rest == [] || rest[0] == '\n'
    ensures ParseRecord(EncodeLine(vs) + rest) == Some((CellsOf(vs), rest))
    decreases |vs|
  {
    if |vs| == 1 {
      LastFieldRoundTrip(vs, rest);
    } else {
      var tail := vs[1..];
      var after := "," + (EncodeLine(tail) + rest);
      LineCons(vs, rest);
      FieldRoundTrip(vs[0], after);
      assert after[1..] == EncodeLine(tail) + rest;
      LineRoundTrip(tail, rest);
    }
  }

  lemma LastFieldRoundTrip(vs: seq<Option<Value>>, rest: string)
    requires |vs| == 1
    requires rest == [] || rest[0] == '\n'
    ensures ParseRecord(EncodeLine(vs) + rest) == Some((CellsOf(vs), rest))
  {
    assert EncodeFields(vs) == [EncodeValue(vs[0])];
    FieldRoundTrip(vs[0], rest);
    assert CellsOf(vs) == [CellOf(vs[0])];
  }

  lemma LineCons(vs: seq<Option<Value>>, rest: string)
    requires |vs| >= 2
    ensures EncodeLine(vs) + rest == EncodeValue(vs[0]) + ("," + (EncodeLine(vs[1..]) + rest))
  {
    assert EncodeFields(vs)[1..] == EncodeFields(vs[1..]);
  }

  /** Reading the encoded lines of a table gives back all its rows, in order. */
  lemma {:induction false} LinesRoundTrip(keys: seq<string>, data: seq<Record>)
    requires |keys| >= 1 && |data| >= 1
    ensures ParseRecords(Join(EncodeLines(keys, data), "\n")) == Some(RowCells(keys, data))
    decreases |data|
  {
    var first := Project(keys, data[0]);
    if |data| == 1 {
      LineRoundTrip(first, "");
      assert EncodeLine(first) + "" == EncodeLine(first);
      assert EncodeLines(keys, data) == [EncodeLine(first)];
      assert RowCells(keys, data) == [CellsOf(first)];
    } else {
      var tail := data[1..];
      assert EncodeLines(keys, data)[1..] == EncodeLines(keys, tail);
      var body := Join(EncodeLines(keys, tail), "\n");
      assert Join(EncodeLines(keys, data), "\n") == EncodeLine(first) + ("\n" + body);
      LineRoundTrip(first, "\n" + body);
      assert ("\n" + body)[1..] == body;
      LinesRoundTrip(keys, tail);
    }
  }

  lemma {:induction false} SkipHeaderLine(header: string, body: string)
    requires '\n' !in header
    ensures LoadCsv(header + "\n" + body) == ParseRecords(body)
    decreases |header|
  {
    if header == [] {
      assert header + "\n" + body == "\n" + body;
      assert ("\n" + body)[1..] == body;
    } else {
      assert header[0] in header;
      assert (header + "\n" + body)[1..] == header[1..] + "\n" + body;
      SkipHeaderLine(header[1..], body);
    }
  }

  lemma RowCellsCells(keys: seq<string>, data: seq<Record>)
    ensures forall i, j :: 0 <= i < |data| && 0 <= j < |keys| ==>
      RowCells(keys, data)[i][j] == CellOf(Get(data[i], keys[j]))
  {
    forall i, j | 0 <= i < |data| && 0 <= j < |keys|
      ensures RowCells(keys, data)[i][j] == CellOf(Get(data[i], keys[j]))
    {
      RowCellsAt(keys, data, i);
    }
  }

  /** The rows COPY INTO reads from the file `bulkInsert` writes: for every input row, in
      order, the cells of its values under the first row's keys. */
  function LoadedRows(data: seq<Record>): (rows: seq<seq<Cell>>)
    requires |data| > 0
    ensures |rows| == |data|
    ensures forall i, j :: 0 <= i < |data| && 0 <= j < |data[0]| ==>
      |rows[i]| == |data[0]| && rows[i][j] == CellOf(Get(data[i], data[0][j].key))
  {
    RowCellsCells(Keys(data[0]), data);
    RowCells(Keys(data[0]), data)
  }

  /** The file is read back as exactly the rows that were written: each row's values under
      the first row's keys, missing and null values as NULL, strings with their quotes
      restored. This needs at least one key and no line feed inside a key (the header line
      is skipped by position). */
  lemma CsvRoundTrip(data: seq<Record>)
    requires |data| > 0
    requires |data[0]| > 0
    requires forall k :: k in Keys(data[0]) ==> '\n' !in k
    ensures LoadCsv(CsvContent(data)) == Some(LoadedRows(data))
  {
    var keys := Keys(data[0]);
    var lines := EncodeLines(keys, data);
    LinesRoundTrip(keys, data);
    var header := Join(keys, ",");
    HeaderHasNoLineFeed(keys);
    assert ([header] + lines)[1..] == lines;
    assert Join([header] + lines, "\n") == header + "\n" + Join(lines, "\n");
    SkipHeaderLine(header, Join(lines, "\n"));
  }

  lemma {:induction false} HeaderHasNoLineFeed(keys: seq<string>)
    requires forall k :: k in keys ==> '\n' !in k
    ensures '\n' !in Join(keys, ",")
    decreases |keys|
  {
    if |keys| > 1 {
      HeaderHasNoLineFeed(keys[1..]);
      assert keys[0] in keys;
    } else if |keys| == 1 {
      assert keys[0] in keys;
    }
  }

  /** A string value survives the quoting: the field holds it again once read. */
  lemma StringFieldRoundTrip(s: string)
    ensures ParseField(EncodeValue(Some(Str(s)))) == Some((Text(s), ""))
  {
    FieldRoundTrip(Some(Str(s)), "");
    assert EncodeValue(Some(Str(s))) + "" == EncodeValue(Some(Str(s)));
  }
}
