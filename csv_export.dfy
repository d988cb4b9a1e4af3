/** The CSV text of `exportToCSV`: a header record with the column labels
    and one record per data row, fields escaped as in section 2 of RFC 4180
    and records separated by a line feed. */
module CsvExport {
  import opened Common

  /** A cell value as `formatValue` sees it: missing (`null` or
      `undefined`), an object (shown by its JSON text, which is not part of
      this model) or any other value (shown by `String(value)`). */
  datatype Value = Missing | Object(json: string) | Primitive(text: string)

  /** A data row: its own keys in `Object.keys` order, with their values. */
  type Row = seq<(string, Value)>

  datatype Column = Column(key: string, heading: string)

  // ---------------------------------------------------------------------
  // Fields

  /** `formatValue` */
  function FormatValue(v: Value): (s: string)
    ensures v.Missing? ==> s == ""
  {
    match v
    case Missing => ""
    case Object(json) => json
    case Primitive(text) => text
  }

  /** A field that holds a comma, a line feed or a double quote. */
  predicate NeedsQuotes(v: string) {
    ',' in v || '\n' in v || '"' in v
  }

  /** Every `"` written twice. */
  function DoubleQuotes(v: string): (r: string)
    ensures |r| >= |v|
    ensures '"' !in v ==> r == v
  {
    if v == [] then []
    else (if v[0] == '"' then "\"\"" else [v[0]]) + DoubleQuotes(v[1..])
  }

  /** `escapeCSV` */
  function EscapeCsv(v: string): (r: string)
    ensures !NeedsQuotes(v) ==> r == v
    ensures NeedsQuotes(v) ==> |r| >= |v| + 2 && r[0] == '"' && r[|r| - 1] == '"'
  {
    if NeedsQuotes(v) then "\"" + DoubleQuotes(v) + "\"" else v
  }

  /** A carriage return alone does not make a field quoted. */
  lemma CarriageReturnUnquoted(v: string)
    requires '\r' in v && !NeedsQuotes(v)
    ensures EscapeCsv(v) == v && '\r' in EscapeCsv(v)
  {
  }

  // ---------------------------------------------------------------------
  // Reading a field back

  /** Collapses every `""` to `"`. */
  function CollapseQuotes(s: string): string
  {
    if |s| >= 2 && s[0] == '"' && s[1] == '"' then "\"" + CollapseQuotes(s[2..])
    else if s == [] then []
    else [s[0]] + CollapseQuotes(s[1..])
  }

  /** Strips the outer quotes of a quoted field and collapses its `""`. */
  function UnescapeCsv(f: string): string {
    if |f| >= 2 && f[0] == '"' && f[|f| - 1] == '"' then CollapseQuotes(f[1..|f| - 1]) else f
  }

  lemma {:induction false} CollapseDoubled(v: string)
    ensures CollapseQuotes(DoubleQuotes(v)) == v
    decreases |v|
  {
    if v != [] {
      CollapseDoubled(v[1..]);
      var rest := DoubleQuotes(v[1..]);
      if v[0] == '"' {
        assert DoubleQuotes(v) == "\"\"" + rest;
        assert ("\"\"" + rest)[2..] == rest;
      } else {
        assert DoubleQuotes(v) == [v[0]] + rest;
        assert ([v[0]] + rest)[1..] == rest;
      }
    }
  }

  /** Unescaping an escaped field gives back the value. */
  lemma EscapeCsvRoundTrip(v: string)
    ensures UnescapeCsv(EscapeCsv(v)) == v
  {
    if NeedsQuotes(v) {
      var f := EscapeCsv(v);
      assert f[1..|f| - 1] == DoubleQuotes(v);
      CollapseDoubled(v);
    } else if |v| >= 2 {
      assert v[0] != '"' by { assert v[0] in v; }
    }
  }

  // ---------------------------------------------------------------------
  // Records and the document

  /** `row[col.key]`, missing when the row has no such key. */
  function Lookup(row: Row, key: string): (v: Value)
    ensures (forall i :: 0 <= i < |row| ==> row[i].0 != key) ==> v == Missing
    ensures |row| > 0 && row[0].0 == key ==> v == row[0].1
  {
    if row == [] then Missing
    else if row[0].0 == key then row[0].1
    else Lookup(row[1..], key)
  }

  /** `Object.keys(firstItem).map(key => ({ key, label: key }))` */
  function DefaultColumns(row: Row): (cols: seq<Column>)
    ensures |cols| == |row|
    ensures forall i :: 0 <= i < |cols| ==> cols[i] == Column(row[i].0, row[i].0)
  {
    if row == [] then [] else [Column(row[0].0, row[0].0)] + DefaultColumns(row[1..])
  }

  function Label(c: Column): string { c.heading }

  /** The row's values in column order, as text. */
  function Values(row: Row, cols: seq<Column>): (vs: seq<string>)
    ensures |vs| == |cols|
    ensures forall j :: 0 <= j < |cols| ==> vs[j] == FormatValue(Lookup(row, cols[j].key))
  {
    if cols == [] then [] else [FormatValue(Lookup(row, cols[0].key))] + Values(row, cols[1..])
  }

  /** One record: the escaped fields joined by commas. */
  function Record(fields: seq<string>): string {
    Join(MapSeq(fields, EscapeCsv), ",")
  }

  function Records(data: seq<Row>, cols: seq<Column>): (rs: seq<seq<string>>)
    ensures |rs| == |data|
    ensures forall i :: 0 <= i < |data| ==> rs[i] == Values(data[i], cols)
  {
    if data == [] then [] else [Values(data[0], cols)] + Records(data[1..], cols)
  }

  /** The document's records as text. */
  function Document(records: seq<seq<string>>): string {
    Join(MapSeq(records, Record), "\n")
  }

  /** The columns in use: the given ones, or the first row's keys. */
  function ColumnsOf(data: seq<Row>, columns: Option<seq<Column>>): seq<Column>
    requires data != []
  {
    columns.GetOr(DefaultColumns(data[0]))
  }

  /** The CSV text `exportToCSV` hands to the download, or nothing for no
      data. */
  function ExportCsv(data: seq<Row>, columns: Option<seq<Column>>): (r: Option<string>)
    ensures r.None? <==> data == []
  {
    if data == [] then None
    else
      var cols := ColumnsOf(data, columns);
      Some(Document([MapSeq(cols, Label)] + Records(data, cols)))
  }

  // ---------------------------------------------------------------------
  // A reader for the format

  /** An unquoted field: everything up to the next comma or line feed. */
  function ReadPlain(s: string): (r: (string, string))
    ensures |r.1| <= |s|
  {
    if s == [] || s[0] == ',' || s[0] == '\n' then ([], s)
    else
      var (f, rest) := ReadPlain(s[1..]);
      ([s[0]] + f, rest)
  }

  /** The inside of a quoted field, after its opening quote, up to the
      closing quote; a `""` stands for one quote. */
  function ReadQuoted(s: string): (r: Option<(string, string)>)
    ensures r.Some? ==> |r.value.1| < |s|
  {
    if s == [] then None
    else if s[0] == '"' then
      if |s| >= 2 && s[1] == '"' then
        match ReadQuoted(s[2..])
        case None => None
        case Some((f, rest)) => Some(("\"" + f, rest))
      else Some(([], s[1..]))
    else
      match ReadQuoted(s[1..])
      case None => None
      case Some((f, rest)) => Some(([s[0]] + f, rest))
  }

  function ReadField(s: string): (r: Option<(string, string)>)
    ensures r.Some? ==> |r.value.1| <= |s|
  {
    if |s| > 0 && s[0] == '"' then ReadQuoted(s[1..]) else Some(ReadPlain(s))
  }

  /** The fields of one record, up to the line feed that ends it. */
  function ReadRecord(s: string): (r: Option<(seq<string>, string)>)
    ensures r.Some? ==> |r.value.1| <= |s|
    decreases |s|
  {
    match ReadField(s)
    case None => None
    case Some((f, rest)) =>
      if |rest| > 0 && rest[0] == ',' then
        match ReadRecord(rest[1..])
        case None => None
        case Some((fs, tail)) => Some(([f] + fs, tail))
      else Some(([f], rest))
  }

  /** All records of a document. */
  function ReadDocument(s: string): Option<seq<seq<string>>>
    decreases |s|
  {
    match ReadRecord(s)
    case None => None
    case Some((fs, rest)) =>
      if rest == [] then Some([fs])
      else if rest[0] == '\n' then
        match ReadDocument(rest[1..])
        case None => None
        case Some(rs) => Some([fs] + rs)
      else None
  }

  // ---------------------------------------------------------------------
  // Reading back what was written

  /** A position where a field may end: the end, a comma or a line feed. */
  predicate FieldEnd(rest: string) {
    rest == [] || rest[0] == ',' || rest[0] == '\n'
  }

  lemma {:induction false} ReadPlainOf(v: string, rest: string)
    requires ',' !in v && '\n' !in v
    requires FieldEnd(rest)
    ensures ReadPlain(v + rest) == (v, rest)
    decreases |v|
  {
    if v != [] {
      assert (v + rest)[1..] == v[1..] + rest;
      assert v[0] in v;
      assert ',' !in v[1..] && '\n' !in v[1..];
      ReadPlainOf(v[1..], rest);
      assert [v[0]] + v[1..] == v;
    } else {
      assert v + rest == rest;
    }
  }

  lemma DoubleQuotesHead(v: string, rest: string)
    requires v != []
    ensures DoubleQuotes(v) + "\"" + rest
         == (if v[0] == '"' then "\"\"" else [v[0]]) + (DoubleQuotes(v[1..]) + "\"" + rest)
  {
  }

  lemma ReadQuotedPair(t: string)
    ensures ReadQuoted("\"\"" + t)
         == match ReadQuoted(t) case None => None case Some((f, r)) => Some(("\"" + f, r))
  {
    assert ("\"\"" + t)[2..] == t;
  }

  lemma ReadQuotedChar(c: char, t: string)
    requires c != '"'
    ensures ReadQuoted([c] + t)
         == match ReadQuoted(t) case None => None case Some((f, r)) => Some(([c] + f, r))
  {
    assert ([c] + t)[1..] == t;
  }

  lemma ReadQuotedClose(rest: string)
    requires rest == [] || rest[0] != '"'
    ensures ReadQuoted("\"" + rest) == Some(([], rest))
  {
    assert ("\"" + rest)[1..] == rest;
  }

  lemma {:induction false} ReadQuotedOf(v: string, rest: string)
    requires rest == [] || rest[0] != '"'
    ensures ReadQuoted(DoubleQuotes(v) + "\"" + rest) == Some((v, rest))
    decreases |v|
  {
    if v == [] {
      assert DoubleQuotes(v) + "\"" + rest == "\"" + rest;
      ReadQuotedClose(rest);
    } else {
      var tail := DoubleQuotes(v[1..]) + "\"" + rest;
      DoubleQuotesHead(v, rest);
      ReadQuotedOf(v[1..], rest);
      if v[0] == '"' {
        ReadQuotedPair(tail);
        assert "\"" + v[1..] == v;
      } else {
        ReadQuotedChar(v[0], tail);
        assert [v[0]] + v[1..] == v;
      }
    }
  }

  lemma QuotedSplit(v: string, rest: string)
    requires NeedsQuotes(v)
    ensures EscapeCsv(v) + rest == "\"" + (DoubleQuotes(v) + "\"" + rest)
  {
  }

  lemma ReadFieldOpen(b: string)
    ensures ReadField("\"" + b) == ReadQuoted(b)
  {
    assert ("\"" + b)[1..] == b;
  }

  lemma ReadFieldQuoted(v: string, rest: string)
    requires NeedsQuotes(v) && FieldEnd(rest)
    ensures ReadField(EscapeCsv(v) + rest) == Some((v, rest))
  {
    QuotedSplit(v, rest);
    ReadFieldOpen(DoubleQuotes(v) + "\"" + rest);
    ReadQuotedOf(v, rest);
  }

  lemma ReadFieldPlain(v: string, rest: string)
    requires !NeedsQuotes(v) && FieldEnd(rest)
    ensures ReadField(EscapeCsv(v) + rest) == Some((v, rest))
  {
    ReadPlainOf(v, rest);
    if v != [] {
      assert v[0] in v;
      assert (v + rest)[0] == v[0];
    } else {
      assert v + rest == rest;
    }
  }

  /** An escaped field followed by a comma, a line feed or the end reads
      back as the value. */
  lemma ReadFieldOf(v: string, rest: string)
    requires FieldEnd(rest)
    ensures ReadField(EscapeCsv(v) + rest) == Some((v, rest))
  {
    if NeedsQuotes(v) {
      ReadFieldQuoted(v, rest);
    } else {
      ReadFieldPlain(v, rest);
    }
  }

  lemma {:induction false} ReadRecordOf(fields: seq<string>, rest: string)
    requires |fields| >= 1
    requires rest == [] || rest[0] == '\n'
    ensures ReadRecord(Record(fields) + rest) == Some((fields, rest))
    decreases |fields|
  {
    var esc := MapSeq(fields, EscapeCsv);
    if |fields| == 1 {
      assert Record(fields) == EscapeCsv(fields[0]);
      ReadFieldOf(fields[0], rest);
      assert [fields[0]] == fields;
    } else {
      var after := "," + (Record(fields[1..]) + rest);
      assert MapSeq(fields[1..], EscapeCsv) == esc[1..];
      assert Record(fields) + rest == EscapeCsv(fields[0]) + after;
      ReadFieldOf(fields[0], after);
      assert after[1..] == Record(fields[1..]) + rest;
      ReadRecordOf(fields[1..], rest);
      assert [fields[0]] + fields[1..] == fields;
    }
  }

  lemma {:induction false} ReadDocumentOf(records: seq<seq<string>>)
    requires |records| >= 1
    requires forall i :: 0 <= i < |records| ==> |records[i]| >= 1
    ensures ReadDocument(Document(records)) == Some(records)
    decreases |records|
  {
    if |records| == 1 {
      assert Document(records) == Record(records[0]);
      ReadRecordOf(records[0], []);
      assert Record(records[0]) + [] == Record(records[0]);
      assert [records[0]] == records;
    } else {
      var after := "\n" + Document(records[1..]);
      assert MapSeq(records[1..], Record) == MapSeq(records, Record)[1..];
      assert Document(records) == Record(records[0]) + after;
      ReadRecordOf(records[0], after);
      assert after[1..] == Document(records[1..]);
      ReadDocumentOf(records[1..]);
      assert [records[0]] + records[1..] == records;
    }
  }

  /** The exported text reads back, record by record, as the column labels
      followed by each row's values in column order. */
  lemma ExportCsvRoundTrip(data: seq<Row>, columns: Option<seq<Column>>)
    requires data != []
    requires |ColumnsOf(data, columns)| >= 1
    ensures var cols := ColumnsOf(data, columns);
      ReadDocument(ExportCsv(data, columns).value)
        == Some([MapSeq(cols, Label)] + Records(data, cols))
  {
    var cols := ColumnsOf(data, columns);
    ReadDocumentOf([MapSeq(cols, Label)] + Records(data, cols));
  }

  /** Without a column list the header lists the first row's keys in order. */
  lemma DefaultHeader(data: seq<Row>)
    requires data != []
    ensures MapSeq(ColumnsOf(data, None), Label) == MapSeq(data[0], (e: (string, Value)) => e.0)
  {
  }
}
