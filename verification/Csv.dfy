/**
 The CSV export of agent events, read back by a reader that follows section 2 of RFC 4180
 with LF record ends.
 */
module Csv {
  import opened Wrappers
  import opened Text

  // ---- The writer ----

  predicate NeedsQuotes(field: string) {
    ',' in field || '"' in field || '\n' in field
  }

  /** s.replace(/"/g, '""') */
  function DoubleQuotes(field: string): string {
    if |field| == 0 then ""
    else (if field[0] == '"' then "\"\"" else [field[0]]) + DoubleQuotes(field[1..])
  }

  function EscapeCsv(field: string): string {
    if NeedsQuotes(field) then "\"" + DoubleQuotes(field) + "\"" else field
  }

  lemma {:induction false} QuotesOnlyGrow(field: string)
    ensures |DoubleQuotes(field)| >= |field|
  {
    if |field| > 0 {
      QuotesOnlyGrow(field[1..]);
    }
  }

  /** A field is written as it is exactly when it has no comma, no quote and no line feed. */
  lemma PlainIff(field: string)
    ensures EscapeCsv(field) == field <==>
            forall i :: 0 <= i < |field| ==> field[i] != ',' && field[i] != '"' && field[i] != '\n'
  {
    QuotesOnlyGrow(field);
  }

  function WriteRow(fields: seq<string>): string {
    if |fields| == 0 then ""
    else if |fields| == 1 then EscapeCsv(fields[0])
    else EscapeCsv(fields[0]) + "," + WriteRow(fields[1..])
  }

  function WriteRows(rows: seq<seq<string>>): string {
    if |rows| == 0 then ""
    else if |rows| == 1 then WriteRow(rows[0])
    else WriteRow(rows[0]) + "\n" + WriteRows(rows[1..])
  }

  const HEADERS := ["timestamp", "type", "tool", "success", "duration_ms", "input_summary", "output_summary"]

  /** The export: the header line, which is joined without escaping, and the event rows. */
  function Export(headers: seq<string>, rows: seq<seq<string>>): string {
    if |rows| == 0 then Join(headers, ",") else Join(headers, ",") + "\n" + WriteRows(rows)
  }

  // ---- The reader ----

  datatype Mode = FieldStart | Plain | Quoted | QuoteInQuoted

  /** Reads the rest of a text, with the field, row and rows read so far; None for a text
      that is not well formed. */
  function Read(t: string, mode: Mode, field: string, row: seq<string>, rows: seq<seq<string>>)
    : Option<seq<seq<string>>>
    decreases |t|, 0
  {
    if |t| == 0 then (if mode.Quoted? then None else Some(rows + [row + [field]]))
    else
      var c, rest := t[0], t[1..];
      match mode
      case FieldStart =>
        if c == '"' then Read(rest, Quoted, "", row, rows) else ReadPlain(c, rest, field, row, rows)
      case Plain =>
        if c == '"' then None else ReadPlain(c, rest, field, row, rows)
      case Quoted =>
        if c == '"' then Read(rest, QuoteInQuoted, field, row, rows)
        else Read(rest, Quoted, field + [c], row, rows)
      case QuoteInQuoted =>
        if c == '"' then Read(rest, Quoted, field + [c], row, rows)
        else if c == ',' || c == '\n' then ReadPlain(c, rest, field, row, rows)
        else None
  }

  function ReadPlain(c: char, rest: string, field: string, row: seq<string>, rows: seq<seq<string>>)
    : Option<seq<seq<string>>>
    decreases |rest|, 1
  {
    if c == ',' then Read(rest, FieldStart, "", row + [field], rows)
    else if c == '\n' then Read(rest, FieldStart, "", [], rows + [row + [field]])
    else Read(rest, Plain, field + [c], row, rows)
  }

  function ReadCsv(t: string): Option<seq<seq<string>>> {
    Read(t, FieldStart, "", [], [])
  }

  // ---- One field ----

  predicate AtFieldEnd(rest: string) {
    |rest| == 0 || rest[0] == ',' || rest[0] == '\n'
  }

  /** What follows a complete field. */
  function Finish(rest: string, field: string, row: seq<string>, rows: seq<seq<string>>): Option<seq<seq<string>>> {
    if |rest| == 0 then Some(rows + [row + [field]]) else ReadPlain(rest[0], rest[1..], field, row, rows)
  }

  lemma {:induction false} PlainField(
    done: string, more: string, rest: string, row: seq<string>, rows: seq<seq<string>>)
    requires !NeedsQuotes(more) && AtFieldEnd(rest)
    ensures Read(more + rest, Plain, done, row, rows) == Finish(rest, done + more, row, rows)
    decreases |more|
  {
    if |more| == 0 {
      assert more + rest == rest && done + more == done;
    } else {
      assert more == [more[0]] + more[1..];
      PlainField(done + [more[0]], more[1..], rest, row, rows);
      assert (more + rest)[1..] == more[1..] + rest;
      assert done + [more[0]] + more[1..] == done + more;
    }
  }

  lemma {:induction false} QuotedField(
    done: string, more: string, rest: string, row: seq<string>, rows: seq<seq<string>>)
    requires AtFieldEnd(rest)
    ensures Read(DoubleQuotes(more) + "\"" + rest, Quoted, done, row, rows) == Finish(rest, done + more, row, rows)
    decreases |more|
  {
    var t := DoubleQuotes(more) + "\"" + rest;
    if |more| == 0 {
      assert t == "\"" + rest && t[1..] == rest && done + more == done;
    } else {
      var tail := DoubleQuotes(more[1..]) + "\"" + rest;
      QuotedField(done + [more[0]], more[1..], rest, row, rows);
      assert done + [more[0]] + more[1..] == done + more;
      if more[0] == '"' {
        assert t == "\"\"" + tail && t[1..] == "\"" + tail && t[1..][1..] == tail;
      } else {
        assert t == [more[0]] + tail && t[1..] == tail;
      }
    }
  }

  lemma QuotedFieldFromStart(field: string, rest: string, row: seq<string>, rows: seq<seq<string>>)
    requires AtFieldEnd(rest)
    ensures Read("\"" + DoubleQuotes(field) + "\"" + rest, FieldStart, "", row, rows) == Finish(rest, field, row, rows)
  {
    var t := "\"" + DoubleQuotes(field) + "\"" + rest;
    QuotedField("", field, rest, row, rows);
    assert t[1..] == DoubleQuotes(field) + "\"" + rest && "" + field == field;
  }

  lemma PlainFieldFromStart(field: string, rest: string, row: seq<string>, rows: seq<seq<string>>)
    requires !NeedsQuotes(field) && AtFieldEnd(rest)
    ensures Read(field + rest, FieldStart, "", row, rows) == Finish(rest, field, row, rows)
  {
    if |field| == 0 {
      assert field + rest == rest;
    } else {
      assert field[0] in field && field == [field[0]] + field[1..];
      PlainField([field[0]], field[1..], rest, row, rows);
      assert (field + rest)[1..] == field[1..] + rest && "" + [field[0]] == [field[0]];
    }
  }

  lemma OneField(field: string, rest: string, row: seq<string>, rows: seq<seq<string>>)
    requires AtFieldEnd(rest)
    ensures Read(EscapeCsv(field) + rest, FieldStart, "", row, rows) == Finish(rest, field, row, rows)
  {
    if NeedsQuotes(field) {
      QuotedFieldFromStart(field, rest, row, rows);
    } else {
      PlainFieldFromStart(field, rest, row, rows);
    }
  }

  // ---- Rows and tables ----

  predicate AtRowEnd(rest: string) {
    |rest| == 0 || rest[0] == '\n'
  }

  function FinishRow(rest: string, row: seq<string>, rows: seq<seq<string>>): Option<seq<seq<string>>> {
    if |rest| == 0 then Some(rows + [row]) else Read(rest[1..], FieldStart, "", [], rows + [row])
  }

  lemma {:induction false} OneRow(fields: seq<string>, rest: string, row: seq<string>, rows: seq<seq<string>>)
    requires |fields| > 0 && AtRowEnd(rest)
    ensures Read(WriteRow(fields) + rest, FieldStart, "", row, rows) == FinishRow(rest, row + fields, rows)
  {
    if |fields| == 1 {
      OneField(fields[0], rest, row, rows);
      assert row + [fields[0]] == row + fields;
    } else {
      var after := "," + (WriteRow(fields[1..]) + rest);
      OneField(fields[0], after, row, rows);
      assert WriteRow(fields) + rest == EscapeCsv(fields[0]) + after;
      assert after[1..] == WriteRow(fields[1..]) + rest;
      hide EscapeCsv;
      OneRow(fields[1..], rest, row + [fields[0]], rows);
      assert row + [fields[0]] + fields[1..] == row + fields;
    }
  }

  predicate Filled(rows: seq<seq<string>>) {
    forall row :: row in rows ==> |row| > 0
  }

  lemma {:induction false} AllRows(table: seq<seq<string>>, rows: seq<seq<string>>)
    requires |table| > 0 && Filled(table)
    ensures Read(WriteRows(table), FieldStart, "", [], rows) == Some(rows + table)
  {
    var first, others := table[0], table[1..];
    assert [] + first == first;
    if |table| == 1 {
      OneRow(first, "", [], rows);
      assert WriteRow(first) + "" == WriteRow(first) && rows + [first] == rows + table;
    } else {
      var after := "\n" + WriteRows(others);
      OneRow(first, after, [], rows);
      assert WriteRows(table) == WriteRow(first) + after && after[1..] == WriteRows(others);
      forall row | row in others ensures |row| > 0 { assert row in table; }
      AllRows(others, rows + [first]);
      assert rows + [first] + others == rows + table;
    }
  }

  /** Reading back what was written recovers every field of every row exactly, including
      commas, quotes and newlines. */
  lemma CsvRoundTrip(table: seq<seq<string>>)
    requires |table| > 0 && Filled(table)
    ensures ReadCsv(WriteRows(table)) == Some(table)
  {
    AllRows(table, []);
    assert [] + table == table;
  }

  /** No two tables are written alike. */
  lemma CsvInjective(a: seq<seq<string>>, b: seq<seq<string>>)
    requires |a| > 0 && Filled(a) && |b| > 0 && Filled(b)
    ensures WriteRows(a) == WriteRows(b) ==> a == b
  {
    CsvRoundTrip(a);
    CsvRoundTrip(b);
  }

  lemma {:induction false} PlainRowIsJoin(fields: seq<string>)
    requires PlainFields(fields)
    ensures WriteRow(fields) == Join(fields, ",")
  {
    if |fields| > 0 {
      assert fields[0] in fields;
      forall f | f in fields[1..] ensures !NeedsQuotes(f) { assert f in fields; }
      PlainRowIsJoin(fields[1..]);
    }
  }

  predicate PlainFields(fields: seq<string>) {
    forall f :: f in fields ==> !NeedsQuotes(f)
  }

  lemma ExportIsTable(headers: seq<string>, rows: seq<seq<string>>)
    requires |headers| > 0 && PlainFields(headers)
    ensures Export(headers, rows) == WriteRows([headers] + rows)
  {
    PlainRowIsJoin(headers);
    assert ([headers] + rows)[1..] == rows;
  }

  /** The export's own column names never need quotes. */
  lemma HeadersArePlain()
    ensures PlainFields(HEADERS)
  {
    forall f | f in HEADERS ensures !NeedsQuotes(f) {
      assert forall c :: c in f ==> 'a' <= c <= 'z' || c == '_';
    }
  }

  /** The whole export, header line included, reads back as the headers and the rows. */
  lemma ExportReadsBack(rows: seq<seq<string>>)
    requires forall row :: row in rows ==> |row| == |HEADERS|
    ensures ReadCsv(Export(HEADERS, rows)) == Some([HEADERS] + rows)
  {
    HeadersArePlain();
    ReadsBack(HEADERS, rows);
  }

  lemma ReadsBack(headers: seq<string>, rows: seq<seq<string>>)
    requires |headers| > 0 && PlainFields(headers)
    requires forall row :: row in rows ==> |row| == |headers|
    ensures ReadCsv(Export(headers, rows)) == Some([headers] + rows)
  {
    ExportIsTable(headers, rows);
    CsvRoundTrip([headers] + rows);
  }
}
