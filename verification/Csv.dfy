/** Reading and writing comma-separated values (section 2 of RFC 4180). */
module Csv {
  import opened Common

  type Row = seq<string>

  // ---- src/desktop/import-utils.ts: parseCsvRecords

  /** The local variables of the character loop. */
  datatype Parser = Parser(records: seq<Row>, record: Row, field: string, inQuotes: bool, quotedField: bool)

  const START := Parser([], [], "", false, false)

  predicate HasContent(row: Row) {
    exists i :: 0 <= i < |row| && Trim(row[i]) != ""
  }

  function PushField(p: Parser): Parser {
    Parser(p.records, p.record + [p.field], "", p.inQuotes, false)
  }

  function PushRecord(p: Parser): Parser {
    var q := PushField(p);
    Parser(if HasContent(q.record) then q.records + [q.record] else q.records, [], "", q.inQuotes, false)
  }

  predicate Over(records: seq<Row>, limit: Option<nat>) {
    limit.Some? && |records| > limit.value
  }

  predicate StartsWith(s: string, c: char) {
    s != [] && s[0] == c
  }

  /** What the loop returns from the given state, with `s` still to read. No limit stands for infinity. */
  function Parse(p: Parser, s: string, limit: Option<nat>): seq<Row>
    decreases |s|
  {
    if s == [] then
      if p.field != "" || p.quotedField || p.record != [] then PushRecord(p).records else p.records
    else if p.inQuotes then
      if s[0] == '"' && StartsWith(s[1..], '"') then Parse(p.(field := p.field + ['"']), s[2..], limit)
      else if s[0] == '"' then Parse(p.(inQuotes := false), s[1..], limit)
      else Parse(p.(field := p.field + [s[0]]), s[1..], limit)
    else if s[0] == '"' && p.field == "" && !p.quotedField then
      Parse(p.(inQuotes := true, quotedField := true), s[1..], limit)
    else if s[0] == ',' then Parse(PushField(p), s[1..], limit)
    else if s[0] == '\r' || s[0] == '\n' then
      var rest := if s[0] == '\r' && StartsWith(s[1..], '\n') then s[2..] else s[1..];
      var q := PushRecord(p);
      if Over(q.records, limit) then q.records else Parse(q, rest, limit)
    else Parse(p.(field := p.field + [s[0]]), s[1..], limit)
  }

  class Reader {
    var records: seq<Row>
    var record: Row
    var field: string
    var inQuotes: bool
    var quotedField: bool

    function Now(): Parser
      reads this
    {
      Parser(records, record, field, inQuotes, quotedField)
    }

    constructor ()
      ensures Now() == START
    {
      records, record, field, inQuotes, quotedField := [], [], "", false, false;
    }

    method PushFieldNow()
      modifies this
      ensures Now() == PushField(old(Now()))
    {
      record := record + [field];
      field := "";
      quotedField := false;
    }

    method PushRecordNow(maxRecords: Option<nat>) returns (full: bool)
      modifies this
      ensures Now() == PushRecord(old(Now())) && full == Over(records, maxRecords)
    {
      PushFieldNow();
      if HasContent(record) { records := records + [record]; }
      record := [];
      full := maxRecords.Some? && |records| > maxRecords.value;
    }
  }

  method ParseCsvRecords(content: string, maxRecords: Option<nat>) returns (records: seq<Row>)
    ensures records == Parse(START, content, maxRecords)
  {
    var r := new Reader();
    var index := 0;
    while index < |content|
      invariant index <= |content|
      invariant Parse(r.Now(), content[index..], maxRecords) == Parse(START, content, maxRecords)
    {
      var c := content[index];
      var next := if index + 1 < |content| then Some(content[index + 1]) else None;
      assert content[index..][1..] == content[index + 1..];
      assert next.Some? ==> content[index..][2..] == content[index + 2..];
      if r.inQuotes {
        if c == '"' && next == Some('"') {
          r.field := r.field + ['"'];
          index := index + 1;
        } else if c == '"' {
          r.inQuotes := false;
        } else {
          r.field := r.field + [c];
        }
      } else if c == '"' && |r.field| == 0 && !r.quotedField {
        r.inQuotes := true;
        r.quotedField := true;
      } else if c == ',' {
        r.PushFieldNow();
      } else if c == '\r' || c == '\n' {
        if c == '\r' && next == Some('\n') { index := index + 1; }
        var full := r.PushRecordNow(maxRecords);
        if full { return r.records; }
      } else {
        r.field := r.field + [c];
      }
      index := index + 1;
    }
    if |r.field| > 0 || r.quotedField || |r.record| > 0 {
      var full := r.PushRecordNow(maxRecords);
    }
    records := r.records;
  }

  /** `parseCsv`: the first record names the columns; a missing cell is empty. */
  function ParseCsv(content: string, maxRows: Option<nat>): seq<map<string, string>> {
    var records := Parse(START, content, if maxRows.Some? then Some(maxRows.value + 1) else None);
    if records == [] then [] else Columns(records[0], records[1..])
  }

  function FromEntries(headers: Row, row: Row): map<string, string> {
    if headers == [] then map[]
    else
      var n := |headers| - 1;
      FromEntries(headers[..n], row)[headers[n] := if n < |row| then row[n] else ""]
  }

  function Columns(headers: Row, rows: seq<Row>): (columns: seq<map<string, string>>)
    ensures |columns| == |rows| && forall i :: 0 <= i < |rows| ==> columns[i] == FromEntries(headers, rows[i])
  {
    seq(|rows|, i requires 0 <= i < |rows| => FromEntries(headers, rows[i]))
  }

  // ---- src/desktop/export-vault.ts: csvValue, exportCsv

  /** Every quotation mark doubled. */
  function Doubled(text: string): string {
    if text == "" then "" else (if text[0] == '"' then ['"', '"'] else [text[0]]) + Doubled(text[1..])
  }

  function CsvValue(text: string): string {
    ['"'] + Doubled(text) + ['"']
  }

  /** A cell as it is written: `csvValue` quotes, the header row does not. */
  datatype Cell = Quoted(text: string) | Plain(text: string)

  predicate PlainText(text: string) {
    forall c :: c in text ==> c != '"' && c != ',' && c != '\r' && c != '\n'
  }

  predicate Writable(cell: Cell) {
    cell.Quoted? || PlainText(cell.text)
  }

  function Written(cell: Cell): string {
    if cell.Quoted? then CsvValue(cell.text) else cell.text
  }

  function Join(parts: seq<string>, separator: string): string {
    if parts == [] then "" else if |parts| == 1 then parts[0] else parts[0] + separator + Join(parts[1..], separator)
  }

  function WrittenCells(cells: seq<Cell>): (parts: seq<string>)
    ensures |parts| == |cells| && forall i :: 0 <= i < |cells| ==> parts[i] == Written(cells[i])
  {
    seq(|cells|, i requires 0 <= i < |cells| => Written(cells[i]))
  }

  function WriteRow(cells: seq<Cell>): string {
    Join(WrittenCells(cells), ",")
  }

  function WriteRows(rows: seq<seq<Cell>>, eol: string): string {
    if rows == [] then "" else if |rows| == 1 then WriteRow(rows[0]) else WriteRow(rows[0]) + eol + WriteRows(rows[1..], eol)
  }

  function Texts(cells: seq<Cell>): (row: Row)
    ensures |row| == |cells| && forall i :: 0 <= i < |cells| ==> row[i] == cells[i].text
  {
    seq(|cells|, i requires 0 <= i < |cells| => cells[i].text)
  }

  /** The rows that have a non-blank cell. */
  function Visible(rows: seq<seq<Cell>>): seq<Row> {
    if rows == [] then []
    else (if HasContent(Texts(rows[0])) then [Texts(rows[0])] else []) + Visible(rows[1..])
  }

  /** A limit of `n` lets one record more through. */
  function Bounded(records: seq<Row>, limit: Option<nat>): seq<Row> {
    if Over(records, limit) then records[..limit.value + 1] else records
  }

  // ---- round trip

  predicate LineEnd(eol: string) {
    eol == "\n" || eol == "\r\n" || eol == "\r"
  }

  predicate CellEnds(rest: string) {
    rest == "" || rest[0] == ',' || rest[0] == '\r' || rest[0] == '\n'
  }

  lemma {:induction false} ParseDoubled(p: Parser, text: string, rest: string, limit: Option<nat>)
    requires p.inQuotes && !StartsWith(rest, '"')
    ensures Parse(p, Doubled(text) + ['"'] + rest, limit) == Parse(p.(field := p.field + text, inQuotes := false), rest, limit)
    decreases |text|
  {
    var s := Doubled(text) + ['"'] + rest;
    if text == "" {
      assert s == ['"'] + rest && s[1..] == rest;
      assert p.field + text == p.field;
    } else {
      var q := p.(field := p.field + [text[0]]);
      var tail := Doubled(text[1..]) + ['"'] + rest;
      assert q.field + text[1..] == p.field + text;
      ParseDoubled(q, text[1..], rest, limit);
      if text[0] == '"' {
        assert s == ['"', '"'] + tail && s[2..] == tail && s[1] == '"';
      } else {
        assert s == [text[0]] + tail && s[1..] == tail;
      }
    }
  }

  lemma {:induction false} ParsePlain(p: Parser, text: string, rest: string, limit: Option<nat>)
    requires !p.inQuotes && PlainText(text)
    ensures Parse(p, text + rest, limit) == Parse(p.(field := p.field + text), rest, limit)
    decreases |text|
  {
    if text == "" {
      assert text + rest == rest && p.field + text == p.field;
    } else {
      var s := text + rest;
      assert s[0] == text[0] && text[0] in text && s[1..] == text[1..] + rest;
      forall c | c in text[1..] ensures c in text {}
      ParsePlain(p.(field := p.field + [text[0]]), text[1..], rest, limit);
      assert p.field + [text[0]] + text[1..] == p.field + text;
    }
  }

  /** Reading a written cell fills the empty field with its text. */
  lemma ParseCell(p: Parser, cell: Cell, rest: string, limit: Option<nat>)
    requires p.field == "" && !p.inQuotes && !p.quotedField && Writable(cell) && CellEnds(rest)
    ensures Parse(p, Written(cell) + rest, limit) == Parse(p.(field := cell.text, quotedField := cell.Quoted?), rest, limit)
  {
    if cell.Quoted? {
      var s := Written(cell) + rest;
      var q := p.(inQuotes := true, quotedField := true);
      assert s == ['"'] + (Doubled(cell.text) + ['"'] + rest);
      assert s[1..] == Doubled(cell.text) + ['"'] + rest;
      ParseDoubled(q, cell.text, rest, limit);
      assert q.field + cell.text == cell.text;
    } else {
      ParsePlain(p, cell.text, rest, limit);
      assert p.field + cell.text == cell.text;
    }
  }

  predicate RowEnds(rest: string) {
    rest == "" || rest[0] == '\r' || rest[0] == '\n'
  }

  /** Every cell of the row is in: the last in the field, the others in the record. */
  function Filled(p: Parser, cells: seq<Cell>): Parser
    requires cells != []
  {
    var n := |cells| - 1;
    p.(record := p.record + Texts(cells)[..n], field := cells[n].text, quotedField := cells[n].Quoted?)
  }

  lemma WriteRowStep(cells: seq<Cell>, rest: string)
    requires |cells| > 1
    ensures WriteRow(cells) + rest == Written(cells[0]) + ([','] + (WriteRow(cells[1..]) + rest))
  {
    assert WrittenCells(cells)[1..] == WrittenCells(cells[1..]);
  }

  lemma FilledStep(p: Parser, cells: seq<Cell>)
    requires |cells| > 1
    ensures Filled(PushField(p.(field := cells[0].text, quotedField := cells[0].Quoted?)), cells[1..]) == Filled(p, cells)
  {
    assert p.record + [cells[0].text] + Texts(cells[1..])[..|cells| - 2] == p.record + Texts(cells)[..|cells| - 1];
  }

  lemma ParseComma(p: Parser, rest: string, limit: Option<nat>)
    requires !p.inQuotes
    ensures Parse(p, [','] + rest, limit) == Parse(PushField(p), rest, limit)
  {
    assert ([','] + rest)[1..] == rest;
  }

  /** Reading a written row leaves its last cell in the field and the others in the record. */
  lemma {:induction false} ParseRow(p: Parser, cells: seq<Cell>, rest: string, limit: Option<nat>)
    requires p.field == "" && !p.inQuotes && !p.quotedField && RowEnds(rest)
    requires cells != [] && forall i :: 0 <= i < |cells| ==> Writable(cells[i])
    ensures Parse(p, WriteRow(cells) + rest, limit) == Parse(Filled(p, cells), rest, limit)
    decreases |cells|
  {
    if |cells| == 1 {
      ParseCell(p, cells[0], rest, limit);
      assert p.record + Texts(cells)[..0] == p.record;
    } else {
      var tail := WriteRow(cells[1..]) + rest;
      var q := p.(field := cells[0].text, quotedField := cells[0].Quoted?);
      WriteRowStep(cells, rest);
      ParseCell(p, cells[0], [','] + tail, limit);
      ParseComma(q, tail, limit);
      ParseRow(PushField(q), cells[1..], rest, limit);
      FilledStep(p, cells);
    }
  }

  function Fresh(records: seq<Row>): Parser {
    Parser(records, [], "", false, false)
  }

  function Kept(records: seq<Row>, row: Row): seq<Row> {
    if HasContent(row) then records + [row] else records
  }

  lemma EmptyRow()
    ensures !HasContent([""]) && !HasContent(Texts([]))
  {
  }

  /** A written row and its line end add the row to the records, if it has content. */
  lemma ParseLine(records: seq<Row>, cells: seq<Cell>, eol: string, rest: string, limit: Option<nat>)
    requires LineEnd(eol) && (eol == "\n" || !StartsWith(rest, '\n')) && forall i :: 0 <= i < |cells| ==> Writable(cells[i])
    ensures var next := Kept(records, Texts(cells));
      Parse(Fresh(records), WriteRow(cells) + eol + rest, limit)
      == if Over(next, limit) then next else Parse(Fresh(next), rest, limit)
  {
    var p := Fresh(records);
    if cells == [] {
      EmptyRow();
      assert WriteRow(cells) + eol + rest == eol + rest;
      assert p.record + [p.field] == [""];
      ParseEol(p, eol, rest, limit);
    } else {
      assert WriteRow(cells) + eol + rest == WriteRow(cells) + (eol + rest);
      ParseRow(p, cells, eol + rest, limit);
      FilledRow(records, cells);
      ParseEol(Filled(p, cells), eol, rest, limit);
    }
  }

  lemma FilledRow(records: seq<Row>, cells: seq<Cell>)
    requires cells != []
    ensures PushRecord(Filled(Fresh(records), cells)) == Fresh(Kept(records, Texts(cells)))
  {
    var q := Filled(Fresh(records), cells);
    assert q.record + [q.field] == Texts(cells);
  }

  lemma ParseEol(p: Parser, eol: string, rest: string, limit: Option<nat>)
    requires !p.inQuotes && LineEnd(eol) && (eol == "\n" || !StartsWith(rest, '\n'))
    ensures Parse(p, eol + rest, limit)
         == if Over(PushRecord(p).records, limit) then PushRecord(p).records else Parse(PushRecord(p), rest, limit)
  {
    var s := eol + rest;
    if eol == "\r\n" {
      assert s[1..] == ['\n'] + rest && s[2..] == rest;
    } else {
      assert s[1..] == rest;
    }
  }

  /** The last row has no line end. */
  lemma ParseLast(records: seq<Row>, cells: seq<Cell>, limit: Option<nat>)
    requires forall i :: 0 <= i < |cells| ==> Writable(cells[i])
    ensures Parse(Fresh(records), WriteRow(cells), limit) == Kept(records, Texts(cells))
  {
    EmptyRow();
    if cells != [] {
      ParseRow(Fresh(records), cells, "", limit);
      assert WriteRow(cells) + "" == WriteRow(cells);
      FilledRow(records, cells);
      var q := Filled(Fresh(records), cells);
      if q.field == "" && !q.quotedField && q.record == [] { assert Texts(cells) == [""]; }
    }
  }

  predicate AllWritable(rows: seq<seq<Cell>>) {
    forall r, i :: 0 <= r < |rows| && 0 <= i < |rows[r]| ==> Writable(rows[r][i])
  }

  lemma {:induction false} WrittenStart(rows: seq<seq<Cell>>, eol: string)
    requires LineEnd(eol) && eol != "\n" && AllWritable(rows)
    ensures !StartsWith(WriteRows(rows, eol), '\n')
  {
    if rows != [] && rows[0] != [] {
      var cell := rows[0][0];
      assert Writable(cell);
      assert WriteRow(rows[0]) == Written(cell) || WriteRow(rows[0]) == Written(cell) + "," + Join(WrittenCells(rows[0])[1..], ",");
      assert cell.Plain? && cell.text != "" ==> cell.text[0] in cell.text;
    }
  }

  /** Reading back rows written with either line end gives the rows that have a non-blank cell, up to
      one more than the limit. */
  lemma {:induction false} ParseWritten(records: seq<Row>, rows: seq<seq<Cell>>, eol: string, limit: Option<nat>)
    requires LineEnd(eol) && AllWritable(rows) && !Over(records, limit)
    ensures Parse(Fresh(records), WriteRows(rows, eol), limit) == Bounded(records + Visible(rows), limit)
    decreases |rows|
  {
    if rows == [] {
      assert records + Visible(rows) == records;
    } else {
      var row, more := Texts(rows[0]), rows[1..];
      assert forall i :: 0 <= i < |rows[0]| ==> Writable(rows[0][i]);
      TailWritable(rows);
      VisibleStep(rows);
      KeptBounded(records, row, Visible(more), limit);
      if more == [] {
        ParseLast(records, rows[0], limit);
        assert Kept(records, row) + Visible(more) == Kept(records, row);
      } else {
        if eol != "\n" { WrittenStart(more, eol); }
        ParseLine(records, rows[0], eol, WriteRows(more, eol), limit);
        if !Over(Kept(records, row), limit) { ParseWritten(Kept(records, row), more, eol, limit); }
      }
    }
  }

  lemma VisibleStep(rows: seq<seq<Cell>>)
    requires rows != []
    ensures Visible(rows) == Kept([], Texts(rows[0])) + Visible(rows[1..])
  {
  }

  lemma TailWritable(rows: seq<seq<Cell>>)
    requires rows != [] && AllWritable(rows)
    ensures AllWritable(rows[1..])
  {
  }

  lemma KeptBounded(records: seq<Row>, row: Row, more: seq<Row>, limit: Option<nat>)
    requires !Over(records, limit)
    ensures Bounded(records + (Kept([], row) + more), limit)
         == if Over(Kept(records, row), limit) then Kept(records, row) else Bounded(Kept(records, row) + more, limit)
  {
    assert records + (Kept([], row) + more) == Kept(records, row) + more;
    if Over(Kept(records, row), limit) {
      assert (Kept(records, row) + more)[..limit.value + 1] == Kept(records, row);
    }
  }

  lemma CsvRoundTrip(rows: seq<seq<Cell>>, eol: string, limit: Option<nat>)
    requires LineEnd(eol) && AllWritable(rows)
    ensures Parse(START, WriteRows(rows, eol), limit) == Bounded(Visible(rows), limit)
  {
    ParseWritten([], rows, eol, limit);
    assert [] + Visible(rows) == Visible(rows);
  }

  // ---- any text, read and written again

  predicate AllHaveContent(records: seq<Row>) {
    forall i :: 0 <= i < |records| ==> HasContent(records[i])
  }

  lemma {:induction false} ParsedHaveContent(p: Parser, s: string, limit: Option<nat>)
    requires AllHaveContent(p.records)
    ensures AllHaveContent(Parse(p, s, limit))
    decreases |s|
  {
    if s != "" {
      if p.inQuotes {
        if s[0] == '"' && StartsWith(s[1..], '"') { ParsedHaveContent(p.(field := p.field + ['"']), s[2..], limit); }
        else if s[0] == '"' { ParsedHaveContent(p.(inQuotes := false), s[1..], limit); }
        else { ParsedHaveContent(p.(field := p.field + [s[0]]), s[1..], limit); }
      } else if s[0] == '"' && p.field == "" && !p.quotedField {
        ParsedHaveContent(p.(inQuotes := true, quotedField := true), s[1..], limit);
      } else if s[0] == ',' {
        ParsedHaveContent(PushField(p), s[1..], limit);
      } else if s[0] == '\r' || s[0] == '\n' {
        ParsedHaveContent(PushRecord(p), if s[0] == '\r' && StartsWith(s[1..], '\n') then s[2..] else s[1..], limit);
      } else {
        ParsedHaveContent(p.(field := p.field + [s[0]]), s[1..], limit);
      }
    }
  }

  function QuotedRows(rows: seq<Row>): (cells: seq<seq<Cell>>)
    ensures |cells| == |rows| && AllWritable(cells)
    ensures forall i :: 0 <= i < |rows| ==> Texts(cells[i]) == rows[i]
  {
    seq(|rows|, i requires 0 <= i < |rows| => seq(|rows[i]|, j requires 0 <= j < |rows[i]| => Quoted(rows[i][j])))
  }

  lemma {:induction false} AllVisible(rows: seq<Row>)
    requires AllHaveContent(rows)
    ensures Visible(QuotedRows(rows)) == rows
  {
    if rows != [] {
      assert QuotedRows(rows)[1..] == QuotedRows(rows[1..]);
      AllVisible(rows[1..]);
      assert rows == [rows[0]] + rows[1..];
    }
  }

  /** Whatever was read, however it was quoted, writing it and reading it again changes nothing. */
  lemma ReadingIsStable(content: string, limit: Option<nat>, eol: string)
    requires LineEnd(eol)
    ensures var records := Parse(START, content, limit);
      Parse(START, WriteRows(QuotedRows(records), eol), None) == records
  {
    var records := Parse(START, content, limit);
    ParsedHaveContent(START, content, limit);
    AllVisible(records);
    CsvRoundTrip(QuotedRows(records), eol, None);
  }

  // ---- blank cells

  /** A row is kept exactly when one of its cells has a character that is not white space. */
  lemma ContentIsNotBlank(row: Row)
    ensures HasContent(row) <==> exists i :: 0 <= i < |row| && !Blank(row[i])
  {
    forall i | 0 <= i < |row| ensures Trim(row[i]) != "" <==> !Blank(row[i]) {
      TrimStartBlank(row[i]);
      if TrimStart(row[i]) != "" { TrimEndKeepsStart(TrimStart(row[i])); }
    }
  }

  // ---- export, then import

  /** The fields of a vault item that are exported. */
  datatype Exported = Exported(itemName: string, username: string, password: Option<string>, email: Option<string>,
                               websites: seq<string>, notes: Option<string>)

  function Fields(item: Exported): Row {
    [item.itemName, item.username, item.password.GetOr(""), item.email.GetOr(""), Join(item.websites, " "), item.notes.GetOr("")]
  }

  const HEADER: Row := ["name", "username", "password", "email", "websites", "notes"]

  /** `name,username,password,email,websites,notes` */
  const HEADER_LINE := Join(HEADER, ",")

  function CsvValues(row: Row): (parts: seq<string>)
    ensures |parts| == |row| && forall i :: 0 <= i < |row| ==> parts[i] == CsvValue(row[i])
  {
    seq(|row|, i requires 0 <= i < |row| => CsvValue(row[i]))
  }

  function ExportRows(items: seq<Exported>): (parts: seq<string>)
    ensures |parts| == |items| && forall i :: 0 <= i < |items| ==> parts[i] == Join(CsvValues(Fields(items[i])), ",")
  {
    seq(|items|, i requires 0 <= i < |items| => Join(CsvValues(Fields(items[i])), ","))
  }

  function ExportCsv(items: seq<Exported>): string {
    Join([HEADER_LINE] + ExportRows(items), "\n")
  }

  function PlainCells(row: Row): (cells: seq<Cell>)
    ensures |cells| == |row| && forall i :: 0 <= i < |row| ==> cells[i] == Plain(row[i])
  {
    seq(|row|, i requires 0 <= i < |row| => Plain(row[i]))
  }

  function QuotedCells(items: seq<Exported>): (rows: seq<seq<Cell>>)
    ensures |rows| == |items|
    ensures forall i :: 0 <= i < |items| ==> |rows[i]| == 6 && WrittenCells(rows[i]) == CsvValues(Fields(items[i])) && Texts(rows[i]) == Fields(items[i])
    ensures AllWritable(rows)
  {
    seq(|items|, i requires 0 <= i < |items| => seq(6, j requires 0 <= j < 6 => Quoted(Fields(items[i])[j])))
  }

  lemma {:induction false} ExportTail(items: seq<Exported>)
    ensures Join(ExportRows(items), "\n") == WriteRows(QuotedCells(items), "\n")
  {
    if items != [] {
      ExportTail(items[1..]);
      assert ExportRows(items)[1..] == ExportRows(items[1..]);
      assert QuotedCells(items)[1..] == QuotedCells(items[1..]);
      assert WriteRow(QuotedCells(items)[0]) == ExportRows(items)[0];
    }
  }

  lemma HeaderText()
    ensures WriteRow(PlainCells(HEADER)) == HEADER_LINE
  {
    assert WrittenCells(PlainCells(HEADER)) == HEADER;
  }

  lemma ExportIsWritten(items: seq<Exported>)
    ensures ExportCsv(items) == WriteRows([PlainCells(HEADER)] + QuotedCells(items), "\n")
  {
    HeaderText();
    ExportTail(items);
    var rows := [PlainCells(HEADER)] + QuotedCells(items);
    var parts := [HEADER_LINE] + ExportRows(items);
    assert rows[1..] == QuotedCells(items) && parts[1..] == ExportRows(items);
  }

  /** The items with something to show, as rows. */
  function VisibleFields(items: seq<Exported>): seq<Row> {
    if items == [] then []
    else (if HasContent(Fields(items[0])) then [Fields(items[0])] else []) + VisibleFields(items[1..])
  }

  lemma {:induction false} VisibleItems(items: seq<Exported>)
    ensures Visible(QuotedCells(items)) == VisibleFields(items)
  {
    if items != [] {
      assert QuotedCells(items)[1..] == QuotedCells(items[1..]);
      VisibleItems(items[1..]);
    }
  }

  lemma HeaderIsPlain()
    ensures forall i :: 0 <= i < |HEADER| ==> PlainText(HEADER[i])
    ensures HasContent(HEADER)
  {
    ContentIsNotBlank(HEADER);
    assert HEADER[0][0] == 'n' && !IsSpace('n');
    assert !Blank(HEADER[0]);
  }

  lemma ExportedRows(items: seq<Exported>)
    ensures var rows := [PlainCells(HEADER)] + QuotedCells(items);
      AllWritable(rows) && Visible(rows) == [HEADER] + VisibleFields(items)
  {
    var rows := [PlainCells(HEADER)] + QuotedCells(items);
    HeaderIsPlain();
    VisibleItems(items);
    assert rows[0] == PlainCells(HEADER) && rows[1..] == QuotedCells(items) && Texts(rows[0]) == HEADER;
    VisibleStep(rows);
    forall r, i | 0 <= r < |rows| && 0 <= i < |rows[r]| ensures Writable(rows[r][i]) {
      assert r > 0 ==> rows[r] == QuotedCells(items)[r - 1];
    }
  }

  /** What an importer is given for one item. */
  function ImportedFields(item: Exported): map<string, string> {
    map["name" := item.itemName, "username" := item.username, "password" := item.password.GetOr(""),
        "email" := item.email.GetOr(""), "websites" := Join(item.websites, " "), "notes" := item.notes.GetOr("")]
  }

  function ImportedItems(items: seq<Exported>): seq<map<string, string>> {
    if items == [] then []
    else (if HasContent(Fields(items[0])) then [ImportedFields(items[0])] else []) + ImportedItems(items[1..])
  }

  lemma ColumnsOfItem(item: Exported)
    ensures FromEntries(HEADER, Fields(item)) == ImportedFields(item)
  {
    var row := Fields(item);
    assert HEADER[..5][..4] == HEADER[..4] && HEADER[..4][..3] == HEADER[..3] && HEADER[..3][..2] == HEADER[..2] && HEADER[..2][..1] == HEADER[..1];
    assert FromEntries(HEADER[..0], row) == map[];
    assert HEADER[..1][..0] == HEADER[..0];
    assert FromEntries(HEADER[..1], row) == map["name" := row[0]];
    assert FromEntries(HEADER[..2], row) == map["name" := row[0], "username" := row[1]];
    assert FromEntries(HEADER[..3], row) == map["name" := row[0], "username" := row[1], "password" := row[2]];
    assert FromEntries(HEADER[..4], row) == map["name" := row[0], "username" := row[1], "password" := row[2], "email" := row[3]];
  }

  lemma {:induction false} ColumnsOfItems(items: seq<Exported>)
    ensures Columns(HEADER, VisibleFields(items)) == ImportedItems(items)
  {
    if items != [] {
      ColumnsOfItems(items[1..]);
      ColumnsOfItem(items[0]);
      ColumnsConcat(if HasContent(Fields(items[0])) then [Fields(items[0])] else [], VisibleFields(items[1..]));
      assert Columns(HEADER, [Fields(items[0])]) == [FromEntries(HEADER, Fields(items[0]))];
      assert Columns(HEADER, []) == [];
    }
  }

  lemma ColumnsConcat(a: seq<Row>, b: seq<Row>)
    ensures Columns(HEADER, a + b) == Columns(HEADER, a) + Columns(HEADER, b)
  {
  }

  /** Importing an export gives back, field by field, every item with something to show. */
  lemma ImportOfExport(items: seq<Exported>)
    ensures ParseCsv(ExportCsv(items), None) == ImportedItems(items)
  {
    var rows := [PlainCells(HEADER)] + QuotedCells(items);
    ExportIsWritten(items);
    ExportedRows(items);
    CsvRoundTrip(rows, "\n", None);
    assert ([HEADER] + VisibleFields(items))[1..] == VisibleFields(items);
    ColumnsOfItems(items);
  }
}
