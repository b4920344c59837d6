/**
 * CSV export (src/lib/csv-export.ts:13-35) and a reader for RFC 4180, section 2, that shows nothing
 * is lost on the way.
 */
module Csv {
  import opened Common

  /** A cell's value; `text` is what `String(value)` gives. */
  datatype Cell = Missing | Scalar(text: string) | List(items: seq<Option<string>>)

  const CRLF: string := "\r\n"
  const BOM: char := '\U{FEFF}'

  function Join(parts: seq<string>, separator: string): string {
    if parts == [] then ""
    else if |parts| == 1 then parts[0]
    else parts[0] + separator + Join(parts[1..], separator)
  }

  /** The text a cell stands for. */
  function TextOf(c: Cell): string {
    match c
    case Missing => ""
    case Scalar(text) => text
    case List(items) => Join(seq(|items|, i requires 0 <= i < |items| => items[i].GetOr("")), ", ")
  }

  predicate Special(c: char) { c == '"' || c == ',' || c == '\n' || c == '\r' }

  predicate NeedsQuotes(text: string) { exists i :: 0 <= i < |text| && Special(text[i]) }

  function Doubled(text: string): string {
    if text == "" then ""
    else (if text[0] == '"' then "\"\"" else [text[0]]) + Doubled(text[1..])
  }

  function Print(text: string): string {
    if NeedsQuotes(text) then "\"" + Doubled(text) + "\"" else text
  }

  /** `csvCell`. */
  function CsvCell(c: Cell): string { if c.Missing? then "" else Print(TextOf(c)) }

  function Texts(row: seq<Cell>): (t: seq<string>)
    ensures |t| == |row|
  {
    seq(|row|, i requires 0 <= i < |row| => TextOf(row[i]))
  }

  function PrintRow(texts: seq<string>): string {
    Join(seq(|texts|, i requires 0 <= i < |texts| => Print(texts[i])), ",")
  }

  function PrintTable(table: seq<seq<string>>): string {
    Join(seq(|table|, i requires 0 <= i < |table| => PrintRow(table[i])), CRLF)
  }

  /** The exported table as texts: the header row, then the others. */
  function TableOf(headers: seq<string>, rows: seq<seq<Cell>>): (t: seq<seq<string>>)
    ensures |t| == |rows| + 1
  {
    [headers] + seq(|rows|, i requires 0 <= i < |rows| => Texts(rows[i]))
  }

  lemma RowPrints(row: seq<Cell>, cells: seq<string>)
    requires cells == seq(|row|, i requires 0 <= i < |row| => CsvCell(row[i]))
    ensures Join(cells, ",") == PrintRow(Texts(row))
  {
    var texts := Texts(row);
    var printed := seq(|texts|, i requires 0 <= i < |texts| => Print(texts[i]));
    assert cells == printed by {
      forall i | 0 <= i < |row| ensures cells[i] == printed[i] {
      }
    }
  }

  method RowsToCsv(headers: seq<string>, rows: seq<seq<Cell>>) returns (csv: string)
    ensures csv == [BOM] + PrintTable(TableOf(headers, rows))
    ensures headers != [] && (forall row | row in rows :: row != []) ==>
              && csv[0] == '\U{FEFF}'
              && Read(csv[1..]).Some? && FileReads(headers, rows, Read(csv[1..]).value)
  {
    var cells := seq(|headers|, i requires 0 <= i < |headers| => CsvCell(Scalar(headers[i])));
    assert cells == seq(|headers|, i requires 0 <= i < |headers| => Print(headers[i]));
    var lines := [Join(cells, ",")];
    var table := TableOf(headers, rows);
    assert lines[0] == PrintRow(headers);
    for k := 0 to |rows|
      invariant lines == seq(k + 1, i requires 0 <= i < k + 1 => PrintRow(table[i]))
    {
      var row := rows[k];
      cells := seq(|row|, i requires 0 <= i < |row| => CsvCell(row[i]));
      RowPrints(row, cells);
      assert table[k + 1] == Texts(row);
      lines := lines + [Join(cells, ",")];
    }
    csv := [BOM] + Join(lines, CRLF);
    hide Join, PrintTable, FileReads, TableOf, Read;
    assert csv[1..] == PrintTable(table);
    if headers != [] && forall row | row in rows :: row != [] {
      FileHolds(headers, rows);
    }
  }

  // ----- reading ------------------------------------------------------------------------------

  datatype Mode = FieldStart | Bare | Quoted | Closed

  predicate AtBreak(s: string) { |s| >= 2 && s[0] == '\r' && s[1] == '\n' }

  /** A reader of the grammar: CRLF between records, commas between fields, quotes doubled inside quotes. */
  function Scan(
      s: string, mode: Mode, cell: string, row: seq<string>, table: seq<seq<string>>): Option<seq<seq<string>>>
    decreases s
  {
    if s == "" then
      if mode == Quoted then None else Some(table + [row + [cell]])
    else if mode == Quoted then
      if s[0] == '"' then Scan(s[1..], Closed, cell, row, table)
      else Scan(s[1..], Quoted, cell + [s[0]], row, table)
    else if s[0] == '"' then
      if mode == FieldStart then Scan(s[1..], Quoted, cell, row, table)
      else if mode == Closed then Scan(s[1..], Quoted, cell + "\"", row, table)
      else None
    else if s[0] == ',' then Scan(s[1..], FieldStart, "", row + [cell], table)
    else if AtBreak(s) then Scan(s[2..], FieldStart, "", [], table + [row + [cell]])
    else if mode == Closed || Special(s[0]) then None
    else Scan(s[1..], Bare, cell + [s[0]], row, table)
  }

  function Read(s: string): Option<seq<seq<string>>> { Scan(s, FieldStart, "", [], []) }

  /** Where a field may end. */
  predicate FieldEnds(rest: string) { rest == "" || rest[0] == ',' || AtBreak(rest) }

  lemma {:induction false} ScanBare(
      text: string, rest: string, mode: Mode, cell: string, row: seq<string>, table: seq<seq<string>>)
    requires !NeedsQuotes(text) && FieldEnds(rest) && (mode == FieldStart || mode == Bare)
    ensures Scan(text + rest, mode, cell, row, table) == Scan(rest, Bare, cell + text, row, table)
    decreases text
  {
    if text == "" {
      assert text + rest == rest && cell + text == cell;
    } else {
      assert (text + rest)[1..] == text[1..] + rest;
      assert !Special(text[0]);
      assert forall i | 0 <= i < |text[1..]| :: text[1..][i] == text[i + 1];
      ScanBare(text[1..], rest, Bare, cell + [text[0]], row, table);
      assert cell + [text[0]] + text[1..] == cell + text;
    }
  }

  lemma {:induction false} ScanQuoted(
      text: string, rest: string, cell: string, row: seq<string>, table: seq<seq<string>>)
    requires FieldEnds(rest)
    ensures Scan(Doubled(text) + "\"" + rest, Quoted, cell, row, table) == Scan(rest, Closed, cell + text, row, table)
    decreases text
  {
    var s := Doubled(text) + "\"" + rest;
    if text == "" {
      assert s[1..] == rest && cell + text == cell;
    } else {
      var tail := Doubled(text[1..]) + "\"" + rest;
      if text[0] == '"' {
        assert s[1..][1..] == tail;
        assert Scan(s, Quoted, cell, row, table) == Scan(s[1..], Closed, cell, row, table);
      } else {
        assert s[1..] == tail;
      }
      ScanQuoted(text[1..], rest, cell + [text[0]], row, table);
      assert cell + [text[0]] + text[1..] == cell + text;
    }
  }

  /** A field that ends is added to its row, and the row to the table if the record ends with it. */
  function Ended(rest: string, text: string, row: seq<string>, table: seq<seq<string>>): Option<seq<seq<string>>>
    requires FieldEnds(rest)
  {
    if rest == "" then Some(table + [row + [text]])
    else if rest[0] == ',' then Scan(rest[1..], FieldStart, "", row + [text], table)
    else Scan(rest[2..], FieldStart, "", [], table + [row + [text]])
  }

  lemma ScanEnd(rest: string, mode: Mode, text: string, row: seq<string>, table: seq<seq<string>>)
    requires FieldEnds(rest) && (mode == Bare || mode == Closed)
    ensures Scan(rest, mode, text, row, table) == Ended(rest, text, row, table)
  {
  }

  lemma OpenQuote(s: string, row: seq<string>, table: seq<seq<string>>)
    requires s != "" && s[0] == '"'
    ensures Scan(s, FieldStart, "", row, table) == Scan(s[1..], Quoted, "", row, table)
  {
  }

  lemma ScanQuotedCell(text: string, rest: string, row: seq<string>, table: seq<seq<string>>)
    requires FieldEnds(rest)
    ensures Scan("\"" + Doubled(text) + "\"" + rest, FieldStart, "", row, table) == Ended(rest, text, row, table)
  {
    hide Scan, Ended, Doubled, FieldEnds;
    var s := "\"" + Doubled(text) + "\"" + rest;
    assert s[1..] == Doubled(text) + "\"" + rest;
    OpenQuote(s, row, table);
    ScanQuoted(text, rest, "", row, table);
    assert "" + text == text;
    ScanEnd(rest, Closed, text, row, table);
  }

  lemma ScanBareCell(text: string, rest: string, row: seq<string>, table: seq<seq<string>>)
    requires FieldEnds(rest) && !NeedsQuotes(text)
    ensures Scan(text + rest, FieldStart, "", row, table) == Ended(rest, text, row, table)
  {
    hide Scan, Ended, FieldEnds, NeedsQuotes;
    ScanBare(text, rest, FieldStart, "", row, table);
    assert "" + text == text;
    ScanEnd(rest, Bare, text, row, table);
  }

  /** A printed cell is read back, whatever it holds. */
  lemma ScanCell(text: string, rest: string, row: seq<string>, table: seq<seq<string>>)
    requires FieldEnds(rest)
    ensures Scan(Print(text) + rest, FieldStart, "", row, table) == Ended(rest, text, row, table)
  {
    hide Scan, Ended, Doubled, FieldEnds, NeedsQuotes;
    if NeedsQuotes(text) {
      ScanQuotedCell(text, rest, row, table);
    } else {
      ScanBareCell(text, rest, row, table);
    }
  }

  /** What an empty row reads as. */
  function ReadsAs(row: seq<string>): seq<string> { if row == [] then [""] else row }

  lemma PrintRowStep(texts: seq<string>)
    requires |texts| > 1
    ensures PrintRow(texts) == Print(texts[0]) + "," + PrintRow(texts[1..])
  {
    var cells := seq(|texts|, i requires 0 <= i < |texts| => Print(texts[i]));
    var rest := seq(|texts| - 1, i requires 0 <= i < |texts| - 1 => Print(texts[1..][i]));
    assert cells[1..] == rest;
  }

  /** The first of several cells, read up to and over its comma. */
  lemma ScanFirst(texts: seq<string>, rest: string, row: seq<string>, table: seq<seq<string>>)
    requires |texts| > 1
    ensures Scan(PrintRow(texts) + rest, FieldStart, "", row, table)
            == Scan(PrintRow(texts[1..]) + rest, FieldStart, "", row + [texts[0]], table)
  {
    PrintRowStep(texts);
    hide Scan, PrintRow, Print;
    var tail := "," + PrintRow(texts[1..]) + rest;
    assert PrintRow(texts) + rest == Print(texts[0]) + tail;
    ScanCell(texts[0], tail, row, table);
    assert tail[1..] == PrintRow(texts[1..]) + rest;
  }

  lemma {:induction false} ScanRow(texts: seq<string>, rest: string, row: seq<string>, table: seq<seq<string>>)
    requires rest == "" || AtBreak(rest)
    ensures Scan(PrintRow(texts) + rest, FieldStart, "", row, table) ==
            var done := table + [row + ReadsAs(texts)];
            if rest == "" then Some(done) else Scan(rest[2..], FieldStart, "", [], done)
    decreases texts
  {
    hide Scan, Print;
    if |texts| <= 1 {
      var text := if texts == [] then "" else texts[0];
      assert PrintRow(texts) == Print(text) by { FewCells(texts); }
      assert ReadsAs(texts) == [text];
      ScanCell(text, rest, row, table);
    } else {
      ScanFirst(texts, rest, row, table);
      ScanRow(texts[1..], rest, row + [texts[0]], table);
      assert row + [texts[0]] + texts[1..] == row + texts;
    }
  }

  lemma FewCells(texts: seq<string>)
    requires |texts| <= 1
    ensures PrintRow(texts) == Print(if texts == [] then "" else texts[0])
  {
  }

  lemma PrintTableStep(table: seq<seq<string>>)
    requires |table| > 1
    ensures PrintTable(table) == PrintRow(table[0]) + CRLF + PrintTable(table[1..])
  {
    var lines := seq(|table|, i requires 0 <= i < |table| => PrintRow(table[i]));
    var rest := seq(|table| - 1, i requires 0 <= i < |table| - 1 => PrintRow(table[1..][i]));
    assert lines[1..] == rest;
  }

  function AllReadAs(table: seq<seq<string>>): (r: seq<seq<string>>)
    ensures |r| == |table|
  {
    seq(|table|, i requires 0 <= i < |table| => ReadsAs(table[i]))
  }

  lemma {:induction false} ScanTable(table: seq<seq<string>>, read: seq<seq<string>>)
    requires table != []
    ensures Scan(PrintTable(table), FieldStart, "", [], read) == Some(read + AllReadAs(table))
    decreases table
  {
    var row := table[0];
    assert [] + ReadsAs(row) == ReadsAs(row);
    if |table| == 1 {
      assert PrintTable(table) + "" == PrintTable(table) == PrintRow(row);
      ScanRow(row, "", [], read);
      assert AllReadAs(table) == [ReadsAs(row)];
    } else {
      PrintTableStep(table);
      var rest := CRLF + PrintTable(table[1..]);
      assert PrintTable(table) == PrintRow(row) + rest;
      ScanRow(row, rest, [], read);
      assert rest[2..] == PrintTable(table[1..]);
      ScanTable(table[1..], read + [ReadsAs(row)]);
      assert read + [ReadsAs(row)] + AllReadAs(table[1..]) == read + AllReadAs(table);
    }
  }

  /** The exported text reads back as the table exactly when no row is empty. */
  lemma ReadsBackExactly(table: seq<seq<string>>)
    requires table != []
    ensures Read(PrintTable(table)) == Some(AllReadAs(table))
    ensures Read(PrintTable(table)) == Some(table) <==> forall row | row in table :: row != []
  {
    ScanTable(table, []);
    assert [] + AllReadAs(table) == AllReadAs(table);
    if forall row | row in table :: row != [] {
      forall i | 0 <= i < |table| ensures AllReadAs(table)[i] == table[i] {
        assert table[i] in table;
      }
      assert AllReadAs(table) == table;
    } else {
      var i :| 0 <= i < |table| && table[i] == [];
      assert AllReadAs(table)[i] == [""];
    }
  }

  /** Two different tables without empty rows never print alike. */
  lemma PrintIsInjective(a: seq<seq<string>>, b: seq<seq<string>>)
    requires a != [] && b != [] && (forall row | row in a :: row != []) && (forall row | row in b :: row != [])
    requires PrintTable(a) == PrintTable(b)
    ensures a == b
  {
    ReadsBackExactly(a);
    ReadsBackExactly(b);
  }

  // ----- the exported file --------------------------------------------------------------------

  /** The text a cell is read back as: nothing for a missing one, a list joined by commas and blanks. */
  ghost predicate ReadsFor(c: Cell, text: string) {
    match c
    case Missing => text == ""
    case Scalar(t) => text == t
    case List(items) => ListReads(items, text)
  }

  ghost predicate ListReads(items: seq<Option<string>>, text: string) {
    if items == [] then text == ""
    else
      var first := if items[0].Some? then items[0].value else "";
      if |items| == 1 then text == first
      else exists rest :: ListReads(items[1..], rest) && text == first + ", " + rest
  }

  lemma {:induction false} ListTextReads(items: seq<Option<string>>)
    ensures ListReads(items, TextOf(List(items)))
    decreases items
  {
    var parts := seq(|items|, i requires 0 <= i < |items| => items[i].GetOr(""));
    if |items| > 1 {
      var rest := items[1..];
      ListTextReads(rest);
      assert parts[1..] == seq(|rest|, i requires 0 <= i < |rest| => rest[i].GetOr(""));
      assert TextOf(List(items)) == parts[0] + ", " + TextOf(List(rest));
    }
  }

  lemma TextReads(c: Cell)
    ensures ReadsFor(c, TextOf(c))
  {
    if c.List? {
      ListTextReads(c.items);
    }
  }

  /** What the file's reader gets: the header row first, then each row with a text for every cell. */
  ghost predicate FileReads(headers: seq<string>, rows: seq<seq<Cell>>, table: seq<seq<string>>) {
    && |table| == |rows| + 1 && table[0] == headers
    && forall k | 0 <= k < |rows| ::
         |table[k + 1]| == |rows[k]| && forall i | 0 <= i < |rows[k]| :: ReadsFor(rows[k][i], table[k + 1][i])
  }

  /** A file starts with the mark, and its reader gets the headers and every cell, in place. */
  lemma FileHolds(headers: seq<string>, rows: seq<seq<Cell>>)
    requires headers != [] && forall row | row in rows :: row != []
    ensures var table := TableOf(headers, rows);
            Read(PrintTable(table)) == Some(table) && FileReads(headers, rows, table)
  {
    var table := TableOf(headers, rows);
    forall k, i | 0 <= k < |rows| && 0 <= i < |rows[k]| ensures ReadsFor(rows[k][i], table[k + 1][i]) {
      TextReads(rows[k][i]);
    }
    forall row | row in table ensures row != [] {
      var k :| 0 <= k < |table| && table[k] == row;
      assert k == 0 || rows[k - 1] in rows;
    }
    ReadsBackExactly(table);
  }

  /** A text with a comma, a quote or a line break is put in quotes, every other one stays as it is. */
  lemma PrintedBare(text: string)
    ensures (forall c | c in text :: c != '"' && c != ',' && c != '\n' && c != '\r') ==> Print(text) == text
    ensures (exists c :: c in text && (c == '"' || c == ',' || c == '\n' || c == '\r')) ==>
              |Print(text)| >= |text| + 2 && Print(text)[0] == '"' && Print(text)[|Print(text)| - 1] == '"'
    ensures CsvCell(Missing) == ""
  {
    assert forall i | 0 <= i < |text| :: text[i] in text;
    DoubledIsLonger(text);
  }

  lemma {:induction false} DoubledIsLonger(text: string)
    ensures |Doubled(text)| >= |text|
  {
    if text != "" { DoubledIsLonger(text[1..]); }
  }
}
