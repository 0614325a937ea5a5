/** Splitting an imported CSV text into rows and fields (packages/archive-core/src/proxy.ts:538-563), and the
    quoting printer it inverts (section 2 of RFC 4180). */
module CsvImport {
  import opened Options

  type Row = seq<string>

  predicate HasText(row: Row) {
    exists i :: 0 <= i < |row| && row[i] != []
  }

  /** A row without any text is dropped. */
  function KeepRow(rows: seq<Row>, row: Row): seq<Row> {
    if HasText(row) then rows + [row] else rows
  }

  predicate IsBreak(c: char) {
    c == '\n' || c == '\r'
  }

  function BreakLength(text: string): (k: nat)
    requires text != []
    ensures 1 <= k <= |text|
  {
    if text[0] == '\r' && |text| > 1 && text[1] == '\n' then 2 else 1
  }

  /** The rows of `text`, after the rows, the fields of the row and the part of the field read before it;
      None when a quoted field is not closed. */
  function Split(text: string, rows: seq<Row>, row: Row, field: string, quoted: bool): Option<seq<Row>>
    decreases |text|
  {
    if text == [] then
      if quoted then None
      else Some(if field != [] || row != [] then KeepRow(rows, row + [field]) else rows)
    else if quoted then
      if text[0] == '"' && |text| > 1 && text[1] == '"' then Split(text[2..], rows, row, field + "\"", true)
      else if text[0] == '"' then Split(text[1..], rows, row, field, false)
      else Split(text[1..], rows, row, field + [text[0]], true)
    else if text[0] == '"' && field == [] then Split(text[1..], rows, row, field, true)
    else if text[0] == ',' then Split(text[1..], rows, row + [field], [], false)
    else if IsBreak(text[0]) then Split(text[BreakLength(text)..], KeepRow(rows, row + [field]), [], [], false)
    else Split(text[1..], rows, row, field + [text[0]], false)
  }

  /** The splitting loop; None when the text ends inside quotes. */
  method SplitCsv(text: string) returns (result: Option<seq<Row>>)
    ensures result == Split(text, [], [], [], false)
  {
    hide HasText;
    var rows: seq<Row>, row: Row, field: string, quoted := [], [], [], false;
    var index := 0;
    assert text[0..] == text;
    while index < |text|
      invariant index <= |text| && Split(text[index..], rows, row, field, quoted) == Split(text, [], [], [], false)
    {
      var character := text[index];
      var rest := text[index..];
      assert rest[1..] == text[index + 1..] && (index + 1 < |text| ==>
                                                  rest[2..] == text[index + 2..] && rest[1] == text[index + 1]);
      if quoted {
        if character == '"' && index + 1 < |text| && text[index + 1] == '"' {
          field := field + "\"";
          index := index + 1;
        } else if character == '"' {
          quoted := false;
        } else {
          field := field + [character];
        }
      } else if character == '"' && field == [] {
        quoted := true;
      } else if character == ',' {
        row, field := row + [field], [];
      } else if character == '\n' || character == '\r' {
        if character == '\r' && index + 1 < |text| && text[index + 1] == '\n' {
          index := index + 1;
        }
        row, field := row + [field], [];
        rows := KeepRow(rows, row);
        row := [];
      } else {
        field := field + [character];
      }
      index := index + 1;
    }
    if quoted {
      return None;
    }
    if field != [] || row != [] {
      row := row + [field];
      rows := KeepRow(rows, row);
    }
    return Some(rows);
  }

  // ----- The printer -----

  /** A field, and whether it is written bare or between quotes. */
  datatype Cell = Cell(text: string, bare: bool)

  /** What may be written bare: no comma, no line break, and no quote in front; a quote further on is text. */
  predicate Bareable(text: string) {
    && (forall i :: 0 <= i < |text| ==> text[i] != ',' && !IsBreak(text[i]))
    && (text != [] ==> text[0] != '"')
  }

  predicate Writable(cells: seq<Cell>) {
    forall i :: 0 <= i < |cells| && cells[i].bare ==> Bareable(cells[i].text)
  }

  predicate AllWritable(table: seq<seq<Cell>>) {
    forall i :: 0 <= i < |table| ==> Writable(table[i])
  }

  function DoubleQuotes(field: string): string {
    if field == [] then [] else (if field[0] == '"' then "\"\"" else [field[0]]) + DoubleQuotes(field[1..])
  }

  function PrintCell(cell: Cell): string {
    if cell.bare then cell.text else "\"" + DoubleQuotes(cell.text) + "\""
  }

  function PrintRow(cells: seq<Cell>): string {
    if cells == [] then []
    else if |cells| == 1 then PrintCell(cells[0])
    else PrintCell(cells[0]) + "," + PrintRow(cells[1..])
  }

  /** The rows, each with a line break after it. */
  function Print(table: seq<seq<Cell>>, newline: string): string {
    if table == [] then [] else PrintRow(table[0]) + newline + Print(table[1..], newline)
  }

  function Texts(cells: seq<Cell>): (row: Row)
    ensures |row| == |cells| && forall i :: 0 <= i < |cells| ==> row[i] == cells[i].text
  {
    seq(|cells|, i requires 0 <= i < |cells| => cells[i].text)
  }

  function Rows(table: seq<seq<Cell>>): (rows: seq<Row>)
    ensures |rows| == |table| && forall i :: 0 <= i < |table| ==> rows[i] == Texts(table[i])
  {
    seq(|table|, i requires 0 <= i < |table| => Texts(table[i]))
  }

  function WithText(rows: seq<Row>): seq<Row> {
    if rows == [] then [] else (if HasText(rows[0]) then [rows[0]] else []) + WithText(rows[1..])
  }

  predicate LineBreak(newline: string) {
    newline == "\n" || newline == "\r" || newline == "\r\n"
  }

  // ----- Cells -----

  /** Inside quotes, a printed field is read whole and closed. */
  lemma {:induction false} QuotedRead(value: string, rest: string, rows: seq<Row>, row: Row, field: string)
    requires rest != [] ==> rest[0] != '"'
    ensures Split(DoubleQuotes(value) + "\"" + rest, rows, row, field, true)
      == Split(rest, rows, row, field + value, false)
  {
    var text := DoubleQuotes(value) + "\"" + rest;
    if value == [] {
      assert text[1..] == rest && field + value == field;
    } else {
      var tail := DoubleQuotes(value[1..]) + "\"" + rest;
      QuotedRead(value[1..], rest, rows, row, field + [value[0]]);
      assert field + [value[0]] + value[1..] == field + value;
      if value[0] == '"' {
        assert text[2..] == tail;
      } else {
        assert text[1..] == tail;
      }
    }
  }

  /** A bare field is read up to what ends it. */
  lemma {:induction false} BareRead(value: string, rest: string, rows: seq<Row>, row: Row, field: string)
    requires forall i :: 0 <= i < |value| ==> value[i] != ',' && !IsBreak(value[i])
    requires value != [] && value[0] == '"' ==> field != []
    ensures Split(value + rest, rows, row, field, false) == Split(rest, rows, row, field + value, false)
  {
    if value == [] {
      assert value + rest == rest && field + value == field;
    } else {
      assert (value + rest)[1..] == value[1..] + rest;
      BareRead(value[1..], rest, rows, row, field + [value[0]]);
      assert field + [value[0]] + value[1..] == field + value;
    }
  }

  lemma CellRead(cell: Cell, rest: string, rows: seq<Row>, row: Row)
    requires rest != [] ==> rest[0] != '"'
    requires cell.bare ==> Bareable(cell.text)
    ensures Split(PrintCell(cell) + rest, rows, row, [], false) == Split(rest, rows, row, cell.text, false)
  {
    assert [] + cell.text == cell.text;
    if cell.bare {
      BareRead(cell.text, rest, rows, row, []);
    } else {
      var text := PrintCell(cell) + rest;
      assert text[1..] == DoubleQuotes(cell.text) + "\"" + rest;
      QuotedRead(cell.text, rest, rows, row, []);
    }
  }

  // ----- Rows -----

  /** The line break after a row, before something that does not continue it. */
  lemma BreakRead(newline: string, rest: string, rows: seq<Row>, row: Row, field: string)
    requires LineBreak(newline) && (rest != [] ==> rest[0] != '\n' || newline != "\r")
    ensures Split(newline + rest, rows, row, field, false) == Split(rest, KeepRow(rows, row + [field]), [], [], false)
  {
    hide HasText;
    var text := newline + rest;
    assert text[BreakLength(text)..] == rest;
  }

  lemma CommaRead(rest: string, rows: seq<Row>, row: Row, field: string)
    ensures Split("," + rest, rows, row, field, false) == Split(rest, rows, row + [field], [], false)
  {
    assert ("," + rest)[1..] == rest;
  }

  /** A printed row is read up to its last field. */
  lemma {:induction false} CellsRead(cells: seq<Cell>, rest: string, rows: seq<Row>, done: Row)
    requires cells != [] && Writable(cells) && (rest != [] ==> rest[0] != '"')
    ensures var row := Texts(cells);
            Split(PrintRow(cells) + rest, rows, done, [], false)
              == Split(rest, rows, done + row[..|row| - 1], row[|row| - 1], false)
  {
    hide HasText, Split, PrintCell, Bareable;
    var row := Texts(cells);
    if |cells| == 1 {
      CellRead(cells[0], rest, rows, done);
      assert done + row[..0] == done;
    } else {
      var tail := PrintRow(cells[1..]) + rest;
      RegroupRow(PrintCell(cells[0]), PrintRow(cells[1..]), rest);
      CellRead(cells[0], "," + tail, rows, done);
      CommaRead(tail, rows, done, cells[0].text);
      CellsRead(cells[1..], rest, rows, done + [cells[0].text]);
      assert Texts(cells[1..]) == row[1..];
      assert done + [row[0]] + row[1..][..|row| - 2] == done + row[..|row| - 1];
    }
  }

  lemma RegroupRow(a: string, b: string, c: string)
    ensures a + "," + b + c == a + ("," + (b + c))
  {
  }

  /** A printed row and its line break. */
  lemma RowRead(cells: seq<Cell>, newline: string, rest: string, rows: seq<Row>)
    requires cells != [] && Writable(cells)
    requires LineBreak(newline) && (rest != [] ==> rest[0] != '\n' || newline != "\r")
    ensures Split(PrintRow(cells) + newline + rest, rows, [], [], false)
      == Split(rest, KeepRow(rows, Texts(cells)), [], [], false)
  {
    hide HasText, Split, PrintRow, KeepRow;
    var row := Texts(cells);
    assert PrintRow(cells) + newline + rest == PrintRow(cells) + (newline + rest);
    CellsRead(cells, newline + rest, rows, []);
    BreakRead(newline, rest, rows, [] + row[..|row| - 1], row[|row| - 1]);
    assert [] + row[..|row| - 1] + [row[|row| - 1]] == row;
  }

  /** A last row without a line break. */
  lemma LastRowRead(cells: seq<Cell>, rows: seq<Row>)
    requires cells != [] && Writable(cells)
    ensures Split(PrintRow(cells), rows, [], [], false) == Some(KeepRow(rows, Texts(cells)))
  {
    hide PrintRow;
    var row := Texts(cells);
    assert PrintRow(cells) + [] == PrintRow(cells);
    CellsRead(cells, [], rows, []);
    assert [] + row[..|row| - 1] + [row[|row| - 1]] == row;
  }

  lemma {:induction false} PrintStart(table: seq<seq<Cell>>, newline: string)
    requires LineBreak(newline) && AllWritable(table)
    ensures var text := Print(table, newline); text != [] ==> text[0] != '\n' || newline[0] == '\n'
  {
    if table != [] && PrintRow(table[0]) != [] {
      RowStart(table[0]);
    }
  }

  lemma RowStart(cells: seq<Cell>)
    requires Writable(cells) && PrintRow(cells) != []
    ensures !IsBreak(PrintRow(cells)[0])
  {
    assert cells[0].bare ==> Bareable(cells[0].text);
  }

  // ----- Tables -----

  lemma RowOrNothing(cells: seq<Cell>, newline: string, rest: string, rows: seq<Row>)
    requires Writable(cells) && LineBreak(newline) && (rest != [] ==> rest[0] != '\n' || newline != "\r")
    ensures Split(PrintRow(cells) + newline + rest, rows, [], [], false)
         == Split(rest, KeepRow(rows, Texts(cells)), [], [], false)
  {
    hide Split;
    if cells == [] {
      assert [] + newline + rest == newline + rest;
      BreakRead(newline, rest, rows, [], []);
      assert Texts(cells) == [] && !HasText([] + [[]]) && !HasText([]);
    } else {
      RowRead(cells, newline, rest, rows);
    }
  }

  lemma PrintCons(table: seq<seq<Cell>>, newline: string, rest: string)
    requires table != []
    ensures Print(table, newline) + rest == PrintRow(table[0]) + newline + (Print(table[1..], newline) + rest)
  {
    Regroup(PrintRow(table[0]) + newline, Print(table[1..], newline), rest);
  }

  lemma Regroup(a: string, b: string, c: string)
    ensures a + b + c == a + (b + c)
  {
  }

  /** Printed rows are read, and reading goes on after them. */
  lemma {:induction false} RowsThenText(table: seq<seq<Cell>>, newline: string, rest: string, rows: seq<Row>)
    requires LineBreak(newline) && AllWritable(table) && (rest != [] ==> !IsBreak(rest[0]))
    ensures Split(Print(table, newline) + rest, rows, [], [], false)
         == Split(rest, rows + WithText(Rows(table)), [], [], false)
  {
    hide Split, HasText, WithText, KeepRow, PrintRow, Print;
    if table == [] {
      NoRows(newline, rest, rows);
    } else {
      var tail := Print(table[1..], newline) + rest;
      TailStart(table[1..], newline, rest);
      PrintCons(table, newline, rest);
      RowOrNothing(table[0], newline, tail, rows);
      RowsThenText(table[1..], newline, rest, KeepRow(rows, Texts(table[0])));
      assert Rows(table)[1..] == Rows(table[1..]);
      KeptThenRest(rows, Rows(table));
    }
  }

  lemma NoRows(newline: string, rest: string, rows: seq<Row>)
    ensures Print([], newline) + rest == rest && rows + WithText(Rows([])) == rows
  {
  }

  lemma TailStart(table: seq<seq<Cell>>, newline: string, rest: string)
    requires LineBreak(newline) && AllWritable(table) && (rest != [] ==> !IsBreak(rest[0]))
    ensures var tail := Print(table, newline) + rest; tail != [] ==> tail[0] != '\n' || newline != "\r"
  {
    PrintStart(table, newline);
  }

  /** For every table, however each field is written, and whatever commas, quotes and line breaks the quoted ones hold,
      the splitting loop returns the rows that have some text, in order; a last row needs no line break. */
  lemma SplitInvertsPrint(table: seq<seq<Cell>>, last: seq<Cell>, newline: string)
    requires LineBreak(newline) && AllWritable(table) && Writable(last)
    ensures Split(Print(table, newline) + PrintRow(last), [], [], [], false) == Some(WithText(Rows(table + [last])))
  {
    hide Split, HasText, PrintRow, Print, WithText, KeepRow, IsBreak;
    var before := [] + WithText(Rows(table));
    assert before == WithText(Rows(table));
    LastStart(last);
    RowsThenText(table, newline, PrintRow(last), []);
    LastOrNothing(last, before);
    WithTextAppend(Rows(table), Texts(last));
    assert Rows(table + [last]) == Rows(table) + [Texts(last)];
  }

  lemma LastStart(cells: seq<Cell>)
    requires Writable(cells)
    ensures PrintRow(cells) != [] ==> !IsBreak(PrintRow(cells)[0])
  {
    if PrintRow(cells) != [] {
      RowStart(cells);
    }
  }

  lemma LastOrNothing(cells: seq<Cell>, rows: seq<Row>)
    requires Writable(cells)
    ensures Split(PrintRow(cells), rows, [], [], false) == Some(KeepRow(rows, Texts(cells)))
  {
    if cells != [] {
      LastRowRead(cells, rows);
    } else {
      var nothing: Row := [];
      assert Texts(cells) == nothing && !HasText(nothing) && PrintRow(cells) == "";
    }
  }

  lemma {:induction false} WithTextAppend(rows: seq<Row>, row: Row)
    ensures WithText(rows + [row]) == KeepRow(WithText(rows), row)
  {
    hide HasText;
    if rows == [] {
      var one := [row];
      assert rows + [row] == one && one[1..] == [];
    } else {
      assert (rows + [row])[1..] == rows[1..] + [row];
      WithTextAppend(rows[1..], row);
    }
  }

  lemma KeptThenRest(rows: seq<Row>, table: seq<Row>)
    requires table != []
    ensures KeepRow(rows, table[0]) + WithText(table[1..]) == rows + WithText(table)
  {
    hide HasText;
    RowThenRest(rows, table[0], WithText(table[1..]));
  }

  lemma RowThenRest<T>(rows: seq<T>, row: T, rest: seq<T>)
    ensures rows + [row] + rest == rows + ([row] + rest) && [] + rest == rest
  {
  }

  lemma {:induction false} AllRowsHaveText(table: seq<Row>)
    ensures WithText(table) == table <==> forall i :: 0 <= i < |table| ==> HasText(table[i])
    ensures |WithText(table)| <= |table|
  {
    hide HasText;
    if table != [] {
      AllRowsHaveText(table[1..]);
      assert table == [table[0]] + table[1..];
      if HasText(table[0]) {
        assert WithText(table)[1..] == WithText(table[1..]);
      }
    }
  }

  /** The table comes back as it was exactly when each of its rows has a field with text. */
  lemma TableComesBack(table: seq<seq<Cell>>, last: seq<Cell>, newline: string)
    requires LineBreak(newline) && AllWritable(table) && Writable(last)
    ensures var rows := Rows(table + [last]);
            Split(Print(table, newline) + PrintRow(last), [], [], [], false) == Some(rows) <==>
              forall i :: 0 <= i < |rows| ==> HasText(rows[i])
  {
    hide Split, HasText;
    SplitInvertsPrint(table, last, newline);
    AllRowsHaveText(Rows(table + [last]));
  }

  /** A text that ends inside quotes is refused, whatever comes before. */
  lemma OpenQuoteIsRefused(table: seq<seq<Cell>>, newline: string, value: string)
    requires LineBreak(newline) && AllWritable(table)
    ensures Split(Print(table, newline) + ("\"" + DoubleQuotes(value)), [], [], [], false) == None
  {
    hide HasText;
    RowsThenText(table, newline, "\"" + DoubleQuotes(value), []);
    var rows := [] + WithText(Rows(table));
    assert ("\"" + DoubleQuotes(value))[1..] == DoubleQuotes(value);
    QuoteStaysOpen(value, rows, [], []);
  }

  lemma {:induction false} QuoteStaysOpen(value: string, rows: seq<Row>, row: Row, field: string)
    ensures Split(DoubleQuotes(value), rows, row, field, true) == None
  {
    if value != [] {
      var text := DoubleQuotes(value);
      QuoteStaysOpen(value[1..], rows, row, field + [value[0]]);
      if value[0] == '"' {
        assert text[2..] == DoubleQuotes(value[1..]);
      } else {
        assert text[1..] == DoubleQuotes(value[1..]);
      }
    }
  }
}
