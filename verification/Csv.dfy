/** The CSV writer and reader of section 2 of RFC 4180, and the round trip between them. */
module Csv {
  import opened Sequences

  // A cell to write: a number comes with its own rendering, and a missing cell is written empty.
  datatype Cell = Text(text: string) | Number(rendering: string) | Undefined

  type Table = seq<seq<Cell>>

  function CellText(cell: Cell): string {
    match cell
    case Text(text) => text
    case Number(rendering) => rendering
    case Undefined => ""
  }

  // ---------------------------------------------------------------------------------------
  // Writing
  // ---------------------------------------------------------------------------------------

  predicate IsSpecial(c: char) {
    c == '"' || c == ',' || c == '\r' || c == '\n'
  }

  predicate NeedsQuotes(text: string) {
    exists c :: c in text && IsSpecial(c)
  }

  function Doubled(text: string): string {
    if text == "" then "" else (if text[0] == '"' then "\"\"" else [text[0]]) + Doubled(text[1..])
  }

  function Escape(text: string): string {
    if NeedsQuotes(text) then "\"" + Doubled(text) + "\"" else text
  }

  function Join(parts: seq<string>, separator: string): string {
    if parts == [] then ""
    else if |parts| == 1 then parts[0]
    else parts[0] + separator + Join(parts[1..], separator)
  }

  function Texts(row: seq<Cell>): (r: seq<string>)
    ensures |r| == |row|
  {
    seq(|row|, i requires 0 <= i < |row| => CellText(row[i]))
  }

  function Escaped(texts: seq<string>): (r: seq<string>)
    ensures |r| == |texts|
  {
    seq(|texts|, i requires 0 <= i < |texts| => Escape(texts[i]))
  }

  function PrintRow(row: seq<Cell>): string {
    Join(Escaped(Texts(row)), ",")
  }

  function Lines(table: Table): (r: seq<string>)
    ensures |r| == |table|
  {
    seq(|table|, i requires 0 <= i < |table| => PrintRow(table[i]))
  }

  predicate IsLineBreak(separator: string) {
    separator == "\n" || separator == "\r\n" || separator == "\r"
  }

  function PrintWith(table: Table, separator: string): string {
    Join(Lines(table), separator)
  }

  function ToCsv(headers: seq<string>, rows: Table): string {
    PrintWith([Headers(headers)] + rows, "\n")
  }

  function Headers(headers: seq<string>): (r: seq<Cell>)
    ensures Texts(r) == headers
  {
    var r := seq(|headers|, i requires 0 <= i < |headers| => Text(headers[i]));
    assert Texts(r) == headers;
    r
  }

  // How a row is written: its cells with a comma between each two; a cell as it is, or, if a comma, a
  // quote or a line break is in it, between quotes with its own quotes doubled.
  lemma RowIsWritten(cell: Cell, rest: seq<Cell>, text: string)
    ensures PrintRow([cell]) == Escape(CellText(cell))
    ensures rest != [] ==> PrintRow([cell] + rest) == Escape(CellText(cell)) + "," + PrintRow(rest)
    ensures Escape(text)
         == if ',' in text || '"' in text || '\r' in text || '\n' in text then "\"" + Doubled(text) + "\"" else text
  {
    var all := Escaped(Texts([cell] + rest));
    assert all[1..] == Escaped(Texts(rest));
    assert Escaped(Texts([cell])) == [Escape(CellText(cell))];
    assert ',' in text ==> IsSpecial(',');
    assert '"' in text ==> IsSpecial('"');
    assert '\r' in text ==> IsSpecial('\r');
    assert '\n' in text ==> IsSpecial('\n');
  }

  lemma {:induction false} DoubledIs(a: string, b: string, c: char)
    ensures Doubled(a + b) == Doubled(a) + Doubled(b)
    ensures Doubled([c]) == if c == '"' then [c, c] else [c]
  {
    if a == "" {
      assert a + b == b;
    } else {
      assert (a + b)[1..] == a[1..] + b;
      DoubledIs(a[1..], b, c);
    }
  }

  // ---------------------------------------------------------------------------------------
  // Reading
  // ---------------------------------------------------------------------------------------

  datatype Scan = Scan(rows: seq<seq<string>>, row: seq<string>, field: string, quoted: bool)

  const START := Scan([], [], "", false)

  function EndField(s: Scan): Scan {
    s.(row := s.row + [s.field], field := "")
  }

  function EndRow(s: Scan): Scan {
    Scan(s.rows + [s.row + [s.field]], [], "", s.quoted)
  }

  function Add(s: Scan, c: char): Scan {
    s.(field := s.field + [c])
  }

  // A doubled quote inside quotes, and CRLF outside them, are read in one go.
  function Width(text: string, i: nat, quoted: bool): (n: nat)
    requires i < |text|
    ensures 1 <= n && i + n <= |text|
  {
    if i + 1 == |text| then 1
    else if quoted then (if text[i] == '"' && text[i + 1] == '"' then 2 else 1)
    else if text[i] == '\r' && text[i + 1] == '\n' then 2 else 1
  }

  function Next(text: string, i: nat, s: Scan): Scan
    requires i < |text|
  {
    if s.quoted then
      if text[i] != '"' || Width(text, i, true) == 2 then Add(s, text[i]) else s.(quoted := false)
    else if text[i] == '"' then s.(quoted := true)
    else if text[i] == ',' then EndField(s)
    else if text[i] == '\r' || text[i] == '\n' then EndRow(s)
    else Add(s, text[i])
  }

  // Reads a text from place `i` to its end.
  function Consume(text: string, i: nat, s: Scan): Scan
    requires i <= |text|
    decreases |text| - i
  {
    if i == |text| then s else Consume(text, i + Width(text, i, s.quoted), Next(text, i, s))
  }

  function Flush(s: Scan): seq<seq<string>> {
    if s.field != "" || s.row != [] then EndRow(s).rows else s.rows
  }

  function Parse(text: string): seq<seq<string>> {
    Flush(Consume(text, 0, START))
  }

  method ParseCsv(text: string) returns (rows: seq<seq<string>>)
    ensures rows == Parse(text)
  {
    rows := [];
    var row: seq<string>, field, quoted, i := [], "", false, 0;
    while i < |text|
      invariant 0 <= i <= |text|
      invariant Consume(text, i, Scan(rows, row, field, quoted)) == Consume(text, 0, START)
    {
      var c := text[i];
      if quoted {
        if c == '"' {
          if i + 1 < |text| && text[i + 1] == '"' {
            field, i := field + "\"", i + 2;
            continue;
          }
          quoted, i := false, i + 1;
          continue;
        }
        field, i := field + [c], i + 1;
        continue;
      }
      if c == '"' {
        quoted, i := true, i + 1;
        continue;
      }
      if c == ',' {
        row, field, i := row + [field], "", i + 1;
        continue;
      }
      if c == '\r' || c == '\n' {
        rows, row, field := rows + [row + [field]], [], "";
        i := i + if c == '\r' && i + 1 < |text| && text[i + 1] == '\n' then 2 else 1;
        continue;
      }
      field, i := field + [c], i + 1;
    }
    if field != "" || row != [] {
      rows := rows + [row + [field]];
    }
  }

  // ---------------------------------------------------------------------------------------
  // The round trip
  // ---------------------------------------------------------------------------------------

  // A row without cells and a row of one empty cell look the same on paper.
  function Fill(row: seq<Cell>): (r: seq<string>)
    ensures r != []
  {
    if row == [] then [""] else Texts(row)
  }

  function Filled(table: Table): (r: seq<seq<string>>)
    ensures |r| == |table|
  {
    seq(|table|, i requires 0 <= i < |table| => Fill(table[i]))
  }

  // What can be read back of a table: its texts, but a last line that is empty is not a row.
  function Canonical(table: Table): seq<seq<string>> {
    var filled := Filled(table);
    if filled != [] && filled[|filled| - 1] == [""] then filled[..|filled| - 1] else filled
  }

  lemma AtTail(text: string, i: nat, part: string)
    requires At(text, i, part) && part != ""
    ensures text[i] == part[0] && At(text, i + 1, part[1..])
  {
    assert text[i + 0] == part[0];
  }

  predicate QuoteAt(text: string, i: nat) {
    i < |text| && text[i] == '"'
  }

  lemma {:induction false} ConsumePlain(text: string, i: nat, cell: string, s: Scan)
    requires At(text, i, cell) && !s.quoted && !NeedsQuotes(cell)
    ensures Consume(text, i, s) == Consume(text, i + |cell|, s.(field := s.field + cell))
    decreases |cell|
  {
    if cell == "" {
      assert s.field + cell == s.field;
    } else {
      AtTail(text, i, cell);
      assert cell[0] in cell && !IsSpecial(cell[0]);
      assert forall c :: c in cell[1..] ==> c in cell;
      ConsumePlain(text, i + 1, cell[1..], Add(s, cell[0]));
      assert s.field + [cell[0]] + cell[1..] == s.field + cell;
    }
  }

  lemma {:induction false} ConsumeDoubled(text: string, i: nat, cell: string, s: Scan)
    requires At(text, i, Doubled(cell)) && QuoteAt(text, i + |Doubled(cell)|) && !QuoteAt(text, i + |Doubled(cell)| + 1)
    requires s.quoted
    ensures Consume(text, i, s) == Consume(text, i + |Doubled(cell)| + 1, s.(field := s.field + cell, quoted := false))
    decreases |cell|
  {
    if cell == "" {
      assert s.field + cell == s.field;
    } else {
      AtTail(text, i, Doubled(cell));
      if cell[0] == '"' {
        assert Doubled(cell)[1..][1..] == Doubled(cell[1..]);
        AtTail(text, i + 1, Doubled(cell)[1..]);
        ConsumeDoubled(text, i + 2, cell[1..], Add(s, '"'));
      } else {
        assert Doubled(cell)[1..] == Doubled(cell[1..]);
        ConsumeDoubled(text, i + 1, cell[1..], Add(s, cell[0]));
      }
      assert s.field + [cell[0]] + cell[1..] == s.field + cell;
    }
  }

  // A written cell is read as its text, whatever it holds.
  lemma ConsumeCell(text: string, i: nat, cell: string, s: Scan)
    requires At(text, i, Escape(cell)) && !QuoteAt(text, i + |Escape(cell)|)
    requires !s.quoted && s.field == ""
    ensures Consume(text, i, s) == Consume(text, i + |Escape(cell)|, s.(field := cell))
  {
    assert "" + cell == cell;
    if NeedsQuotes(cell) {
      AtParts(text, i, "\"" + Doubled(cell), "\"");
      AtParts(text, i, "\"", Doubled(cell));
      assert text[i + 0] == "\""[0] && text[i + 1 + |Doubled(cell)| + 0] == "\""[0];
      ConsumeDoubled(text, i + 1, cell, s.(quoted := true));
    } else {
      ConsumePlain(text, i, cell, s);
    }
  }

  predicate RowEndsAt(text: string, i: nat) {
    i <= |text| && (i == |text| || text[i] == '\r' || text[i] == '\n')
  }

  // Wherever `part` stands as a whole cell, it is read as `cell`.
  ghost predicate ReadsAs(text: string, part: string, cell: string) {
    forall i: nat, s: Scan :: At(text, i, part) && !QuoteAt(text, i + |part|) && !s.quoted && s.field == "" ==>
      Consume(text, i, s) == Consume(text, i + |part|, s.(field := cell))
  }

  lemma EscapedReadsAs(text: string, cell: string)
    ensures ReadsAs(text, Escape(cell), cell)
  {
    forall i: nat, s: Scan | At(text, i, Escape(cell)) && !QuoteAt(text, i + |Escape(cell)|) && !s.quoted
           && s.field == ""
      ensures Consume(text, i, s) == Consume(text, i + |Escape(cell)|, s.(field := cell))
    {
      ConsumeCell(text, i, cell, s);
    }
  }

  lemma RowParts(text: string, i: nat, parts: seq<string>)
    requires |parts| > 1 && At(text, i, Join(parts, ","))
    ensures var comma := i + |parts[0]|;
            && At(text, i, parts[0]) && comma < |text| && text[comma] == ','
            && At(text, comma + 1, Join(parts[1..], ","))
            && |Join(parts, ",")| == |parts[0]| + 1 + |Join(parts[1..], ",")|
  {
    AtParts(text, i, parts[0] + ",", Join(parts[1..], ","));
    AtParts(text, i, parts[0], ",");
    assert text[i + |parts[0]| + 0] == ","[0];
  }

  // The scan after a row's cells, before what ends the row.
  function AtRowEnd(texts: seq<string>, s: Scan): Scan
    requires texts != []
  {
    s.(row := s.row + texts[..|texts| - 1], field := texts[|texts| - 1])
  }

  lemma AtRowEndOfMore(texts: seq<string>, s: Scan)
    requires |texts| > 1
    ensures AtRowEnd(texts[1..], EndField(s.(field := texts[0]))) == AtRowEnd(texts, s)
  {
    assert s.row + [texts[0]] + texts[1..][..|texts| - 2] == s.row + texts[..|texts| - 1];
  }

  lemma ConsumeComma(text: string, i: nat, s: Scan)
    requires i < |text| && text[i] == ',' && !s.quoted
    ensures Consume(text, i, s) == Consume(text, i + 1, EndField(s))
  {
  }

  // A row's cells one by one, up to what ends the row.
  lemma {:induction false} ConsumeParts(text: string, i: nat, parts: seq<string>, texts: seq<string>, s: Scan)
    requires texts != [] && |parts| == |texts| && forall k :: 0 <= k < |parts| ==> ReadsAs(text, parts[k], texts[k])
    requires At(text, i, Join(parts, ",")) && RowEndsAt(text, i + |Join(parts, ",")|) && !s.quoted && s.field == ""
    ensures Consume(text, i, s) == Consume(text, i + |Join(parts, ",")|, AtRowEnd(texts, s))
    decreases |texts|
  {
    assert ReadsAs(text, parts[0], texts[0]);
    if |texts| == 1 {
      assert s.row + texts[..0] == s.row;
    } else {
      RowParts(text, i, parts);
      ConsumeComma(text, i + |parts[0]|, s.(field := texts[0]));
      ConsumeParts(text, i + |parts[0]| + 1, parts[1..], texts[1..], EndField(s.(field := texts[0])));
      AtRowEndOfMore(texts, s);
    }
  }

  lemma ConsumeRow(text: string, i: nat, texts: seq<string>, s: Scan)
    requires texts != [] && At(text, i, Join(Escaped(texts), ",")) && RowEndsAt(text, i + |Join(Escaped(texts), ",")|)
    requires !s.quoted && s.field == ""
    ensures Consume(text, i, s) == Consume(text, i + |Join(Escaped(texts), ",")|, AtRowEnd(texts, s))
  {
    forall k | 0 <= k < |texts|
      ensures ReadsAs(text, Escaped(texts)[k], texts[k])
    {
      EscapedReadsAs(text, texts[k]);
    }
    ConsumeParts(text, i, Escaped(texts), texts, s);
  }

  lemma PrintRowIsFill(row: seq<Cell>)
    ensures PrintRow(row) == Join(Escaped(Fill(row)), ",")
  {
    if row == [] {
      assert Escaped(Fill(row)) == [""];
    }
  }

  lemma JoinStart(parts: seq<string>, separator: string)
    requires parts != [] && separator != "" && separator[0] != '\n'
    requires parts[0] == "" || parts[0][0] != '\n'
    ensures var joined := Join(parts, separator);
            joined == "" || joined[0] != '\n'
  {
  }

  lemma PrintedStart(table: Table, separator: string)
    requires table != [] && separator == "\r"
    ensures var printed := PrintWith(table, separator);
            printed == "" || printed[0] != '\n'
  {
    var row := table[0];
    if row != [] {
      var cells := Escaped(Texts(row));
      assert cells[0] == "" || cells[0][0] != '\n' by {
        var text := CellText(row[0]);
        if text != "" {
          assert text[0] in text;
        }
      }
      JoinStart(cells, ",");
    }
    JoinStart(Lines(table), separator);
  }

  lemma ConsumeSeparator(text: string, i: nat, separator: string, s: Scan)
    requires At(text, i, separator) && IsLineBreak(separator) && !s.quoted
    requires separator == "\r" ==> i + 1 == |text| || text[i + 1] != '\n'
    ensures Consume(text, i, s) == Consume(text, i + |separator|, EndRow(s))
  {
    assert text[i + 0] == separator[0];
    assert |separator| == 2 ==> text[i + 1] == separator[1];
  }

  lemma CanonicalOfMore(table: Table, rows: seq<seq<string>>)
    requires |table| > 1
    ensures rows + Canonical(table) == (rows + [Fill(table[0])]) + Canonical(table[1..])
  {
    var head, tail := [Fill(table[0])], Filled(table[1..]);
    assert Filled(table) == head + tail;
    assert (head + tail)[..|tail|] == head + tail[..|tail| - 1];
    assert rows + (head + tail) == (rows + head) + tail;
    assert rows + (head + tail[..|tail| - 1]) == (rows + head) + tail[..|tail| - 1];
  }

  function Before(rows: seq<seq<string>>): Scan {
    Scan(rows, [], "", false)
  }

  lemma FlushedRow(row: seq<Cell>, rows: seq<seq<string>>)
    ensures Flush(AtRowEnd(Fill(row), Before(rows))) == rows + Canonical([row])
    ensures EndRow(AtRowEnd(Fill(row), Before(rows))) == Before(rows + [Fill(row)])
  {
    var texts := Fill(row);
    assert [] + texts[..|texts| - 1] == texts[..|texts| - 1];
    assert texts[..|texts| - 1] + [texts[|texts| - 1]] == texts;
    assert Filled([row]) == [texts];
    if texts == [""] {
      assert Canonical([row]) == [] && rows + [] == rows;
    }
  }

  lemma ConsumeLine(text: string, i: nat, row: seq<Cell>, s: Scan)
    requires At(text, i, PrintRow(row)) && RowEndsAt(text, i + |PrintRow(row)|) && !s.quoted && s.field == ""
    ensures Consume(text, i, s) == Consume(text, i + |PrintRow(row)|, AtRowEnd(Fill(row), s))
  {
    PrintRowIsFill(row);
    ConsumeRow(text, i, Fill(row), s);
  }

  lemma TableParts(text: string, i: nat, table: Table, separator: string)
    requires |table| > 1 && IsLineBreak(separator)
    requires At(text, i, PrintWith(table, separator)) && i + |PrintWith(table, separator)| == |text|
    ensures var end := i + |PrintRow(table[0])|;
            var rest := PrintWith(table[1..], separator);
            && At(text, i, PrintRow(table[0])) && RowEndsAt(text, end) && At(text, end, separator)
            && (separator == "\r" ==> end + 1 == |text| || text[end + 1] != '\n')
            && At(text, end + |separator|, rest) && end + |separator| + |rest| == |text|
  {
    var line, rest := PrintRow(table[0]), PrintWith(table[1..], separator);
    assert Lines(table)[1..] == Lines(table[1..]);
    AtParts(text, i, line + separator, rest);
    AtParts(text, i, line, separator);
    assert text[i + |line| + 0] == separator[0];
    if separator == "\r" && rest != "" {
      PrintedStart(table[1..], separator);
      assert text[i + |line| + 1 + 0] == rest[0];
    }
  }

  lemma ConsumeFirstLine(text: string, i: nat, table: Table, separator: string, rows: seq<seq<string>>)
    requires |table| > 1 && IsLineBreak(separator)
    requires At(text, i, PrintWith(table, separator)) && i + |PrintWith(table, separator)| == |text|
    ensures var next := i + |PrintRow(table[0])| + |separator|;
            && next <= |text| && Consume(text, i, Before(rows)) == Consume(text, next, Before(rows + [Fill(table[0])]))
            && At(text, next, PrintWith(table[1..], separator)) && next + |PrintWith(table[1..], separator)| == |text|
  {
    TableParts(text, i, table, separator);
    ConsumeLine(text, i, table[0], Before(rows));
    FlushedRow(table[0], rows);
    ConsumeSeparator(text, i + |PrintRow(table[0])|, separator, AtRowEnd(Fill(table[0]), Before(rows)));
  }

  lemma ConsumeLastLine(text: string, i: nat, row: seq<Cell>, rows: seq<seq<string>>)
    requires At(text, i, PrintRow(row)) && i + |PrintRow(row)| == |text|
    ensures Flush(Consume(text, i, Before(rows))) == rows + Canonical([row])
  {
    ConsumeLine(text, i, row, Before(rows));
    FlushedRow(row, rows);
  }

  lemma {:induction false} ConsumeTable(text: string, i: nat, table: Table, separator: string, rows: seq<seq<string>>)
    requires table != [] && IsLineBreak(separator)
    requires At(text, i, PrintWith(table, separator)) && i + |PrintWith(table, separator)| == |text|
    ensures Flush(Consume(text, i, Before(rows))) == rows + Canonical(table)
    decreases |table|
  {
    if |table| == 1 {
      assert table == [table[0]];
      ConsumeLastLine(text, i, table[0], rows);
    } else {
      ConsumeFirstLine(text, i, table, separator, rows);
      ConsumeTable(text, i + |PrintRow(table[0])| + |separator|, table[1..], separator, rows + [Fill(table[0])]);
      CanonicalOfMore(table, rows);
    }
  }

  // What is read back of any table, whatever commas, quotes and line breaks its cells hold, and
  // whichever of the three line breaks joins its rows.
  lemma ParseOfPrint(table: Table, separator: string)
    requires IsLineBreak(separator)
    ensures Parse(PrintWith(table, separator)) == Canonical(table)
  {
    if table != [] {
      ConsumeTable(PrintWith(table, separator), 0, table, separator, []);
      assert [] + Canonical(table) == Canonical(table);
    }
  }

  function TextsOf(table: Table): (r: seq<seq<string>>)
    ensures |r| == |table|
  {
    seq(|table|, i requires 0 <= i < |table| => Texts(table[i]))
  }

  predicate EndsInEmptyCell(table: Table) {
    table != [] && Texts(table[|table| - 1]) == [""]
  }

  // The round trip is exact if and only if every row has a cell and the last is not one empty
  // cell.
  lemma RoundTrip(table: Table, separator: string)
    requires IsLineBreak(separator)
    ensures Parse(PrintWith(table, separator)) == TextsOf(table)
       <==> (forall i :: 0 <= i < |table| ==> table[i] != []) && !EndsInEmptyCell(table)
  {
    ParseOfPrint(table, separator);
    if i :| 0 <= i < |table| && table[i] == [] {
      assert TextsOf(table)[i] == [];
      assert i < |Canonical(table)| ==> Canonical(table)[i] == Fill(table[i]) != [];
    } else {
      assert Filled(table) == TextsOf(table);
      assert table != [] ==> Filled(table)[|table| - 1] == Texts(table[|table| - 1]);
    }
  }

  // The export fixtures: a header row and data rows.
  lemma ToCsvRoundTrip(headers: seq<string>, rows: Table)
    requires headers != [] && forall i :: 0 <= i < |rows| ==> rows[i] != []
    requires if rows == [] then headers != [""] else !EndsInEmptyCell(rows)
    ensures Parse(ToCsv(headers, rows)) == [headers] + TextsOf(rows)
  {
    var table := [Headers(headers)] + rows;
    RoundTrip(table, "\n");
    assert TextsOf(table) == [headers] + TextsOf(rows);
    assert rows != [] ==> table[|table| - 1] == rows[|rows| - 1];
  }

  // Of a one-column fixture whose last value is missing, the last row is lost; and a row without
  // cells above it comes back with one.
  lemma LastEmptyRowIsLost(header: string)
    ensures Parse(ToCsv([header], [[], [Undefined]])) == [[header], [""]]
  {
    var table: Table := [Headers([header])] + [[], [Undefined]];
    ParseOfPrint(table, "\n");
    assert Fill(table[0]) == [header] && Fill(table[1]) == [""] && Fill(table[2]) == [""];
    assert Filled(table) == [[header], [""], [""]];
  }

  lemma {:induction false} ConsumedRows(text: string, i: nat, s: Scan)
    requires i <= |text| && forall k :: 0 <= k < |s.rows| ==> s.rows[k] != []
    ensures forall k :: 0 <= k < |Consume(text, i, s).rows| ==> Consume(text, i, s).rows[k] != []
    decreases |text| - i
  {
    if i < |text| {
      ConsumedRows(text, i + Width(text, i, s.quoted), Next(text, i, s));
    }
  }

  function Cells(rows: seq<seq<string>>): (r: Table)
    ensures |r| == |rows|
  {
    seq(|rows|, i requires 0 <= i < |rows| => Headers(rows[i]))
  }

  lemma FilledCells(rows: seq<seq<string>>)
    requires forall i :: 0 <= i < |rows| ==> rows[i] != []
    ensures Filled(Cells(rows)) == rows
  {
    forall i | 0 <= i < |rows|
      ensures Filled(Cells(rows))[i] == rows[i]
    {
      assert Texts(Cells(rows)[i]) == rows[i];
    }
  }

  // Any file at all, well formed or not, is settled by one reading: writing out what was read and
  // reading it again gives the same rows, unless the file ended in an empty line, whose row is
  // then lost.
  lemma ReadingSettles(text: string, separator: string)
    requires IsLineBreak(separator)
    ensures var rows := Parse(text);
            Parse(PrintWith(Cells(rows), separator))
            == if rows != [] && rows[|rows| - 1] == [""] then rows[..|rows| - 1] else rows
  {
    var rows := Parse(text);
    ConsumedRows(text, 0, START);
    ParseOfPrint(Cells(rows), separator);
    FilledCells(rows);
  }

  // ---------------------------------------------------------------------------------------
  // Records
  // ---------------------------------------------------------------------------------------

  function CellAt(row: seq<string>, index: nat): string {
    if index < |row| then row[index] else ""
  }

  // The last column with this header.
  function Column(headers: seq<string>, header: string): (r: nat)
    requires header in headers
    ensures r < |headers| && headers[r] == header && header !in headers[r + 1..]
  {
    var last := |headers| - 1;
    if headers[last] == header then last else Column(headers[..last], header)
  }

  // A record has the headers as keys; a repeated header takes its last column.
  ghost predicate IsRecord(record: map<string, string>, headers: seq<string>, row: seq<string>) {
    && (forall h :: h in record <==> h in headers)
    && forall h :: h in headers ==> h in record && record[h] == CellAt(row, Column(headers, h))
  }

  lemma ColumnOneMore(headers: seq<string>, index: nat, h: string)
    requires index < |headers| && h in headers[..index + 1]
    ensures h != headers[index] ==> h in headers[..index]
    ensures Column(headers[..index + 1], h) == if h == headers[index] then index else Column(headers[..index], h)
  {
    assert headers[..index + 1][..index] == headers[..index];
    assert headers[..index + 1] == headers[..index] + [headers[index]];
  }

  lemma RecordColumn(headers: seq<string>, row: seq<string>, record: map<string, string>, index: nat)
    requires index < |headers| && IsRecord(record, headers[..index], row)
    ensures IsRecord(record[headers[index] := CellAt(row, index)], headers[..index + 1], row)
  {
    assert headers[..index + 1] == headers[..index] + [headers[index]];
    forall h | h in headers[..index + 1]
      ensures h != headers[index] ==> h in headers[..index]
      ensures Column(headers[..index + 1], h) == if h == headers[index] then index else Column(headers[..index], h)
    {
      ColumnOneMore(headers, index, h);
    }
  }

  method ParseCsvRecords(text: string) returns (headers: seq<string>, records: seq<map<string, string>>)
    ensures headers == if Parse(text) == [] then [] else Parse(text)[0]
    ensures |records| == if Parse(text) == [] then 0 else |Parse(text)| - 1
    ensures forall k :: 0 <= k < |records| ==> IsRecord(records[k], headers, Parse(text)[k + 1])
  {
    var rows := ParseCsv(text);
    if rows == [] {
      return [], [];
    }
    headers, records := rows[0], [];
    for k := 1 to |rows|
      invariant |records| == k - 1
      invariant forall r :: 0 <= r < |records| ==> IsRecord(records[r], headers, rows[r + 1])
    {
      var record := ToRecord(headers, rows[k]);
      records := records + [record];
    }
  }

  method ToRecord(headers: seq<string>, row: seq<string>) returns (record: map<string, string>)
    ensures IsRecord(record, headers, row)
  {
    record := map[];
    for index := 0 to |headers|
      invariant IsRecord(record, headers[..index], row)
    {
      RecordColumn(headers, row, record, index);
      record := record[headers[index] := CellAt(row, index)];
    }
    assert headers[..|headers|] == headers;
  }

  lemma ParsedRow(headers: seq<string>, rows: Table, k: nat)
    requires headers != [] && k < |rows| && !EndsInEmptyCell(rows)
    requires forall r :: 0 <= r < |rows| ==> rows[r] != []
    ensures |Parse(ToCsv(headers, rows))| == |rows| + 1
    ensures Parse(ToCsv(headers, rows))[k + 1] == Texts(rows[k])
  {
    ToCsvRoundTrip(headers, rows);
  }

  // Read by column name, a fixture with distinct headers gives back each row's cell under that
  // header, and an empty text where the row was too short.
  lemma RecordsRoundTrip(headers: seq<string>, rows: Table, k: nat, j: nat, record: map<string, string>)
    requires headers != [] && forall a, b :: 0 <= a < b < |headers| ==> headers[a] != headers[b]
    requires forall r :: 0 <= r < |rows| ==> rows[r] != []
    requires k < |rows| && j < |headers| && !EndsInEmptyCell(rows)
    requires |Parse(ToCsv(headers, rows))| > k + 1 && IsRecord(record, headers, Parse(ToCsv(headers, rows))[k + 1])
    ensures headers[j] in record
    ensures record[headers[j]] == if j < |rows[k]| then CellText(rows[k][j]) else ""
  {
    ParsedRow(headers, rows, k);
    CellOfRecord(headers, rows[k], j, record);
  }

  lemma CellOfRecord(headers: seq<string>, row: seq<Cell>, j: nat, record: map<string, string>)
    requires j < |headers| && forall a, b :: 0 <= a < b < |headers| ==> headers[a] != headers[b]
    requires IsRecord(record, headers, Texts(row))
    ensures headers[j] in record
    ensures record[headers[j]] == if j < |row| then CellText(row[j]) else ""
  {
    var column := Column(headers, headers[j]);
    assert column == j;
  }
}
