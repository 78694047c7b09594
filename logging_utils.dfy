/** The CSV text `LogBiomeDataToCSV` writes: a header and one row per cell of nonzero
    altitude. `%f` formatting is a parameter. */
module LoggingUtils {
  import opened Common
  import opened HeightmapCell

  /** The nine column names of the header line. */
  const HeaderFields: seq<string> :=
    ["CellIndex", "Latitude", "Longitude", "Altitude", "Temperature", "Precipitation", "Slope", "Aspect", "Biome"]

  /** Texts joined with commas. */
  function JoinFields(fields: seq<string>): string
  {
    if |fields| == 0 then ""
    else if |fields| == 1 then fields[0]
    else JoinFields(fields[..|fields| - 1]) + "," + fields[|fields| - 1]
  }

  /** The header line, "CellIndex,Latitude,...,Biome" and a newline. */
  const CsvHeader: string := JoinFields(HeaderFields) + "\n"

  /** `!Cell.Altitude == 0` compares the negated altitude, a `bool`, with 0: it holds
      exactly when the altitude is not zero. */
  predicate Logged(cell: Cell)
  {
    var negated: bool := cell.altitude == 0.0;
    (if negated then 1 else 0) == 0
  }

  lemma LoggedIff(cell: Cell)
    ensures Logged(cell) <==> cell.altitude != 0.0
  {
  }

  /** One row: the index, the seven numbers and the biome type, comma separated. */
  function Row(index: nat, cell: Cell, formatFloat: real -> string): (r: string)
    ensures |r| > |NatToString(index)| && r[..|NatToString(index)| + 1] == NatToString(index) + ","
    ensures r[|r| - 1] == '\n'
  {
    NatToString(index) + "," + formatFloat(cell.latitude) + "," + formatFloat(cell.longitude) + "," +
      formatFloat(cell.altitude) + "," + formatFloat(cell.temperature) + "," +
      formatFloat(cell.annualPrecipitation) + "," + formatFloat(cell.slope) + "," +
      formatFloat(cell.aspect) + "," + cell.biomeType + "\n"
  }

  /** The rows for the first `n` cells, in index order. */
  function Rows(cells: seq<Cell>, n: nat, formatFloat: real -> string): string
    requires n <= |cells|
  {
    RowsOf(cells, n, (index: nat, cell: Cell) => Row(index, cell, formatFloat))
  }

  /** The first `n` cells written with a given row format, skipping those not logged. */
  function RowsOf(cells: seq<Cell>, n: nat, row: (nat, Cell) -> string): string
    requires n <= |cells|
  {
    if n == 0 then ""
    else RowsOf(cells, n - 1, row) + (if Logged(cells[n - 1]) then row(n - 1, cells[n - 1]) else "")
  }

  /** The content: the header, then the rows. */
  function CsvContent(cells: seq<Cell>, formatFloat: real -> string): (r: string)
    ensures |r| >= |CsvHeader| && r[..|CsvHeader|] == CsvHeader
  {
    CsvHeader + Rows(cells, |cells|, formatFloat)
  }

  /** `LogBiomeDataToCSV` up to the file save: the content it builds. */
  method LogBiomeDataToCsv(heightmapData: seq<Cell>, formatFloat: real -> string) returns (fileContent: string)
    ensures fileContent == CsvContent(heightmapData, formatFloat)
  {
    fileContent := CsvHeader;
    var cellIndex := 0;
    while cellIndex < |heightmapData|
      invariant 0 <= cellIndex <= |heightmapData|
      invariant fileContent == CsvHeader + Rows(heightmapData, cellIndex, formatFloat)
    {
      var cell := heightmapData[cellIndex];
      if !(cell.altitude == 0.0) {
        AppendAssoc(CsvHeader, Rows(heightmapData, cellIndex, formatFloat), Row(cellIndex, cell, formatFloat));
        fileContent := fileContent + Row(cellIndex, cell, formatFloat);
      } else {
        assert Rows(heightmapData, cellIndex, formatFloat) + "" == Rows(heightmapData, cellIndex, formatFloat);
      }
      cellIndex := cellIndex + 1;
    }
  }

  lemma AppendAssoc(a: string, b: string, c: string)
    ensures (a + b) + c == a + (b + c)
  {
  }

  function Count(s: string, c: char): nat
  {
    if |s| == 0 then 0 else Count(s[..|s| - 1], c) + (if s[|s| - 1] == c then 1 else 0)
  }

  lemma {:induction false} CountAppend(a: string, b: string, c: char)
    ensures Count(a + b, c) == Count(a, c) + Count(b, c)
  {
    if |b| > 0 {
      CountAppend(a, b[..|b| - 1], c);
      assert (a + b)[..|a + b| - 1] == a + b[..|b| - 1];
    } else {
      assert a + b == a;
    }
  }

  lemma DigitsHaveNo(n: nat, c: char)
    requires c < '0' || c > '9'
    ensures Count(NatToString(n), c) == 0
  {
    var s := NatToString(n);
    assert forall i :: 0 <= i < |s| ==> s[i] != c;
    CountNone(s, c);
  }

  lemma {:induction false} CountNone(s: string, c: char)
    requires c !in s
    ensures Count(s, c) == 0
  {
    if |s| > 0 {
      assert forall x :: x in s[..|s| - 1] ==> x in s;
      CountNone(s[..|s| - 1], c);
    }
  }

  /** The text a cell contributes besides its separators: no such piece contains `c`. */
  predicate Clean(cell: Cell, formatFloat: real -> string, c: char)
  {
    Count(formatFloat(cell.latitude), c) == 0 && Count(formatFloat(cell.longitude), c) == 0 &&
    Count(formatFloat(cell.altitude), c) == 0 && Count(formatFloat(cell.temperature), c) == 0 &&
    Count(formatFloat(cell.annualPrecipitation), c) == 0 && Count(formatFloat(cell.slope), c) == 0 &&
    Count(formatFloat(cell.aspect), c) == 0 && Count(cell.biomeType, c) == 0
  }

  /** When the formatted numbers and the biome type contain no comma and no newline, a
      row has exactly 8 commas, so 9 fields, and exactly one newline, at its end. */
  lemma RowShape(index: nat, cell: Cell, formatFloat: real -> string)
    requires Clean(cell, formatFloat, ',') && Clean(cell, formatFloat, '\n')
    ensures Count(Row(index, cell, formatFloat), ',') == 8
    ensures Count(Row(index, cell, formatFloat), '\n') == 1
    ensures Row(index, cell, formatFloat)[|Row(index, cell, formatFloat)| - 1] == '\n'
  {
    RowCount(index, cell, formatFloat, ',');
    RowCount(index, cell, formatFloat, '\n');
  }

  lemma RowCount(index: nat, cell: Cell, formatFloat: real -> string, c: char)
    requires c == ',' || c == '\n'
    requires Clean(cell, formatFloat, c)
    ensures Count(Row(index, cell, formatFloat), c) == if c == ',' then 8 else 1
  {
    var d := NatToString(index);
    var sep := ",";
    var f1, f2, f3, f4 := formatFloat(cell.latitude), formatFloat(cell.longitude), formatFloat(cell.altitude), formatFloat(cell.temperature);
    var f5, f6, f7 := formatFloat(cell.annualPrecipitation), formatFloat(cell.slope), formatFloat(cell.aspect);
    var b := cell.biomeType;
    DigitsHaveNo(index, c);
    assert Count(sep, c) == (if c == ',' then 1 else 0) by { assert sep[..0] == ""; }
    assert Count("\n", c) == (if c == '\n' then 1 else 0) by { assert "\n"[..0] == ""; }
    CountAppend(d, sep, c);
    CountAppend(d + sep, f1, c);
    CountAppend(d + sep + f1, sep, c);
    CountAppend(d + sep + f1 + sep, f2, c);
    CountAppend(d + sep + f1 + sep + f2, sep, c);
    CountAppend(d + sep + f1 + sep + f2 + sep, f3, c);
    CountAppend(d + sep + f1 + sep + f2 + sep + f3, sep, c);
    CountAppend(d + sep + f1 + sep + f2 + sep + f3 + sep, f4, c);
    CountAppend(d + sep + f1 + sep + f2 + sep + f3 + sep + f4, sep, c);
    CountAppend(d + sep + f1 + sep + f2 + sep + f3 + sep + f4 + sep, f5, c);
    CountAppend(d + sep + f1 + sep + f2 + sep + f3 + sep + f4 + sep + f5, sep, c);
    CountAppend(d + sep + f1 + sep + f2 + sep + f3 + sep + f4 + sep + f5 + sep, f6, c);
    CountAppend(d + sep + f1 + sep + f2 + sep + f3 + sep + f4 + sep + f5 + sep + f6, sep, c);
    CountAppend(d + sep + f1 + sep + f2 + sep + f3 + sep + f4 + sep + f5 + sep + f6 + sep, f7, c);
    CountAppend(d + sep + f1 + sep + f2 + sep + f3 + sep + f4 + sep + f5 + sep + f6 + sep + f7, sep, c);
    CountAppend(d + sep + f1 + sep + f2 + sep + f3 + sep + f4 + sep + f5 + sep + f6 + sep + f7 + sep, b, c);
    CountAppend(d + sep + f1 + sep + f2 + sep + f3 + sep + f4 + sep + f5 + sep + f6 + sep + f7 + sep + b, "\n", c);
  }

  function LoggedCount(cells: seq<Cell>, n: nat): nat
    requires n <= |cells|
  {
    if n == 0 then 0 else LoggedCount(cells, n - 1) + (if Logged(cells[n - 1]) then 1 else 0)
  }

  /** With newline-free formatting and biome types, the content has one line for the
      header and one for each cell of nonzero altitude. */
  lemma LineCount(cells: seq<Cell>, n: nat, formatFloat: real -> string)
    requires n <= |cells|
    requires forall i :: 0 <= i < |cells| ==> Clean(cells[i], formatFloat, '\n')
    ensures Count(CsvHeader + Rows(cells, n, formatFloat), '\n') == 1 + LoggedCount(cells, n)
  {
    HeaderShape();
    RowLines(cells, n, formatFloat);
    CountAppend(CsvHeader, Rows(cells, n, formatFloat), '\n');
  }

  /** The rows hold one newline per logged cell. */
  lemma RowLines(cells: seq<Cell>, n: nat, formatFloat: real -> string)
    requires n <= |cells|
    requires forall i :: 0 <= i < |cells| ==> Clean(cells[i], formatFloat, '\n')
    ensures Count(Rows(cells, n, formatFloat), '\n') == LoggedCount(cells, n)
  {
    var row := (index: nat, cell: Cell) => Row(index, cell, formatFloat);
    forall i | 0 <= i < n
      ensures Count(row(i, cells[i]), '\n') == 1
    {
      RowCount(i, cells[i], formatFloat, '\n');
    }
    RowsOfLines(cells, n, row);
  }

  /** Rows of one line each: one newline per logged cell. */
  lemma {:induction false} RowsOfLines(cells: seq<Cell>, n: nat, row: (nat, Cell) -> string)
    requires n <= |cells|
    requires forall i :: 0 <= i < n ==> Count(row(i, cells[i]), '\n') == 1
    ensures Count(RowsOf(cells, n, row), '\n') == LoggedCount(cells, n)
  {
    if n > 0 {
      RowsOfLines(cells, n - 1, row);
      var init := RowsOf(cells, n - 1, row);
      var last := if Logged(cells[n - 1]) then row(n - 1, cells[n - 1]) else "";
      assert RowsOf(cells, n, row) == init + last;
      CountAppend(init, last, '\n');
    }
  }

  /** A comma-join of texts free of `c` contains `c` only as its separators. */
  lemma {:induction false} JoinCount(fields: seq<string>, c: char)
    requires |fields| > 0
    requires forall k :: 0 <= k < |fields| ==> c !in fields[k]
    ensures Count(JoinFields(fields), c) == if c == ',' then |fields| - 1 else 0
  {
    if |fields| == 1 {
      CountNone(fields[0], c);
    } else {
      var init := fields[..|fields| - 1];
      JoinCount(init, c);
      var last := fields[|fields| - 1];
      CountNone(last, c);
      assert Count(",", c) == (if c == ',' then 1 else 0) by { assert ","[..0] == ""; }
      CountAppend(JoinFields(init), ",", c);
      CountAppend(JoinFields(init) + ",", last, c);
    }
  }

  /** The header is one line of nine comma-separated names. */
  lemma HeaderShape()
    ensures Count(CsvHeader, '\n') == 1 && Count(CsvHeader, ',') == 8
  {
    assert forall k :: 0 <= k < |HeaderFields| ==> '\n' !in HeaderFields[k] && ',' !in HeaderFields[k];
    JoinCount(HeaderFields, '\n');
    JoinCount(HeaderFields, ',');
    assert Count("\n", '\n') == 1 && Count("\n", ',') == 0 by { assert "\n"[..0] == ""; }
    CountAppend(JoinFields(HeaderFields), "\n", '\n');
    CountAppend(JoinFields(HeaderFields), "\n", ',');
  }

  /** The content always starts with the header line. */
  lemma StartsWithHeader(cells: seq<Cell>, formatFloat: real -> string)
    ensures |CsvContent(cells, formatFloat)| >= |CsvHeader|
    ensures CsvContent(cells, formatFloat)[..|CsvHeader|] == CsvHeader
  {
  }
}
