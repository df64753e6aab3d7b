/**
 * Worked examples of the cursor on a fresh worksheet, each stated as the
 * addresses and cells it ends with.
 */
module Scenarios {
  import opened Results
  import opened ColumnCodec
  import opened Addresses
  import opened Sheet
  import opened Cursor

  /** The numbers of the first five column names. */
  lemma FirstColumns()
    ensures ColumnToNumber("A") == 1 && ColumnToNumber("B") == 2 && ColumnToNumber("C") == 3
    ensures ColumnToNumber("D") == 4 && ColumnToNumber("E") == 5
  {
  }

  /** A cursor built at C3 reports the address "C3". */
  method ConstructAtC3() returns (address: string)
    ensures address == "C3"
  {
    var ws := new Worksheet();
    var cursor := new SpreadsheetCell("C", 3, ws);
    address := cursor.CellAddress();
  }

  /** Two columns on from C3 is E3; one row on from there is C4, back at the anchor. */
  method NextColumnsThenNextRow() returns (afterColumns: string, afterRow: string)
    ensures afterColumns == "E3" && afterRow == "C4"
  {
    var ws := new Worksheet();
    var cursor := new SpreadsheetCell("C", 3, ws);
    FirstColumns();
    cursor.MoveToNextColumn(2);
    ColumnToNumberInjective(cursor.column, "E");
    afterColumns := cursor.CellAddress();
    cursor.MoveToNextRow(1);
    afterRow := cursor.CellAddress();
  }

  /**
   * Two columns back from E3 is C3. The generator restarts at C without a
   * draw, so the next column move draws C again and the cursor stays at C3.
   */
  method PreviousThenNextColumn() returns (afterPrevious: string, afterNext: string)
    ensures afterPrevious == "C3" && afterNext == "C3"
  {
    var ws := new Worksheet();
    var cursor := new SpreadsheetCell("E", 3, ws);
    FirstColumns();
    var r := cursor.MoveToPreviousColumn(2);
    ColumnToNumberInjective(cursor.column, "C");
    afterPrevious := cursor.CellAddress();
    cursor.MoveToNextColumn(1);
    ColumnToNumberInjective(cursor.column, "C");
    afterNext := cursor.CellAddress();
  }

  /** From A1 neither a previous row nor a previous column exists, and the cursor stays at A1. */
  method NothingBeforeA1() returns (rowMove: Outcome<Error>, columnMove: Outcome<Error>, address: string)
    ensures rowMove == Fail(RowBelowOne) && columnMove == Fail(NoColumnBeforeA) && address == "A1"
  {
    var ws := new Worksheet();
    var cursor := new SpreadsheetCell("A", 1, ws);
    FirstColumns();
    rowMove := cursor.MoveToPreviousRow(1);
    columnMove := cursor.MoveToPreviousColumn(1);
    address := cursor.CellAddress();
  }

  /** Filling 10, 20, 30 from A1 writes A1, B1 and C1 and leaves the cursor at D1. */
  method FillRowFromA1() returns (cells: map<Key, Cell>, address: string)
    ensures Get(cells, (1, 1)).value == Number(10)
    ensures Get(cells, (2, 1)).value == Number(20)
    ensures Get(cells, (3, 1)).value == Number(30)
    ensures address == "D1"
  {
    var ws := new Worksheet();
    var cursor := new SpreadsheetCell("A", 1, ws);
    FirstColumns();
    var values := [Number(10), Number(20), Number(30)];
    cursor.FillRow(Sequence(values), map[], []);
    RowFillInSync(map[], 1, 1, values, map[]);
    assert values[0] == Number(10) && values[1] == Number(20) && values[2] == Number(30);
    cells := ws.cells;
    ColumnToNumberInjective(cursor.column, "D");
    address := cursor.CellAddress();
  }

  /** The example table, as the ordered rows a table fill writes. */
  function ExampleTable(): seq<RowValues> {
    [Sequence([Number(1), Number(2)]), Sequence([Number(3), Number(4)])]
  }

  /** The rows of the example table keep their values and order. */
  lemma ExampleTableRows()
    ensures NormalizeAll(ExampleTable(), []) == [[Number(1), Number(2)], [Number(3), Number(4)]]
  {
    assert ExampleTable()[1..] == [Sequence([Number(3), Number(4)])];
    assert ExampleTable()[1..][1..] == [];
  }

  /** The example table filled in step from A1 holds 1, 2 in A1, B1 and 3, 4 in A2, B2. */
  lemma ExampleTableCells()
    ensures var cells := TableCells(map[], 1, 2, 1, 1, NormalizeAll(ExampleTable(), []), map[]);
            Get(cells, (1, 1)).value == Number(1) && Get(cells, (2, 1)).value == Number(2) &&
            Get(cells, (1, 2)).value == Number(3) && Get(cells, (2, 2)).value == Number(4)
  {
    var rows := NormalizeAll(ExampleTable(), []);
    ExampleTableRows();
    TableFillAt(map[], 1, 1, 1, rows, map[], 0, 0);
    TableFillAt(map[], 1, 1, 1, rows, map[], 0, 1);
    TableFillAt(map[], 1, 1, 1, rows, map[], 1, 0);
    TableFillAt(map[], 1, 1, 1, rows, map[], 1, 1);
  }

  /** Filling the table [[1, 2], [3, 4]] from A1 writes 1, 2 to A1, B1 and 3, 4 to A2, B2, and ends at A3. */
  method FillTableFromA1() returns (cells: map<Key, Cell>, address: string)
    ensures Get(cells, (1, 1)).value == Number(1) && Get(cells, (2, 1)).value == Number(2)
    ensures Get(cells, (1, 2)).value == Number(3) && Get(cells, (2, 2)).value == Number(4)
    ensures address == "A3"
  {
    var ws := new Worksheet();
    var cursor := new SpreadsheetCell("A", 1, ws);
    FirstColumns();
    assert Merge(map[], map[]) == map[];
    cursor.FillTable(ExampleTable(), map[], []);
    ExampleTableCells();
    cells := ws.cells;
    address := cursor.CellAddress();
  }

  /**
   * Filling x, y down from E3, two columns right of the anchor C: x goes to
   * E3, the row move returns to the anchor, so y goes to C4.
   */
  method FillColumnsOffAnchor(x: CellValue, y: CellValue) returns (cells: map<Key, Cell>, address: string)
    ensures Get(cells, (5, 3)).value == x && Get(cells, (3, 4)).value == y
    ensures address == "C5"
  {
    var ws := new Worksheet();
    var cursor := new SpreadsheetCell("C", 3, ws);
    FirstColumns();
    cursor.MoveToNextColumn(2);
    cursor.FillColumns([x, y], map[]);
    assert Merge(map[], map[]) == map[];
    ColumnFill(map[], 5, 3, 3, [x, y], map[]);
    cells := ws.cells;
    address := cursor.CellAddress();
  }

  /** Assigning an address without digits keeps the row: from B2, "D" gives D2. */
  method AddressWithoutRow() returns (address: string)
    ensures address == "D2"
  {
    var ws := new Worksheet();
    var cursor := new SpreadsheetCell("B", 2, ws);
    ParseLettersDigits("D", "");
    assert "D" + "" == "D";
    var r := cursor.SetCellAddress("D");
    address := cursor.CellAddress();
  }

  /** Leading zeros in an assigned address do not count: from B2, "C03" gives C3. */
  method AddressWithLeadingZero() returns (address: string)
    ensures address == "C3"
  {
    var ws := new Worksheet();
    var cursor := new SpreadsheetCell("B", 2, ws);
    ParseLettersDigits("C", "03");
    assert "C" + "03" == "C03";
    assert "03"[..1] == "0";
    assert DecimalValue("03") == 3;
    var r := cursor.SetCellAddress("C03");
    address := cursor.CellAddress();
  }

  /** The overlay wins over a call's format on a shared property: bold stays bold under italic. */
  method OverlayWins(bold: StyleValue, italic: StyleValue) returns (font: Option<StyleValue>)
    ensures font == Some(bold)
  {
    var ws := new Worksheet();
    var cursor := new SpreadsheetCell("B", 2, ws);
    cursor.AddFormatting(map["font" := bold]);
    cursor.ApplyFormatting(map["font" := italic]);
    var styles := Get(ws.cells, cursor.CurrentKey()).styles;
    font := if "font" in styles then Some(styles["font"]) else None;
  }
}
