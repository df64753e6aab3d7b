/**
 * The box helper: every cell of an inclusive rectangle gets a border whose
 * four edges take the outer style on the rectangle's boundary and the inner
 * style inside it.
 */
module Borders {
  import opened ColumnCodec
  import opened Sheet

  /** The style name the box writes its edge record under. */
  const BorderStyleName: string := "border"

  /** The four edges the box gives the cell in column `col` of row `row`. */
  function BoxEdges(col: int, row: int, startColumn: int, startRow: int, endColumn: int, endRow: int,
                    outer: string, inner: string): (e: StyleValue)
    ensures e.Edges?
    // an edge on the side of the boundary the cell lies on takes the outer style
    ensures row == startRow ==> e.top == outer
    ensures col == startColumn ==> e.left == outer
    ensures row == endRow ==> e.bottom == outer
    ensures col == endColumn ==> e.right == outer
    // every other edge takes the inner style, so with two distinct styles the
    // outer one marks exactly the boundary edges
    ensures row != startRow ==> e.top == inner
    ensures col != startColumn ==> e.left == inner
    ensures row != endRow ==> e.bottom == inner
    ensures col != endColumn ==> e.right == inner
  {
    Edges(if row == startRow then outer else inner,
          if col == startColumn then outer else inner,
          if row == endRow then outer else inner,
          if col == endColumn then outer else inner)
  }

  /** The cell lies in the inclusive rectangle of columns sc..ec and rows sr..er. */
  predicate InBox(k: Key, sc: int, sr: int, ec: int, er: int) {
    sr <= k.1 <= er && sc <= k.0 <= ec
  }

  /** A cell with its border replaced by `edges`; its value and other styles stay. */
  function Boxed(c: Cell, edges: StyleValue): (b: Cell)
    ensures b.value == c.value && b.styles.Keys == c.styles.Keys + {BorderStyleName}
    ensures b.styles[BorderStyleName] == edges
    ensures forall name :: name in c.styles && name != BorderStyleName ==> b.styles[name] == c.styles[name]
  {
    Cell(c.value, c.styles[BorderStyleName := edges])
  }

  /** The rectangle of a box by column numbers and rows, with its two styles. */
  datatype Box = Box(startColumn: int, startRow: int, endColumn: int, endRow: int, outer: string, inner: string)

  /** The cell lies in the inclusive rectangle of the box. */
  predicate Inside(box: Box, k: Key) {
    InBox(k, box.startColumn, box.startRow, box.endColumn, box.endRow)
  }

  /** What the box does to the cell at `k` of the worksheet `before`. */
  function BoxedAt(box: Box, before: map<Key, Cell>, k: Key): Cell {
    Boxed(Get(before, k), BoxEdges(k.0, k.1, box.startColumn, box.startRow, box.endColumn, box.endRow, box.outer, box.inner))
  }

  /** The cell lies before (col, row) in the box's row-by-row, left-to-right order. */
  predicate Written(k: Key, row: int, col: int) {
    k.1 < row || (k.1 == row && k.0 < col)
  }

  /**
   * The worksheet `cells` is `before` with the box's cells up to (col, row)
   * bordered and every other cell as it was.
   */
  ghost predicate BoxedUpTo(box: Box, before: map<Key, Cell>, cells: map<Key, Cell>, row: int, col: int) {
    (forall k :: Inside(box, k) && Written(k, row, col) ==> k in cells && cells[k] == BoxedAt(box, before, k)) &&
    (forall k :: !(Inside(box, k) && Written(k, row, col)) ==>
       (k in cells <==> k in before) && Get(cells, k) == Get(before, k))
  }

  /** Bordering the cell at (col, row) of the box extends the bordered part by one cell. */
  lemma BoxedStep(box: Box, before: map<Key, Cell>, cells: map<Key, Cell>, row: int, col: int)
    requires BoxedUpTo(box, before, cells, row, col)
    requires Inside(box, (col, row))
    ensures var k := (col, row);
            var c := Get(cells, k);
            var edges := BoxEdges(col, row, box.startColumn, box.startRow, box.endColumn, box.endRow, box.outer, box.inner);
            BoxedUpTo(box, before, cells[k := Cell(c.value, c.styles[BorderStyleName := edges])], row, col + 1)
  {
    var here := (col, row);
    var c := Get(cells, here);
    var edges := BoxEdges(col, row, box.startColumn, box.startRow, box.endColumn, box.endRow, box.outer, box.inner);
    var next := cells[here := Cell(c.value, c.styles[BorderStyleName := edges])];
    assert !Written(here, row, col);
    assert c == Get(before, here);
    forall k | Inside(box, k) && Written(k, row, col + 1)
      ensures k in next && next[k] == BoxedAt(box, before, k)
    {
      if k != here {
        assert Written(k, row, col);
      }
    }
    forall k | !(Inside(box, k) && Written(k, row, col + 1))
      ensures (k in next <==> k in before) && Get(next, k) == Get(before, k)
    {
      assert k != here;
      assert !(Inside(box, k) && Written(k, row, col));
    }
  }

  /** Past the last column, the bordered part of a row is the whole row. */
  lemma BoxedRowDone(box: Box, before: map<Key, Cell>, cells: map<Key, Cell>, row: int, col: int)
    requires BoxedUpTo(box, before, cells, row, col)
    requires col > box.endColumn
    ensures BoxedUpTo(box, before, cells, row + 1, box.startColumn)
  {
  }

  /**
   * Border the rectangle from (startColumn, startRow) to (endColumn, endRow),
   * row by row and left to right. A rectangle whose start lies past its end
   * in either direction is empty and nothing changes.
   */
  method BorderBox(worksheet: Worksheet, startColumn: string, startRow: int, endColumn: string, endRow: int,
                   borderStyle: string, innerBorderStyle: string)
    requires AllLetters(startColumn) && AllLetters(endColumn)
    modifies worksheet
    ensures var box := Box(ColumnToNumber(startColumn), startRow, ColumnToNumber(endColumn), endRow,
                           borderStyle, innerBorderStyle);
            forall k :: Inside(box, k) ==>
              k in worksheet.cells && worksheet.cells[k] == BoxedAt(box, old(worksheet.cells), k)
    ensures var box := Box(ColumnToNumber(startColumn), startRow, ColumnToNumber(endColumn), endRow,
                           borderStyle, innerBorderStyle);
            forall k :: !Inside(box, k) ==>
              (k in worksheet.cells <==> k in old(worksheet.cells)) && Get(worksheet.cells, k) == Get(old(worksheet.cells), k)
    ensures worksheet.merges == old(worksheet.merges)
  {
    var startNumber := ColumnToNumber(startColumn);
    var endNumber := ColumnToNumber(endColumn);
    ghost var box := Box(startNumber, startRow, endNumber, endRow, borderStyle, innerBorderStyle);
    var row := startRow;
    while row <= endRow
      invariant startRow <= row
      invariant BoxedUpTo(box, old(worksheet.cells), worksheet.cells, row, startNumber)
      invariant worksheet.merges == old(worksheet.merges)
    {
      var col := startNumber;
      while col <= endNumber
        invariant startNumber <= col
        invariant BoxedUpTo(box, old(worksheet.cells), worksheet.cells, row, col)
        invariant worksheet.merges == old(worksheet.merges)
      {
        var cellRef := NumberToColumn(col);
        AddressedColumn(col);
        var key := (ColumnToNumber(cellRef), row);
        var edges := BoxEdges(col, row, startNumber, startRow, endNumber, endRow, borderStyle, innerBorderStyle);
        BoxedStep(box, old(worksheet.cells), worksheet.cells, row, col);
        worksheet.SetStyle(key, BorderStyleName, edges);
        col := col + 1;
      }
      BoxedRowDone(box, old(worksheet.cells), worksheet.cells, row, col);
      row := row + 1;
    }
    BoxedFinished(box, old(worksheet.cells), worksheet.cells, row);
  }

  /** Below the last row, the bordered part is the whole box. */
  lemma BoxedFinished(box: Box, before: map<Key, Cell>, cells: map<Key, Cell>, row: int)
    requires BoxedUpTo(box, before, cells, row, box.startColumn)
    requires row > box.endRow
    ensures forall k :: Inside(box, k) ==> k in cells && cells[k] == BoxedAt(box, before, k)
    ensures forall k :: !Inside(box, k) ==> (k in cells <==> k in before) && Get(cells, k) == Get(before, k)
  {
  }

  /** The address built from a column number names that column again (0 for the empty name). */
  lemma AddressedColumn(col: int)
    requires col >= 0
    ensures ColumnToNumber(NumberToColumn(col)) == col
  {
    if col >= 1 {
      NumberToColumnInverse(col);
    }
  }

  /**
   * In a 2 x 2 box every cell has the outer style on its two outward-facing
   * edges and the inner style on the two edges it shares with its neighbours.
   */
  lemma TwoByTwoBox(sc: int, sr: int, outer: string, inner: string)
    ensures BoxEdges(sc, sr, sc, sr, sc + 1, sr + 1, outer, inner) == Edges(outer, outer, inner, inner)
    ensures BoxEdges(sc + 1, sr, sc, sr, sc + 1, sr + 1, outer, inner) == Edges(outer, inner, inner, outer)
    ensures BoxEdges(sc, sr + 1, sc, sr, sc + 1, sr + 1, outer, inner) == Edges(inner, outer, outer, inner)
    ensures BoxEdges(sc + 1, sr + 1, sc, sr, sc + 1, sr + 1, outer, inner) == Edges(inner, inner, outer, outer)
  {
  }

  /** A single-cell box is bordered with the outer style on all four edges. */
  lemma SingleCellBox(col: int, row: int, outer: string, inner: string)
    ensures BoxEdges(col, row, col, row, col, row, outer, inner) == Edges(outer, outer, outer, outer)
  {
  }
}
