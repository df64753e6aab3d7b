/**
 * The worksheet the cursor writes through to, abstracted as a map from
 * (column number, row) to a cell record, plus the list of merge ranges it
 * has been sent.
 */
module Sheet {

  /** A cell's value; the original stores arbitrary script values. */
  datatype CellValue = Empty | Text(text: string) | Number(number: int)

  /**
   * A style value: an opaque bag of properties (a font, a fill, ...), or
   * the four-edge border record the box helper writes.
   */
  datatype StyleValue =
    | Properties(properties: map<string, string>)
    | Edges(top: string, left: string, bottom: string, right: string)

  /** A cell record: its value and its style properties by name. */
  datatype Cell = Cell(value: CellValue, styles: map<string, StyleValue>)

  /** The address of a cell: its column number and its row. */
  type Key = (int, int)

  /** What the worksheet hands out for a cell that was never written. */
  const Blank: Cell := Cell(Empty, map[])

  function Get(cells: map<Key, Cell>, k: Key): Cell {
    if k in cells then cells[k] else Blank
  }

  /** The cell with the properties of `format` written over its own. */
  function Styled(c: Cell, format: map<string, StyleValue>): Cell {
    Cell(c.value, c.styles + format)
  }

  /** One formatted write: the effective format applied to the cell, then its value set. */
  function Write(cells: map<Key, Cell>, k: Key, v: CellValue, format: map<string, StyleValue>): map<Key, Cell> {
    cells[k := Cell(v, Get(cells, k).styles + format)]
  }

  /** A run of formatted writes, values[i] to keys[i], in index order. */
  function FillCells(cells: map<Key, Cell>, keys: seq<Key>, values: seq<CellValue>, format: map<string, StyleValue>): map<Key, Cell>
    requires |keys| == |values|
    decreases |keys|
  {
    if keys == [] then cells
    else
      var n := |keys| - 1;
      Write(FillCells(cells, keys[..n], values[..n], format), keys[n], values[n], format)
  }

  /** Extending a run of writes by its next write. */
  lemma FillCellsSnoc(cells: map<Key, Cell>, keys: seq<Key>, values: seq<CellValue>, format: map<string, StyleValue>, i: nat)
    requires |keys| == |values| && i < |keys|
    ensures FillCells(cells, keys[..i + 1], values[..i + 1], format)
            == Write(FillCells(cells, keys[..i], values[..i], format), keys[i], values[i], format)
  {
    assert keys[..i + 1][..i] == keys[..i];
    assert values[..i + 1][..i] == values[..i];
  }

  predicate Distinct(keys: seq<Key>) {
    forall a, b :: 0 <= a < b < |keys| ==> keys[a] != keys[b]
  }

  /** A run of writes leaves every cell it does not address as it was. */
  lemma {:induction false} FillCellsOutside(cells: map<Key, Cell>, keys: seq<Key>, values: seq<CellValue>, format: map<string, StyleValue>, k: Key)
    requires |keys| == |values|
    requires k !in keys
    ensures k in FillCells(cells, keys, values, format) <==> k in cells
    ensures Get(FillCells(cells, keys, values, format), k) == Get(cells, k)
    decreases |keys|
  {
    if keys != [] {
      var n := |keys| - 1;
      FillCellsOutside(cells, keys[..n], values[..n], format, k);
    }
  }

  /** With distinct addresses, every addressed cell ends up with its value and the format. */
  lemma {:induction false} FillCellsAt(cells: map<Key, Cell>, keys: seq<Key>, values: seq<CellValue>, format: map<string, StyleValue>, i: nat)
    requires |keys| == |values| && Distinct(keys) && i < |keys|
    ensures keys[i] in FillCells(cells, keys, values, format)
    ensures FillCells(cells, keys, values, format)[keys[i]] == Cell(values[i], Get(cells, keys[i]).styles + format)
    decreases |keys|
  {
    var n := |keys| - 1;
    if i < n {
      FillCellsAt(cells, keys[..n], values[..n], format, i);
    } else {
      assert keys[n] !in keys[..n];
      FillCellsOutside(cells, keys[..n], values[..n], format, keys[n]);
    }
  }

  /** The grid backend: cells by address and the merge ranges requested so far. */
  class Worksheet {
    var cells: map<Key, Cell>
    var merges: seq<string>

    constructor ()
      ensures cells == map[] && merges == []
    {
      cells := map[];
      merges := [];
    }

    /** Set one style property of the cell at `k`. */
    method SetStyle(k: Key, name: string, style: StyleValue)
      modifies this
      ensures cells == old(cells)[k := Cell(Get(old(cells), k).value, Get(old(cells), k).styles[name := style])]
      ensures merges == old(merges)
    {
      var c := Get(cells, k);
      cells := cells[k := Cell(c.value, c.styles[name := style])];
    }

    /** Set the value of the cell at `k`. */
    method SetValue(k: Key, v: CellValue)
      modifies this
      ensures cells == old(cells)[k := Cell(v, Get(old(cells), k).styles)]
      ensures merges == old(merges)
    {
      cells := cells[k := Cell(v, Get(cells, k).styles)];
    }

    /** Record a merge of the range "<address>:<address>". */
    method MergeCells(range: string)
      modifies this
      ensures merges == old(merges) + [range]
      ensures cells == old(cells)
    {
      merges := merges + [range];
    }
  }
}
