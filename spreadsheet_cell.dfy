/**
 * The cursor over a worksheet: a current position, an anchor column that
 * row moves return to, a column generator that column moves draw from, and
 * a formatting overlay merged into every formatted write.
 */
module Cursor {
  import opened Results
  import opened ColumnCodec
  import opened ColumnSequence
  import opened Addresses
  import opened Sheet

  /** The failures the cursor throws. */
  datatype Error =
    | InvalidColumnFormat   // a column that is not one or more letters A..Z
    | RowMustBePositive     // a row below 1 given to the constructor
    | MissingWorksheet      // no worksheet given to the constructor
    | NoColumnBeforeA       // a previous-column move past column A
    | RowBelowOne           // a row move or row assignment below 1
    | InvalidAddress        // an address that is not letters followed by digits

  /** Style properties by name. */
  type Format = map<string, StyleValue>

  /** Right-biased merge of two formats: on a shared key the right one wins. */
  function Merge(left: Format, right: Format): (m: Format)
    ensures m.Keys == left.Keys + right.Keys
    ensures forall k :: k in right ==> m[k] == right[k]
    ensures forall k :: k in left && k !in right ==> m[k] == left[k]
  {
    left + right
  }

  /** The values of one row: an ordered sequence, or the entries of a keyed record in order. */
  datatype RowValues =
    | Sequence(values: seq<CellValue>)
    | Mapping(entries: seq<(string, CellValue)>)

  /** The values of the entries whose keys are not excluded, in entry order. */
  function KeptValues(entries: seq<(string, CellValue)>, exclude: seq<string>): (vs: seq<CellValue>)
    ensures |vs| <= |entries|
    ensures forall v :: v in vs <==> exists i :: 0 <= i < |entries| && entries[i].0 !in exclude && entries[i].1 == v
    ensures (forall i :: 0 <= i < |entries| ==> entries[i].0 !in exclude) ==>
              |vs| == |entries| && forall i :: 0 <= i < |entries| ==> vs[i] == entries[i].1
    decreases |entries|
  {
    if entries == [] then []
    else
      var rest := KeptValues(entries[1..], exclude);
      assert forall v :: v in rest <==> exists i :: 1 <= i < |entries| && entries[i].0 !in exclude && entries[i].1 == v by {
        forall v | v in rest ensures exists i :: 1 <= i < |entries| && entries[i].0 !in exclude && entries[i].1 == v {
          var i :| 0 <= i < |entries[1..]| && entries[1..][i].0 !in exclude && entries[1..][i].1 == v;
          assert entries[i + 1] == entries[1..][i];
        }
        forall v | exists i :: 1 <= i < |entries| && entries[i].0 !in exclude && entries[i].1 == v ensures v in rest {
          var i :| 1 <= i < |entries| && entries[i].0 !in exclude && entries[i].1 == v;
          assert entries[1..][i - 1] == entries[i];
        }
      }
      (if entries[0].0 in exclude then [] else [entries[0].1]) + rest
  }

  /** Filtering one entry keeps its value exactly when its key is not excluded. */
  lemma KeptValuesOne(e: (string, CellValue), exclude: seq<string>)
    ensures KeptValues([e], exclude) == if e.0 in exclude then [] else [e.1]
  {
    assert [e][1..] == [];
  }

  /**
   * Filtering keeps entry order: the kept values of a concatenation are the
   * kept values of its first part followed by those of its second.
   */
  lemma {:induction false} KeptValuesAppend(a: seq<(string, CellValue)>, b: seq<(string, CellValue)>, exclude: seq<string>)
    ensures KeptValues(a + b, exclude) == KeptValues(a, exclude) + KeptValues(b, exclude)
    decreases |a|
  {
    if a == [] {
      assert a + b == b;
    } else {
      assert (a + b)[0] == a[0];
      assert (a + b)[1..] == a[1..] + b;
      KeptValuesAppend(a[1..], b, exclude);
    }
  }

  /**
   * A row's values as an ordered sequence: an ordered row is taken as it is,
   * a keyed record loses its excluded keys first and keeps entry order.
   */
  function Normalize(row: RowValues, exclude: seq<string>): (vs: seq<CellValue>)
    ensures row.Sequence? ==> vs == row.values
    ensures row.Mapping? ==> |vs| <= |row.entries|
    ensures row.Mapping? && (forall i :: 0 <= i < |row.entries| ==> row.entries[i].0 !in exclude) ==>
              |vs| == |row.entries| && forall i :: 0 <= i < |row.entries| ==> vs[i] == row.entries[i].1
  {
    match row
    case Sequence(values) => values
    case Mapping(entries) => KeptValues(entries, exclude)
  }

  /** Every row of a table as an ordered sequence, row by row. */
  function NormalizeAll(data: seq<RowValues>, exclude: seq<string>): (rows: seq<seq<CellValue>>)
    ensures |rows| == |data|
    ensures forall j :: 0 <= j < |data| ==> rows[j] == Normalize(data[j], exclude)
  {
    if data == [] then [] else [Normalize(data[0], exclude)] + NormalizeAll(data[1..], exclude)
  }

  /**
   * The cells a row fill writes: the first value goes to the current column,
   * each later one to the column the generator yields, which starts at `start`.
   */
  function RowKeys(first: int, start: int, row: int, n: nat): (keys: seq<Key>) {
    seq(n, i => if i == 0 then (first, row) else (start + i - 1, row))
  }

  /** The cells a column fill writes: the current cell, then the anchor column of each later row. */
  function ColumnKeys(first: int, anchor: int, row: int, n: nat): (keys: seq<Key>) {
    seq(n, i => if i == 0 then (first, row) else (anchor, row + i))
  }

  /**
   * The cells after a table fill: row j of the data is filled on row
   * `row + j`; the first row from the current column and generator, every
   * later one from the anchor column with the generator in step.
   */
  function TableCells(cells: map<Key, Cell>, first: int, start: int, anchor: int, row: int,
                      rows: seq<seq<CellValue>>, format: Format): map<Key, Cell>
    decreases |rows|
  {
    if rows == [] then cells
    else
      var n := |rows| - 1;
      var keys := if n == 0 then RowKeys(first, start, row, |rows[n]|)
                  else RowKeys(anchor, anchor + 1, row + n, |rows[n]|);
      FillCells(TableCells(cells, first, start, anchor, row, rows[..n], format), keys, rows[n], format)
  }

  /** In step, a row fill writes the cell in column c + i of its row with the i-th value and the format. */
  lemma RowFillInSyncAt(cells: map<Key, Cell>, c: int, row: int, values: seq<CellValue>, format: Format, k: Key)
    requires k.1 == row && c <= k.0 < c + |values|
    ensures Get(FillCells(cells, RowKeys(c, c + 1, row, |values|), values, format), k)
            == Cell(values[k.0 - c], Get(cells, k).styles + format)
  {
    var i := k.0 - c;
    RowKeysInSync(c, row, |values|, i);
    assert RowKeys(c, c + 1, row, |values|)[i] == k;
    RowKeysInSyncDistinct(c, row, |values|);
    FillCellsAt(cells, RowKeys(c, c + 1, row, |values|), values, format, i);
  }

  /** In step, a row fill leaves every cell off its n columns from c as it was. */
  lemma RowFillInSyncOutside(cells: map<Key, Cell>, c: int, row: int, values: seq<CellValue>, format: Format, k: Key)
    requires !(k.1 == row && c <= k.0 < c + |values|)
    ensures Get(FillCells(cells, RowKeys(c, c + 1, row, |values|), values, format), k) == Get(cells, k)
  {
    RowKeysInSyncOutside(c, row, |values|, k);
    FillCellsOutside(cells, RowKeys(c, c + 1, row, |values|), values, format, k);
  }

  /**
   * A row fill from a cursor whose generator is in step writes values[i] to
   * column first + i of the row, with the format, and touches nothing else.
   */
  lemma RowFillInSync(cells: map<Key, Cell>, first: int, row: int, values: seq<CellValue>, format: Format)
    ensures forall i :: 0 <= i < |values| ==>
              Get(FillCells(cells, RowKeys(first, first + 1, row, |values|), values, format), (first + i, row))
              == Cell(values[i], Get(cells, (first + i, row)).styles + format)
    ensures forall k: Key :: !(k.1 == row && first <= k.0 < first + |values|) ==>
              Get(FillCells(cells, RowKeys(first, first + 1, row, |values|), values, format), k) == Get(cells, k)
  {
    forall i | 0 <= i < |values|
      ensures Get(FillCells(cells, RowKeys(first, first + 1, row, |values|), values, format), (first + i, row))
              == Cell(values[i], Get(cells, (first + i, row)).styles + format)
    {
      RowFillInSyncAt(cells, first, row, values, format, (first + i, row));
    }
    forall k: Key | !(k.1 == row && first <= k.0 < first + |values|)
      ensures Get(FillCells(cells, RowKeys(first, first + 1, row, |values|), values, format), k) == Get(cells, k)
    {
      RowFillInSyncOutside(cells, first, row, values, format, k);
    }
  }

  /**
   * A column fill from column `first` writes values[0] to the cell it starts
   * on and values[i], for i >= 1, to row row + i of the anchor column, each
   * with the format, and touches nothing else.
   */
  lemma ColumnFill(cells: map<Key, Cell>, first: int, anchor: int, row: int, values: seq<CellValue>, format: Format)
    ensures |values| > 0 ==>
              Get(FillCells(cells, ColumnKeys(first, anchor, row, |values|), values, format), (first, row))
              == Cell(values[0], Get(cells, (first, row)).styles + format)
    ensures forall i :: 1 <= i < |values| ==>
              Get(FillCells(cells, ColumnKeys(first, anchor, row, |values|), values, format), (anchor, row + i))
              == Cell(values[i], Get(cells, (anchor, row + i)).styles + format)
    ensures forall k: Key :: !(|values| > 0 && k == (first, row)) && !(k.0 == anchor && row + 1 <= k.1 < row + |values|) ==>
              Get(FillCells(cells, ColumnKeys(first, anchor, row, |values|), values, format), k) == Get(cells, k)
  {
    var keys := ColumnKeys(first, anchor, row, |values|);
    assert forall i :: 1 <= i < |keys| ==> keys[i] == (anchor, row + i);
    assert Distinct(keys);
    if |values| > 0 {
      FillCellsAt(cells, keys, values, format, 0);
    }
    forall i | 1 <= i < |values|
      ensures Get(FillCells(cells, keys, values, format), (anchor, row + i))
              == Cell(values[i], Get(cells, (anchor, row + i)).styles + format)
    {
      FillCellsAt(cells, keys, values, format, i);
    }
    forall k: Key | !(|values| > 0 && k == (first, row)) && !(k.0 == anchor && row + 1 <= k.1 < row + |values|)
      ensures Get(FillCells(cells, keys, values, format), k) == Get(cells, k)
    {
      FillCellsOutside(cells, keys, values, format, k);
    }
  }

  /**
   * A column fill from the anchor column writes values[i] to row row + i of
   * that column, with the format, and touches nothing else.
   */
  lemma ColumnFillAtAnchor(cells: map<Key, Cell>, anchor: int, row: int, values: seq<CellValue>, format: Format)
    ensures forall i :: 0 <= i < |values| ==>
              Get(FillCells(cells, ColumnKeys(anchor, anchor, row, |values|), values, format), (anchor, row + i))
              == Cell(values[i], Get(cells, (anchor, row + i)).styles + format)
    ensures forall k: Key :: !(k.0 == anchor && row <= k.1 < row + |values|) ==>
              Get(FillCells(cells, ColumnKeys(anchor, anchor, row, |values|), values, format), k) == Get(cells, k)
  {
    var keys := ColumnKeys(anchor, anchor, row, |values|);
    assert forall i :: 0 <= i < |keys| ==> keys[i] == (anchor, row + i);
    forall i | 0 <= i < |values|
      ensures Get(FillCells(cells, keys, values, format), (anchor, row + i))
              == Cell(values[i], Get(cells, (anchor, row + i)).styles + format)
    {
      FillCellsAt(cells, keys, values, format, i);
    }
    forall k: Key | !(k.0 == anchor && row <= k.1 < row + |values|)
      ensures Get(FillCells(cells, keys, values, format), k) == Get(cells, k)
    {
      FillCellsOutside(cells, keys, values, format, k);
    }
  }

  /** The column a table fill starts row j from. */
  function RowStart(first: int, anchor: int, j: int): int {
    if j == 0 then first else anchor
  }

  /** The cell lies in the region a table fill writes. */
  predicate InTable(k: Key, first: int, anchor: int, row: int, rows: seq<seq<CellValue>>) {
    row <= k.1 < row + |rows| &&
    RowStart(first, anchor, k.1 - row) <= k.0 < RowStart(first, anchor, k.1 - row) + |rows[k.1 - row]|
  }

  /**
   * Extending a table fill by its next row, given the column, generator
   * counter and row the cursor fills it from.
   */
  lemma TableCellsSnoc(cells: map<Key, Cell>, first: int, start: int, anchor: int, row: int,
                       rows: seq<seq<CellValue>>, format: Format, j: nat, c: int, g: int, r: int)
    requires j < |rows|
    requires j == 0 ==> c == first && g == start && r == row
    requires j > 0 ==> c == anchor && g == anchor + 1 && r == row + j
    ensures TableCells(cells, first, start, anchor, row, rows[..j + 1], format)
            == FillCells(TableCells(cells, first, start, anchor, row, rows[..j], format), RowKeys(c, g, r, |rows[j]|), rows[j], format)
  {
    assert rows[..j + 1][..j] == rows[..j];
  }

  /** In step, the i-th key of a row fill is column c + i of the row. */
  lemma RowKeysInSync(c: int, row: int, n: nat, i: nat)
    requires i < n
    ensures RowKeys(c, c + 1, row, n)[i] == (c + i, row)
  {
  }

  /** In step, a row fill addresses each cell at most once. */
  lemma RowKeysInSyncDistinct(c: int, row: int, n: nat)
    ensures Distinct(RowKeys(c, c + 1, row, n))
  {
    var keys := RowKeys(c, c + 1, row, n);
    forall a, b | 0 <= a < b < n
      ensures keys[a] != keys[b]
    {
      RowKeysInSync(c, row, n, a);
      RowKeysInSync(c, row, n, b);
    }
  }

  /** In step, a row fill writes no cell off the n columns from c of its row. */
  lemma RowKeysInSyncOutside(c: int, row: int, n: nat, k: Key)
    requires !(k.1 == row && c <= k.0 < c + n)
    ensures k !in RowKeys(c, c + 1, row, n)
  {
    var keys := RowKeys(c, c + 1, row, n);
    if k in keys {
      var t :| 0 <= t < n && keys[t] == k;
      RowKeysInSync(c, row, n, t);
    }
  }

  /** The last row of an in-step table fill is a row fill from its start column. */
  lemma TableCellsLast(cells: map<Key, Cell>, first: int, anchor: int, row: int,
                       rows: seq<seq<CellValue>>, format: Format)
    requires rows != []
    ensures var n := |rows| - 1;
            var c := RowStart(first, anchor, n);
            TableCells(cells, first, first + 1, anchor, row, rows, format)
            == FillCells(TableCells(cells, first, first + 1, anchor, row, rows[..n], format),
                         RowKeys(c, c + 1, row + n, |rows[n]|), rows[n], format)
  {
  }

  /** The last row of an in-step table fill writes the cells of its row with its values and the format. */
  lemma TableCellsLastAt(cells: map<Key, Cell>, first: int, anchor: int, row: int,
                         rows: seq<seq<CellValue>>, format: Format, k: Key)
    requires rows != []
    requires k.1 == row + |rows| - 1
    requires RowStart(first, anchor, |rows| - 1) <= k.0 < RowStart(first, anchor, |rows| - 1) + |rows[|rows| - 1]|
    ensures Get(TableCells(cells, first, first + 1, anchor, row, rows, format), k)
            == Cell(rows[|rows| - 1][k.0 - RowStart(first, anchor, |rows| - 1)],
                    Get(TableCells(cells, first, first + 1, anchor, row, rows[..|rows| - 1], format), k).styles + format)
  {
    var n := |rows| - 1;
    var c := RowStart(first, anchor, n);
    var before := TableCells(cells, first, first + 1, anchor, row, rows[..n], format);
    TableCellsLast(cells, first, anchor, row, rows, format);
    RowFillInSyncAt(before, c, row + n, rows[n], format, k);
  }

  /** The last row of an in-step table fill leaves every cell off its row as the earlier rows left it. */
  lemma TableCellsLastOutside(cells: map<Key, Cell>, first: int, anchor: int, row: int,
                              rows: seq<seq<CellValue>>, format: Format, k: Key)
    requires rows != []
    requires !(k.1 == row + |rows| - 1 &&
               RowStart(first, anchor, |rows| - 1) <= k.0 < RowStart(first, anchor, |rows| - 1) + |rows[|rows| - 1]|)
    ensures Get(TableCells(cells, first, first + 1, anchor, row, rows, format), k)
            == Get(TableCells(cells, first, first + 1, anchor, row, rows[..|rows| - 1], format), k)
  {
    var n := |rows| - 1;
    var c := RowStart(first, anchor, n);
    var before := TableCells(cells, first, first + 1, anchor, row, rows[..n], format);
    TableCellsLast(cells, first, anchor, row, rows, format);
    RowFillInSyncOutside(before, c, row + n, rows[n], format, k);
  }

  /** A table fill leaves every cell outside the table as it was. */
  lemma {:induction false} TableFillOutside(cells: map<Key, Cell>, first: int, anchor: int, row: int,
                                            rows: seq<seq<CellValue>>, format: Format, k: Key)
    requires !InTable(k, first, anchor, row, rows)
    ensures Get(TableCells(cells, first, first + 1, anchor, row, rows, format), k) == Get(cells, k)
    decreases |rows|
  {
    if rows != [] {
      var n := |rows| - 1;
      var prefix := rows[..n];
      assert !InTable(k, first, anchor, row, prefix) by {
        if row <= k.1 < row + n {
          assert prefix[k.1 - row] == rows[k.1 - row];
        }
      }
      TableFillOutside(cells, first, anchor, row, prefix, format, k);
      TableCellsLastOutside(cells, first, anchor, row, rows, format, k);
    }
  }

  /**
   * A table fill from a cursor whose generator is in step writes rows[j][i]
   * to column RowStart(j) + i of row row + j, with the format.
   */
  lemma {:induction false} TableFillAt(cells: map<Key, Cell>, first: int, anchor: int, row: int,
                                       rows: seq<seq<CellValue>>, format: Format, j: nat, i: nat)
    requires j < |rows| && i < |rows[j]|
    ensures Get(TableCells(cells, first, first + 1, anchor, row, rows, format), (RowStart(first, anchor, j) + i, row + j))
            == Cell(rows[j][i], Get(cells, (RowStart(first, anchor, j) + i, row + j)).styles + format)
    decreases |rows|
  {
    var n := |rows| - 1;
    var prefix := rows[..n];
    var k := (RowStart(first, anchor, j) + i, row + j);
    if j < n {
      assert prefix[j] == rows[j];
      TableFillAt(cells, first, anchor, row, prefix, format, j, i);
      TableCellsLastOutside(cells, first, anchor, row, rows, format, k);
    } else {
      TableFillOutside(cells, first, anchor, row, prefix, format, k);
      TableCellsLastAt(cells, first, anchor, row, rows, format, k);
    }
  }

  class SpreadsheetCell {
    /** The anchor: the column row moves return to. */
    var initialColumn: string
    /** The column sequence that column moves draw from. */
    var generator: ColumnGenerator
    /** The worksheet, shared with the caller and with clones. */
    const worksheet: Worksheet
    /** The formatting overlay. */
    var formatting: Format
    /** The current position. */
    var column: string
    var row: int

    /**
     * What every operation keeps: the column is a string of letters (empty
     * only after a merge shifted it below column A), the anchor is a column
     * name, and the generator never yields below column A.
     */
    ghost predicate Valid()
      reads this
    {
      AllLetters(column) && IsColumn(initialColumn) && generator.start >= 1
    }

    /** The generator's next draw is the column right after the current one. */
    predicate InSync()
      reads this
    {
      AllLetters(column) && generator.start == ColumnToNumber(column) + 1
    }

    /** The worksheet cell of the current position. */
    function CurrentKey(): Key
      reads this
      requires Valid()
    {
      (ColumnToNumber(column), row)
    }

    constructor (column: string, row: int, worksheet: Worksheet)
      requires IsColumn(column) && row >= 1
      ensures Valid() && InSync()
      ensures this.column == column && this.row == row && initialColumn == column
      ensures formatting == map[] && this.worksheet == worksheet
    {
      var drawn := Next(Generate(column));
      this.worksheet := worksheet;
      initialColumn, formatting := column, map[];
      this.column, generator, this.row := drawn.0, drawn.1, row;
    }

    /** Construction with the original's checks, in its order: column, row, worksheet. */
    static method Create(column: string, row: int, worksheet: Worksheet?) returns (r: Result<SpreadsheetCell, Error>)
      ensures !IsColumn(column) ==> r == Err(InvalidColumnFormat)
      ensures IsColumn(column) && row < 1 ==> r == Err(RowMustBePositive)
      ensures IsColumn(column) && row >= 1 && worksheet == null ==> r == Err(MissingWorksheet)
      ensures IsColumn(column) && row >= 1 && worksheet != null ==>
                r.Ok? && fresh(r.value) && r.value.Valid() && r.value.InSync() &&
                r.value.column == column && r.value.row == row && r.value.initialColumn == column &&
                r.value.formatting == map[] && r.value.worksheet == worksheet
    {
      if !IsColumn(column) {
        return Err(InvalidColumnFormat);
      }
      if row < 1 {
        return Err(RowMustBePositive);
      }
      if worksheet == null {
        return Err(MissingWorksheet);
      }
      var c := new SpreadsheetCell(column, row, worksheet);
      return Ok(c);
    }

    /** The value of the current cell; a cell never written reads as empty. */
    function Value(): (v: CellValue)
      reads this, worksheet
      requires Valid()
      ensures CurrentKey() !in worksheet.cells ==> v == Empty
      ensures CurrentKey() in worksheet.cells ==> v == worksheet.cells[CurrentKey()].value
    {
      Get(worksheet.cells, CurrentKey()).value
    }

    /** Set the value of the current cell. */
    method SetValue(v: CellValue)
      requires Valid()
      modifies worksheet
      ensures worksheet.cells == old(worksheet.cells)[CurrentKey() := Cell(v, Get(old(worksheet.cells), CurrentKey()).styles)]
      ensures worksheet.merges == old(worksheet.merges)
      ensures Value() == v
    {
      worksheet.SetValue(CurrentKey(), v);
    }

    /**
     * Write every property of `format` onto the current cell; nothing else
     * changes (an empty format does not even look the cell up).
     */
    method OverwriteFormatting(format: Format)
      requires Valid()
      modifies worksheet
      ensures format == map[] ==> worksheet.cells == old(worksheet.cells)
      ensures format != map[] ==>
                worksheet.cells == old(worksheet.cells)[CurrentKey() := Styled(Get(old(worksheet.cells), CurrentKey()), format)]
      ensures worksheet.merges == old(worksheet.merges)
    {
      var k := CurrentKey();
      ghost var original := Get(worksheet.cells, k);
      var pending := format.Keys;
      ghost var done: Format := map[];
      while pending != {}
        invariant pending <= format.Keys
        invariant original == Get(old(worksheet.cells), k)
        invariant done.Keys == format.Keys - pending
        invariant forall s :: s in done ==> done[s] == format[s]
        invariant done == map[] ==> worksheet.cells == old(worksheet.cells)
        invariant done != map[] ==> worksheet.cells == old(worksheet.cells)[k := Styled(original, done)]
        invariant worksheet.merges == old(worksheet.merges)
        decreases pending
      {
        var name :| name in pending;
        assert original.styles + map[] == original.styles;
        assert Get(worksheet.cells, k) == Styled(original, done);
        worksheet.SetStyle(k, name, format[name]);
        assert (original.styles + done)[name := format[name]] == original.styles + done[name := format[name]];
        done := done[name := format[name]];
        pending := pending - {name};
      }
      assert done == format;
    }

    /** Write the call's format merged with the overlay (the overlay winning) onto the current cell. */
    method ApplyFormatting(format: Format)
      requires Valid()
      modifies worksheet
      ensures Merge(format, formatting) == map[] ==> worksheet.cells == old(worksheet.cells)
      ensures Merge(format, formatting) != map[] ==>
                worksheet.cells == old(worksheet.cells)[CurrentKey() := Styled(Get(old(worksheet.cells), CurrentKey()), Merge(format, formatting))]
      ensures worksheet.merges == old(worksheet.merges)
    {
      OverwriteFormatting(Merge(format, formatting));
    }

    /** Apply the formatting, then set the value, of the current cell. */
    method SetAndApplyFormat(v: CellValue, format: Format)
      requires Valid()
      modifies worksheet
      ensures worksheet.cells == Write(old(worksheet.cells), CurrentKey(), v, Merge(format, formatting))
      ensures worksheet.merges == old(worksheet.merges)
    {
      ghost var before := Get(worksheet.cells, CurrentKey()).styles;
      assert before + map[] == before;
      ApplyFormatting(format);
      assert Get(worksheet.cells, CurrentKey()).styles == before + Merge(format, formatting);
      worksheet.SetValue(CurrentKey(), v);
    }

    /** Replace the overlay. */
    method SetFormatting(f: Format)
      modifies this
      ensures formatting == f
      ensures column == old(column) && row == old(row) && initialColumn == old(initialColumn) && generator == old(generator)
    {
      formatting := f;
    }

    /** Empty the overlay. */
    method UnsetFormatting()
      modifies this
      ensures formatting == map[]
      ensures column == old(column) && row == old(row) && initialColumn == old(initialColumn) && generator == old(generator)
    {
      formatting := map[];
    }

    /** Merge `format` into the overlay, its keys replacing those of the same name. */
    method AddFormatting(format: Format)
      modifies this
      ensures formatting.Keys == old(formatting).Keys + format.Keys
      ensures forall k :: k in format ==> formatting[k] == format[k]
      ensures forall k :: k in old(formatting) && k !in format ==> formatting[k] == old(formatting)[k]
      ensures column == old(column) && row == old(row) && initialColumn == old(initialColumn) && generator == old(generator)
    {
      formatting := Merge(formatting, format);
    }

    /**
     * Draw `times` columns from the generator. In step, this moves `times`
     * columns right; row and anchor stay. The new column is given by its
     * number, which names exactly one string of letters (ColumnToNumberInjective).
     */
    method MoveToNextColumn(times: int)
      requires Valid()
      modifies this
      ensures Valid()
      ensures row == old(row) && initialColumn == old(initialColumn) && formatting == old(formatting)
      ensures times <= 0 ==> column == old(column) && generator == old(generator)
      ensures times > 0 ==> generator.start == old(generator.start) + times
      ensures times > 0 ==> ColumnToNumber(column) == old(generator.start) + times - 1
      ensures old(InSync()) && times >= 0 ==>
                InSync() && ColumnToNumber(column) == old(ColumnToNumber(column)) + times
    {
      var i := 0;
      while i < times
        invariant Valid()
        invariant row == old(row) && initialColumn == old(initialColumn) && formatting == old(formatting)
        invariant 0 <= i && (times > 0 ==> i <= times) && (times <= 0 ==> i == 0)
        invariant generator.start == old(generator.start) + i
        invariant i == 0 ==> column == old(column) && generator == old(generator)
        invariant i > 0 ==> ColumnToNumber(column) == old(generator.start) + i - 1
      {
        var drawn := Next(generator);
        column, generator := drawn.0, drawn.1;
        i := i + 1;
      }
    }

    /**
     * Move `times` columns left, failing with no change below column A. The
     * new column becomes the anchor and the generator restarts there without
     * a draw, so its next draw is the new column itself.
     */
    method MoveToPreviousColumn(times: int) returns (r: Outcome<Error>)
      requires Valid()
      modifies this
      ensures Valid()
      ensures ColumnToNumber(old(column)) - times < 1 ==> r == Fail(NoColumnBeforeA) && unchanged(this)
      ensures ColumnToNumber(old(column)) - times >= 1 ==>
                r == Pass && IsColumn(column) && ColumnToNumber(column) == ColumnToNumber(old(column)) - times &&
                initialColumn == column && generator == Generate(column) &&
                row == old(row) && formatting == old(formatting)
      ensures r.Pass? ==> Next(generator).0 == column
    {
      var newNumber := ColumnToNumber(column) - times;
      if newNumber < 1 {
        return Fail(NoColumnBeforeA);
      }
      var c := NumberToColumn(newNumber);
      NumberToColumnInverse(newNumber);
      var g := Generate(c);
      column, initialColumn, generator := c, c, g;
      r := Pass;
    }

    /** Move `times` rows down and back to the anchor column, with the generator in step. */
    method MoveToNextRow(times: int)
      requires Valid()
      modifies this
      ensures Valid() && InSync()
      ensures row == old(row) + times && column == initialColumn
      ensures initialColumn == old(initialColumn) && formatting == old(formatting)
    {
      var drawn := Next(Generate(initialColumn));
      row, column, generator := row + times, drawn.0, drawn.1;
    }

    /** Move `times` rows up, failing with no change below row 1; nothing else changes. */
    method MoveToPreviousRow(times: int) returns (r: Outcome<Error>)
      requires Valid()
      modifies this
      ensures Valid()
      ensures old(row) - times < 1 ==> r == Fail(RowBelowOne) && unchanged(this)
      ensures old(row) - times >= 1 ==> r == Pass && row == old(row) - times
      ensures column == old(column) && initialColumn == old(initialColumn) && generator == old(generator)
      ensures formatting == old(formatting)
    {
      var newRow := row - times;
      if newRow < 1 {
        return Fail(RowBelowOne);
      }
      row := newRow;
      r := Pass;
    }

    /**
     * Re-anchor at a column name: the anchor and the current column become
     * `newColumn` and the generator is in step. A malformed name fails with
     * no change.
     */
    method SetInitialColumn(newColumn: string) returns (r: Outcome<Error>)
      requires Valid()
      modifies this
      ensures Valid()
      ensures !IsColumn(newColumn) ==> r == Fail(InvalidColumnFormat) && unchanged(this)
      ensures IsColumn(newColumn) ==>
                r == Pass && initialColumn == newColumn && column == newColumn && InSync() &&
                row == old(row) && formatting == old(formatting)
    {
      if !IsColumn(newColumn) {
        return Fail(InvalidColumnFormat);
      }
      var drawn := Next(Generate(newColumn));
      initialColumn, column, generator := newColumn, drawn.0, drawn.1;
      r := Pass;
    }

    /** Assigning the column of the position view: the same re-anchoring. */
    method SetColumn(newColumn: string) returns (r: Outcome<Error>)
      requires Valid()
      modifies this
      ensures Valid()
      ensures !IsColumn(newColumn) ==> r == Fail(InvalidColumnFormat) && unchanged(this)
      ensures IsColumn(newColumn) ==>
                r == Pass && initialColumn == newColumn && column == newColumn && InSync() &&
                row == old(row) && formatting == old(formatting)
    {
      r := SetInitialColumn(newColumn);
    }

    /** Assigning the row of the position view: any row below 1 fails with no change. */
    method SetRow(newRow: int) returns (r: Outcome<Error>)
      requires Valid()
      modifies this
      ensures Valid()
      ensures newRow < 1 ==> r == Fail(RowBelowOne) && unchanged(this)
      ensures newRow >= 1 ==> r == Pass && row == newRow
      ensures column == old(column) && initialColumn == old(initialColumn) && generator == old(generator)
      ensures formatting == old(formatting)
    {
      if newRow < 1 {
        return Fail(RowBelowOne);
      }
      row := newRow;
      r := Pass;
    }

    /**
     * Assigning the whole position. An empty column and a zero row stand for
     * absent fields and are skipped. The column is re-anchored first, so a
     * negative row fails after the column has already changed.
     */
    method SetPosition(newColumn: string, newRow: int) returns (r: Outcome<Error>)
      requires Valid()
      modifies this
      ensures Valid() && formatting == old(formatting)
      ensures newColumn != [] && !IsColumn(newColumn) ==> r == Fail(InvalidColumnFormat) && unchanged(this)
      ensures newColumn == [] ==>
                column == old(column) && initialColumn == old(initialColumn) && generator == old(generator)
      ensures IsColumn(newColumn) ==> column == newColumn && initialColumn == newColumn && InSync()
      ensures newColumn == [] || IsColumn(newColumn) ==>
                (newRow < 0 ==> r == Fail(RowBelowOne) && row == old(row)) &&
                (newRow == 0 ==> r == Pass && row == old(row)) &&
                (newRow > 0 ==> r == Pass && row == newRow)
    {
      if newColumn != [] {
        r := SetInitialColumn(newColumn);
        if r.Fail? {
          return;
        }
      }
      if newRow != 0 {
        if newRow < 1 {
          return Fail(RowBelowOne);
        }
        row := newRow;
      }
      r := Pass;
    }

    /**
     * Columns first, then rows: a negative count moves back, any other count
     * moves on. Moving on by zero rows still returns to the anchor column.
     */
    method MoveTo(columns: int, rows: int) returns (r: Outcome<Error>)
      requires Valid()
      modifies this
      ensures Valid() && formatting == old(formatting)
      // the column move fails: nothing changes and the rows are not moved
      ensures columns < 0 && ColumnToNumber(old(column)) + columns < 1 ==>
                r == Fail(NoColumnBeforeA) && unchanged(this)
      // the anchor: reset by a move back, kept otherwise
      ensures columns < 0 && ColumnToNumber(old(column)) + columns >= 1 ==>
                ColumnToNumber(initialColumn) == ColumnToNumber(old(column)) + columns
      ensures columns >= 0 ==> initialColumn == old(initialColumn)
      // moving on by rows (zero included): back at the anchor, in step
      ensures !(columns < 0 && ColumnToNumber(old(column)) + columns < 1) && rows >= 0 ==>
                r == Pass && row == old(row) + rows && column == initialColumn && InSync()
      // moving back by rows: the column is where the column move left it
      ensures rows < 0 && columns < 0 && ColumnToNumber(old(column)) + columns >= 1 ==>
                column == initialColumn && generator == Generate(initialColumn)
      ensures rows < 0 && columns == 0 ==> column == old(column) && generator == old(generator)
      ensures rows < 0 && columns > 0 ==>
                ColumnToNumber(column) == old(generator.start) + columns - 1 &&
                generator.start == old(generator.start) + columns
      ensures rows < 0 && !(columns < 0 && ColumnToNumber(old(column)) + columns < 1) ==>
                (old(row) + rows < 1 ==> r == Fail(RowBelowOne) && row == old(row)) &&
                (old(row) + rows >= 1 ==> r == Pass && row == old(row) + rows)
    {
      if columns < 0 {
        r := MoveToPreviousColumn(-columns);
        if r.Fail? {
          return;
        }
      } else {
        MoveToNextColumn(columns);
      }
      if rows < 0 {
        r := MoveToPreviousRow(-rows);
      } else {
        MoveToNextRow(rows);
        r := Pass;
      }
    }

    /** The address of the current cell: the column letters, then the row in decimal. */
    function CellAddress(): (a: string)
      reads this
      requires Valid()
      ensures IsColumn(column) && row >= 0 ==> ParseAddress(a) == Some(ParsedAddress(column, row))
    {
      assert IsColumn(column) && row >= 0 ==> ParseAddress(Address(column, row)) == Some(ParsedAddress(column, row)) by {
        if IsColumn(column) && row >= 0 {
          ParseAddressRoundTrip(column, row);
        }
      }
      Address(column, row)
    }

    /**
     * Assigning the address: its letters and digits go through the position
     * setter (so row 0 is skipped); anything else fails with no change.
     */
    method SetCellAddress(address: string) returns (r: Outcome<Error>)
      requires Valid()
      modifies this
      ensures Valid() && formatting == old(formatting)
      ensures ParseAddress(address).None? ==> r == Fail(InvalidAddress) && unchanged(this)
      ensures ParseAddress(address).Some? ==>
                var p := ParseAddress(address).value;
                r == Pass && column == p.column && initialColumn == p.column && InSync() &&
                row == (if p.row == 0 then old(row) else p.row)
    {
      match ParseAddress(address)
      case None =>
        r := Fail(InvalidAddress);
      case Some(p) =>
        r := SetPosition(p.column, p.row);
    }

    /** A column shifted by `value`: `target` when given, the current column otherwise. */
    method IncrementColumnValue(value: int, target: Option<string>) returns (c: string)
      requires Valid()
      requires target.Some? ==> AllLetters(target.value)
      ensures var base := if target.Some? then target.value else column;
              (ColumnToNumber(base) + value >= 1 ==> IsColumn(c) && ColumnToNumber(c) == ColumnToNumber(base) + value) &&
              (ColumnToNumber(base) + value <= 0 ==> c == [])
    {
      c := IncrementColumn(if target.Some? then target.value else column, value);
    }

    /** Write the current cell, then move one column on. */
    method SetAndMoveToNextColumn(v: CellValue, format: Format)
      requires Valid()
      modifies this, worksheet
      ensures Valid()
      ensures worksheet.cells == Write(old(worksheet.cells), old(CurrentKey()), v, Merge(format, old(formatting)))
      ensures worksheet.merges == old(worksheet.merges)
      ensures row == old(row) && initialColumn == old(initialColumn) && formatting == old(formatting)
      ensures generator.start == old(generator.start) + 1 && ColumnToNumber(column) == old(generator.start)
    {
      SetAndApplyFormat(v, format);
      MoveToNextColumn(1);
    }

    /** Write the current cell, then move one row on (back to the anchor column). */
    method SetAndMoveToNextRow(v: CellValue, format: Format)
      requires Valid()
      modifies this, worksheet
      ensures Valid() && InSync()
      ensures worksheet.cells == Write(old(worksheet.cells), old(CurrentKey()), v, Merge(format, old(formatting)))
      ensures worksheet.merges == old(worksheet.merges)
      ensures row == old(row) + 1 && column == initialColumn
      ensures initialColumn == old(initialColumn) && formatting == old(formatting)
    {
      SetAndApplyFormat(v, format);
      MoveToNextRow(1);
    }

    /** Write the current cell, then move one column back; the write stays when the move fails. */
    method SetAndMoveToPreviousColumn(v: CellValue, format: Format) returns (r: Outcome<Error>)
      requires Valid()
      modifies this, worksheet
      ensures Valid()
      ensures worksheet.cells == Write(old(worksheet.cells), old(CurrentKey()), v, Merge(format, old(formatting)))
      ensures worksheet.merges == old(worksheet.merges)
      ensures ColumnToNumber(old(column)) < 2 ==> r == Fail(NoColumnBeforeA) && unchanged(this)
      ensures ColumnToNumber(old(column)) >= 2 ==>
                r == Pass && ColumnToNumber(column) == ColumnToNumber(old(column)) - 1 &&
                initialColumn == column && generator == Generate(column) && row == old(row)
      ensures formatting == old(formatting)
    {
      SetAndApplyFormat(v, format);
      r := MoveToPreviousColumn(1);
    }

    /** Write the current cell, then move one row up; the write stays when the move fails. */
    method SetAndMoveToPreviousRow(v: CellValue, format: Format) returns (r: Outcome<Error>)
      requires Valid()
      modifies this, worksheet
      ensures Valid()
      ensures worksheet.cells == Write(old(worksheet.cells), old(CurrentKey()), v, Merge(format, old(formatting)))
      ensures worksheet.merges == old(worksheet.merges)
      ensures old(row) < 2 ==> r == Fail(RowBelowOne) && unchanged(this)
      ensures old(row) >= 2 ==> r == Pass && row == old(row) - 1
      ensures column == old(column) && initialColumn == old(initialColumn) && generator == old(generator)
      ensures formatting == old(formatting)
    {
      SetAndApplyFormat(v, format);
      r := MoveToPreviousRow(1);
    }

    /**
     * Merge the range from the current cell to the cell `columns` columns
     * and `rows` rows away, then move there with the generator restarted
     * there and drawn once; the anchor stays.
     */
    method MergeCells(columns: int, rows: int)
      requires Valid()
      modifies this, worksheet
      ensures Valid() && InSync()
      ensures ColumnToNumber(old(column)) + columns >= 1 ==>
                IsColumn(column) && ColumnToNumber(column) == ColumnToNumber(old(column)) + columns
      ensures ColumnToNumber(old(column)) + columns <= 0 ==> column == []
      ensures row == old(row) + rows
      ensures initialColumn == old(initialColumn) && formatting == old(formatting)
      ensures worksheet.merges == old(worksheet.merges) + [Address(old(column), old(row)) + ":" + Address(column, row)]
      ensures worksheet.cells == old(worksheet.cells)
    {
      var targetColumn := IncrementColumnValue(columns, None);
      assert AllLetters(targetColumn);
      var targetRow := row + rows;
      var drawn := Next(Generate(targetColumn));
      assert drawn.0 == targetColumn && drawn.1.start == ColumnToNumber(targetColumn) + 1;
      worksheet.MergeCells(Address(column, row) + ":" + Address(targetColumn, targetRow));
      column, generator, row := targetColumn, drawn.1, targetRow;
    }

    /**
     * Write a row left to right, one formatted write and one column move
     * per value: the loop of FillRow once its values are in order.
     */
    method FillValues(vs: seq<CellValue>, format: Format)
      requires Valid()
      modifies this, worksheet
      ensures Valid()
      ensures worksheet.cells == FillCells(old(worksheet.cells),
                                           RowKeys(old(ColumnToNumber(column)), old(generator.start), old(row), |vs|),
                                           vs, Merge(format, old(formatting)))
      ensures worksheet.merges == old(worksheet.merges)
      ensures row == old(row) && initialColumn == old(initialColumn) && formatting == old(formatting)
      ensures |vs| == 0 ==> column == old(column) && generator == old(generator)
      ensures |vs| > 0 ==> ColumnToNumber(column) == old(generator.start) + |vs| - 1 &&
                           generator.start == old(generator.start) + |vs|
    {
      ghost var keys := RowKeys(ColumnToNumber(column), generator.start, row, |vs|);
      ghost var eff := Merge(format, formatting);
      var i := 0;
      while i < |vs|
        invariant 0 <= i <= |vs|
        invariant Valid()
        invariant row == old(row) && initialColumn == old(initialColumn) && formatting == old(formatting)
        invariant i == 0 ==> column == old(column) && generator == old(generator)
        invariant i > 0 ==> generator.start == old(generator.start) + i && InSync()
        invariant worksheet.cells == FillCells(old(worksheet.cells), keys[..i], vs[..i], eff)
        invariant worksheet.merges == old(worksheet.merges)
      {
        assert CurrentKey() == keys[i];
        FillCellsSnoc(old(worksheet.cells), keys, vs, eff, i);
        SetAndMoveToNextColumn(vs[i], format);
        i := i + 1;
      }
      assert keys[..i] == keys && vs[..i] == vs;
    }

    /**
     * Write the row's values left to right, one formatted write and one
     * column move each. The cells written are RowKeys of the starting
     * column and generator (RowFillInSync: columns c, c+1, ... when in step).
     */
    method FillRow(values: RowValues, format: Format, exclude: seq<string>)
      requires Valid()
      modifies this, worksheet
      ensures Valid()
      ensures var vs := Normalize(values, exclude);
              worksheet.cells == FillCells(old(worksheet.cells),
                                           RowKeys(old(ColumnToNumber(column)), old(generator.start), old(row), |vs|),
                                           vs, Merge(format, old(formatting)))
      ensures worksheet.merges == old(worksheet.merges)
      ensures row == old(row) && initialColumn == old(initialColumn) && formatting == old(formatting)
      ensures var n := |Normalize(values, exclude)|;
              (n == 0 ==> column == old(column) && generator == old(generator)) &&
              (n > 0 ==> ColumnToNumber(column) == old(generator.start) + n - 1 &&
                         generator.start == old(generator.start) + n)
    {
      var vs := Normalize(values, exclude);
      FillValues(vs, format);
    }

    /**
     * Write the values top to bottom, one formatted write and one row move
     * each; every move returns to the anchor column (ColumnFill, and
     * ColumnFillAtAnchor for a cursor on its anchor column).
     */
    method FillColumns(values: seq<CellValue>, format: Format)
      requires Valid()
      modifies this, worksheet
      ensures Valid()
      ensures worksheet.cells == FillCells(old(worksheet.cells),
                                           ColumnKeys(old(ColumnToNumber(column)), ColumnToNumber(initialColumn), old(row), |values|),
                                           values, Merge(format, old(formatting)))
      ensures worksheet.merges == old(worksheet.merges)
      ensures row == old(row) + |values| && initialColumn == old(initialColumn) && formatting == old(formatting)
      ensures |values| == 0 ==> column == old(column) && generator == old(generator)
      ensures |values| > 0 ==> column == initialColumn && InSync()
    {
      ghost var keys := ColumnKeys(ColumnToNumber(column), ColumnToNumber(initialColumn), row, |values|);
      ghost var eff := Merge(format, formatting);
      var i := 0;
      while i < |values|
        invariant 0 <= i <= |values|
        invariant Valid()
        invariant row == old(row) + i && initialColumn == old(initialColumn) && formatting == old(formatting)
        invariant i == 0 ==> column == old(column) && generator == old(generator)
        invariant i > 0 ==> column == initialColumn && InSync()
        invariant worksheet.cells == FillCells(old(worksheet.cells), keys[..i], values[..i], eff)
        invariant worksheet.merges == old(worksheet.merges)
      {
        assert CurrentKey() == keys[i];
        FillCellsSnoc(old(worksheet.cells), keys, values, eff, i);
        SetAndMoveToNextRow(values[i], format);
        i := i + 1;
      }
      assert keys[..i] == keys && values[..i] == values;
    }

    /** One step of a table fill: fill a row from the cursor, then move to the next row. */
    method FillTableRow(values: RowValues, format: Format, exclude: seq<string>)
      requires Valid()
      modifies this, worksheet
      ensures Valid() && InSync()
      ensures var vs := Normalize(values, exclude);
              worksheet.cells == FillCells(old(worksheet.cells),
                                           RowKeys(old(ColumnToNumber(column)), old(generator.start), old(row), |vs|),
                                           vs, Merge(format, old(formatting)))
      ensures worksheet.merges == old(worksheet.merges)
      ensures row == old(row) + 1 && column == initialColumn
      ensures initialColumn == old(initialColumn) && formatting == old(formatting)
    {
      FillRow(values, format, exclude);
      MoveToNextRow(1);
    }

    /**
     * Fill each row of the table, moving one row on (back to the anchor
     * column) after each. The cells written are TableCells of the starting
     * state (TableFillAt and TableFillOutside: row j on row r + j).
     */
    method FillTable(data: seq<RowValues>, format: Format, exclude: seq<string>)
      requires Valid()
      modifies this, worksheet
      ensures Valid()
      ensures worksheet.cells == TableCells(old(worksheet.cells), old(ColumnToNumber(column)), old(generator.start),
                                            ColumnToNumber(initialColumn), old(row),
                                            NormalizeAll(data, exclude),
                                            Merge(format, old(formatting)))
      ensures worksheet.merges == old(worksheet.merges)
      ensures initialColumn == old(initialColumn) && formatting == old(formatting)
      ensures |data| == 0 ==> column == old(column) && row == old(row) && generator == old(generator)
      ensures |data| > 0 ==> row == old(row) + |data| && column == initialColumn && InSync()
    {
      ghost var rows := NormalizeAll(data, exclude);
      ghost var first := ColumnToNumber(column);
      ghost var start := generator.start;
      ghost var anchor := ColumnToNumber(initialColumn);
      ghost var eff := Merge(format, formatting);
      var j := 0;
      while j < |data|
        invariant 0 <= j <= |data|
        invariant Valid()
        invariant initialColumn == old(initialColumn) && formatting == old(formatting)
        invariant j == 0 ==> column == old(column) && row == old(row) && generator == old(generator)
        invariant j > 0 ==> row == old(row) + j && column == initialColumn && InSync()
        invariant worksheet.cells == TableCells(old(worksheet.cells), first, start, anchor, old(row), rows[..j], eff)
        invariant worksheet.merges == old(worksheet.merges)
      {
        ghost var c, g, r := ColumnToNumber(column), generator.start, row;
        FillTableRow(data[j], format, exclude);
        TableCellsSnoc(old(worksheet.cells), first, start, anchor, old(row), rows, eff, j, c, g, r);
        j := j + 1;
      }
      assert rows[..j] == rows;
    }

    /**
     * A new cursor at the current column and row, anchored at the current
     * column, with an empty overlay, sharing the worksheet. It goes through
     * the constructor's checks, which a cursor moved by a merge can fail.
     */
    method Clone() returns (r: Result<SpreadsheetCell, Error>)
      requires Valid()
      ensures !IsColumn(column) ==> r == Err(InvalidColumnFormat)
      ensures IsColumn(column) && row < 1 ==> r == Err(RowMustBePositive)
      ensures IsColumn(column) && row >= 1 ==>
                r.Ok? && fresh(r.value) && r.value.Valid() && r.value.InSync() &&
                r.value.column == column && r.value.row == row && r.value.initialColumn == column &&
                r.value.formatting == map[] && r.value.worksheet == worksheet
    {
      r := Create(column, row, worksheet);
    }
  }
}
