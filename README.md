# SpreadsheetCell, modelled in Dafny

A model of the spreadsheet cursor in `SpreadsheetCell.class.js`, with proofs about it. The file holds three pieces:

- **The column codec.** `columnToNumber`, `numberToColumn` and `incrementColumn` convert between column names (A, B, …, Z, AA, …) and numbers. The encoding is bijective base 26: A is 1, Z is 26, and there is no digit for zero.
- **The column generator and the box helper.** `generateColumnSequence` yields c, c+1, c+2, … without end. `borderBox` gives every cell of a rectangle a four-edge border. Edges on the rectangle's boundary get the outer style; every other edge gets the inner style.
- **The `SpreadsheetCell` cursor.** It keeps a current position and an anchor column (the initial column) that row moves return to. Column moves draw from a column generator. A formatting overlay is merged into every formatted write. It writes values and styles through the cursor, fills rows, columns and tables, merges ranges and clones itself.

Modules:

| module | file | models |
|---|---|---|
| `Results` | `results.dfy` | `Option`, `Result` and `Outcome` stand in for thrown errors. |
| `ColumnCodec` | `column_codec.dfy` | The codec as recursive functions. The two loops are methods proved equal to those functions. Round trips are proved both ways. |
| `ColumnSequence` | `column_sequence.dfy` | The generator as a value: the number of the next column it yields. |
| `Addresses` | `addresses.dfy` | An address is the column letters followed by the row in decimal. Also the parse behind the address setter. |
| `Sheet` | `worksheet.dfy` | The worksheet backend, reduced to what the cursor uses (summarised below). |
| `Cursor` | `spreadsheet_cell.dfy` | The class `SpreadsheetCell` plus specification functions for the cells a row, column or table fill writes. |
| `Borders` | `borders.dfy` | `borderBox` as the nested loop of the original, proved against a per-cell specification. |
| `Scenarios` | `scenarios.dfy` | Worked examples on a fresh worksheet: C3 → E3 → C4; back and forth around C3; nothing before A1; a row fill from A1 to D1; a table fill from A1 ending at A3; a column fill off its anchor; the overlay winning over a call's format; assigning the addresses "D" and "C03". |

The worksheet backend in `Sheet`:

- Cells live in a map from (column number, row) to a value and a map of named style properties.
- The worksheet also keeps the list of merge ranges it has been sent.
- Column 0 stands for a column-less address.

The cursor is a class whose methods update `column`, `row`, `initialColumn`, `generator` and `formatting` in place, and write through to the shared `Worksheet` object.

The invariant `Valid()` holds throughout:

- the column is letters, and empty only after a merge moved it left of A;
- the anchor is a column name;
- the generator never yields below A.

`InSync()` says that the generator's next draw is the column right after the current one. Every move to a next row, re-anchoring and merge restores it; a move to a previous row and a row assignment leave the generator as it was. A move to a previous column breaks it on purpose, as the original does: there the generator restarts at the new column without drawing. Fills are specified by the cells they write, as `FillCells` over `RowKeys`, `ColumnKeys` or `TableCells`. When the cursor is in step, the lemmas `RowFillInSync`, `TableFillAt` and `TableFillOutside` turn a row or table fill into "value i goes to column c + i, and nothing else changes". A column fill needs no such condition: `ColumnFill` shows that from column c it writes value 0 to the cell it starts on and value i ≥ 1 to row r + i of the anchor column, and nothing else. A cursor off its anchor, such as E3 anchored at C, therefore writes E3 and then C4 (`Scenarios.FillColumnsOffAnchor`). `ColumnFillAtAnchor` is the case of a cursor on its anchor column, where value i goes to row r + i of that column.

Some behaviours of the code are easy to miss. The model keeps each of them:

- **A move back, then a move on.** `moveToPreviousColumn(2)` from E3 restarts the generator at C without drawing (lines 129-130). So a following `moveToNextColumn(1)` draws C again and the cursor stays at C3, not D3 (`Scenarios.PreviousThenNextColumn`).
- **The position setter can change state and still fail.** It re-anchors the column before it checks the row. So `{column: "B", row: -2}` moves to column B and then fails.
- **A merge can push the cursor off the grid.** A negative count in `mergeCells` can leave the column empty (left of A) or the row below 1. The constructor's checks are not applied there. A later `clone` fails on such a position.

## Model

| member | source | states |
|---|---|---|
| ColumnCodec.Digit | SpreadsheetCell.class.js:5 | The weight of a letter lies in 1..26 (its index in the alphabet plus one). |
| ColumnCodec.Letter | SpreadsheetCell.class.js:14 | The character code 65 + r is a letter whose weight is r + 1. |
| ColumnCodec.ColumnToNumber | SpreadsheetCell.class.js:1-8 | A string of letters has number 0 exactly when it is empty, and every column name has a positive number. |
| ColumnCodec.ColumnToNumberLoop | SpreadsheetCell.class.js:1-8 | The original's loop, adding 26^j times the weight of each letter, computes ColumnToNumber. |
| ColumnCodec.ColumnToNumberPrefix | SpreadsheetCell.class.js:4-5 | Reading one more letter multiplies the number so far by 26 and adds that letter's weight. |
| ColumnCodec.NumberToColumn | SpreadsheetCell.class.js:10-18 | The result is letters only, and empty exactly for numbers that are not positive. |
| ColumnCodec.NumberToColumnLoop | SpreadsheetCell.class.js:10-18 | The original's loop, prepending letter (n-1)%26 and dividing (n - remainder) by 26, computes NumberToColumn. |
| ColumnCodec.DropLastLetter | SpreadsheetCell.class.js:13-15 | The original's quotient (n - (n-1)%26) / 26 equals (n-1)/26. |
| ColumnCodec.NumberToColumnInverse | SpreadsheetCell.class.js:1-18 | Every positive number names a column, and reading that column back gives the number. |
| ColumnCodec.NumberToColumnStep | SpreadsheetCell.class.js:12-16 | The name of 26m + d is the name of m followed by the letter of weight d. |
| ColumnCodec.ColumnToNumberInverse | SpreadsheetCell.class.js:1-18 | Every string of letters is the name of its own number. |
| ColumnCodec.ColumnToNumberInjective | SpreadsheetCell.class.js:1-8 | Two strings of letters with the same number are equal. |
| ColumnCodec.IncrementColumn | SpreadsheetCell.class.js:20-22 | Shifting by delta gives the column numbered column + delta when that is positive, and "" otherwise. |
| ColumnCodec.IncrementColumnInverse | SpreadsheetCell.class.js:20-22 | A shift by 0 is the identity, and shifting back by -delta undoes a shift that stays at or right of A. |
| ColumnCodec.KnownColumns | SpreadsheetCell.class.js:1-18 | A is 1, Z is 26, AA is 27, AZ is 52, BA is 53; 26 names Z and 27 names AA. |
| ColumnSequence.Generate | SpreadsheetCell.class.js:24-25 | A fresh generator's first draw is the column it was started at. |
| ColumnSequence.Next | SpreadsheetCell.class.js:26-28 | A draw yields the column numbered by the counter (or "" below 1) and advances the counter by one. |
| ColumnSequence.Draws | SpreadsheetCell.class.js:26-28 | k draws yield k columns. |
| ColumnSequence.Advance | SpreadsheetCell.class.js:26-28 | After k draws the counter has moved on by k. |
| ColumnSequence.DrawsAt | SpreadsheetCell.class.js:26-28 | Draw i + 1 is the column named by the counter plus i. |
| ColumnSequence.SequenceFromColumn | SpreadsheetCell.class.js:24-29 | Started at column c, draw i + 1 is the column numbered c + i, and after k draws the counter is c + k. |
| Addresses.NatToDecimal | SpreadsheetCell.class.js:211 | A row is written as one or more decimal digits, with no leading zero. |
| Addresses.DecimalValue | SpreadsheetCell.class.js:216 | A run of zeros, the empty run included, reads as 0, and a single digit reads as its value (leading zeros in general: DecimalValueLeadingZero). |
| Addresses.Address | SpreadsheetCell.class.js:211 | An address is its column followed by the canonical decimal numeral of its row (no leading zero), with a minus sign before a negative row. |
| Addresses.DecimalValueLeadingZero | SpreadsheetCell.class.js:216 | A leading zero does not change the value of a run of digits, so "03" reads as 3. |
| Addresses.DecimalRoundTrip | SpreadsheetCell.class.js:216 | Reading the decimal numeral of n gives back n. |
| Addresses.LetterRun | SpreadsheetCell.class.js:215 | The leading run of A..Z is all letters and is maximal: the character after it is not a letter. |
| Addresses.ParseAddress | SpreadsheetCell.class.js:215-216 | A parse splits the address into a column name and a digit string whose value is its row. |
| Addresses.ParseLettersDigits | SpreadsheetCell.class.js:215-216 | Every column name followed by any run of digits parses to that column, with the digits read as the row (an empty run as 0, leading zeros ignored). |
| Addresses.LetterRunOfAddress | SpreadsheetCell.class.js:215 | In a column name followed by digits, the letter run is exactly the column name. |
| Addresses.ParseAddressRoundTrip | SpreadsheetCell.class.js:210-217 | Parsing the address of a column and a non-negative row gives back that column and row. |
| Sheet.FillCellsSnoc | SpreadsheetCell.class.js:283-285 | A run of writes one longer is the shorter run followed by its next write. |
| Sheet.FillCellsOutside | SpreadsheetCell.class.js:283-285 | Cells a run of writes does not address keep their presence and content. |
| Sheet.FillCellsAt | SpreadsheetCell.class.js:283-285 | With distinct addresses, the i-th addressed cell ends with the i-th value and the format over its old styles. |
| Sheet.Worksheet.SetStyle | SpreadsheetCell.class.js:106 | Assigning one style property of a cell changes only that property of that cell. |
| Sheet.Worksheet.SetValue | SpreadsheetCell.class.js:226 | Assigning a cell's value keeps its styles and changes no other cell. |
| Sheet.Worksheet.MergeCells | SpreadsheetCell.class.js:268-270 | A merge request appends its range to the merges and changes no cell. |
| Cursor.Merge | SpreadsheetCell.class.js:104 | Spreading two formats keeps the keys of both, and a shared key takes the right-hand value. |
| Cursor.KeptValues | SpreadsheetCell.class.js:278-282 | The kept values are the values of the entries whose keys are not excluded; with no key excluded they are all values, in entry order. |
| Cursor.KeptValuesOne | SpreadsheetCell.class.js:279-281 | One entry is kept, as its value, exactly when its key is not excluded. |
| Cursor.KeptValuesAppend | SpreadsheetCell.class.js:279-281 | Filtering keeps entry order: the kept values of a concatenation are those of the first part followed by those of the second. |
| Cursor.Normalize | SpreadsheetCell.class.js:278-282 | An ordered row is taken as it is; a keyed record keeps at most its entries, and all their values in entry order when no key is excluded. |
| Cursor.NormalizeAll | SpreadsheetCell.class.js:295-296 | Every row of a table is normalised on its own, row j to row j. |
| Cursor.RowFillInSyncAt | SpreadsheetCell.class.js:283-285 | In step, a row fill from column c writes the cell in column c + i with value i and the format. |
| Cursor.RowFillInSyncOutside | SpreadsheetCell.class.js:283-285 | In step, a row fill leaves every cell off its columns of its row unchanged. |
| Cursor.RowFillInSync | SpreadsheetCell.class.js:283-285 | In step, a row fill writes value i to column first + i with the format, and changes no other cell. |
| Cursor.ColumnFill | SpreadsheetCell.class.js:288-292 | A column fill from column c writes value 0 to the cell it starts on and value i ≥ 1 to row r + i of the anchor column, each with the format, and changes no other cell. |
| Cursor.ColumnFillAtAnchor | SpreadsheetCell.class.js:288-292 | A column fill from the anchor writes value i to row r + i of the anchor column, and changes no other cell. |
| Cursor.TableCellsSnoc | SpreadsheetCell.class.js:295-298 | A table fill one row longer is the shorter fill followed by a row fill from the cursor's column, generator and row at that step. |
| Cursor.RowKeysInSync | SpreadsheetCell.class.js:283-285 | In step, the i-th cell a row fill writes is column c + i of the row. |
| Cursor.RowKeysInSyncDistinct | SpreadsheetCell.class.js:283-285 | In step, a row fill addresses every cell at most once. |
| Cursor.RowKeysInSyncOutside | SpreadsheetCell.class.js:283-285 | In step, a row fill addresses no cell off its n columns of its row. |
| Cursor.TableCellsLast | SpreadsheetCell.class.js:294-299 | The last row of an in-step table fill is a row fill from its start column. |
| Cursor.TableCellsLastAt | SpreadsheetCell.class.js:294-299 | The last row of an in-step table fill writes each of its cells with its value and the format. |
| Cursor.TableCellsLastOutside | SpreadsheetCell.class.js:294-299 | The last row of an in-step table fill leaves the cells off that row as the earlier rows left them. |
| Cursor.TableFillOutside | SpreadsheetCell.class.js:294-299 | A table fill leaves every cell outside the table's region unchanged. |
| Cursor.TableFillAt | SpreadsheetCell.class.js:294-299 | In step, a table fill writes rows[j][i] to row r + j, at column c + i for the first row and anchor + i for later rows. |
| Cursor.SpreadsheetCell.constructor | SpreadsheetCell.class.js:62-75 | A new cursor stands at its column and row, anchored there, with an empty overlay and the generator in step. |
| Cursor.SpreadsheetCell.Create | SpreadsheetCell.class.js:62-75 | The constructor's three checks, in order: bad column, then row below 1, then missing worksheet; only when all pass is a cursor built. |
| Cursor.SpreadsheetCell.Value | SpreadsheetCell.class.js:305-307 | The value of the current cell; a cell never written reads as empty. |
| Cursor.SpreadsheetCell.SetValue | SpreadsheetCell.class.js:301-303 | The current cell takes the value and keeps its styles; nothing else changes. |
| Cursor.SpreadsheetCell.OverwriteFormatting | SpreadsheetCell.class.js:110-114 | Every property of the format is written over the current cell's styles; an empty format changes nothing. |
| Cursor.SpreadsheetCell.ApplyFormatting | SpreadsheetCell.class.js:103-108 | The current cell gets the call's format merged with the overlay, the overlay winning on shared keys. |
| Cursor.SpreadsheetCell.SetAndApplyFormat | SpreadsheetCell.class.js:224-227 | The current cell is written with the value and the merged format; nothing else changes. |
| Cursor.SpreadsheetCell.SetFormatting | SpreadsheetCell.class.js:249-251 | The overlay is replaced, and the position, anchor and generator stay. |
| Cursor.SpreadsheetCell.UnsetFormatting | SpreadsheetCell.class.js:257-259 | The overlay becomes empty, and the position, anchor and generator stay. |
| Cursor.SpreadsheetCell.AddFormatting | SpreadsheetCell.class.js:261-263 | The overlay gains the format's keys, with the format's values winning and other keys kept. |
| Cursor.SpreadsheetCell.MoveToNextColumn | SpreadsheetCell.class.js:116-120 | Each of the times draws advances the generator. In step this moves times columns right; row and anchor stay. |
| Cursor.SpreadsheetCell.MoveToPreviousColumn | SpreadsheetCell.class.js:122-131 | Below column A it fails with no change. Otherwise it moves times columns left, re-anchors there, and the generator's next draw is the new column itself. |
| Cursor.SpreadsheetCell.MoveToNextRow | SpreadsheetCell.class.js:133-138 | It moves times rows down and back to the anchor column, with the generator in step. |
| Cursor.SpreadsheetCell.MoveToPreviousRow | SpreadsheetCell.class.js:140-145 | Below row 1 it fails with no change; otherwise only the row decreases by times. |
| Cursor.SpreadsheetCell.SetInitialColumn | SpreadsheetCell.class.js:189-195 | A bad column name fails with no change. Otherwise the anchor and the current column become the name, in step. |
| Cursor.SpreadsheetCell.SetColumn | SpreadsheetCell.class.js:154-158 | Assigning the position view's column re-anchors at it, or fails with no change. |
| Cursor.SpreadsheetCell.SetRow | SpreadsheetCell.class.js:159-163 | Assigning the position view's row below 1 fails with no change; otherwise only the row changes. |
| Cursor.SpreadsheetCell.SetPosition | SpreadsheetCell.class.js:179-187 | An empty column and row 0 are skipped; the column is re-anchored first; a negative row then fails, keeping the new column. |
| Cursor.SpreadsheetCell.MoveTo | SpreadsheetCell.class.js:197-208 | The column move runs first (back for a negative count), then the row move. A failing column move stops it with no change; a row move on, zero included, returns to the anchor in step. |
| Cursor.SpreadsheetCell.CellAddress | SpreadsheetCell.class.js:210-212 | The address parses back to the current column and row. |
| Cursor.SpreadsheetCell.SetCellAddress | SpreadsheetCell.class.js:214-217 | An address of letters then digits re-anchors at its letters and sets its row (row 0 skipped); anything else fails with no change. |
| Cursor.SpreadsheetCell.IncrementColumnValue | SpreadsheetCell.class.js:219-222 | The result is the given column, or the current one, shifted by value; "" when that falls left of A. |
| Cursor.SpreadsheetCell.SetAndMoveToNextColumn | SpreadsheetCell.class.js:229-232 | It writes the current cell, then the current column becomes the generator's draw. |
| Cursor.SpreadsheetCell.SetAndMoveToNextRow | SpreadsheetCell.class.js:234-237 | It writes the current cell, then moves one row down to the anchor column, in step. |
| Cursor.SpreadsheetCell.SetAndMoveToPreviousColumn | SpreadsheetCell.class.js:239-242 | It writes the current cell, then moves one column left and re-anchors. At column A the move fails, but the write stays. |
| Cursor.SpreadsheetCell.SetAndMoveToPreviousRow | SpreadsheetCell.class.js:244-247 | It writes the current cell, then moves one row up. On row 1 the move fails, but the write stays. |
| Cursor.SpreadsheetCell.MergeCells | SpreadsheetCell.class.js:265-275 | It requests the merge from the current cell to the shifted cell, then moves there in step. The anchor and the cells stay. |
| Cursor.SpreadsheetCell.FillValues | SpreadsheetCell.class.js:283-285 | Value i is written to the i-th cell of RowKeys, with the merged format; the generator advances by one per value. |
| Cursor.SpreadsheetCell.FillRow | SpreadsheetCell.class.js:277-286 | The row's values, excluded keys dropped, are written left to right along RowKeys, one column move per value. |
| Cursor.SpreadsheetCell.FillColumns | SpreadsheetCell.class.js:288-292 | Values are written down the rows, the first at the current cell and each later one in the anchor column; the row advances by the count. |
| Cursor.SpreadsheetCell.FillTableRow | SpreadsheetCell.class.js:295-298 | One table step fills a row, then moves to the next row at the anchor, in step. |
| Cursor.SpreadsheetCell.FillTable | SpreadsheetCell.class.js:294-299 | The cells written are the TableCells of the starting state. The cursor ends one row down per data row, at the anchor, in step. |
| Cursor.SpreadsheetCell.Clone | SpreadsheetCell.class.js:318-324 | A new cursor at the current position, anchored there, with an empty overlay and the same worksheet. It goes through the constructor's checks. |
| Borders.BoxEdges | SpreadsheetCell.class.js:46-51 | An edge on the boundary side the cell lies on takes the outer style; every other edge takes the inner style. |
| Borders.Boxed | SpreadsheetCell.class.js:46 | Assigning the border replaces that one style property and keeps the value and all other styles. |
| Borders.BoxedStep | SpreadsheetCell.class.js:42-51 | Bordering the next cell extends the bordered part of the box by one cell, in row-by-row, left-to-right order. |
| Borders.BoxedRowDone | SpreadsheetCell.class.js:41-42 | Past the last column, a whole row of the box is bordered. |
| Borders.BoxedFinished | SpreadsheetCell.class.js:41 | Past the last row, every cell of the box is bordered and every other cell is unchanged. |
| Borders.AddressedColumn | SpreadsheetCell.class.js:43-44 | The address built from a column number points back at that column. |
| Borders.BorderBox | SpreadsheetCell.class.js:31-54 | Every cell of the inclusive rectangle gets its four edges; every cell outside is unchanged; no merges. |
| Borders.TwoByTwoBox | SpreadsheetCell.class.js:46-51 | In a 2 x 2 box each cell has the outer style on its two outward edges and the inner style on the two shared ones. |
| Borders.SingleCellBox | SpreadsheetCell.class.js:46-51 | A one-cell box has the outer style on all four edges. |
| Scenarios.FirstColumns | SpreadsheetCell.class.js:1-8 | A to E are columns 1 to 5. |
| Scenarios.ConstructAtC3 | SpreadsheetCell.class.js:62-75 | A cursor built at C3 has address "C3". |
| Scenarios.NextColumnsThenNextRow | SpreadsheetCell.class.js:116-138 | From C3, two columns on is E3, and one row on from there is C4. |
| Scenarios.PreviousThenNextColumn | SpreadsheetCell.class.js:116-131 | From E3, two columns back is C3, and one column on from there is still C3. |
| Scenarios.NothingBeforeA1 | SpreadsheetCell.class.js:122-145 | At A1, a previous row and a previous column both fail, and the cursor stays at A1. |
| Scenarios.FillRowFromA1 | SpreadsheetCell.class.js:277-286 | Filling 10, 20, 30 from A1 writes A1, B1 and C1 and ends at D1. |
| Scenarios.ExampleTableRows | SpreadsheetCell.class.js:295-296 | The rows of the table [[1, 2], [3, 4]] keep their values and order. |
| Scenarios.ExampleTableCells | SpreadsheetCell.class.js:294-299 | Filled in step from A1, the table [[1, 2], [3, 4]] puts 1, 2 in A1, B1 and 3, 4 in A2, B2. |
| Scenarios.FillTableFromA1 | SpreadsheetCell.class.js:294-299 | Filling [[1, 2], [3, 4]] from A1 writes 1, 2 to A1, B1 and 3, 4 to A2, B2, and ends at A3. |
| Scenarios.FillColumnsOffAnchor | SpreadsheetCell.class.js:288-292 | From E3, anchored at C, filling x, y down writes x to E3 and y to C4, and ends at C5. |
| Scenarios.AddressWithoutRow | SpreadsheetCell.class.js:214-217 | From B2, assigning the address "D" moves to D2: the missing row is skipped. |
| Scenarios.AddressWithLeadingZero | SpreadsheetCell.class.js:214-217 | From B2, assigning the address "C03" moves to C3. |
| Scenarios.OverlayWins | SpreadsheetCell.class.js:103-108 | With bold in the overlay, applying italic leaves the font bold. |

## Left out

- **Console output.** The `console.log` of `mergeCells` (line 274) has no effect on the state.
- **Floating point.** `Math.pow` and `Math.floor` become exact integer arithmetic. The two agree on every column number below 2^53.
- ColumnCodec.ColumnToNumber: defined only on strings of letters A..Z. The original gives any other character the weight 0 (`indexOf` returns -1).
- Borders.BorderBox: requires letter-only column names for the same reason. Its default arguments (lines 33-36) are not modelled; every argument is explicit.
- **Cell references on a real worksheet.** `borderBox` looks cells up by address string (line 43). The model keys cells by (column number, row), and `AddressedColumn` shows the two agree.
- **Default arguments.** Every cursor method takes explicit arguments; defaults (`times = 1`, `columns = 0`, `exclude = []`, `format = {}`) are supplied by the caller.
- **Instance wrappers.** `columnToNumber` and `numberToColumn` on the instance (lines 77-83) only forward to the codec, so the codec functions stand for them.
- **The worksheet setter and `destroy`.** The setter (lines 89-95) can swap in any other object that has a `getCell`, or detach the worksheet with `null`; `destroy` (lines 309-316) detaches it and clears every other field. The model keeps one fixed, non-null worksheet for the cursor's whole life. So it captures neither a swapped worksheet nor the errors a detached one raises: the "worksheet not defined" error of the cell getter (line 99), and the failures of `mergeCells` (line 268) and `clone` (through line 67). After the setter detaches the worksheet, moves, the position setter, the address and the overlay operations do not touch it and work the same. After `destroy` they do not: it also clears the generator and the position (lines 312, 314), so moves and the address getter then throw (for example at lines 118 and 211). The model has no destroyed state.
- **The position getter's other traps.** The Proxy (lines 147-177) only reads the position and forwards assignments to `column` and `row`, modelled as `SetColumn` and `SetRow`. Its traps for other keys and for reflection have no effect on the state.
- Cursor.SpreadsheetCell.SetCellAddress: accepts exactly letters followed by digits. The original's global match also passes strays before, between or after the two runs (`$C$3`, ` C3`, `C-3` and `C3X` all read as C3). It reports a malformed address through whichever later check trips, or a TypeError when nothing matches; the model reports one `InvalidAddress`.
- **Cell values.** The original stores arbitrary script values; the model uses a closed `CellValue` (empty, text or integer).
- **Copies of style objects.** The original spreads each style into a fresh object (lines 106, 112). Style values here are immutable, so a copy cannot be told apart.
- **Aliasing of the overlay.** The formatting getter (lines 253-255) returns the live overlay object, which a caller could mutate. The model's overlay is a value.
- **Enumeration order.** The order in which `Object.entries` and `for … in` visit keys is taken as given. Keyed rows are ordered entry lists. Formats are maps, and writing their distinct keys in any order gives the same cell.
- **Input types.** Rows and counts are integers, and the type and truthiness checks the original does on them are not modelled beyond that.
- Cursor.SpreadsheetCell.MoveToNextColumn: states the new column by its number rather than by name. By `ColumnToNumberInjective`, that number names exactly one string of letters.
