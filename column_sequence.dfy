/**
 * The unbounded column sequence c, c+1, c+2, ... of the original, as a value:
 * the generator is the number of the column it yields next.
 */
module ColumnSequence {
  import opened ColumnCodec

  /** The state of a column generator: the number of the next column to yield. */
  datatype ColumnGenerator = ColumnGenerator(start: int)

  /** A fresh generator whose first draw is `column` itself. */
  function Generate(column: string): (g: ColumnGenerator)
    requires AllLetters(column)
    ensures Next(g).0 == column
    ensures g.start >= 0 && (IsColumn(column) ==> g.start >= 1)
  {
    ColumnToNumberInverse(column);
    ColumnGenerator(ColumnToNumber(column))
  }

  /** One draw: the column named by the counter, and the generator moved one column on. */
  function Next(g: ColumnGenerator): (r: (string, ColumnGenerator))
    ensures r.1.start == g.start + 1
    ensures g.start >= 1 ==> IsColumn(r.0) && ColumnToNumber(r.0) == g.start
    ensures g.start <= 0 ==> r.0 == []
  {
    var c := NumberToColumn(g.start);
    assert g.start >= 1 ==> ColumnToNumber(c) == g.start by {
      if g.start >= 1 {
        NumberToColumnInverse(g.start);
      }
    }
    (c, ColumnGenerator(g.start + 1))
  }

  /** The first `k` draws of a generator, in order. */
  function Draws(g: ColumnGenerator, k: nat): (r: seq<string>)
    ensures |r| == k
    decreases k
  {
    if k == 0 then [] else [Next(g).0] + Draws(Next(g).1, k - 1)
  }

  /** The generator left after `k` draws. */
  function Advance(g: ColumnGenerator, k: nat): (h: ColumnGenerator)
    ensures h.start == g.start + k
    decreases k
  {
    if k == 0 then g else Advance(Next(g).1, k - 1)
  }

  /** Draw number i + 1 of a generator names the column i places after its counter. */
  lemma {:induction false} DrawsAt(g: ColumnGenerator, k: nat, i: nat)
    requires i < k
    ensures Draws(g, k)[i] == NumberToColumn(g.start + i)
    decreases k
  {
    if i > 0 {
      DrawsAt(Next(g).1, k - 1, i - 1);
    }
  }

  /**
   * Started at a column c, the k-th draw (k = i + 1) is the column whose
   * number is that of c plus i: the sequence c, c+1, c+2, ...
   */
  lemma SequenceFromColumn(column: string, k: nat, i: nat)
    requires IsColumn(column) && i < k
    ensures IsColumn(Draws(Generate(column), k)[i])
    ensures ColumnToNumber(Draws(Generate(column), k)[i]) == ColumnToNumber(column) + i
    ensures Advance(Generate(column), k).start == ColumnToNumber(column) + k
  {
    DrawsAt(Generate(column), k, i);
    NumberToColumnInverse(ColumnToNumber(column) + i);
  }
}
