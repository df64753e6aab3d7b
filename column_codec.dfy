/**
 * Column names of a spreadsheet: bijective base-26 numerals written with the
 * letters A..Z, where A is 1 and Z is 26 and there is no digit for zero
 * (so Z is followed by AA).
 */
module ColumnCodec {

  /** Every character is an upper-case letter A..Z (the empty string included). */
  predicate AllLetters(s: string) {
    forall i :: 0 <= i < |s| ==> 'A' <= s[i] <= 'Z'
  }

  /** A well-formed column name: one or more letters A..Z. */
  predicate IsColumn(s: string) {
    |s| > 0 && AllLetters(s)
  }

  /** The weight of a letter: its index in the alphabet plus one. */
  function Digit(c: char): (d: int)
    requires 'A' <= c <= 'Z'
    ensures 1 <= d <= 26
  {
    (c as int) - ('A' as int) + 1
  }

  /** The letter whose index in the alphabet is `r`. */
  function Letter(r: int): (c: char)
    requires 0 <= r < 26
    ensures 'A' <= c <= 'Z' && Digit(c) == r + 1
  {
    (('A' as int) + r) as char
  }

  /** Exact integer powers, standing for the floating-point power of the original. */
  function Pow(b: nat, e: nat): nat {
    if e == 0 then 1 else b * Pow(b, e - 1)
  }

  /**
   * The column number of a string of letters, most significant letter first.
   * The empty string has number 0; every column name has a positive number.
   */
  function ColumnToNumber(s: string): (n: nat)
    requires AllLetters(s)
    ensures n == 0 <==> s == []
    decreases |s|
  {
    if s == [] then 0
    else ColumnToNumber(s[..|s| - 1]) * 26 + Digit(s[|s| - 1])
  }

  /**
   * The accumulator loop of the original: the letter at index i contributes
   * 26^j times its weight, where j counts down from |column| - 1.
   */
  method ColumnToNumberLoop(column: string) returns (result: nat)
    requires AllLetters(column)
    ensures result == ColumnToNumber(column)
  {
    result := 0;
    var i, j := 0, |column| - 1;
    while i < |column|
      invariant 0 <= i <= |column|
      invariant j == |column| - 1 - i
      invariant result == ColumnToNumber(column[..i]) * Pow(26, |column| - i)
    {
      var p := Pow(26, j);
      var d := Digit(column[i]);
      ghost var before := ColumnToNumber(column[..i]);
      ColumnToNumberPrefix(column, i);
      assert |column| - i == j + 1;
      assert Pow(26, j + 1) == 26 * p;
      ShiftDigit(before, d, p);
      result := result + p * d;
      assert result == ColumnToNumber(column[..i + 1]) * p;
      i, j := i + 1, j - 1;
    }
    assert column[..i] == column;
  }

  /** The number of a prefix one letter longer. */
  lemma ColumnToNumberPrefix(s: string, i: nat)
    requires AllLetters(s) && i < |s|
    ensures ColumnToNumber(s[..i + 1]) == ColumnToNumber(s[..i]) * 26 + Digit(s[i])
  {
    assert s[..i + 1][..i] == s[..i];
  }

  /** One step of the accumulator loop, as arithmetic. */
  lemma ShiftDigit(c: int, d: int, p: int)
    requires 0 <= d && 0 <= p
    ensures 0 <= p * d
    ensures c * (26 * p) + p * d == (c * 26 + d) * p
  {
  }

  /**
   * The column name of a number; the empty string for every number that is
   * not positive (the original returns "" there rather than failing). The
   * last letter has index (n - 1) % 26 and the rest names (n - 1) / 26.
   */
  function NumberToColumn(n: int): (s: string)
    ensures AllLetters(s)
    ensures s == [] <==> n <= 0
    decreases n
  {
    if n <= 0 then [] else NumberToColumn((n - 1) / 26) + [Letter((n - 1) % 26)]
  }

  /** The loop of the original: peel off the last letter while the number is positive. */
  method NumberToColumnLoop(n: int) returns (columnLetter: string)
    ensures columnLetter == NumberToColumn(n)
  {
    columnLetter := [];
    var number := n;
    while number > 0
      invariant NumberToColumn(number) + columnLetter == NumberToColumn(n)
      decreases number
    {
      var remainder := (number - 1) % 26;
      columnLetter := [Letter(remainder)] + columnLetter;
      DropLastLetter(number);
      number := (number - remainder) / 26;
    }
  }

  /** The original's quotient (n - remainder) / 26 is (n - 1) / 26. */
  lemma DropLastLetter(n: int)
    ensures (n - (n - 1) % 26) / 26 == (n - 1) / 26
  {
    var q, r := (n - 1) / 26, (n - 1) % 26;
    assert n - r == 26 * q + 1;
    DivModBase(q, 1);
  }

  /** Every positive number names a column, and reading that column back gives the number. */
  lemma {:induction false} NumberToColumnInverse(n: int)
    requires n >= 1
    ensures IsColumn(NumberToColumn(n))
    ensures ColumnToNumber(NumberToColumn(n)) == n
    decreases n
  {
    var q, r := (n - 1) / 26, (n - 1) % 26;
    assert n == 26 * q + r + 1;
    NumberToColumnStep(q, r + 1);
    var p := NumberToColumn(q);
    var s := NumberToColumn(n);
    assert s[..|s| - 1] == p;
    if q >= 1 {
      NumberToColumnInverse(q);
    }
    assert ColumnToNumber(s) == ColumnToNumber(p) * 26 + r + 1;
  }

  /** Appending the letter of weight d to the name of m names 26 * m + d. */
  lemma NumberToColumnStep(m: int, d: int)
    requires m >= 0 && 1 <= d <= 26
    ensures NumberToColumn(26 * m + d) == NumberToColumn(m) + [Letter(d - 1)]
  {
    var n := 26 * m + d;
    DivModBase(m, d - 1);
    DivModBase(m, 1);
    assert n - 1 == 26 * m + (d - 1);
    assert n - (d - 1) == 26 * m + 1;
  }

  /** Every string of letters is the name of its own number (the empty string that of 0). */
  lemma {:induction false} ColumnToNumberInverse(s: string)
    requires AllLetters(s)
    ensures NumberToColumn(ColumnToNumber(s)) == s
    decreases |s|
  {
    if s != [] {
      var p := s[..|s| - 1];
      var c := s[|s| - 1];
      assert s == p + [c];
      ColumnToNumberInverse(p);
      assert ColumnToNumber(s) == 26 * ColumnToNumber(p) + Digit(c);
      NumberToColumnStep(ColumnToNumber(p), Digit(c));
    }
  }

  /** Division by the base recovers quotient and remainder. */
  lemma DivModBase(q: int, r: int)
    requires 0 <= r < 26
    ensures (26 * q + r) / 26 == q && (26 * q + r) % 26 == r
  {
  }

  /** Two strings of letters with the same number are the same string. */
  lemma ColumnToNumberInjective(s: string, t: string)
    requires AllLetters(s) && AllLetters(t)
    requires ColumnToNumber(s) == ColumnToNumber(t)
    ensures s == t
  {
    ColumnToNumberInverse(s);
    ColumnToNumberInverse(t);
  }

  /**
   * Shift a column by `delta` columns: the column whose number is the sum when
   * that is positive, and the empty string otherwise.
   */
  function IncrementColumn(column: string, delta: int): (r: string)
    requires AllLetters(column)
    ensures AllLetters(r)
    ensures ColumnToNumber(column) + delta >= 1 ==>
              IsColumn(r) && ColumnToNumber(r) == ColumnToNumber(column) + delta
    ensures ColumnToNumber(column) + delta <= 0 ==> r == []
  {
    var n := ColumnToNumber(column) + delta;
    var r := NumberToColumn(n);
    assert n >= 1 ==> IsColumn(r) && ColumnToNumber(r) == n by {
      if n >= 1 {
        NumberToColumnInverse(n);
      }
    }
    r
  }

  /** Shifting by zero leaves a column as it is; shifting back undoes a shift. */
  lemma IncrementColumnInverse(column: string, delta: int)
    requires IsColumn(column)
    requires ColumnToNumber(column) + delta >= 1
    ensures IncrementColumn(column, 0) == column
    ensures IncrementColumn(IncrementColumn(column, delta), -delta) == column
  {
    ColumnToNumberInjective(IncrementColumn(column, 0), column);
    var shifted := IncrementColumn(column, delta);
    ColumnToNumberInjective(IncrementColumn(shifted, -delta), column);
  }

  /** Known values of the numbering. */
  lemma KnownColumns()
    ensures ColumnToNumber("A") == 1 && ColumnToNumber("Z") == 26
    ensures ColumnToNumber("AA") == 27 && ColumnToNumber("AZ") == 52
    ensures ColumnToNumber("BA") == 53
    ensures NumberToColumn(26) == "Z" && NumberToColumn(27) == "AA"
  {
    assert "AA"[..1] == "A";
    assert "AZ"[..1] == "A";
    assert "BA"[..1] == "B";
    NumberToColumnStep(0, 1);
    NumberToColumnStep(0, 26);
    NumberToColumnStep(1, 1);
    assert Letter(0) == 'A' && Letter(25) == 'Z';
  }
}
