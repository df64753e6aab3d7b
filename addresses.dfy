/**
 * Cell addresses: a column name followed by the row written in decimal
 * ("C3"), and the parse of such a string back into its two parts.
 */
module Addresses {
  import opened ColumnCodec
  import opened Results

  predicate IsDigitChar(c: char) {
    '0' <= c <= '9'
  }

  predicate AllDigits(s: string) {
    forall i :: 0 <= i < |s| ==> IsDigitChar(s[i])
  }

  function DigitChar(d: int): (c: char)
    requires 0 <= d < 10
    ensures IsDigitChar(c) && (c as int) - ('0' as int) == d
  {
    (('0' as int) + d) as char
  }

  /** The decimal numeral of a natural number, without leading zeros. */
  function NatToDecimal(n: nat): (s: string)
    ensures |s| >= 1 && AllDigits(s)
    ensures s[0] == '0' ==> n == 0
  {
    if n < 10 then [DigitChar(n)] else NatToDecimal(n / 10) + [DigitChar(n % 10)]
  }

  /** The way an integer is written into a template string: a minus sign before negatives. */
  function IntToDecimal(n: int): string {
    if n < 0 then "-" + NatToDecimal(-n) else NatToDecimal(n)
  }

  /**
   * The value of a string of decimal digits. Leading zeros do not count, so
   * a run of zeros, the empty run included, reads as 0.
   */
  function DecimalValue(s: string): (n: nat)
    requires AllDigits(s)
    ensures (forall i :: 0 <= i < |s| ==> s[i] == '0') ==> n == 0
    ensures |s| == 1 ==> n == (s[0] as int) - ('0' as int)
    decreases |s|
  {
    if s == [] then 0 else DecimalValue(s[..|s| - 1]) * 10 + ((s[|s| - 1] as int) - ('0' as int))
  }

  /** A leading zero does not change the value of a run of digits. */
  lemma {:induction false} DecimalValueLeadingZero(s: string)
    requires AllDigits(s)
    ensures DecimalValue("0" + s) == DecimalValue(s)
    decreases |s|
  {
    var t := "0" + s;
    if s == [] {
      assert t == "0";
    } else {
      DecimalValueLeadingZero(s[..|s| - 1]);
      assert t[..|t| - 1] == "0" + s[..|s| - 1];
      assert t[|t| - 1] == s[|s| - 1];
    }
  }

  /** Reading a numeral back gives the number it was written from. */
  lemma {:induction false} DecimalRoundTrip(n: nat)
    ensures DecimalValue(NatToDecimal(n)) == n
  {
    if n >= 10 {
      DecimalRoundTrip(n / 10);
      var s := NatToDecimal(n);
      assert s[..|s| - 1] == NatToDecimal(n / 10);
    }
  }

  /**
   * The address of the cell at a column and a row: the column, then the
   * canonical decimal numeral of the row (no leading zero), with a minus
   * sign before a negative row.
   */
  function Address(column: string, row: int): (a: string)
    ensures |a| > |column| && a[..|column|] == column
    ensures row >= 0 ==> AllDigits(a[|column|..])
    // the row is written as its canonical numeral, a minus sign before negatives
    ensures row >= 0 ==> a[|column|..] == NatToDecimal(row)
    ensures row < 0 ==> a[|column|..] == "-" + NatToDecimal(-row)
  {
    var a := column + IntToDecimal(row);
    assert a[..|column|] == column;
    assert a[|column|..] == IntToDecimal(row);
    a
  }

  /** The length of the run of letters A..Z at the start of `s`. */
  function LetterRun(s: string): (k: nat)
    ensures k <= |s| && AllLetters(s[..k])
    ensures k < |s| ==> !('A' <= s[k] <= 'Z')
  {
    if s != [] && 'A' <= s[0] <= 'Z' then
      var k := 1 + LetterRun(s[1..]);
      assert s[..k] == [s[0]] + s[1..][..k - 1];
      k
    else 0
  }

  /** An address split into its column letters and its row. */
  datatype ParsedAddress = ParsedAddress(column: string, row: nat)

  /**
   * Split an address into the leading run of letters and the digits that
   * follow it. A missing digit run reads as row 0; an address that does not
   * start with a letter, or has anything but digits after its letters, has
   * no parse.
   */
  function ParseAddress(s: string): (r: Option<ParsedAddress>)
    ensures r.Some? ==> IsColumn(r.value.column)
    ensures r.Some? ==> exists d :: AllDigits(d) && s == r.value.column + d && DecimalValue(d) == r.value.row
  {
    var k := LetterRun(s);
    var digits := s[k..];
    if k == 0 || !AllDigits(digits) then None
    else
      assert s == s[..k] + digits;
      Some(ParsedAddress(s[..k], DecimalValue(digits)))
  }

  /** The letter run of a column followed by digits is exactly the column. */
  lemma {:induction false} LetterRunOfAddress(column: string, digits: string)
    requires AllLetters(column) && AllDigits(digits)
    ensures LetterRun(column + digits) == |column|
    decreases |column|
  {
    if column != [] {
      assert (column + digits)[1..] == column[1..] + digits;
      LetterRunOfAddress(column[1..], digits);
    }
  }

  /**
   * Every column name followed by any run of digits parses, the digits read
   * as the row: an empty run or a run of zeros as row 0, leading zeros ignored.
   */
  lemma ParseLettersDigits(column: string, digits: string)
    requires IsColumn(column) && AllDigits(digits)
    ensures ParseAddress(column + digits) == Some(ParsedAddress(column, DecimalValue(digits)))
  {
    var s := column + digits;
    LetterRunOfAddress(column, digits);
    assert s[..|column|] == column;
    assert s[|column|..] == digits;
  }

  /** Parsing the address of a cell on a non-negative row gives back its column and row. */
  lemma ParseAddressRoundTrip(column: string, row: nat)
    requires IsColumn(column)
    ensures ParseAddress(Address(column, row)) == Some(ParsedAddress(column, row))
  {
    ParseLettersDigits(column, NatToDecimal(row));
    DecimalRoundTrip(row);
  }
}
