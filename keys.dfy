/**
 * Board cells are addressed by string keys of the form "row-col", built with a
 * template literal `${row}-${col}` and parsed back with split("-").map(Number).
 * This module models both directions on non-negative integers.
 */
module Keys {

  datatype Option<T> = None | Some(value: T)

  /** A board cell: row and column as parsed from a key. */
  datatype Pos = Pos(row: nat, col: nat)

  predicate IsDigit(c: char) {
    '0' <= c <= '9'
  }

  predicate AllDigits(s: string) {
    forall i :: 0 <= i < |s| ==> IsDigit(s[i])
  }

  function DigitChar(d: nat): (c: char)
    requires d < 10
    ensures IsDigit(c) && c as int - '0' as int == d
  {
    (48 + d) as char
  }

  function DigitValue(c: char): nat
    requires IsDigit(c)
  {
    c as int - '0' as int
  }

  /** The decimal text of a number, as `${n}` renders it: no sign, no leading zeros. */
  function Decimal(n: nat): (s: string)
    ensures |s| > 0 && AllDigits(s)
    ensures |s| > 1 ==> s[0] != '0'
  {
    if n < 10 then [DigitChar(n)] else Decimal(n / 10) + [DigitChar(n % 10)]
  }

  /** Number(s) for a string of decimal digits (leading zeros allowed). */
  function DecimalValue(s: string): nat
    requires AllDigits(s)
  {
    if s == [] then 0 else DecimalValue(s[..|s| - 1]) * 10 + DigitValue(s[|s| - 1])
  }

  lemma {:induction false} DecimalRoundTrip(n: nat)
    ensures DecimalValue(Decimal(n)) == n
  {
    if n >= 10 {
      var s := Decimal(n);
      assert s[..|s| - 1] == Decimal(n / 10);
      DecimalRoundTrip(n / 10);
    }
  }

  /** The key of a cell, `${row}-${col}`. */
  function Key(row: nat, col: nat): string {
    Decimal(row) + "-" + Decimal(col)
  }

  /** The index of the first '-' in s, or |s| when there is none. */
  function DashIndex(s: string): (i: nat)
    ensures i <= |s|
    ensures i < |s| ==> s[i] == '-'
    ensures forall j :: 0 <= j < i ==> s[j] != '-'
  {
    if s == [] then 0 else if s[0] == '-' then 0 else 1 + DashIndex(s[1..])
  }

  /**
   * split("-").map(Number) on a well-formed key "digits-digits". Other strings
   * (no dash, an empty part, a sign, a second dash, a non-digit) give None;
   * Number reads several of them its own way (an empty part as 0, a third
   * part dropped, blanks, hex), which this model does not follow.
   */
  function ParseKey(s: string): Option<Pos> {
    var d := DashIndex(s);
    if 0 < d && d + 1 < |s| && AllDigits(s[..d]) && AllDigits(s[d + 1..]) then
      Some(Pos(DecimalValue(s[..d]), DecimalValue(s[d + 1..])))
    else
      None
  }

  predicate IsKey(s: string) {
    ParseKey(s).Some?
  }

  /** The row and column of a well-formed key. */
  function Row(s: string): nat
    requires IsKey(s)
  {
    ParseKey(s).value.row
  }

  function Col(s: string): nat
    requires IsKey(s)
  {
    ParseKey(s).value.col
  }

  lemma {:induction false} DashAfterDigits(a: string, b: string)
    requires AllDigits(a)
    ensures DashIndex(a + "-" + b) == |a|
  {
    if a != [] {
      assert (a + "-" + b)[1..] == a[1..] + "-" + b;
      DashAfterDigits(a[1..], b);
    }
  }

  /** A key built from a cell parses back to that cell. */
  lemma ParseKeyOfKey(row: nat, col: nat)
    ensures ParseKey(Key(row, col)) == Some(Pos(row, col))
    ensures IsKey(Key(row, col)) && Row(Key(row, col)) == row && Col(Key(row, col)) == col
  {
    var a, b := Decimal(row), Decimal(col);
    var s := Key(row, col);
    DashAfterDigits(a, b);
    assert s[..|a|] == a;
    assert s[|a| + 1..] == b;
    DecimalRoundTrip(row);
    DecimalRoundTrip(col);
  }

  /** Distinct cells have distinct keys. */
  lemma KeyInjective(r1: nat, c1: nat, r2: nat, c2: nat)
    requires Key(r1, c1) == Key(r2, c2)
    ensures r1 == r2 && c1 == c2
  {
    ParseKeyOfKey(r1, c1);
    ParseKeyOfKey(r2, c2);
  }

}
