/** The part of Go's `strconv` package that the parsers and the URL builder
    use: `ParseInt(s, 10, 32)` and `Itoa` on positive numbers. */
module Strconv {
  import opened Wrappers

  predicate IsDigit(c: char) { '0' <= c <= '9' }

  predicate AllDigits(s: string) {
    forall i :: 0 <= i < |s| ==> IsDigit(s[i])
  }

  function DigitValue(c: char): nat
    requires IsDigit(c)
  {
    (c as int) - ('0' as int)
  }

  function Digit(d: nat): (c: char)
    requires d < 10
    ensures IsDigit(c) && DigitValue(c) == d
  {
    (('0' as int) + d) as char
  }

  /** The number a string of decimal digits denotes (0 for the empty string). */
  function DigitsValue(s: string): nat
    requires AllDigits(s)
  {
    if |s| == 0 then 0 else DigitsValue(s[..|s| - 1]) * 10 + DigitValue(s[|s| - 1])
  }

  const MinInt32: int := -0x8000_0000
  const MaxInt32: int := 0x7FFF_FFFF

  /** The two errors strconv.ParseInt reports: ErrSyntax and ErrRange. */
  datatype NumError = ErrSyntax | ErrRange

  /** The digits after an optional leading sign. */
  function Unsigned(s: string): string {
    if |s| > 0 && (s[0] == '+' || s[0] == '-') then s[1..] else s
  }

  /** What strconv.ParseInt accepts in base 10: an optional sign followed
      by at least one decimal digit (no grouping, no white space). */
  predicate IsIntegerText(s: string) {
    |Unsigned(s)| > 0 && AllDigits(Unsigned(s))
  }

  /** The number an integer text denotes: its digits' value, negated when
      the text starts with a minus sign. */
  function TextValue(s: string): int
    requires IsIntegerText(s)
  {
    var magnitude: int := DigitsValue(Unsigned(s));
    if s[0] == '-' then -magnitude else magnitude
  }

  /** strconv.ParseInt(s, 10, 32): a syntax error for anything but an
      integer text, a range error for an integer text outside 32 bits, and
      otherwise the number the text denotes. */
  function ParseInt32(s: string): (r: Result<int, NumError>)
    ensures r == Failure(ErrSyntax) <==> !IsIntegerText(s)
    ensures r == Failure(ErrRange) <==> IsIntegerText(s) && !(MinInt32 <= TextValue(s) <= MaxInt32)
    ensures r.Success? ==> IsIntegerText(s) && r.value == TextValue(s)
    ensures r.Success? ==> MinInt32 <= r.value <= MaxInt32
  {
    var digits := Unsigned(s);
    if |digits| == 0 || !AllDigits(digits) then Failure(ErrSyntax)
    else
      var magnitude: int := DigitsValue(digits);
      var v := if s[0] == '-' then -magnitude else magnitude;
      if v < MinInt32 || MaxInt32 < v then Failure(ErrRange) else Success(v)
  }

  /** strconv.Itoa on a positive number: a non-empty string of digits
      without sign or leading zero that denotes the number. */
  function Itoa(n: int): (r: string)
    requires n > 0
    ensures |r| >= 1 && AllDigits(r) && r[0] != '0'
    ensures DigitsValue(r) == n
    decreases n
  {
    if n < 10 then [Digit(n)]
    else
      var head := Itoa(n / 10);
      var r := head + [Digit(n % 10)];
      assert r[..|r| - 1] == head;
      r
  }

  /** Writing 10n + d is writing n followed by the digit d. */
  lemma ItoaAppend(n: int, d: nat)
    requires n > 0 && d < 10
    ensures Itoa(10 * n + d) == Itoa(n) + [Digit(d)]
  {
    assert (10 * n + d) / 10 == n && (10 * n + d) % 10 == d;
  }

  /** Parsing what Itoa renders gives the number back. */
  lemma ParseInt32OfItoa(n: int)
    requires 0 < n <= MaxInt32
    ensures ParseInt32(Itoa(n)) == Success(n)
  {
    var s := Itoa(n);
    assert IsDigit(s[0]);
    assert Unsigned(s) == s;
  }

  /** A negative number written with a minus sign parses back too. */
  lemma ParseInt32OfNegative(n: int)
    requires 0 < n <= -MinInt32
    ensures ParseInt32("-" + Itoa(n)) == Success(-n)
  {
    var s := "-" + Itoa(n);
    assert Unsigned(s) == Itoa(n);
  }
}
