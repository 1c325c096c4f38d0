/** Calendar dates as Go's `time.Parse` produces them for the one layout the
    parsers use, "02.01.2006": two-digit day, '.', two-digit month, '.',
    four-digit year, nothing else. Time of day, zones and the monotonic
    clock play no part, so a time.Time is its (year, month, day). */
module GoTime {
  import opened Wrappers
  import opened Strconv

  datatype Date = Date(year: int, month: int, day: int)

  /** The zero time.Time, January 1 of year 1. */
  const ZeroTime: Date := Date(1, 1, 1)

  /** Gregorian leap years, as Go's calendar counts them. */
  predicate IsLeapYear(year: int) {
    year % 4 == 0 && (year % 100 != 0 || year % 400 == 0)
  }

  function DaysIn(month: int, year: int): (n: int)
    requires 1 <= month <= 12
    ensures 28 <= n <= 31
    ensures n == 29 <==> month == 2 && IsLeapYear(year)
  {
    if month == 2 then (if IsLeapYear(year) then 29 else 28)
    else if month == 4 || month == 6 || month == 9 || month == 11 then 30
    else 31
  }

  predicate ValidDate(d: Date) {
    1 <= d.month <= 12 && 1 <= d.day <= DaysIn(d.month, d.year)
  }

  /** The dates the layout can write: a valid date with a four-digit year. */
  predicate Writable(d: Date) {
    ValidDate(d) && 0 <= d.year <= 9999
  }

  /** The reasons time.Parse gives for rejecting a value. */
  datatype DateError = BadFormat | MonthOutOfRange | DayOutOfRange

  predicate DigitsAt(s: string, from: nat, n: nat) {
    from + n <= |s| && AllDigits(s[from..from + n])
  }

  /** time.Parse("02.01.2006", value). The layout is matched left to right;
      a month outside 1..12 is reported as soon as it is read, a day outside
      the month only once the whole value has matched. */
  function Parse(value: string): (r: Result<Date, DateError>)
    ensures r.Success? <==> |value| == 10 && value[2] == '.' && value[5] == '.'
                            && DigitsAt(value, 0, 2) && DigitsAt(value, 3, 2) && DigitsAt(value, 6, 4)
                            && ValidDate(Date(DigitsValue(value[6..10]), DigitsValue(value[3..5]), DigitsValue(value[0..2])))
    ensures r.Success? ==> Writable(r.value)
  {
    if !DigitsAt(value, 0, 2) then Failure(BadFormat)
    else if !(|value| > 2 && value[2] == '.') then Failure(BadFormat)
    else if !DigitsAt(value, 3, 2) then Failure(BadFormat)
    else
      var month := DigitsValue(value[3..5]);
      if month < 1 || 12 < month then Failure(MonthOutOfRange)
      else if !(|value| > 5 && value[5] == '.') then Failure(BadFormat)
      else if !DigitsAt(value, 6, 4) then Failure(BadFormat)
      else if |value| != 10 then Failure(BadFormat)
      else
        var day := DigitsValue(value[0..2]);
        var year := DigitsValue(value[6..10]);
        if day < 1 || DaysIn(month, year) < day then Failure(DayOutOfRange)
        else
          assert year <= 9999 by { DigitsBound(value[6..10]); }
          Success(Date(year, month, day))
  }

  lemma {:induction false} DigitsBound(s: string)
    requires AllDigits(s)
    ensures DigitsValue(s) < Pow10(|s|)
  {
    if |s| > 0 {
      DigitsBound(s[..|s| - 1]);
    }
  }

  function Pow10(n: nat): nat {
    if n == 0 then 1 else 10 * Pow10(n - 1)
  }

  /** Two digits with a leading zero, as the layout's "02" and "01" write them. */
  function Pad2(n: nat): (r: string)
    requires n < 100
    ensures |r| == 2 && AllDigits(r) && DigitsValue(r) == n
  {
    var r := [Digit(n / 10), Digit(n % 10)];
    TwoDigitsValue(r);
    r
  }

  /** Four digits with leading zeros, as the layout's "2006" writes them. */
  function Pad4(n: nat): (r: string)
    requires n < 10000
    ensures |r| == 4 && AllDigits(r) && DigitsValue(r) == n
  {
    var r := Pad2(n / 100) + Pad2(n % 100);
    assert r[..3][..2] == Pad2(n / 100);
    assert r[..3] == Pad2(n / 100) + [r[2]];
    r
  }

  /** time.Time.Format("02.01.2006"), the inverse of Parse. */
  function Format(d: Date): (r: string)
    requires Writable(d)
    ensures |r| == 10
  {
    Pad2(d.day) + "." + Pad2(d.month) + "." + Pad4(d.year)
  }

  /** Every date the layout can write parses back to itself. */
  lemma ParseOfFormat(d: Date)
    requires Writable(d)
    ensures Parse(Format(d)) == Success(d)
  {
    var s := Format(d);
    assert s[0..2] == Pad2(d.day);
    assert s[3..5] == Pad2(d.month);
    assert s[6..10] == Pad4(d.year);
  }

  /** Every accepted value is the one way of writing its date: the layout
      admits no variant spellings (no padding, no signs, no extra text). */
  lemma FormatOfParse(value: string)
    requires Parse(value).Success?
    ensures Format(Parse(value).value) == value
  {
    var d := Parse(value).value;
    DigitsOfValue(value[0..2], d.day);
    DigitsOfValue(value[3..5], d.month);
    DigitsOfValue(value[6..10], d.year);
    assert Pad2(d.day) == value[0..2];
    assert Pad2(d.month) == value[3..5];
    assert Pad4(d.year) == value[6..10];
    assert value == value[0..2] + [value[2]] + value[3..5] + [value[5]] + value[6..10];
  }

  /** Fixed-width digit strings are determined by their value. */
  lemma DigitsOfValue(s: string, n: nat)
    requires (|s| == 2 || |s| == 4) && AllDigits(s) && DigitsValue(s) == n
    ensures |s| == 2 ==> n < 100 && Pad2(n) == s
    ensures |s| == 4 ==> n < 10000 && Pad4(n) == s
  {
    if |s| == 2 {
      TwoDigits(s);
    } else {
      FourDigits(s);
    }
  }

  lemma FourDigits(s: string)
    requires |s| == 4 && AllDigits(s)
    ensures DigitsValue(s) < 10000 && Pad4(DigitsValue(s)) == s
  {
    var hi, lo := s[..2], s[2..];
    assert s == hi + lo;
    DigitsConcat(hi, lo);
    TwoDigits(hi);
    TwoDigits(lo);
    var h, l := DigitsValue(hi), DigitsValue(lo);
    SplitHundreds(h, l);
    var n := h * 100 + l;
    assert Pad4(n) == Pad2(n / 100) + Pad2(n % 100);
  }

  lemma SplitHundreds(h: nat, l: nat)
    requires h < 100 && l < 100
    ensures h * 100 + l < 10000
    ensures (h * 100 + l) / 100 == h && (h * 100 + l) % 100 == l
  {
  }

  lemma TwoDigits(s: string)
    requires |s| == 2 && AllDigits(s)
    ensures DigitsValue(s) < 100 && Pad2(DigitsValue(s)) == s
  {
    TwoDigitsValue(s);
    var n := DigitsValue(s);
    assert Digit(n / 10) == s[0];
    assert Digit(n % 10) == s[1];
  }

  lemma DigitsAppend(s: string, c: char)
    requires AllDigits(s) && IsDigit(c)
    ensures AllDigits(s + [c]) && DigitsValue(s + [c]) == DigitsValue(s) * 10 + DigitValue(c)
  {
    assert (s + [c])[..|s|] == s;
  }

  lemma TwoDigitsValue(s: string)
    requires |s| == 2 && AllDigits(s)
    ensures DigitsValue(s) == DigitValue(s[0]) * 10 + DigitValue(s[1])
  {
    DigitsAppend([], s[0]);
    DigitsAppend([s[0]], s[1]);
    assert s == [] + [s[0]] + [s[1]];
  }

  lemma DigitsConcat(hi: string, lo: string)
    requires |lo| == 2 && AllDigits(hi) && AllDigits(lo)
    ensures AllDigits(hi + lo) && DigitsValue(hi + lo) == DigitsValue(hi) * 100 + DigitsValue(lo)
  {
    DigitsAppend(hi, lo[0]);
    DigitsAppend(hi + [lo[0]], lo[1]);
    assert hi + lo == hi + [lo[0]] + [lo[1]];
    TwoDigitsValue(lo);
  }
}
