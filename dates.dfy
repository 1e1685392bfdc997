/**
  Calendar dates as the codec writes and reads them: `getDateString` keeps the
  date part of `toISOString()`, and the decoder turns a `YYYY-MM-DD` token value
  back into a date with `new Date(value)`.
 */
module Dates {
  import opened Wrappers

  /** A proleptic Gregorian calendar date; month and day count from 1. */
  datatype Date = Date(year: int, month: int, day: int)

  predicate IsLeapYear(y: int) {
    (y % 4 == 0 && y % 100 != 0) || y % 400 == 0
  }

  function DaysInMonth(y: int, m: int): (n: int)
    requires 1 <= m <= 12
    ensures 28 <= n <= 31
    ensures m == 2 <==> n < 30
  {
    if m == 2 then (if IsLeapYear(y) then 29 else 28)
    else if m == 4 || m == 6 || m == 9 || m == 11 then 30
    else 31
  }

  /** A real day of a year that ISO 8601 writes with four digits. */
  predicate IsCalendarDate(d: Date) {
    && 0 <= d.year <= 9999
    && 1 <= d.month <= 12
    && 1 <= d.day <= DaysInMonth(d.year, d.month)
  }

  type CalendarDate = d: Date | IsCalendarDate(d) witness Date(1970, 1, 1)

  // ---------------------------------------------------------------------------
  // Fixed-width decimal numerals

  predicate IsDigit(c: char) {
    '0' <= c <= '9'
  }

  predicate AllDigits(s: string) {
    forall i :: 0 <= i < |s| ==> IsDigit(s[i])
  }

  function DigitChar(n: nat): (c: char)
    requires n < 10
    ensures IsDigit(c)
  {
    (48 + n) as char
  }

  function Pow10(w: nat): (p: nat)
    ensures p >= 1
  {
    if w == 0 then 1 else 10 * Pow10(w - 1)
  }

  /** `n` written in decimal with exactly `width` digits, zero-padded on the left. */
  function Pad(n: nat, width: nat): (r: string)
    ensures |r| == width && AllDigits(r)
  {
    if width == 0 then [] else Pad(n / 10, width - 1) + [DigitChar(n % 10)]
  }

  /** The number a string of decimal digits denotes. */
  function DigitsValue(s: string): (v: nat)
    requires AllDigits(s)
    ensures v < Pow10(|s|)
  {
    if |s| == 0 then 0
    else DigitsValue(s[..|s| - 1]) * 10 + (s[|s| - 1] as int - 48)
  }

  /** Reading back a padded numeral gives the number, when it fits the width. */
  lemma {:induction false} DigitsOfPad(n: nat, width: nat)
    requires n < Pow10(width)
    ensures DigitsValue(Pad(n, width)) == n
  {
    if width > 0 {
      var r := Pad(n, width);
      assert r[..width - 1] == Pad(n / 10, width - 1);
      DigitsOfPad(n / 10, width - 1);
    }
  }

  /** Writing the value of a digit string back at its own width gives the string. */
  lemma {:induction false} PadOfDigits(s: string)
    requires AllDigits(s)
    ensures Pad(DigitsValue(s), |s|) == s
  {
    if |s| > 0 {
      var init := s[..|s| - 1];
      PadOfDigits(init);
      var v := DigitsValue(s);
      assert v / 10 == DigitsValue(init);
      assert s == init + [s[|s| - 1]];
    }
  }

  // ---------------------------------------------------------------------------
  // getDateString and its inverse

  /** `date.toISOString().split("T")[0]`: the calendar date as `YYYY-MM-DD`. */
  function DateString(d: CalendarDate): (r: string)
    ensures |r| == 10 && r[4] == '-' && r[7] == '-'
    ensures AllDigits(r[..4]) && AllDigits(r[5..7]) && AllDigits(r[8..])
  {
    var r := Pad(d.year, 4) + "-" + Pad(d.month, 2) + "-" + Pad(d.day, 2);
    assert r[..4] == Pad(d.year, 4) && r[5..7] == Pad(d.month, 2) && r[8..] == Pad(d.day, 2);
    r
  }

  /**
    `new Date(s)` for the one textual form the codec writes: `YYYY-MM-DD`
    naming a real calendar day. Any other text yields no date.
   */
  function ParseIsoDate(s: string): (r: Option<CalendarDate>)
    ensures r.Some? ==> DateString(r.value) == s
  {
    if |s| == 10 && s[4] == '-' && s[7] == '-'
       && AllDigits(s[..4]) && AllDigits(s[5..7]) && AllDigits(s[8..])
    then
      var d := Date(DigitsValue(s[..4]), DigitsValue(s[5..7]), DigitsValue(s[8..]));
      if IsCalendarDate(d) then
        PadOfDigits(s[..4]);
        PadOfDigits(s[5..7]);
        PadOfDigits(s[8..]);
        assert s == s[..4] + "-" + s[5..7] + "-" + s[8..];
        Some(d)
      else None
    else None
  }

  /** The ISO form of a date parses back to that date. */
  lemma ParseDateString(d: CalendarDate)
    ensures ParseIsoDate(DateString(d)) == Some(d)
  {
    var s := DateString(d);
    assert Pow10(2) == 100 && Pow10(4) == 10000;
    assert s[..4] == Pad(d.year, 4) && s[5..7] == Pad(d.month, 2) && s[8..] == Pad(d.day, 2);
    DigitsOfPad(d.year, 4);
    DigitsOfPad(d.month, 2);
    DigitsOfPad(d.day, 2);
  }

  /** Distinct dates have distinct ISO forms. */
  lemma DateStringInjective(d1: CalendarDate, d2: CalendarDate)
    requires DateString(d1) == DateString(d2)
    ensures d1 == d2
  {
    ParseDateString(d1);
    ParseDateString(d2);
  }

  lemma {:induction false} PadStep(n: nat, width: nat, init: string, c: char)
    requires width > 0 && Pad(n / 10, width - 1) == init && DigitChar(n % 10) == c
    ensures Pad(n, width) == init + [c]
  {
  }

  /** The month and day are zero-padded to two digits, as in `2024-03-01`. */
  lemma {:induction false} ExampleDate()
    ensures DateString(Date(2024, 3, 1)) == "2024-03-01"
  {
    assert Pad(0, 0) == [];
    PadStep(2, 1, [], '2');
    PadStep(20, 2, "2", '0');
    PadStep(202, 3, "20", '2');
    PadStep(2024, 4, "202", '4');
    PadStep(0, 1, [], '0');
    PadStep(3, 2, "0", '3');
    PadStep(1, 2, "0", '1');
    assert Pad(2024, 4) == "2024" && Pad(3, 2) == "03" && Pad(1, 2) == "01";
  }
}
