/**
 * Calendar dates as the tools receive them: `YYYY-MM-DD` text parsed into a
 * day of the proleptic Gregorian calendar, compared lexicographically.
 */
module Dates {
  import opened Outcomes

  datatype DateFields = DateFields(year: int, month: int, day: int)

  const MinYear := 1
  const MaxYear := 9999

  predicate IsLeapYear(year: int) {
    year % 4 == 0 && (year % 100 != 0 || year % 400 == 0)
  }

  function DaysInMonth(year: int, month: int): (n: int)
    requires 1 <= month <= 12
    ensures 28 <= n <= 31
  {
    if month == 2 then (if IsLeapYear(year) then 29 else 28)
    else if month == 4 || month == 6 || month == 9 || month == 11 then 30
    else 31
  }

  predicate IsCalendarDate(d: DateFields) {
    && MinYear <= d.year <= MaxYear
    && 1 <= d.month <= 12
    && 1 <= d.day <= DaysInMonth(d.year, d.month)
  }

  /** A real calendar day, as a date column holds it. */
  type Date = d: DateFields | IsCalendarDate(d) witness DateFields(1, 1, 1)

  /** `a <= b`: year, then month, then day. */
  predicate NotAfter(a: Date, b: Date) {
    || a.year < b.year
    || (a.year == b.year && (a.month < b.month || (a.month == b.month && a.day <= b.day)))
  }

  /** The inclusive range test `lo <= d <= hi` of every date-range query. */
  predicate InRange(d: Date, lo: Date, hi: Date) {
    NotAfter(lo, d) && NotAfter(d, hi)
  }

  lemma NotAfterIsTotalOrder(a: Date, b: Date, c: Date)
    ensures NotAfter(a, a)
    ensures NotAfter(a, b) || NotAfter(b, a)
    ensures NotAfter(a, b) && NotAfter(b, a) ==> a == b
    ensures NotAfter(a, b) && NotAfter(b, c) ==> NotAfter(a, c)
  {
  }

  // ---- decimal digits ----

  predicate IsDigit(c: char) { '0' <= c <= '9' }

  predicate AllDigits(s: string) {
    forall i :: 0 <= i < |s| ==> IsDigit(s[i])
  }

  function DigitValue(c: char): int
    requires IsDigit(c)
  {
    c as int - '0' as int
  }

  function DigitChar(n: int): char
    requires 0 <= n < 10
  {
    ('0' as int + n) as char
  }

  function Pow10(n: nat): nat {
    if n == 0 then 1 else 10 * Pow10(n - 1)
  }

  /** The number a string of decimal digits denotes. */
  function Decimal(s: string): nat
    requires AllDigits(s)
  {
    if s == [] then 0 else Decimal(s[..|s| - 1]) * 10 + DigitValue(s[|s| - 1])
  }

  /** `n` written in exactly `width` digits, zero-padded on the left. */
  function Padded(n: nat, width: nat): (s: string)
    ensures |s| == width && AllDigits(s)
  {
    if width == 0 then [] else Padded(n / 10, width - 1) + [DigitChar(n % 10)]
  }

  lemma {:induction false} DecimalOfPadded(n: nat, width: nat)
    requires n < Pow10(width)
    ensures Decimal(Padded(n, width)) == n
  {
    if width > 0 {
      assert n / 10 < Pow10(width - 1);
      DecimalOfPadded(n / 10, width - 1);
      var s := Padded(n, width);
      assert s[..|s| - 1] == Padded(n / 10, width - 1);
    }
  }

  lemma {:induction false} PaddedOfDecimal(s: string)
    requires AllDigits(s)
    ensures Padded(Decimal(s), |s|) == s
  {
    if s != [] {
      var init := s[..|s| - 1];
      assert AllDigits(init);
      PaddedOfDecimal(init);
      var n := Decimal(s);
      assert n == Decimal(init) * 10 + DigitValue(s[|s| - 1]);
      assert n / 10 == Decimal(init) && n % 10 == DigitValue(s[|s| - 1]);
      assert s == init + [s[|s| - 1]];
    }
  }

  // ---- ISO 8601 calendar-date text ----

  /**
   * `date.fromisoformat` on the `YYYY-MM-DD` form: ten characters, dashes at
   * positions 4 and 7, digits elsewhere, and the fields must name a real day.
   */
  function ParseDate(s: string): Option<Date> {
    if |s| == 10 && s[4] == '-' && s[7] == '-'
       && AllDigits(s[..4]) && AllDigits(s[5..7]) && AllDigits(s[8..])
    then
      var d := DateFields(Decimal(s[..4]), Decimal(s[5..7]), Decimal(s[8..]));
      if IsCalendarDate(d) then Some(d) else None
    else None
  }

  /** `date.isoformat()`. */
  function FormatDate(d: Date): (s: string)
    ensures |s| == 10
  {
    Padded(d.year, 4) + "-" + Padded(d.month, 2) + "-" + Padded(d.day, 2)
  }

  /** Both bounds of a date-range query; either one failing to parse fails the query. */
  function ParseRange(startText: string, endText: string): Option<(Date, Date)> {
    match ParseDate(startText)
    case None => None
    case Some(lo) =>
      match ParseDate(endText)
      case None => None
      case Some(hi) => Some((lo, hi))
  }

  /** Every date survives being written out and read back. */
  lemma FormatThenParse(d: Date)
    ensures ParseDate(FormatDate(d)) == Some(d)
  {
    var s := FormatDate(d);
    assert Pow10(2) == 100 && Pow10(4) == 10000;
    assert s[..4] == Padded(d.year, 4);
    assert s[5..7] == Padded(d.month, 2);
    assert s[8..] == Padded(d.day, 2);
    DecimalOfPadded(d.year, 4);
    DecimalOfPadded(d.month, 2);
    DecimalOfPadded(d.day, 2);
  }

  /** The only text that parses to a date is that date's own rendering. */
  lemma ParseThenFormat(s: string)
    requires ParseDate(s).Some?
    ensures FormatDate(ParseDate(s).value) == s
  {
    PaddedOfDecimal(s[..4]);
    PaddedOfDecimal(s[5..7]);
    PaddedOfDecimal(s[8..]);
    assert s == s[..4] + "-" + s[5..7] + "-" + s[8..];
  }

  /** Both directions at once: `s` parses to `d` exactly when `s` is `d` written out. */
  lemma ParseDateExactly(s: string, d: Date)
    ensures ParseDate(s) == Some(d) <==> s == FormatDate(d)
  {
    FormatThenParse(d);
    if ParseDate(s) == Some(d) {
      ParseThenFormat(s);
    }
  }

  /** A range query accepts exactly the two bounds written out as dates, and reads them back as those dates. */
  lemma ParseRangeExactly(startText: string, endText: string, lo: Date, hi: Date)
    ensures ParseRange(startText, endText) == Some((lo, hi))
        <==> startText == FormatDate(lo) && endText == FormatDate(hi)
  {
    ParseDateExactly(startText, lo);
    ParseDateExactly(endText, hi);
  }
}
