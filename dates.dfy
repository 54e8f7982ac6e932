/** The parts of java.time the core relies on: ISO (proleptic Gregorian) dates, times of day,
    their lexicographic order, month lengths and `YearMonth.parse`. */
module Dates {
  import opened Wrappers

  datatype LocalDate = LocalDate(year: int, month: int, day: int)
  datatype LocalTime = LocalTime(hour: int, minute: int, second: int, nano: int)
  datatype LocalDateTime = LocalDateTime(date: LocalDate, time: LocalTime)
  datatype YearMonth = YearMonth(year: int, month: int)

  const MinYear: int := -999_999_999
  const MaxYear: int := 999_999_999

  /** `LocalTime.MIDNIGHT` and `LocalTime.MAX` (23:59:59.999999999). */
  const Midnight: LocalTime := LocalTime(0, 0, 0, 0)
  const MaxTime: LocalTime := LocalTime(23, 59, 59, 999_999_999)

  /** `IsoChronology.isLeapYear`: divisible by 4, and not by 100 unless by 400. Only zero tests
      of remainders are used, so Java's truncating `%` and Dafny's Euclidean `%` agree here. */
  predicate IsLeapYear(year: int) {
    year % 4 == 0 && (year % 100 != 0 || year % 400 == 0)
  }

  /** `Month.length(leapYear)`. */
  function LengthOfMonth(year: int, month: int): int {
    if month == 2 then (if IsLeapYear(year) then 29 else 28)
    else if month == 4 || month == 6 || month == 9 || month == 11 then 30
    else 31
  }

  predicate ValidYearMonth(ym: YearMonth) {
    MinYear <= ym.year <= MaxYear && 1 <= ym.month <= 12
  }

  predicate ValidDate(d: LocalDate) {
    ValidYearMonth(YearMonth(d.year, d.month)) && 1 <= d.day <= LengthOfMonth(d.year, d.month)
  }

  predicate ValidTime(t: LocalTime) {
    0 <= t.hour < 24 && 0 <= t.minute < 60 && 0 <= t.second < 60 && 0 <= t.nano < 1_000_000_000
  }

  predicate ValidDateTime(t: LocalDateTime) {
    ValidDate(t.date) && ValidTime(t.time)
  }

  /** `a.isBefore(b)` on dates: (year, month, day) compared lexicographically. */
  predicate DateIsBefore(a: LocalDate, b: LocalDate) {
    a.year < b.year
    || (a.year == b.year && (a.month < b.month || (a.month == b.month && a.day < b.day)))
  }

  predicate TimeIsBefore(a: LocalTime, b: LocalTime) {
    a.hour < b.hour
    || (a.hour == b.hour && (a.minute < b.minute
    || (a.minute == b.minute && (a.second < b.second
    || (a.second == b.second && a.nano < b.nano)))))
  }

  /** `a.isBefore(b)` on date-times: the date first, then the time of day. */
  predicate IsBefore(a: LocalDateTime, b: LocalDateTime) {
    DateIsBefore(a.date, b.date) || (a.date == b.date && TimeIsBefore(a.time, b.time))
  }

  /** `!a.isAfter(b)`, the `<=` of the SQL comparisons. */
  predicate NotAfter(a: LocalDateTime, b: LocalDateTime) {
    !IsBefore(b, a)
  }

  lemma NotAfterTotalOrder(a: LocalDateTime, b: LocalDateTime, c: LocalDateTime)
    ensures NotAfter(a, a)
    ensures NotAfter(a, b) || NotAfter(b, a)
    ensures NotAfter(a, b) && NotAfter(b, a) ==> a == b
    ensures NotAfter(a, b) && NotAfter(b, c) ==> NotAfter(a, c)
  {
  }

  /** `date.atStartOfDay()` and `date.atTime(LocalTime.MAX)`. */
  function AtStartOfDay(d: LocalDate): LocalDateTime {
    LocalDateTime(d, Midnight)
  }

  function AtEndOfDay(d: LocalDate): LocalDateTime {
    LocalDateTime(d, MaxTime)
  }

  /** `date.withDayOfMonth(1)`. */
  function FirstDayOfMonth(d: LocalDate): LocalDate {
    d.(day := 1)
  }

  /** `ym.atDay(1).atStartOfDay()` and `ym.atEndOfMonth().atTime(23, 59, 59, 999_999_999)`. */
  function MonthStart(ym: YearMonth): LocalDateTime {
    AtStartOfDay(LocalDate(ym.year, ym.month, 1))
  }

  function MonthEnd(ym: YearMonth): LocalDateTime {
    LocalDateTime(LocalDate(ym.year, ym.month, LengthOfMonth(ym.year, ym.month)), LocalTime(23, 59, 59, 999_999_999))
  }

  /** Full-day bounds: a valid date-time lies in [start at 00:00, end at 23:59:59.999999999]
      exactly when its date lies in [start, end]. */
  lemma FullDayBoundsExact(t: LocalDateTime, start: LocalDate, end: LocalDate)
    requires ValidTime(t.time)
    ensures NotAfter(AtStartOfDay(start), t) && NotAfter(t, AtEndOfDay(end))
        <==> !DateIsBefore(t.date, start) && !DateIsBefore(end, t.date)
  {
  }

  /** The inclusive range a month filter builds is exactly that calendar month: it holds every
      valid date-time of the month, the last day included, and nothing of the months around it. */
  lemma MonthRangeExact(t: LocalDateTime, ym: YearMonth)
    requires ValidDateTime(t) && ValidYearMonth(ym)
    ensures NotAfter(MonthStart(ym), t) && NotAfter(t, MonthEnd(ym))
        <==> t.date.year == ym.year && t.date.month == ym.month
  {
  }

  /** The month lengths: February has 29 days exactly in leap years, and every month has 28 to 31. */
  lemma MonthLengths(year: int, month: int)
    requires 1 <= month <= 12
    ensures 28 <= LengthOfMonth(year, month) <= 31
    ensures LengthOfMonth(year, 2) == 29 <==> IsLeapYear(year)
    ensures IsLeapYear(2024) && !IsLeapYear(1900) && IsLeapYear(2000) && !IsLeapYear(2025)
  {
  }

  // ---- YearMonth.parse: year with at least 4 and at most 10 digits and SignStyle.EXCEEDS_PAD,
  //      a '-', a two-digit month; the whole text must be consumed and both values in range.

  predicate IsDigit(c: char) {
    '0' <= c <= '9'
  }

  function DigitValue(c: char): int
    requires IsDigit(c)
  {
    c as int - '0' as int
  }

  function DigitChar(d: int): char
    requires 0 <= d < 10
  {
    (d + '0' as int) as char
  }

  /** The length of the run of digits at the front of `s`, reading at most `max` characters. */
  function LeadingDigits(s: string, max: nat): (n: nat)
    ensures n <= max && n <= |s|
    ensures forall i :: 0 <= i < n ==> IsDigit(s[i])
    ensures n < max && n < |s| ==> !IsDigit(s[n])
  {
    if max == 0 || |s| == 0 || !IsDigit(s[0]) then 0 else 1 + LeadingDigits(s[1..], max - 1)
  }

  /** The decimal value of a string of digits. */
  function DigitsValue(s: string): nat
    requires forall i :: 0 <= i < |s| ==> IsDigit(s[i])
  {
    if |s| == 0 then 0 else 10 * DigitsValue(s[..|s| - 1]) + DigitValue(s[|s| - 1]) as nat
  }

  /** `YearMonth.parse(text)`; `None` is the DateTimeParseException. */
  function ParseYearMonth(text: string): (r: Option<YearMonth>)
    ensures r.Some? ==> ValidYearMonth(r.value)
  {
    var negative := |text| > 0 && text[0] == '-';
    var positive := |text| > 0 && text[0] == '+';
    var body := if negative || positive then text[1..] else text;
    var n := LeadingDigits(body, 10);
    if n < 4 then None
    else if positive && n <= 4 then None                 // '+' only when the pad width is exceeded
    else if !positive && !negative && n > 4 then None    // more than 4 digits needs a '+'
    else if |body| != n + 3 || body[n] != '-' || !IsDigit(body[n + 1]) || !IsDigit(body[n + 2]) then None
    else
      var magnitude := DigitsValue(body[..n]);
      var year: int := if negative then -(magnitude as int) else magnitude;
      var month := 10 * DigitValue(body[n + 1]) + DigitValue(body[n + 2]);
      if negative && magnitude == 0 then None           // "-0000" is refused
      else if !(MinYear <= year <= MaxYear) then None
      else if !(1 <= month <= 12) then None
      else Some(YearMonth(year, month))
  }

  /** What an unsigned `yyyy-MM` text denotes: it parses exactly when its month digits give 1 to
      12, and then to the year of its four year digits and the month of its two month digits. */
  lemma ParseFourDigitYearMonth(text: string)
    requires |text| == 7 && text[4] == '-'
    requires forall i :: 0 <= i < 7 && i != 4 ==> IsDigit(text[i])
    ensures var month := 10 * DigitValue(text[5]) + DigitValue(text[6]);
      && (ParseYearMonth(text).Some? <==> 1 <= month <= 12)
      && (ParseYearMonth(text).Some? ==> ParseYearMonth(text).value == YearMonth(DigitsValue(text[..4]), month))
  {
    assert text[0] != '-' && text[0] != '+';
    assert LeadingDigits(text, 10) == 4 by {
      assert LeadingDigits(text[4..], 6) == 0;
      assert text[4..] == text[1..][1..][1..][1..];
    }
    var d := text[..4];
    assert DigitsValue(d) <= 9999 by {
      assert d[..1][..0] == [];
      assert d[..2][..1] == d[..1] && d[..3][..2] == d[..2] && d[..3] == d[..|d| - 1];
      assert DigitsValue(d[..1]) <= 9;
      assert DigitsValue(d[..2]) <= 99;
      assert DigitsValue(d[..3]) <= 999;
    }
  }

  /** `YearMonth.toString()` for four-digit years: "YYYY-MM". */
  function FormatYearMonth(ym: YearMonth): string
    requires 0 <= ym.year <= 9999 && 1 <= ym.month <= 12
  {
    [DigitChar(ym.year / 1000), DigitChar(ym.year / 100 % 10), DigitChar(ym.year / 10 % 10), DigitChar(ym.year % 10),
     '-', DigitChar(ym.month / 10), DigitChar(ym.month % 10)]
  }

  lemma DecimalDigits(y: int)
    requires 0 <= y <= 9999
    ensures y == 1000 * (y / 1000) + 100 * (y / 100 % 10) + 10 * (y / 10 % 10) + y % 10
  {
    assert y == 10 * (y / 10) + y % 10;
    assert y / 10 == 10 * (y / 100) + y / 10 % 10;
    assert y / 100 == 10 * (y / 1000) + y / 100 % 10;
  }

  lemma FourDigitsValue(s: string, y: int)
    requires 0 <= y <= 9999
    requires s == [DigitChar(y / 1000), DigitChar(y / 100 % 10), DigitChar(y / 10 % 10), DigitChar(y % 10)]
    ensures forall i :: 0 <= i < |s| ==> IsDigit(s[i])
    ensures DigitsValue(s) == y
  {
    var a, b, c, d := y / 1000, y / 100 % 10, y / 10 % 10, y % 10;
    DecimalDigits(y);
    assert DigitValue(s[0]) == a && DigitValue(s[1]) == b && DigitValue(s[2]) == c && DigitValue(s[3]) == d;
    assert s[..1][..0] == [];
    assert s[..2][..1] == s[..1] && s[..3][..2] == s[..2] && s[..3] == s[..|s| - 1];
    assert DigitsValue(s[..1]) == a;
    assert DigitsValue(s[..2]) == 10 * a + b;
    assert DigitsValue(s[..3]) == 100 * a + 10 * b + c;
  }

  /** Formatting a four-digit year-month and parsing it back gives the same year-month. */
  lemma ParseFormatRoundTrip(ym: YearMonth)
    requires 0 <= ym.year <= 9999 && 1 <= ym.month <= 12
    ensures ParseYearMonth(FormatYearMonth(ym)) == Some(ym)
  {
    var text := FormatYearMonth(ym);
    assert text[0] != '-' && text[0] != '+';
    assert LeadingDigits(text, 10) == 4 by {
      assert LeadingDigits(text[4..], 6) == 0;
      assert text[4..] == text[1..][1..][1..][1..];
    }
    FourDigitsValue(text[..4], ym.year);
  }
}
