/** `ExpenseSpecification.withFilters`: the owner clause, then at most one date clause (an explicit
    start/end range first, a calendar month otherwise), then one equality clause for each enum
    filter present; the row matches when every clause holds. */
module Specification {
  import opened Wrappers
  import opened Enums
  import opened Dates
  import opened Model
  import opened Dto

  /** One criteria predicate over a row. */
  datatype Clause =
    | UserIs(userId: Uuid)
    | DateBetween(lo: LocalDateTime, hi: LocalDateTime)
    | DateAtLeast(lo: LocalDateTime)
    | DateAtMost(hi: LocalDateTime)
    | CategoryIs(category: ECategory)
    | CurrencyIs(currency: ECurrency)
    | PaymentMethodIs(paymentMethod: EPaymentMethod)

  /** `cb.equal`, `cb.between` (inclusive), `cb.greaterThanOrEqualTo`, `cb.lessThanOrEqualTo`. */
  predicate Holds(c: Clause, x: Record) {
    match c
    case UserIs(u) => x.userId == u
    case DateBetween(lo, hi) => NotAfter(lo, x.expenseDate) && NotAfter(x.expenseDate, hi)
    case DateAtLeast(lo) => NotAfter(lo, x.expenseDate)
    case DateAtMost(hi) => NotAfter(x.expenseDate, hi)
    case CategoryIs(k) => x.category == k
    case CurrencyIs(k) => x.currency == k
    case PaymentMethodIs(k) => x.paymentMethod == k
  }

  /** `cb.and(predicates)`. */
  predicate AllHold(cs: seq<Clause>, x: Record) {
    forall i :: 0 <= i < |cs| ==> Holds(cs[i], x)
  }

  /** The month is read only when neither explicit date is given. */
  predicate UsesMonth(f: ExpenseFilter) {
    f.startDate.None? && f.endDate.None? && f.month.Some?
  }

  /** The filter can be turned into a query: a month that is read parses as a year-month. */
  predicate Parses(f: ExpenseFilter) {
    UsesMonth(f) ==> ParseYearMonth(f.month.value).Some?
  }

  /** The date condition: each explicit bound present, or else the inclusive range of the month. */
  predicate DateMatches(f: ExpenseFilter, x: Record)
    requires Parses(f)
  {
    && (f.startDate.Some? ==> NotAfter(f.startDate.value, x.expenseDate))
    && (f.endDate.Some? ==> NotAfter(x.expenseDate, f.endDate.value))
    && (UsesMonth(f) ==>
          var ym := ParseYearMonth(f.month.value).value;
          NotAfter(MonthStart(ym), x.expenseDate) && NotAfter(x.expenseDate, MonthEnd(ym)))
  }

  /** What a matching row is, stated field by field: the owner, the date condition, and each
      enum filter present. */
  predicate Matches(userId: Uuid, f: ExpenseFilter, x: Record)
    requires Parses(f)
  {
    && x.userId == userId
    && DateMatches(f, x)
    && (f.category.Some? ==> x.category == f.category.value)
    && (f.currency.Some? ==> x.currency == f.currency.value)
    && (f.paymentMethod.Some? ==> x.paymentMethod == f.paymentMethod.value)
  }

  lemma AllHoldAppend(cs: seq<Clause>, c: Clause)
    ensures forall x :: AllHold(cs + [c], x) <==> AllHold(cs, x) && Holds(c, x)
  {
    forall x
      ensures AllHold(cs + [c], x) <==> AllHold(cs, x) && Holds(c, x)
    {
      if AllHold(cs + [c], x) {
        assert forall i :: 0 <= i < |cs| ==> (cs + [c])[i] == cs[i];
        assert (cs + [c])[|cs|] == c;
      }
    }
  }

  /** `and` over a concatenation is the conjunction of both halves. */
  lemma AllHoldConcat(a: seq<Clause>, b: seq<Clause>)
    ensures forall x :: AllHold(a + b, x) <==> AllHold(a, x) && AllHold(b, x)
  {
    forall x
      ensures AllHold(a + b, x) <==> AllHold(a, x) && AllHold(b, x)
    {
      if AllHold(a + b, x) {
        forall i | 0 <= i < |b|
          ensures Holds(b[i], x)
        {
          assert (a + b)[|a| + i] == b[i];
        }
        forall i | 0 <= i < |a|
          ensures Holds(a[i], x)
        {
          assert (a + b)[i] == a[i];
        }
      }
    }
  }

  /** The date clause of the list: the explicit range, or the bound given, or else the month's
      range; a month that does not parse raises the `DateTimeParseException` of `YearMonth.parse`. */
  method DateClauses(f: ExpenseFilter) returns (r: Result<seq<Clause>, Error>)
    ensures r.Failure? <==> !Parses(f)
    ensures r.Failure? ==> r.error == DateTimeParse(f.month.value)
    ensures r.Success? ==> |r.value| <= 1 && forall x :: AllHold(r.value, x) <==> DateMatches(f, x)
  {
    if f.startDate.Some? && f.endDate.Some? {
      r := Success([DateBetween(f.startDate.value, f.endDate.value)]);
    } else if f.startDate.Some? {
      r := Success([DateAtLeast(f.startDate.value)]);
    } else if f.endDate.Some? {
      r := Success([DateAtMost(f.endDate.value)]);
    } else if f.month.Some? {
      var ym := ParseYearMonth(f.month.value);
      if ym.None? {
        return Failure(DateTimeParse(f.month.value));
      }
      r := Success([DateBetween(MonthStart(ym.value), MonthEnd(ym.value))]);
    } else {
      r := Success([]);
    }
    assert r.Success? ==> forall x :: AllHold(r.value, x) <==> (|r.value| == 1 ==> Holds(r.value[0], x));
  }

  /** One equality clause for each enum filter present, in the order category, currency, payment
      method. */
  method EnumClauses(f: ExpenseFilter) returns (cs: seq<Clause>)
    ensures |cs| <= 3
    ensures forall x :: AllHold(cs, x) <==>
      && (f.category.Some? ==> x.category == f.category.value)
      && (f.currency.Some? ==> x.currency == f.currency.value)
      && (f.paymentMethod.Some? ==> x.paymentMethod == f.paymentMethod.value)
  {
    cs := [];
    if f.category.Some? {
      AllHoldAppend(cs, CategoryIs(f.category.value));
      cs := cs + [CategoryIs(f.category.value)];
    }
    assert forall x :: AllHold(cs, x) <==> (f.category.Some? ==> x.category == f.category.value);
    if f.currency.Some? {
      AllHoldAppend(cs, CurrencyIs(f.currency.value));
      cs := cs + [CurrencyIs(f.currency.value)];
    }
    assert forall x :: AllHold(cs, x) <==>
      (f.category.Some? ==> x.category == f.category.value) && (f.currency.Some? ==> x.currency == f.currency.value);
    if f.paymentMethod.Some? {
      AllHoldAppend(cs, PaymentMethodIs(f.paymentMethod.value));
      cs := cs + [PaymentMethodIs(f.paymentMethod.value)];
    }
  }

  /** The predicate list built for `userId` and `f`: the owner clause, the date clause, the enum
      clauses; it fails when the month it reads does not parse. */
  method WithFilters(userId: Uuid, f: ExpenseFilter) returns (r: Result<seq<Clause>, Error>)
    ensures r.Failure? <==> !Parses(f)
    ensures r.Failure? ==> r.error == DateTimeParse(f.month.value)
    ensures r.Success? ==> |r.value| >= 1 && r.value[0] == UserIs(userId)
    ensures r.Success? ==> forall x :: AllHold(r.value, x) <==> Matches(userId, f, x)
  {
    var dates := DateClauses(f);
    if dates.Failure? {
      return Failure(dates.error);
    }
    var enums := EnumClauses(f);
    var owner := [UserIs(userId)];
    assert forall x :: AllHold(owner, x) <==> x.userId == userId by {
      assert forall x :: AllHold(owner, x) <==> Holds(owner[0], x);
    }
    AllHoldConcat(owner, dates.value);
    AllHoldConcat(owner + dates.value, enums);
    r := Success(owner + dates.value + enums);
  }

  /** Another owner's row never matches, whatever the other filter fields say. */
  lemma OwnerIsolation(userId: Uuid, f: ExpenseFilter, x: Record)
    requires Parses(f) && x.userId != userId
    ensures !Matches(userId, f, x)
  {
  }

  /** Explicit dates take precedence: while either is present, the month is never read, so any
      month, even one that does not parse, gives the same matches. */
  lemma ExplicitDatesTakePrecedence(userId: Uuid, f: ExpenseFilter, month: Option<string>, x: Record)
    requires f.startDate.Some? || f.endDate.Some?
    ensures Parses(f) && Parses(f.(month := month))
    ensures Matches(userId, f, x) <==> Matches(userId, f.(month := month), x)
  {
  }

  /** A month filter holds exactly the valid date-times of that calendar month, its last day
      included whatever the month's length. */
  lemma MonthFilterExact(userId: Uuid, f: ExpenseFilter, x: Record)
    requires UsesMonth(f) && ParseYearMonth(f.month.value).Some? && ValidDateTime(x.expenseDate)
    ensures Matches(userId, f, x) <==>
      (var ym := ParseYearMonth(f.month.value).value;
       && x.userId == userId && x.expenseDate.date.year == ym.year && x.expenseDate.date.month == ym.month
       && (f.category.Some? ==> x.category == f.category.value)
       && (f.currency.Some? ==> x.currency == f.currency.value)
       && (f.paymentMethod.Some? ==> x.paymentMethod == f.paymentMethod.value))
  {
    MonthRangeExact(x.expenseDate, ParseYearMonth(f.month.value).value);
  }

  /** Adding an enum filter, or a date bound where no date bound and no month is given, keeps
      exactly the matching rows that satisfy the new condition. */
  lemma AddingAFilterNarrows(userId: Uuid, f: ExpenseFilter, x: Record,
                             c: ECategory, u: ECurrency, m: EPaymentMethod, t: LocalDateTime)
    requires Parses(f)
    ensures f.category.None? ==>
      (Matches(userId, f.(category := Some(c)), x) <==> Matches(userId, f, x) && x.category == c)
    ensures f.currency.None? ==>
      (Matches(userId, f.(currency := Some(u)), x) <==> Matches(userId, f, x) && x.currency == u)
    ensures f.paymentMethod.None? ==>
      (Matches(userId, f.(paymentMethod := Some(m)), x) <==> Matches(userId, f, x) && x.paymentMethod == m)
    ensures f.startDate.None? && (f.endDate.Some? || f.month.None?) ==>
      (Matches(userId, f.(startDate := Some(t)), x) <==> Matches(userId, f, x) && NotAfter(t, x.expenseDate))
    ensures f.endDate.None? && (f.startDate.Some? || f.month.None?) ==>
      (Matches(userId, f.(endDate := Some(t)), x) <==> Matches(userId, f, x) && NotAfter(x.expenseDate, t))
  {
  }

  /** An explicit start date replaces the month: whatever the month says, even when it does not
      parse, the filter with a start date matches exactly the owner's rows from that date on that
      meet the end date and the enum filters. */
  lemma StartDateReplacesMonth(userId: Uuid, f: ExpenseFilter, start: LocalDateTime, x: Record)
    ensures Parses(f.(startDate := Some(start)))
    ensures Matches(userId, f.(startDate := Some(start)), x) <==>
      && x.userId == userId
      && NotAfter(start, x.expenseDate)
      && (f.endDate.Some? ==> NotAfter(x.expenseDate, f.endDate.value))
      && (f.category.Some? ==> x.category == f.category.value)
      && (f.currency.Some? ==> x.currency == f.currency.value)
      && (f.paymentMethod.Some? ==> x.paymentMethod == f.paymentMethod.value)
  {
  }

  /** So a start date can widen a month filter: a row outside the month but after the start
      matches once the start is given (here August 2025, a row of 15 September, a start of
      1 August). */
  lemma StartDateCanWidenMonth(userId: Uuid, x: Record)
    requires x.userId == userId
    requires x.expenseDate == LocalDateTime(LocalDate(2025, 9, 15), Midnight)
    ensures var f := ExpenseFilter(Some("2025-08"), None, None, None, None, None);
      Parses(f) && !Matches(userId, f, x)
      && Matches(userId, f.(startDate := Some(LocalDateTime(LocalDate(2025, 8, 1), Midnight))), x)
  {
    ParseFormatRoundTrip(YearMonth(2025, 8));
    assert FormatYearMonth(YearMonth(2025, 8)) == "2025-08";
  }

  /** The leap-day boundary of the month filter: for every four-digit leap year, the filter of
      its February holds the 29th at the last nanosecond and not 1 March at midnight. */
  lemma LeapMonthBoundary(userId: Uuid, year: int, x: Record, y: Record)
    requires 0 <= year <= 9999 && IsLeapYear(year)
    requires x.userId == userId && y.userId == userId
    requires x.expenseDate == LocalDateTime(LocalDate(year, 2, 29), MaxTime)
    requires y.expenseDate == LocalDateTime(LocalDate(year, 3, 1), Midnight)
    ensures var f := ExpenseFilter(Some(FormatYearMonth(YearMonth(year, 2))), None, None, None, None, None);
      Parses(f) && Matches(userId, f, x) && !Matches(userId, f, y)
  {
    ParseFormatRoundTrip(YearMonth(year, 2));
  }

  /** The rows of `rows` that match, in their order in `rows`. */
  function Matching(rows: seq<Record>, userId: Uuid, f: ExpenseFilter): (r: seq<Record>)
    requires Parses(f)
    ensures forall x :: x in r <==> x in rows && Matches(userId, f, x)
    ensures multiset(r) <= multiset(rows)
    ensures forall x :: multiset(r)[x] == (if Matches(userId, f, x) then multiset(rows)[x] else 0)
  {
    if rows == [] then []
    else
      assert rows == [rows[0]] + rows[1..];
      if Matches(userId, f, rows[0]) then [rows[0]] + Matching(rows[1..], userId, f)
      else Matching(rows[1..], userId, f)
  }
}
