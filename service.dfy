/** `ExpenseService`: creating an expense from a request body, the filtered and paged listing,
    the partial update, the delete, the owner-scoped lookup both rely on, and the summary of a
    date range. */
module Service {
  import opened Wrappers
  import opened Enums
  import opened Dates
  import opened Model
  import opened Dto
  import opened Specification
  import opened Repository
  import opened Grouping
  import opened Paging
  import Sorting

  // ---- The listing order and the expense view.

  /** `Sort.Direction.DESC` on `expenseDate`: `a` may come before `b` when it is not earlier. */
  predicate LaterFirst(a: Record, b: Record) {
    NotAfter(b.expenseDate, a.expenseDate)
  }

  lemma LaterFirstOrder()
    ensures Sorting.Total(LaterFirst) && Sorting.Transitive(LaterFirst)
  {
    forall a: Record, b: Record
      ensures LaterFirst(a, b) || LaterFirst(b, a)
    {
      NotAfterTotalOrder(a.expenseDate, b.expenseDate, a.expenseDate);
    }
    forall a: Record, b: Record, c: Record | LaterFirst(a, b) && LaterFirst(b, c)
      ensures LaterFirst(a, c)
    {
      NotAfterTotalOrder(c.expenseDate, b.expenseDate, a.expenseDate);
    }
  }

  /** The rows a filter selects, latest expense date first. */
  function Listing(rows: seq<Record>, userId: Uuid, f: ExpenseFilter): (r: seq<Record>)
    requires Parses(f)
    ensures multiset(r) == multiset(Matching(rows, userId, f))
    ensures forall x :: x in r <==> x in rows && Matches(userId, f, x)
    ensures forall i, j :: 0 <= i < j < |r| ==> NotAfter(r[j].expenseDate, r[i].expenseDate)
  {
    LaterFirstOrder();
    var m := Matching(rows, userId, f);
    var s := Sorting.SortBy(m, LaterFirst);
    assert forall x :: x in s <==> x in m by {
      forall x
        ensures x in s <==> x in m
      {
        assert x in s <==> x in multiset(s);
        assert x in m <==> x in multiset(m);
      }
    }
    assert forall i, j :: 0 <= i < j < |s| ==> LaterFirst(s[i], s[j]);
    s
  }

  /** A stored row as the client sees it: `toDomain` and then `ExpenseResponse.fromEntity`. */
  function View(x: Record): (r: ExpenseResponse)
    ensures r.id == Some(x.id) && r.expenseDate == Some(x.expenseDate) && r.createdAt == Some(x.createdAt)
    ensures r.amount == Some(x.amount) && r.description == Some(x.description)
    ensures r.category == Some(x.category) && r.currency == Some(x.currency) && r.paymentMethod == Some(x.paymentMethod)
  {
    FromEntity(ToDomain(Load(x)))
  }

  function Views(s: seq<Record>): (r: seq<ExpenseResponse>)
    ensures |r| == |s| && forall i :: 0 <= i < |s| ==> r[i] == View(s[i])
  {
    seq(|s|, i requires 0 <= i < |s| => View(s[i]))
  }

  // ---- The partial update.

  /** The bean after `update`'s conditional setters: a present value replaces its field, an
      absent one leaves it as it was. */
  function Patch(e: ExpenseState, b: UpdateExpenseRequest): ExpenseState {
    e.(amount := if b.amount.Some? then b.amount else e.amount,
       description := if b.description.Some? then b.description else e.description,
       expenseDate := if b.expenseDate.Some? then b.expenseDate else e.expenseDate,
       category := if b.category.Some? then b.category else e.category,
       currency := if b.currency.Some? then b.currency else e.currency,
       paymentMethod := if b.paymentMethod.Some? then b.paymentMethod else e.paymentMethod)
  }

  const EmptyPatch: UpdateExpenseRequest := UpdateExpenseRequest(None, None, None, None, None, None)

  /** The body whose present values are those of `b2`, and those of `b1` where `b2` has none. */
  function Then(b1: UpdateExpenseRequest, b2: UpdateExpenseRequest): UpdateExpenseRequest {
    UpdateExpenseRequest(
      if b2.amount.Some? then b2.amount else b1.amount,
      if b2.description.Some? then b2.description else b1.description,
      if b2.expenseDate.Some? then b2.expenseDate else b1.expenseDate,
      if b2.category.Some? then b2.category else b1.category,
      if b2.currency.Some? then b2.currency else b1.currency,
      if b2.paymentMethod.Some? then b2.paymentMethod else b1.paymentMethod)
  }

  /** The laws of a patch: the all-null patch changes nothing, applying a patch twice is applying
      it once, two patches in a row are one merged patch, the id, createdAt and owner are never
      touched, and a patch with all six values present decides all six fields whatever the bean
      held before. */
  lemma PatchLaws(e: ExpenseState, e': ExpenseState, b: UpdateExpenseRequest, b2: UpdateExpenseRequest)
    ensures Patch(e, EmptyPatch) == e
    ensures Patch(Patch(e, b), b) == Patch(e, b)
    ensures Patch(Patch(e, b), b2) == Patch(e, Then(b, b2))
    ensures Patch(e, b).id == e.id && Patch(e, b).createdAt == e.createdAt && Patch(e, b).user == e.user
    ensures b.amount.Some? && b.description.Some? && b.expenseDate.Some?
            && b.category.Some? && b.currency.Some? && b.paymentMethod.Some?
            ==> Patch(e, b) == Patch(e', b).(id := e.id, createdAt := e.createdAt, user := e.user)
  {
  }

  /** The stored row after the patch. */
  function PatchedRecord(x: Record, b: UpdateExpenseRequest): Record {
    x.(amount := b.amount.GetOr(x.amount),
       description := b.description.GetOr(x.description),
       expenseDate := b.expenseDate.GetOr(x.expenseDate),
       category := b.category.GetOr(x.category),
       currency := b.currency.GetOr(x.currency),
       paymentMethod := b.paymentMethod.GetOr(x.paymentMethod))
  }

  /** Patching a loaded row's bean and saving it writes the patched row under the same id,
      owner and creation time. */
  lemma PatchPersists(x: Record, b: UpdateExpenseRequest, newId: Uuid, now: LocalDateTime)
    ensures Patch(ToDomain(Load(x)), b) == ToDomain(Load(PatchedRecord(x, b)))
    ensures Persist(FromDomain(Patch(ToDomain(Load(x)), b)), newId, now) == Some(PatchedRecord(x, b))
    ensures PatchedRecord(x, b).id == x.id && PatchedRecord(x, b).userId == x.userId
    ensures PatchedRecord(x, b).createdAt == x.createdAt
  {
    PersistLoadRoundTrip(PatchedRecord(x, b), newId, now);
  }

  /** The all-null patch on a stored row saves the row as it was, so the table keeps the same
      rows. */
  lemma EmptyPatchKeepsRows(rows: seq<Record>, x: Record)
    requires IdsDistinct(rows) && x in rows
    ensures PatchedRecord(x, EmptyPatch) == x
    ensures forall y :: y in Upsert(rows, x) <==> y in rows
  {
    forall y | y in rows && y.id == x.id
      ensures y == x
    {
      SameIdSameRow(rows, x, y);
    }
  }

  /** The conditional setters of `update`: each value the body holds is set on the bean, and
      each field the body leaves null is not touched. */
  method ApplyBody(expense: Expense, body: UpdateExpenseRequest)
    modifies expense
    ensures expense.State() == Patch(old(expense.State()), body)
  {
    if body.amount.Some? {
      expense.SetAmount(body.amount);
    }
    if body.description.Some? {
      expense.SetDescription(body.description);
    }
    if body.expenseDate.Some? {
      expense.SetExpenseDate(body.expenseDate);
    }
    if body.category.Some? {
      expense.SetCategory(body.category);
    }
    if body.currency.Some? {
      expense.SetCurrency(body.currency);
    }
    if body.paymentMethod.Some? {
      expense.SetPaymentMethod(body.paymentMethod);
    }
  }

  // ---- The creation.

  /** The bean `save` builds: the six request fields and the owner, set one by one on a new bean. */
  function Created(body: CreateExpenseRequest, user: Uuid): ExpenseState {
    BlankState.(amount := body.amount, description := body.description, expenseDate := body.expenseDate,
                category := body.category, currency := body.currency, paymentMethod := body.paymentMethod,
                user := Some(user))
  }

  predicate Complete(body: CreateExpenseRequest) {
    body.amount.Some? && body.description.Some? && body.expenseDate.Some?
    && body.category.Some? && body.currency.Some? && body.paymentMethod.Some?
  }

  /** A body that passes its annotations is complete, so its row can be stored. */
  lemma ValidBodyIsStorable(body: CreateExpenseRequest, user: Uuid, newId: Uuid, now: LocalDateTime)
    requires CreateIsValid(body, now)
    ensures Complete(body) && Persist(FromDomain(Created(body, user)), newId, now).Some?
  {
  }

  class ExpenseService {
    const repository: ExpenseRepository

    constructor (repository: ExpenseRepository)
      ensures this.repository == repository
    {
      this.repository := repository;
    }

    /** `save(body, user)`: the new expense is stored once, as one more row with a fresh id,
        created at `now`, holding the body's six values and the owner. A body with a missing
        value leaves the table as it was and reports the failed write. */
    method Save(body: CreateExpenseRequest, user: Uuid, now: LocalDateTime) returns (r: Result<(), Error>)
      requires repository.Valid()
      modifies repository
      ensures repository.Valid()
      ensures r.Success? <==> Complete(body)
      ensures r.Failure? ==> r.error == StorageFailure && repository.rows == old(repository.rows)
      ensures r.Success? ==>
        && |repository.rows| == |old(repository.rows)| + 1
        && repository.rows[..|old(repository.rows)|] == old(repository.rows)
        && (var rec := repository.rows[|old(repository.rows)|];
            && (forall y :: y in old(repository.rows) ==> y.id != rec.id)
            && rec.amount == body.amount.value && rec.description == body.description.value
            && rec.expenseDate == body.expenseDate.value && rec.category == body.category.value
            && rec.currency == body.currency.value && rec.paymentMethod == body.paymentMethod.value
            && rec.userId == user && rec.createdAt == now)
    {
      var expense := new Expense();
      expense.SetAmount(body.amount);
      expense.SetDescription(body.description);
      expense.SetExpenseDate(body.expenseDate);
      expense.SetCategory(body.category);
      expense.SetCurrency(body.currency);
      expense.SetPaymentMethod(body.paymentMethod);
      expense.SetUser(Some(user));
      assert expense.State() == Created(body, user);
      ghost var before := repository.rows;
      var saved := repository.Save(expense.State(), now);
      if saved.Failure? {
        r := Failure(saved.error);
      } else {
        var stored := Persist(FromDomain(Created(body, user)), NewId(before), now);
        assert repository.rows == before + [stored.value];
        r := Success(());
      }
    }

    /** `findAll(user, page, size, filter)`: a negative page or a size below one is refused before
        the query runs, as `PageRequest.of` does, and a month that does not parse fails the query;
        otherwise the page of the listing is returned. */
    function FindAll(user: Uuid, page: int, size: int, f: ExpenseFilter): (r: Result<PageResponse<ExpenseResponse>, Error>)
      reads repository
      ensures page < 0 ==> r == Failure(IllegalArgument("Page index must not be less than zero"))
      ensures page >= 0 && size < 1 ==> r == Failure(IllegalArgument("Page size must not be less than one"))
      ensures page >= 0 && size >= 1 && !Parses(f) ==> r == Failure(DateTimeParse(f.month.value))
      ensures page >= 0 && size >= 1 && Parses(f) ==> r == Success(ListPage(repository.rows, user, f, page, size))
    {
      if page < 0 then Failure(IllegalArgument("Page index must not be less than zero"))
      else if size < 1 then Failure(IllegalArgument("Page size must not be less than one"))
      else if !Parses(f) then Failure(DateTimeParse(f.month.value))
      else Success(ListPage(repository.rows, user, f, page, size))
    }

    /** `findByIdAndUser(id, userId)`: a new bean loaded from the row with this id and owner, or
        `EntityNotFoundException("Expense not found")`. */
    method FindByIdAndUser(id: Uuid, userId: Uuid) returns (r: Result<Expense, Error>)
      ensures var found := FindByIdAndUserId(repository.rows, id, userId);
        && (found.None? <==> r.Failure?)
        && (r.Failure? ==> r.error == NotFound("Expense not found"))
        && (r.Success? ==> fresh(r.value) && r.value.State() == ToDomain(Load(found.value)))
    {
      var found := FindByIdAndUserId(repository.rows, id, userId);
      if found.None? {
        return Failure(NotFound("Expense not found"));
      }
      var expense := new Expense.FromState(ToDomain(Load(found.value)));
      r := Success(expense);
    }

    /** `update(id, body, user)`: the owner's expense with this id takes each value the body
        holds, keeps the others, and is saved in place; the view of the saved row is returned. An
        expense not found leaves the table as it was. */
    method Update(id: Uuid, body: UpdateExpenseRequest, user: Uuid, now: LocalDateTime) returns (r: Result<ExpenseResponse, Error>)
      requires repository.Valid()
      modifies repository
      ensures repository.Valid()
      ensures var found := FindByIdAndUserId(old(repository.rows), id, user);
        && (found.None? ==> r == Failure(NotFound("Expense not found")) && repository.rows == old(repository.rows))
        && (found.Some? ==>
              var x := PatchedRecord(found.value, body);
              && r == Success(View(x))
              && repository.rows == Upsert(old(repository.rows), x)
              && |repository.rows| == |old(repository.rows)|
              && forall y :: y in repository.rows <==> y == x || (y in old(repository.rows) && y.id != id))
    {
      ghost var before := repository.rows;
      var found := FindByIdAndUser(id, user);
      if found.Failure? {
        return Failure(found.error);
      }
      ghost var x := FindByIdAndUserId(before, id, user).value;
      var expense := found.value;
      ApplyBody(expense, body);
      PatchPersists(x, body, NewId(before), now);
      UpsertDistinct(before, PatchedRecord(x, body));
      var saved := repository.Save(expense.State(), now);
      r := Success(FromEntity(saved.value));
    }

    /** `delete(id, user)`: the owner's expense with this id is removed, and only it; an expense
        not found leaves the table as it was. */
    method Delete(id: Uuid, user: Uuid) returns (r: Result<(), Error>)
      requires repository.Valid()
      modifies repository
      ensures repository.Valid()
      ensures var found := FindByIdAndUserId(old(repository.rows), id, user);
        && (found.None? ==> r == Failure(NotFound("Expense not found")) && repository.rows == old(repository.rows))
        && (found.Some? ==>
              && r == Success(())
              && repository.rows == Remove(old(repository.rows), id)
              && |repository.rows| == |old(repository.rows)| - 1
              && forall y :: y in repository.rows <==> y in old(repository.rows) && y.id != id)
    {
      ghost var before := repository.rows;
      var found := FindByIdAndUser(id, user);
      if found.Failure? {
        return Failure(found.error);
      }
      RemoveDistinct(before, id);
      repository.Delete(found.value.State());
      r := Success(());
    }

    /** `getExpenseSummary(user, startDate, endDate)`, with `today` the reading of `LocalDate.now()`:
        a missing start is the first day of this month and a missing end is today; a start after
        the end is refused; otherwise the four aggregates are taken over the owner's rows from the
        start of the first day to the last instant of the last day, and they agree with each
        other. */
    method GetExpenseSummary(user: Uuid, startDate: Option<LocalDate>, endDate: Option<LocalDate>, today: LocalDate)
      returns (r: Result<ExpenseSummaryResponse, Error>)
      ensures var s := startDate.GetOr(FirstDayOfMonth(today));
        var e := endDate.GetOr(today);
        && (r.Failure? <==> DateIsBefore(e, s))
        && (r.Failure? ==> r.error == IllegalArgument("Start date must be before end date"))
        && (r.Success? ==>
              var rows := repository.rows;
              var lo := AtStartOfDay(s);
              var hi := AtEndOfDay(e);
              var c := CountAndSumTotalAmount(rows, user, lo, hi);
              && r.value.startDate == s && r.value.endDate == e
              && r.value.totalsByCurrency == GroupByCurrencyAndSumAmount(rows, user, lo, hi)
              && r.value.totalsByCategory == GroupByExpenseCategoryAndSumAmount(rows, user, lo, hi)
              && r.value.mostUsedPaymentMethod == GetMostUsedPaymentMethod(rows, user, lo, hi)
              && r.value.total == c.totalExpense && r.value.count == c.count
              && TotalOfCategories(r.value.totalsByCategory) == r.value.total
              && CountOfCategories(r.value.totalsByCategory) == r.value.count
              && TotalOfCurrencies(r.value.totalsByCurrency) == r.value.total
              && (r.value.mostUsedPaymentMethod.None? <==> r.value.count == 0))
    {
      var start := startDate.GetOr(FirstDayOfMonth(today));
      var end := endDate.GetOr(today);
      if DateIsBefore(end, start) {
        return Failure(IllegalArgument("Start date must be before end date"));
      }
      var startDateTime := AtStartOfDay(start);
      var endDateTime := AtEndOfDay(end);
      var countAndTotal := CountAndSumTotalAmount(repository.rows, user, startDateTime, endDateTime);
      AggregatesAgree(repository.rows, user, startDateTime, endDateTime);
      r := Success(ExpenseSummaryResponse(
        start, end,
        GroupByCurrencyAndSumAmount(repository.rows, user, startDateTime, endDateTime),
        GroupByExpenseCategoryAndSumAmount(repository.rows, user, startDateTime, endDateTime),
        GetMostUsedPaymentMethod(repository.rows, user, startDateTime, endDateTime),
        countAndTotal.totalExpense,
        countAndTotal.count));
    }
  }

  /** The page `page` of the listing: the views of the rows from offset `page * size` of the
      listing, every one of them a row of the table the filter selects, with the number of
      matching rows and of pages. */
  function ListPage(rows: seq<Record>, user: Uuid, f: ExpenseFilter, page: nat, size: nat): (r: PageResponse<ExpenseResponse>)
    requires Parses(f) && size >= 1
    ensures r.content == Views(PageOf(Listing(rows, user, f), page, size))
    ensures r.page == page && r.size == size && |r.content| <= size
    ensures r.totalElements == |Matching(rows, user, f)| && r.totalPages == TotalPages(|Matching(rows, user, f)|, size)
    ensures forall x :: x in PageOf(Listing(rows, user, f), page, size) ==> x in rows && Matches(user, f, x)
  {
    var all := Listing(rows, user, f);
    PageElementsIn(all, page, size);
    assert |all| == |Matching(rows, user, f)|;
    PageResponse(Views(PageOf(all, page, size)), page, size, |all|, TotalPages(|all|, size))
  }

  /** Each page lists its expenses latest expense date first. */
  lemma ListPageLatestFirst(rows: seq<Record>, user: Uuid, f: ExpenseFilter, page: nat, size: nat)
    requires Parses(f) && size >= 1
    ensures var p := PageOf(Listing(rows, user, f), page, size);
      forall i, j :: 0 <= i < j < |p| ==> NotAfter(p[j].expenseDate, p[i].expenseDate)
  {
    var all := Listing(rows, user, f);
    assert Sorting.SortedBy(all, LaterFirst);
    PageSorted(all, page, size, LaterFirst);
  }

  /** The summary's range is whole days: a row with a valid time of day is in scope exactly when
      it is the owner's and its date lies between the start and the end dates, both included. */
  lemma SummaryRangeIsWholeDays(x: Record, user: Uuid, s: LocalDate, e: LocalDate)
    requires ValidTime(x.expenseDate.time)
    ensures InScope(x, user, AtStartOfDay(s), AtEndOfDay(e)) <==>
      x.userId == user && !DateIsBefore(x.expenseDate.date, s) && !DateIsBefore(e, x.expenseDate.date)
  {
    FullDayBoundsExact(x.expenseDate, s, e);
  }

  /** With no dates given, the summary covers this month up to today, its first day included. */
  lemma DefaultRangeIsMonthToDate(today: LocalDate)
    requires ValidDate(today)
    ensures !DateIsBefore(today, FirstDayOfMonth(today))
    ensures FirstDayOfMonth(today).year == today.year && FirstDayOfMonth(today).month == today.month
    ensures FirstDayOfMonth(today).day == 1
  {
  }
}
