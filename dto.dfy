/** The records that cross the service boundary: the list filter, the create and update request
    bodies with the validity their bean-validation annotations define, the expense view, and the
    rows and wrappers of the summary and list responses. */
module Dto {
  import opened Wrappers
  import opened Enums
  import opened Dates
  import opened Model

  /** The query parameters of the list endpoint, all optional, in declaration order. */
  datatype ExpenseFilter = ExpenseFilter(
    month: Option<string>,
    startDate: Option<LocalDateTime>,
    endDate: Option<LocalDateTime>,
    currency: Option<ECurrency>,
    category: Option<ECategory>,
    paymentMethod: Option<EPaymentMethod>)

  datatype CreateExpenseRequest = CreateExpenseRequest(
    amount: Option<Decimal>,
    description: Option<string>,
    expenseDate: Option<LocalDateTime>,
    category: Option<ECategory>,
    currency: Option<ECurrency>,
    paymentMethod: Option<EPaymentMethod>)

  datatype UpdateExpenseRequest = UpdateExpenseRequest(
    amount: Option<Decimal>,
    description: Option<string>,
    expenseDate: Option<LocalDateTime>,
    category: Option<ECategory>,
    currency: Option<ECurrency>,
    paymentMethod: Option<EPaymentMethod>)

  // Each constraint annotation, as Jakarta Bean Validation reads it: a null value satisfies
  // every constraint except @NotNull.

  /** `@Positive`. */
  predicate PositiveOrNull(x: Option<Decimal>) {
    x.None? || x.value > 0.0
  }

  /** `@Size(min = 3)` together with `@Size(max = 255)`. */
  predicate DescriptionSizeOrNull(x: Option<string>) {
    x.None? || 3 <= |x.value| <= 255
  }

  /** `@PastOrPresent`, against the validator's clock reading `now`. */
  predicate PastOrPresentOrNull(x: Option<LocalDateTime>, now: LocalDateTime) {
    x.None? || NotAfter(x.value, now)
  }

  /** The annotations of `UpdateExpenseRequest`: every field optional, a present field checked. */
  predicate UpdateIsValid(b: UpdateExpenseRequest, now: LocalDateTime) {
    PositiveOrNull(b.amount) && DescriptionSizeOrNull(b.description) && PastOrPresentOrNull(b.expenseDate, now)
  }

  /** The annotations of `CreateExpenseRequest`: every field `@NotNull`, plus the value constraints. */
  predicate CreateIsValid(b: CreateExpenseRequest, now: LocalDateTime) {
    b.amount.Some? && b.description.Some? && b.expenseDate.Some?
    && b.category.Some? && b.currency.Some? && b.paymentMethod.Some?
    && PositiveOrNull(b.amount) && DescriptionSizeOrNull(b.description) && PastOrPresentOrNull(b.expenseDate, now)
  }

  /** The update body carrying the same six values. */
  function AsPatch(b: CreateExpenseRequest): UpdateExpenseRequest {
    UpdateExpenseRequest(b.amount, b.description, b.expenseDate, b.category, b.currency, b.paymentMethod)
  }

  /** The two bodies share their value constraints: a create body is valid exactly when all six
      fields are present and it would be a valid update body; an absent field is never an error in
      an update, so the all-null patch is valid. */
  lemma CreateValidIsCompleteValidPatch(b: CreateExpenseRequest, now: LocalDateTime)
    ensures CreateIsValid(b, now) <==>
      (b.amount.Some? && b.description.Some? && b.expenseDate.Some? && b.category.Some?
       && b.currency.Some? && b.paymentMethod.Some? && UpdateIsValid(AsPatch(b), now))
    ensures UpdateIsValid(UpdateExpenseRequest(None, None, None, None, None, None), now)
  {
  }

  /** The boundaries the annotations draw: an amount of zero or below, a description of 2 or 256
      characters and a date after `now` are refused; 3 and 255 characters and exactly `now` pass. */
  lemma ValidityBoundaries(b: CreateExpenseRequest, now: LocalDateTime, later: LocalDateTime)
    requires CreateIsValid(b, now) && IsBefore(now, later)
    ensures !CreateIsValid(b.(amount := Some(0.0)), now) && !CreateIsValid(b.(amount := Some(-1.0)), now)
    ensures !CreateIsValid(b.(description := Some("Hi")), now) && CreateIsValid(b.(description := Some("Yes")), now)
    ensures forall d: string :: |d| == 255 ==> CreateIsValid(b.(description := Some(d)), now)
    ensures forall d: string :: |d| == 256 ==> !CreateIsValid(b.(description := Some(d)), now)
    ensures CreateIsValid(b.(expenseDate := Some(now)), now) && !CreateIsValid(b.(expenseDate := Some(later)), now)
    ensures !CreateIsValid(b.(category := None), now) && !CreateIsValid(b.(currency := None), now)
    ensures !CreateIsValid(b.(paymentMethod := None), now)
  {
    NotAfterTotalOrder(now, later, now);
  }

  /** The expense view returned to clients; the owner is not part of it. */
  datatype ExpenseResponse = ExpenseResponse(
    id: Option<Uuid>,
    amount: Option<Decimal>,
    description: Option<string>,
    expenseDate: Option<LocalDateTime>,
    createdAt: Option<LocalDateTime>,
    category: Option<ECategory>,
    currency: Option<ECurrency>,
    paymentMethod: Option<EPaymentMethod>)

  /** `ExpenseResponse.fromEntity`. */
  function FromEntity(e: ExpenseState): ExpenseResponse {
    ExpenseResponse(e.id, e.amount, e.description, e.expenseDate, e.createdAt, e.category, e.currency, e.paymentMethod)
  }

  /** The view is the expense without its owner: two expenses give the same view exactly when they
      agree on every field but the owner; in particular changing the owner never changes the view,
      and expenseDate and createdAt are not swapped. */
  lemma FromEntityForgetsOnlyOwner(a: ExpenseState, b: ExpenseState)
    ensures FromEntity(a) == FromEntity(b) <==> a.(user := None) == b.(user := None)
    ensures FromEntity(a).expenseDate == a.expenseDate && FromEntity(a).createdAt == a.createdAt
  {
    if FromEntity(a) == FromEntity(b) {
      assert a.id == b.id && a.amount == b.amount && a.description == b.description;
      assert a.expenseDate == b.expenseDate && a.createdAt == b.createdAt && a.category == b.category;
    }
  }

  /** One row of `groupByExpenseCategoryAndSumAmount`. */
  datatype CategoryTotal = CategoryTotal(category: ECategory, total: Decimal, count: nat)

  /** One row of `groupByCurrencyAndSumAmount`. */
  datatype CurrencyTotal = CurrencyTotal(currency: ECurrency, total: Decimal)

  /** The row of `getMostUsedPaymentMethod`; its `method` component is named `paymentMethod`
      here, `method` being a Dafny keyword. */
  datatype PaymentMethodSummary = PaymentMethodSummary(paymentMethod: EPaymentMethod, usageCount: nat)

  /** The row of `countAndSumTotalAmount`. */
  datatype CountAndTotal = CountAndTotal(count: nat, totalExpense: Decimal)

  datatype ExpenseSummaryResponse = ExpenseSummaryResponse(
    startDate: LocalDate,
    endDate: LocalDate,
    totalsByCurrency: seq<CurrencyTotal>,
    totalsByCategory: seq<CategoryTotal>,
    mostUsedPaymentMethod: Option<PaymentMethodSummary>,
    total: Decimal,
    count: nat)

  datatype PageResponse<T> = PageResponse(
    content: seq<T>,
    page: nat,
    size: nat,
    totalElements: nat,
    totalPages: nat)
}
