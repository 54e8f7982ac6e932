/** The domain bean `Expense`, its JPA counterpart `ExpenseEntity`, and the complete row the
    expenses table holds. Java references may be null, so every field of the bean and of the
    entity is an `Option`. */
module Model {
  import opened Wrappers
  import opened Enums
  import opened Dates

  type Uuid = nat
  type Decimal = real

  /** The values of the nine fields of an `Expense`, in declaration order. */
  datatype ExpenseState = ExpenseState(
    id: Option<Uuid>,
    amount: Option<Decimal>,
    description: Option<string>,
    createdAt: Option<LocalDateTime>,
    expenseDate: Option<LocalDateTime>,
    category: Option<ECategory>,
    currency: Option<ECurrency>,
    paymentMethod: Option<EPaymentMethod>,
    user: Option<Uuid>)

  const BlankState: ExpenseState := ExpenseState(None, None, None, None, None, None, None, None, None)

  /** The nine-argument `Expense` constructor that `toDomain` calls, with its parameters in the
      order of that call: id, createdAt, amount, description, expenseDate, category, currency,
      paymentMethod, user. Each parameter goes to the field of the same name. */
  function NewExpense(id: Option<Uuid>, createdAt: Option<LocalDateTime>, amount: Option<Decimal>,
                      description: Option<string>, expenseDate: Option<LocalDateTime>,
                      category: Option<ECategory>, currency: Option<ECurrency>,
                      paymentMethod: Option<EPaymentMethod>, user: Option<Uuid>): ExpenseState
  {
    ExpenseState(id, amount, description, createdAt, expenseDate, category, currency, paymentMethod, user)
  }

  /** The mutable bean. The setters store their argument without validating it, and there is no
      setter for `id`. */
  class Expense {
    var id: Option<Uuid>
    var amount: Option<Decimal>
    var description: Option<string>
    var createdAt: Option<LocalDateTime>
    var expenseDate: Option<LocalDateTime>
    var category: Option<ECategory>
    var currency: Option<ECurrency>
    var paymentMethod: Option<EPaymentMethod>
    var user: Option<Uuid>

    function State(): ExpenseState
      reads this
    {
      ExpenseState(id, amount, description, createdAt, expenseDate, category, currency, paymentMethod, user)
    }

    /** `new Expense()`: every field null. */
    constructor ()
      ensures State() == BlankState
    {
      id, amount, description, createdAt, expenseDate := None, None, None, None, None;
      category, currency, paymentMethod, user := None, None, None, None;
    }

    /** A bean holding the given field values, as `toDomain` produces. */
    constructor FromState(s: ExpenseState)
      ensures State() == s
    {
      id, amount, description, createdAt, expenseDate := s.id, s.amount, s.description, s.createdAt, s.expenseDate;
      category, currency, paymentMethod, user := s.category, s.currency, s.paymentMethod, s.user;
    }

    function GetId(): Option<Uuid> reads this { id }
    function GetAmount(): Option<Decimal> reads this { amount }
    function GetDescription(): Option<string> reads this { description }
    function GetCreatedAt(): Option<LocalDateTime> reads this { createdAt }
    function GetExpenseDate(): Option<LocalDateTime> reads this { expenseDate }
    function GetCategory(): Option<ECategory> reads this { category }
    function GetCurrency(): Option<ECurrency> reads this { currency }
    function GetPaymentMethod(): Option<EPaymentMethod> reads this { paymentMethod }
    function GetUser(): Option<Uuid> reads this { user }

    method SetAmount(amount: Option<Decimal>)
      modifies this
      ensures GetAmount() == amount
      ensures State() == old(State()).(amount := amount)
    {
      this.amount := amount;
    }

    method SetDescription(description: Option<string>)
      modifies this
      ensures GetDescription() == description
      ensures State() == old(State()).(description := description)
    {
      this.description := description;
    }

    method SetCreatedAt(createdAt: Option<LocalDateTime>)
      modifies this
      ensures GetCreatedAt() == createdAt
      ensures State() == old(State()).(createdAt := createdAt)
    {
      this.createdAt := createdAt;
    }

    method SetExpenseDate(expenseDate: Option<LocalDateTime>)
      modifies this
      ensures GetExpenseDate() == expenseDate
      ensures State() == old(State()).(expenseDate := expenseDate)
    {
      this.expenseDate := expenseDate;
    }

    method SetCategory(category: Option<ECategory>)
      modifies this
      ensures GetCategory() == category
      ensures State() == old(State()).(category := category)
    {
      this.category := category;
    }

    method SetCurrency(currency: Option<ECurrency>)
      modifies this
      ensures GetCurrency() == currency
      ensures State() == old(State()).(currency := currency)
    {
      this.currency := currency;
    }

    method SetPaymentMethod(paymentMethod: Option<EPaymentMethod>)
      modifies this
      ensures GetPaymentMethod() == paymentMethod
      ensures State() == old(State()).(paymentMethod := paymentMethod)
    {
      this.paymentMethod := paymentMethod;
    }

    method SetUser(user: Option<Uuid>)
      modifies this
      ensures GetUser() == user
      ensures State() == old(State()).(user := user)
    {
      this.user := user;
    }
  }

  /** The JPA entity, with its fields in the order of its nine-argument constructor. */
  datatype ExpenseEntity = ExpenseEntity(
    id: Option<Uuid>,
    amount: Option<Decimal>,
    description: Option<string>,
    createdAt: Option<LocalDateTime>,
    expenseDate: Option<LocalDateTime>,
    category: Option<ECategory>,
    currency: Option<ECurrency>,
    paymentMethod: Option<EPaymentMethod>,
    user: Option<Uuid>)

  /** `ExpenseEntity.fromDomain`: the nine getters passed to the constructor. */
  function FromDomain(e: ExpenseState): ExpenseEntity {
    ExpenseEntity(e.id, e.amount, e.description, e.createdAt, e.expenseDate,
                  e.category, e.currency, e.paymentMethod, e.user)
  }

  /** `ExpenseEntity.toDomain`. */
  function ToDomain(x: ExpenseEntity): ExpenseState {
    NewExpense(x.id, x.createdAt, x.amount, x.description, x.expenseDate,
               x.category, x.currency, x.paymentMethod, x.user)
  }

  /** From bean to entity and back loses nothing, and neither does entity to bean to entity. */
  lemma DomainRoundTrip(e: ExpenseState, x: ExpenseEntity)
    ensures ToDomain(FromDomain(e)) == e
    ensures FromDomain(ToDomain(x)) == x
  {
  }

  /** A provided id and createdAt survive `toDomain` (ExpenseTest's provided-id case), and
      `getId`/`getUser` of the entity read what the constructor stored. */
  lemma ToDomainKeepsIdentity(x: ExpenseEntity)
    ensures ToDomain(x).id == x.id && ToDomain(x).createdAt == x.createdAt
    ensures ToDomain(x).expenseDate == x.expenseDate && ToDomain(x).user == x.user
  {
  }

  /** A row of the expenses table: an entity whose every column holds a value. */
  datatype Record = Record(
    id: Uuid,
    amount: Decimal,
    description: string,
    createdAt: LocalDateTime,
    expenseDate: LocalDateTime,
    category: ECategory,
    currency: ECurrency,
    paymentMethod: EPaymentMethod,
    userId: Uuid)

  function CategoryOf(r: Record): ECategory { r.category }
  function CurrencyOf(r: Record): ECurrency { r.currency }
  function PaymentMethodOf(r: Record): EPaymentMethod { r.paymentMethod }

  /** The entity read back from a row. */
  function Load(r: Record): ExpenseEntity {
    ExpenseEntity(Some(r.id), Some(r.amount), Some(r.description), Some(r.createdAt), Some(r.expenseDate),
                  Some(r.category), Some(r.currency), Some(r.paymentMethod), Some(r.userId))
  }

  /** The row written for an entity: a missing id is generated (`newId`), a missing createdAt is
      the creation timestamp (`now`); any other missing column makes the row unstorable. */
  function Persist(x: ExpenseEntity, newId: Uuid, now: LocalDateTime): (r: Option<Record>)
    ensures r.Some? <==> (x.amount.Some? && x.description.Some? && x.expenseDate.Some?
                          && x.category.Some? && x.currency.Some? && x.paymentMethod.Some? && x.user.Some?)
    ensures r.Some? ==> Load(r.value) == x.(id := Some(r.value.id), createdAt := Some(r.value.createdAt))
    ensures r.Some? ==> r.value.id == x.id.GetOr(newId) && r.value.createdAt == x.createdAt.GetOr(now)
  {
    if x.amount.Some? && x.description.Some? && x.expenseDate.Some? && x.category.Some?
       && x.currency.Some? && x.paymentMethod.Some? && x.user.Some?
    then Some(Record(x.id.GetOr(newId), x.amount.value, x.description.value, x.createdAt.GetOr(now),
                     x.expenseDate.value, x.category.value, x.currency.value, x.paymentMethod.value, x.user.value))
    else None
  }

  /** Reading a row and writing it again gives the same row. */
  lemma PersistLoadRoundTrip(r: Record, newId: Uuid, now: LocalDateTime)
    ensures Persist(Load(r), newId, now) == Some(r)
  {
  }
}
