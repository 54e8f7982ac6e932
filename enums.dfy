/** The three enums of the model package. They are persisted by name (`EnumType.STRING`),
    so the database orders them by their name strings, not by declaration order. */
module Enums {
  import opened Wrappers
  import Strings

  datatype ECategory = FOOD | TRANSPORT | RENT | ENTERTAINMENT | UTILITIES | HEALTH | EDUCATION | OTHER

  datatype ECurrency = BRL | USD | EUR | GBP | JPY

  datatype EPaymentMethod = CASH | CREDIT_CARD | DEBIT_CARD | PIX | BANK_TRANSFER | OTHER

  /** Every constant, in declaration order. */
  const AllCategories: seq<ECategory> :=
    [FOOD, TRANSPORT, RENT, ENTERTAINMENT, UTILITIES, HEALTH, EDUCATION, ECategory.OTHER]
  const AllCurrencies: seq<ECurrency> := [BRL, USD, EUR, GBP, JPY]
  const AllPaymentMethods: seq<EPaymentMethod> :=
    [CASH, CREDIT_CARD, DEBIT_CARD, PIX, BANK_TRANSFER, EPaymentMethod.OTHER]

  /** `name()`: the string stored in the column. */
  function CategoryName(c: ECategory): string {
    match c
    case FOOD => "FOOD"
    case TRANSPORT => "TRANSPORT"
    case RENT => "RENT"
    case ENTERTAINMENT => "ENTERTAINMENT"
    case UTILITIES => "UTILITIES"
    case HEALTH => "HEALTH"
    case EDUCATION => "EDUCATION"
    case OTHER => "OTHER"
  }

  function CurrencyName(c: ECurrency): string {
    match c
    case BRL => "BRL"
    case USD => "USD"
    case EUR => "EUR"
    case GBP => "GBP"
    case JPY => "JPY"
  }

  function PaymentMethodName(m: EPaymentMethod): string {
    match m
    case CASH => "CASH"
    case CREDIT_CARD => "CREDIT_CARD"
    case DEBIT_CARD => "DEBIT_CARD"
    case PIX => "PIX"
    case BANK_TRANSFER => "BANK_TRANSFER"
    case OTHER => "OTHER"
  }

  /** `ordinal()`: the declaration position. */
  function PaymentMethodOrdinal(m: EPaymentMethod): nat {
    match m
    case CASH => 0
    case CREDIT_CARD => 1
    case DEBIT_CARD => 2
    case PIX => 3
    case BANK_TRANSFER => 4
    case OTHER => 5
  }

  /** `valueOf(name)`: reading a stored column back; an unknown name has no constant. */
  function CategoryFromName(s: string): Option<ECategory> {
    if s == "FOOD" then Some(FOOD)
    else if s == "TRANSPORT" then Some(TRANSPORT)
    else if s == "RENT" then Some(RENT)
    else if s == "ENTERTAINMENT" then Some(ENTERTAINMENT)
    else if s == "UTILITIES" then Some(UTILITIES)
    else if s == "HEALTH" then Some(HEALTH)
    else if s == "EDUCATION" then Some(EDUCATION)
    else if s == "OTHER" then Some(ECategory.OTHER)
    else None
  }

  function CurrencyFromName(s: string): Option<ECurrency> {
    if s == "BRL" then Some(BRL)
    else if s == "USD" then Some(USD)
    else if s == "EUR" then Some(EUR)
    else if s == "GBP" then Some(GBP)
    else if s == "JPY" then Some(JPY)
    else None
  }

  function PaymentMethodFromName(s: string): Option<EPaymentMethod> {
    if s == "CASH" then Some(CASH)
    else if s == "CREDIT_CARD" then Some(CREDIT_CARD)
    else if s == "DEBIT_CARD" then Some(DEBIT_CARD)
    else if s == "PIX" then Some(PIX)
    else if s == "BANK_TRANSFER" then Some(BANK_TRANSFER)
    else if s == "OTHER" then Some(EPaymentMethod.OTHER)
    else None
  }

  /** Storing a constant by name and reading it back gives the constant again. */
  lemma NameRoundTrips(c: ECategory, u: ECurrency, m: EPaymentMethod)
    ensures CategoryFromName(CategoryName(c)) == Some(c)
    ensures CurrencyFromName(CurrencyName(u)) == Some(u)
    ensures PaymentMethodFromName(PaymentMethodName(m)) == Some(m)
  {
  }

  /** Distinct constants have distinct names, so the name tie-break is a strict order. */
  lemma NamesInjective(c: ECategory, c': ECategory, u: ECurrency, u': ECurrency, m: EPaymentMethod, m': EPaymentMethod)
    ensures CategoryName(c) == CategoryName(c') ==> c == c'
    ensures CurrencyName(u) == CurrencyName(u') ==> u == u'
    ensures PaymentMethodName(m) == PaymentMethodName(m') ==> m == m'
  {
    NameRoundTrips(c, u, m);
    NameRoundTrips(c', u', m');
  }

  /** Each list holds every constant exactly once. */
  lemma AllConstantsListed(c: ECategory, u: ECurrency, m: EPaymentMethod)
    ensures c in AllCategories && u in AllCurrencies && m in AllPaymentMethods
    ensures forall i, j :: 0 <= i < j < |AllCategories| ==> AllCategories[i] != AllCategories[j]
    ensures forall i, j :: 0 <= i < j < |AllCurrencies| ==> AllCurrencies[i] != AllCurrencies[j]
    ensures forall i, j :: 0 <= i < j < |AllPaymentMethods| ==> AllPaymentMethods[i] != AllPaymentMethods[j]
  {
  }

  /** BANK_TRANSFER is declared second to last, yet its name sorts before every other payment method. */
  lemma BankTransferNameSortsFirst(m: EPaymentMethod)
    requires m != BANK_TRANSFER
    ensures Strings.Less(PaymentMethodName(BANK_TRANSFER), PaymentMethodName(m))
    ensures PaymentMethodOrdinal(m) < PaymentMethodOrdinal(BANK_TRANSFER) <==> m != EPaymentMethod.OTHER
  {
  }
}
