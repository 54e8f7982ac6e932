/** The expense store and its queries: the lookup by id and owner, the four aggregate queries over
    an owner's rows in an inclusive date range, and the store's save and delete. */
module Repository {
  import opened Wrappers
  import opened Enums
  import opened Dates
  import opened Model
  import opened Dto
  import opened Grouping
  import Sorting
  import Strings

  // ---- The store: the rows of the expenses table, one per id.

  predicate IdsDistinct(rows: seq<Record>) {
    forall i, j :: 0 <= i < j < |rows| ==> rows[i].id != rows[j].id
  }

  lemma SameIdSameRow(rows: seq<Record>, x: Record, y: Record)
    requires IdsDistinct(rows) && x in rows && y in rows && x.id == y.id
    ensures x == y
  {
    var i :| 0 <= i < |rows| && rows[i] == x;
    var j :| 0 <= j < |rows| && rows[j] == y;
    assert !(i < j) && !(j < i);
  }

  lemma IdsDistinctCons(x: Record, t: seq<Record>)
    requires IdsDistinct(t) && forall y :: y in t ==> y.id != x.id
    ensures IdsDistinct([x] + t)
  {
    var s := [x] + t;
    forall i, j | 0 <= i < j < |s|
      ensures s[i].id != s[j].id
    {
      if i == 0 {
        assert s[j] == t[j - 1] && s[j] in t;
      } else {
        assert s[i] == t[i - 1] && s[j] == t[j - 1];
      }
    }
  }

  /** An id no row carries, standing for the generated identifier. */
  function NewId(rows: seq<Record>): (id: Uuid)
    ensures forall x :: x in rows ==> x.id < id
  {
    if rows == [] then 1
    else
      var rest := NewId(rows[1..]);
      assert forall x :: x in rows ==> x == rows[0] || x in rows[1..];
      if rows[0].id + 1 > rest then rows[0].id + 1 else rest
  }

  /** `delete`: the rows without the one carrying `id`. */
  function Remove(rows: seq<Record>, id: Uuid): (r: seq<Record>)
    ensures forall x :: x in r <==> x in rows && x.id != id
    ensures multiset(r) <= multiset(rows)
    ensures (forall x :: x in rows ==> x.id != id) ==> r == rows
  {
    if rows == [] then []
    else
      assert rows == [rows[0]] + rows[1..];
      if rows[0].id == id then Remove(rows[1..], id) else [rows[0]] + Remove(rows[1..], id)
  }

  lemma IdsDistinctUncons(x: Record, t: seq<Record>)
    requires IdsDistinct([x] + t)
    ensures IdsDistinct(t) && forall y :: y in t ==> y.id != x.id
  {
    var s := [x] + t;
    forall i, j | 0 <= i < j < |t|
      ensures t[i].id != t[j].id
    {
      assert t[i] == s[i + 1] && t[j] == s[j + 1];
    }
    forall y | y in t
      ensures y.id != x.id
    {
      var j :| 0 <= j < |t| && t[j] == y;
      assert s[j + 1] == y && s[0] == x;
      assert s[0].id != s[j + 1].id;
    }
  }

  /** Removing an id keeps the ids distinct, and removes exactly one row when one carries it. */
  lemma {:induction false} RemoveDistinct(rows: seq<Record>, id: Uuid)
    requires IdsDistinct(rows)
    ensures IdsDistinct(Remove(rows, id))
    ensures (exists x :: x in rows && x.id == id) ==> |Remove(rows, id)| == |rows| - 1
  {
    if rows != [] {
      var t := rows[1..];
      assert rows == [rows[0]] + t;
      IdsDistinctUncons(rows[0], t);
      RemoveDistinct(t, id);
      if rows[0].id != id {
        IdsDistinctCons(rows[0], Remove(t, id));
        if exists x :: x in rows && x.id == id {
          var x :| x in rows && x.id == id;
          assert x in t;
        }
      }
    }
  }

  /** `save`: the row takes the place of the row with the same id, if any. The position of a row
      in the table carries no meaning. */
  function Upsert(rows: seq<Record>, rec: Record): (r: seq<Record>)
    ensures forall x :: x in r <==> x == rec || (x in rows && x.id != rec.id)
    ensures (forall x :: x in rows ==> x.id != rec.id) ==> r == rows + [rec]
  {
    Remove(rows, rec.id) + [rec]
  }

  /** Saving keeps one row per id: afterwards `rec` is the only row with its id, and when it
      replaces a row the number of rows is unchanged. */
  lemma UpsertDistinct(rows: seq<Record>, rec: Record)
    requires IdsDistinct(rows)
    ensures IdsDistinct(Upsert(rows, rec))
    ensures |Upsert(rows, rec)| == if exists x :: x in rows && x.id == rec.id then |rows| else |rows| + 1
  {
    var t := Remove(rows, rec.id);
    RemoveDistinct(rows, rec.id);
    var s := t + [rec];
    forall i, j | 0 <= i < j < |s|
      ensures s[i].id != s[j].id
    {
      if j == |t| {
        assert s[i] == t[i] && s[i] in t;
      } else {
        assert s[i] == t[i] && s[j] == t[j];
      }
    }
  }

  /** The repository: the table behind `ExpenseJpaRepository`, which `ExpenseRepositoryImpl`
      reaches through `ExpenseEntity.fromDomain` and `toDomain`. */
  class ExpenseRepository {
    var rows: seq<Record>

    predicate Valid()
      reads this
    {
      IdsDistinct(rows)
    }

    constructor ()
      ensures rows == [] && Valid()
    {
      rows := [];
    }

    /** `save(expense)`: the entity of the bean is written, a missing id generated and a missing
        createdAt stamped with `now`, and the bean read back from the written row is returned. */
    method Save(e: ExpenseState, now: LocalDateTime) returns (r: Result<ExpenseState, Error>)
      requires Valid()
      modifies this
      ensures Valid()
      ensures var stored := Persist(FromDomain(e), NewId(old(rows)), now);
        && (stored.None? ==> r == Failure(StorageFailure) && rows == old(rows))
        && (stored.Some? ==> rows == Upsert(old(rows), stored.value)
                             && r == Success(e.(id := Some(stored.value.id), createdAt := Some(stored.value.createdAt))))
    {
      var entity := FromDomain(e);
      var stored := Persist(entity, NewId(rows), now);
      if stored.None? {
        return Failure(StorageFailure);
      }
      UpsertDistinct(rows, stored.value);
      rows := Upsert(rows, stored.value);
      DomainRoundTrip(e, entity);
      r := Success(ToDomain(Load(stored.value)));
    }

    /** `delete(expense)`: the row with the bean's id goes; a bean without an id deletes nothing. */
    method Delete(e: ExpenseState)
      requires Valid()
      modifies this
      ensures Valid()
      ensures rows == (if e.id.Some? then Remove(old(rows), e.id.value) else old(rows))
    {
      if e.id.Some? {
        RemoveDistinct(rows, e.id.value);
        rows := Remove(rows, e.id.value);
      }
    }
  }

  // ---- The queries.

  /** `findByIdAndUser_Id`: the row with this id, when it belongs to this owner. */
  function FindByIdAndUserId(rows: seq<Record>, id: Uuid, userId: Uuid): (r: Option<Record>)
    ensures r.Some? <==> exists x :: x in rows && x.id == id && x.userId == userId
    ensures r.Some? ==> r.value in rows && r.value.id == id && r.value.userId == userId
  {
    if rows == [] then None
    else if rows[0].id == id && rows[0].userId == userId then Some(rows[0])
    else
      assert forall x :: x in rows ==> x == rows[0] || x in rows[1..];
      FindByIdAndUserId(rows[1..], id, userId)
  }

  /** A row is found by its id exactly when its owner asks for it. */
  lemma FindRespectsOwner(rows: seq<Record>, id: Uuid, userId: Uuid, x: Record)
    requires IdsDistinct(rows) && x in rows && x.id == id
    ensures FindByIdAndUserId(rows, id, userId) == (if x.userId == userId then Some(x) else None)
  {
    var r := FindByIdAndUserId(rows, id, userId);
    if r.Some? {
      SameIdSameRow(rows, x, r.value);
    }
  }

  /** The rows of the four aggregate queries: `e.user.id = :userId` and `e.expenseDate` between the
      bounds, both included (`BETWEEN`, and `>=` with `<=` in the currency query). */
  predicate InScope(x: Record, userId: Uuid, start: LocalDateTime, end: LocalDateTime) {
    x.userId == userId && NotAfter(start, x.expenseDate) && NotAfter(x.expenseDate, end)
  }

  function Scope(rows: seq<Record>, userId: Uuid, start: LocalDateTime, end: LocalDateTime): (r: seq<Record>)
    ensures forall x :: x in r <==> x in rows && InScope(x, userId, start, end)
    ensures multiset(r) <= multiset(rows)
    ensures forall x :: multiset(r)[x] == (if InScope(x, userId, start, end) then multiset(rows)[x] else 0)
  {
    if rows == [] then []
    else
      assert rows == [rows[0]] + rows[1..];
      var rest := Scope(rows[1..], userId, start, end);
      if InScope(rows[0], userId, start, end) then [rows[0]] + rest else rest
  }

  /** `countAndSumTotalAmount`: the number of rows in scope and the sum of their amounts. */
  function CountAndSumTotalAmount(rows: seq<Record>, userId: Uuid, start: LocalDateTime, end: LocalDateTime): (r: CountAndTotal)
    ensures r.count == 0 <==> forall x :: x in rows ==> !InScope(x, userId, start, end)
    ensures r.count == 0 ==> r.totalExpense == 0.0
  {
    var s := Scope(rows, userId, start, end);
    assert s != [] ==> s[0] in s;
    CountAndTotal(|s|, SumAmounts(s))
  }

  /** Every constant is listed once, so every row's value is, in each of the three columns. */
  lemma CategoriesListedOnce()
    ensures Sorting.NoDuplicates(AllCategories) && forall x: Record :: CategoryOf(x) in AllCategories
  {
    AllConstantsListed(FOOD, BRL, CASH);
    forall x: Record
      ensures CategoryOf(x) in AllCategories
    {
      AllConstantsListed(x.category, x.currency, x.paymentMethod);
    }
  }

  lemma CurrenciesListedOnce()
    ensures Sorting.NoDuplicates(AllCurrencies) && forall x: Record :: CurrencyOf(x) in AllCurrencies
  {
    AllConstantsListed(FOOD, BRL, CASH);
    forall x: Record
      ensures CurrencyOf(x) in AllCurrencies
    {
      AllConstantsListed(x.category, x.currency, x.paymentMethod);
    }
  }

  lemma PaymentMethodsListedOnce()
    ensures Sorting.NoDuplicates(AllPaymentMethods) && forall x: Record :: PaymentMethodOf(x) in AllPaymentMethods
  {
    AllConstantsListed(FOOD, BRL, CASH);
    forall x: Record
      ensures PaymentMethodOf(x) in AllPaymentMethods
    {
      AllConstantsListed(x.category, x.currency, x.paymentMethod);
    }
  }

  // `ORDER BY SUM(e.amount) DESC, e.category`, `ORDER BY SUM(e.amount) DESC, e.currency` and
  // `ORDER BY COUNT(e) DESC, e.paymentMethod`: the enum columns hold the constants' names.

  function CategoryRank(g: Group<ECategory>): Sorting.Rank {
    Sorting.Rank(g.total, CategoryName(g.key))
  }

  function CurrencyRank(g: Group<ECurrency>): Sorting.Rank {
    Sorting.Rank(g.total, CurrencyName(g.key))
  }

  function PaymentMethodRank(g: Group<EPaymentMethod>): Sorting.Rank {
    Sorting.Rank(g.count as real, PaymentMethodName(g.key))
  }

  predicate CategoryFirst(a: Group<ECategory>, b: Group<ECategory>) {
    Sorting.Precedes(CategoryRank(a), CategoryRank(b))
  }

  predicate CurrencyFirst(a: Group<ECurrency>, b: Group<ECurrency>) {
    Sorting.Precedes(CurrencyRank(a), CurrencyRank(b))
  }

  predicate PaymentMethodFirst(a: Group<EPaymentMethod>, b: Group<EPaymentMethod>) {
    Sorting.Precedes(PaymentMethodRank(a), PaymentMethodRank(b))
  }

  /** Each order is a total preorder, and the name in its rank tells the values apart. */
  lemma CategoryOrder()
    ensures Sorting.Total(CategoryFirst) && Sorting.Transitive(CategoryFirst)
    ensures forall a, b :: CategoryRank(a).name == CategoryRank(b).name ==> a.key == b.key
  {
    Sorting.RankedOrder(CategoryFirst, CategoryRank);
    forall a: Group<ECategory>, b: Group<ECategory> | CategoryRank(a).name == CategoryRank(b).name
      ensures a.key == b.key
    {
      NamesInjective(a.key, b.key, BRL, BRL, CASH, CASH);
    }
  }

  lemma CurrencyOrder()
    ensures Sorting.Total(CurrencyFirst) && Sorting.Transitive(CurrencyFirst)
    ensures forall a, b :: CurrencyRank(a).name == CurrencyRank(b).name ==> a.key == b.key
  {
    Sorting.RankedOrder(CurrencyFirst, CurrencyRank);
    forall a: Group<ECurrency>, b: Group<ECurrency> | CurrencyRank(a).name == CurrencyRank(b).name
      ensures a.key == b.key
    {
      NamesInjective(FOOD, FOOD, a.key, b.key, CASH, CASH);
    }
  }

  lemma PaymentMethodOrder()
    ensures Sorting.Total(PaymentMethodFirst) && Sorting.Transitive(PaymentMethodFirst)
    ensures forall a, b :: PaymentMethodRank(a).name == PaymentMethodRank(b).name ==> a.key == b.key
  {
    Sorting.RankedOrder(PaymentMethodFirst, PaymentMethodRank);
    forall a: Group<EPaymentMethod>, b: Group<EPaymentMethod> | PaymentMethodRank(a).name == PaymentMethodRank(b).name
      ensures a.key == b.key
    {
      NamesInjective(FOOD, FOOD, BRL, BRL, a.key, b.key);
    }
  }

  /** The groups of the category query, in query order. */
  function CategoryGroups(rows: seq<Record>, userId: Uuid, start: LocalDateTime, end: LocalDateTime): seq<Group<ECategory>> {
    CategoryOrder();
    Sorting.SortBy(Groups(AllCategories, Scope(rows, userId, start, end), CategoryOf), CategoryFirst)
  }

  function CurrencyGroups(rows: seq<Record>, userId: Uuid, start: LocalDateTime, end: LocalDateTime): seq<Group<ECurrency>> {
    CurrencyOrder();
    Sorting.SortBy(Groups(AllCurrencies, Scope(rows, userId, start, end), CurrencyOf), CurrencyFirst)
  }

  function PaymentMethodGroups(rows: seq<Record>, userId: Uuid, start: LocalDateTime, end: LocalDateTime): seq<Group<EPaymentMethod>> {
    PaymentMethodOrder();
    Sorting.SortBy(Groups(AllPaymentMethods, Scope(rows, userId, start, end), PaymentMethodOf), PaymentMethodFirst)
  }

  function TotalOfCategories(r: seq<CategoryTotal>): real {
    if r == [] then 0.0 else r[0].total + TotalOfCategories(r[1..])
  }

  function CountOfCategories(r: seq<CategoryTotal>): nat {
    if r == [] then 0 else r[0].count + CountOfCategories(r[1..])
  }

  function TotalOfCurrencies(r: seq<CurrencyTotal>): real {
    if r == [] then 0.0 else r[0].total + TotalOfCurrencies(r[1..])
  }

  /** The projection rows of category groups, one for one. */
  function ToCategoryTotals(gs: seq<Group<ECategory>>): (r: seq<CategoryTotal>)
    ensures |r| == |gs|
    ensures forall i :: 0 <= i < |r| ==> r[i] == CategoryTotal(gs[i].key, gs[i].total, gs[i].count)
    ensures TotalOfCategories(r) == TotalOf(gs) && CountOfCategories(r) == CountOf(gs)
  {
    if gs == [] then []
    else
      var r := [CategoryTotal(gs[0].key, gs[0].total, gs[0].count)] + ToCategoryTotals(gs[1..]);
      assert r[1..] == ToCategoryTotals(gs[1..]);
      r
  }

  function ToCurrencyTotals(gs: seq<Group<ECurrency>>): (r: seq<CurrencyTotal>)
    ensures |r| == |gs|
    ensures forall i :: 0 <= i < |r| ==> r[i] == CurrencyTotal(gs[i].key, gs[i].total)
    ensures TotalOfCurrencies(r) == TotalOf(gs)
  {
    if gs == [] then []
    else
      var r := [CurrencyTotal(gs[0].key, gs[0].total)] + ToCurrencyTotals(gs[1..]);
      assert r[1..] == ToCurrencyTotals(gs[1..]);
      r
  }

  /** `groupByExpenseCategoryAndSumAmount`. */
  function GroupByExpenseCategoryAndSumAmount(rows: seq<Record>, userId: Uuid, start: LocalDateTime, end: LocalDateTime): seq<CategoryTotal> {
    ToCategoryTotals(CategoryGroups(rows, userId, start, end))
  }

  /** `groupByCurrencyAndSumAmount`. */
  function GroupByCurrencyAndSumAmount(rows: seq<Record>, userId: Uuid, start: LocalDateTime, end: LocalDateTime): seq<CurrencyTotal> {
    ToCurrencyTotals(CurrencyGroups(rows, userId, start, end))
  }

  /** `getMostUsedPaymentMethod`: the first group (`LIMIT 1`), or none (`null`) without rows. */
  function GetMostUsedPaymentMethod(rows: seq<Record>, userId: Uuid, start: LocalDateTime, end: LocalDateTime): Option<PaymentMethodSummary> {
    var gs := PaymentMethodGroups(rows, userId, start, end);
    if gs == [] then None else Some(PaymentMethodSummary(gs[0].key, gs[0].count))
  }

  /** The category groups in query order: each is the aggregate of its category, the categories
      are exactly those of the rows in scope, and the order is strict. */
  lemma CategoryGroupsCorrect(rows: seq<Record>, userId: Uuid, start: LocalDateTime, end: LocalDateTime)
    ensures var gs := CategoryGroups(rows, userId, start, end);
      var s := Scope(rows, userId, start, end);
      && (forall i :: 0 <= i < |gs| ==> gs[i] == GroupOf(s, CategoryOf, gs[i].key) && gs[i].count > 0)
      && (forall x :: x in s ==> exists i :: 0 <= i < |gs| && gs[i].key == CategoryOf(x))
      && (forall i, j :: 0 <= i < j < |gs| ==> Sorting.StrictlyPrecedes(CategoryRank(gs[i]), CategoryRank(gs[j])))
  {
    var s := Scope(rows, userId, start, end);
    var gs := CategoryGroups(rows, userId, start, end);
    CategoriesListedOnce();
    CategoryOrder();
    SortedGroupsStrict(AllCategories, s, CategoryOf, CategoryFirst, CategoryRank);
    GroupsCover(AllCategories, s, CategoryOf, gs);
  }

  lemma CurrencyGroupsCorrect(rows: seq<Record>, userId: Uuid, start: LocalDateTime, end: LocalDateTime)
    ensures var gs := CurrencyGroups(rows, userId, start, end);
      var s := Scope(rows, userId, start, end);
      && (forall i :: 0 <= i < |gs| ==> gs[i] == GroupOf(s, CurrencyOf, gs[i].key) && gs[i].count > 0)
      && (forall x :: x in s ==> exists i :: 0 <= i < |gs| && gs[i].key == CurrencyOf(x))
      && (forall i, j :: 0 <= i < j < |gs| ==> Sorting.StrictlyPrecedes(CurrencyRank(gs[i]), CurrencyRank(gs[j])))
  {
    var s := Scope(rows, userId, start, end);
    var gs := CurrencyGroups(rows, userId, start, end);
    CurrenciesListedOnce();
    CurrencyOrder();
    SortedGroupsStrict(AllCurrencies, s, CurrencyOf, CurrencyFirst, CurrencyRank);
    GroupsCover(AllCurrencies, s, CurrencyOf, gs);
  }

  /** The projection rows of category groups carry the groups' sums, their covering and their order
      over, one fact at a time. */
  lemma CategoryTotalsSums(gs: seq<Group<ECategory>>, s: seq<Record>)
    requires forall i :: 0 <= i < |gs| ==> gs[i] == GroupOf(s, CategoryOf, gs[i].key) && gs[i].count > 0
    ensures var r := ToCategoryTotals(gs);
      forall i :: 0 <= i < |r| ==>
      r[i].total == SumAmounts(Where(s, CategoryOf, r[i].category))
      && r[i].count == |Where(s, CategoryOf, r[i].category)| > 0
  {
  }

  lemma CategoryTotalsCover(gs: seq<Group<ECategory>>, s: seq<Record>)
    requires forall x :: x in s ==> exists i :: 0 <= i < |gs| && gs[i].key == CategoryOf(x)
    ensures forall x :: x in s ==> exists i :: 0 <= i < |gs| && ToCategoryTotals(gs)[i].category == x.category
  {
  }

  lemma CategoryTotalsOrder(gs: seq<Group<ECategory>>)
    requires forall i, j :: 0 <= i < j < |gs| ==> Sorting.StrictlyPrecedes(CategoryRank(gs[i]), CategoryRank(gs[j]))
    ensures var r := ToCategoryTotals(gs);
      forall i, j :: 0 <= i < j < |r| ==>
        r[i].total > r[j].total || (r[i].total == r[j].total && Strings.Less(CategoryName(r[i].category), CategoryName(r[j].category)))
  {
    var r := ToCategoryTotals(gs);
    forall i, j | 0 <= i < j < |r|
      ensures r[i].total > r[j].total || (r[i].total == r[j].total && Strings.Less(CategoryName(r[i].category), CategoryName(r[j].category)))
    {
      assert Sorting.StrictlyPrecedes(CategoryRank(gs[i]), CategoryRank(gs[j]));
    }
  }

  /** The category query: an entry for the category of every row in scope, and only for categories
      with rows, holding the sum of those rows' amounts and their number, by total descending and
      then by category name ascending, strictly, so no category appears twice. */
  lemma GroupByCategoryCorrect(rows: seq<Record>, userId: Uuid, start: LocalDateTime, end: LocalDateTime)
    ensures var r := GroupByExpenseCategoryAndSumAmount(rows, userId, start, end);
      var s := Scope(rows, userId, start, end);
      && (forall i :: 0 <= i < |r| ==>
            r[i].total == SumAmounts(Where(s, CategoryOf, r[i].category))
            && r[i].count == |Where(s, CategoryOf, r[i].category)| > 0)
      && (forall x :: x in s ==> exists i :: 0 <= i < |r| && r[i].category == x.category)
      && (forall i, j :: 0 <= i < j < |r| ==>
            r[i].total > r[j].total || (r[i].total == r[j].total && Strings.Less(CategoryName(r[i].category), CategoryName(r[j].category))))
  {
    var gs := CategoryGroups(rows, userId, start, end);
    var s := Scope(rows, userId, start, end);
    CategoryGroupsCorrect(rows, userId, start, end);
    CategoryTotalsSums(gs, s);
    CategoryTotalsCover(gs, s);
    CategoryTotalsOrder(gs);
  }

  /** The projection rows of currency groups carry the groups' sums, their covering and their order
      over, one fact at a time. */
  lemma CurrencyTotalsSums(gs: seq<Group<ECurrency>>, s: seq<Record>)
    requires forall i :: 0 <= i < |gs| ==> gs[i] == GroupOf(s, CurrencyOf, gs[i].key) && gs[i].count > 0
    ensures var r := ToCurrencyTotals(gs);
      forall i :: 0 <= i < |r| ==>
      r[i].total == SumAmounts(Where(s, CurrencyOf, r[i].currency)) && |Where(s, CurrencyOf, r[i].currency)| > 0
  {
  }

  lemma CurrencyTotalsCover(gs: seq<Group<ECurrency>>, s: seq<Record>)
    requires forall x :: x in s ==> exists i :: 0 <= i < |gs| && gs[i].key == CurrencyOf(x)
    ensures forall x :: x in s ==> exists i :: 0 <= i < |gs| && ToCurrencyTotals(gs)[i].currency == x.currency
  {
  }

  lemma CurrencyTotalsOrder(gs: seq<Group<ECurrency>>)
    requires forall i, j :: 0 <= i < j < |gs| ==> Sorting.StrictlyPrecedes(CurrencyRank(gs[i]), CurrencyRank(gs[j]))
    ensures var r := ToCurrencyTotals(gs);
      forall i, j :: 0 <= i < j < |r| ==>
        r[i].total > r[j].total || (r[i].total == r[j].total && Strings.Less(CurrencyName(r[i].currency), CurrencyName(r[j].currency)))
  {
    var r := ToCurrencyTotals(gs);
    forall i, j | 0 <= i < j < |r|
      ensures r[i].total > r[j].total || (r[i].total == r[j].total && Strings.Less(CurrencyName(r[i].currency), CurrencyName(r[j].currency)))
    {
      assert Sorting.StrictlyPrecedes(CurrencyRank(gs[i]), CurrencyRank(gs[j]));
    }
  }

  /** The currency query: an entry for the currency of every row in scope, and only for currencies
      with rows, holding the sum of those rows' amounts, by total descending and then by currency
      name ascending, strictly. */
  lemma GroupByCurrencyCorrect(rows: seq<Record>, userId: Uuid, start: LocalDateTime, end: LocalDateTime)
    ensures var r := GroupByCurrencyAndSumAmount(rows, userId, start, end);
      var s := Scope(rows, userId, start, end);
      && (forall i :: 0 <= i < |r| ==>
            r[i].total == SumAmounts(Where(s, CurrencyOf, r[i].currency)) && |Where(s, CurrencyOf, r[i].currency)| > 0)
      && (forall x :: x in s ==> exists i :: 0 <= i < |r| && r[i].currency == x.currency)
      && (forall i, j :: 0 <= i < j < |r| ==>
            r[i].total > r[j].total || (r[i].total == r[j].total && Strings.Less(CurrencyName(r[i].currency), CurrencyName(r[j].currency))))
  {
    var gs := CurrencyGroups(rows, userId, start, end);
    var s := Scope(rows, userId, start, end);
    CurrencyGroupsCorrect(rows, userId, start, end);
    CurrencyTotalsSums(gs, s);
    CurrencyTotalsCover(gs, s);
    CurrencyTotalsOrder(gs);
  }

  /** The most used payment method: none exactly when no row is in scope; otherwise a method with
      the largest number of rows in scope, and among methods with that number the one with the
      smallest name. */
  lemma MostUsedPaymentMethodCorrect(rows: seq<Record>, userId: Uuid, start: LocalDateTime, end: LocalDateTime)
    ensures var r := GetMostUsedPaymentMethod(rows, userId, start, end);
      var s := Scope(rows, userId, start, end);
      && (r.None? <==> forall x :: x in rows ==> !InScope(x, userId, start, end))
      && (r.Some? ==> r.value.usageCount == |Where(s, PaymentMethodOf, r.value.paymentMethod)| > 0)
      && (r.Some? ==> forall m: EPaymentMethod :: m != r.value.paymentMethod ==>
            |Where(s, PaymentMethodOf, m)| < r.value.usageCount
            || (|Where(s, PaymentMethodOf, m)| == r.value.usageCount
                && Strings.Less(PaymentMethodName(r.value.paymentMethod), PaymentMethodName(m))))
  {
    var s := Scope(rows, userId, start, end);
    var gs0 := Groups(AllPaymentMethods, s, PaymentMethodOf);
    var gs := PaymentMethodGroups(rows, userId, start, end);
    PaymentMethodsListedOnce();
    PaymentMethodOrder();
    SortedGroupsStrict(AllPaymentMethods, s, PaymentMethodOf, PaymentMethodFirst, PaymentMethodRank);
    GroupsEmpty(AllPaymentMethods, s, PaymentMethodOf);
    assert |gs| == |gs0|;
    assert s != [] ==> s[0] in s;
    if gs != [] {
      assert gs[0] in gs0;
      forall m: EPaymentMethod | m != gs[0].key && |Where(s, PaymentMethodOf, m)| > 0
        ensures |Where(s, PaymentMethodOf, m)| < gs[0].count
                || (|Where(s, PaymentMethodOf, m)| == gs[0].count
                    && Strings.Less(PaymentMethodName(gs[0].key), PaymentMethodName(m)))
      {
        var w := Where(s, PaymentMethodOf, m);
        assert w[0] in w;
        assert GroupOf(s, PaymentMethodOf, m) in gs;
        var j :| 0 <= j < |gs| && gs[j] == GroupOf(s, PaymentMethodOf, m);
        assert j != 0;
        assert Sorting.StrictlyPrecedes(PaymentMethodRank(gs[0]), PaymentMethodRank(gs[j]));
      }
    }
  }

  /** BANK_TRANSFER, declared second to last, wins every tie for the largest count. */
  lemma BankTransferWinsTies(rows: seq<Record>, userId: Uuid, start: LocalDateTime, end: LocalDateTime)
    requires var s := Scope(rows, userId, start, end);
      && |Where(s, PaymentMethodOf, BANK_TRANSFER)| > 0
      && forall m: EPaymentMethod :: |Where(s, PaymentMethodOf, m)| <= |Where(s, PaymentMethodOf, BANK_TRANSFER)|
    ensures GetMostUsedPaymentMethod(rows, userId, start, end) ==
      Some(PaymentMethodSummary(BANK_TRANSFER, |Where(Scope(rows, userId, start, end), PaymentMethodOf, BANK_TRANSFER)|))
  {
    var s := Scope(rows, userId, start, end);
    MostUsedPaymentMethodCorrect(rows, userId, start, end);
    var w := Where(s, PaymentMethodOf, BANK_TRANSFER);
    assert w[0] in w;
    var r := GetMostUsedPaymentMethod(rows, userId, start, end);
    if r.value.paymentMethod != BANK_TRANSFER {
      BankTransferNameSortsFirst(r.value.paymentMethod);
      Strings.LessAsymmetric(PaymentMethodName(BANK_TRANSFER), PaymentMethodName(r.value.paymentMethod));
    }
  }

  /** All four queries read the same rows: the category totals add up to the total of
      `countAndSumTotalAmount` and their counts to its count, the currency totals add up to the
      same total, and a most used method exists exactly when the count is not zero. */
  lemma AggregatesAgree(rows: seq<Record>, userId: Uuid, start: LocalDateTime, end: LocalDateTime)
    ensures var c := CountAndSumTotalAmount(rows, userId, start, end);
      && TotalOfCategories(GroupByExpenseCategoryAndSumAmount(rows, userId, start, end)) == c.totalExpense
      && CountOfCategories(GroupByExpenseCategoryAndSumAmount(rows, userId, start, end)) == c.count
      && TotalOfCurrencies(GroupByCurrencyAndSumAmount(rows, userId, start, end)) == c.totalExpense
      && (GetMostUsedPaymentMethod(rows, userId, start, end).None? <==> c.count == 0)
  {
    var s := Scope(rows, userId, start, end);
    CategoriesListedOnce();
    CurrenciesListedOnce();
    CategoryOrder();
    CurrencyOrder();
    GroupsPartition(AllCategories, s, CategoryOf);
    SortKeepsSums(Groups(AllCategories, s, CategoryOf), CategoryFirst);
    GroupsPartition(AllCurrencies, s, CurrencyOf);
    SortKeepsSums(Groups(AllCurrencies, s, CurrencyOf), CurrencyFirst);
    MostUsedPaymentMethodCorrect(rows, userId, start, end);
  }
}
