# trackit-api expense core, modelled in Dafny

This project models the expense-handling core of trackit-api, a Spring Boot REST service where
each authenticated user records their own expenses and queries them. Each expense has:

- an amount;
- a description;
- a creation timestamp;
- an expense date;
- a category, a currency and a payment method.

The model covers:

- **The `Expense` domain bean.** It is a class with optional fields and one setter per field.
- **Its persistence form `ExpenseEntity`.** Covered are the `fromDomain`/`toDomain` mapping and
  what a save writes: a generated id and a creation timestamp.
- **The expense store.** It is modelled as a sequence of rows with distinct ids, plus the
  repository's save, delete and lookup.
- **The dynamic filter of `ExpenseSpecification.withFilters`.** This includes:
  - the owner clause;
  - explicit start/end dates taking precedence over a `yyyy-MM` month;
  - the month's whole-month range;
  - the category, currency and payment-method clauses.
- **The four aggregate queries of `ExpenseJpaRepository`.** For each, the model covers the
  `GROUP BY`, the sums and counts, and the `ORDER BY … DESC, <enum name>` order with its
  tie-break. For the most-used payment method, it also covers `LIMIT 1`.
- **The `ExpenseService` operations:**
  - create;
  - paged and filtered listing, latest expense date first;
  - partial update;
  - delete;
  - owner-scoped lookup;
  - the dated summary.
- **The bean-validation rules of the request bodies.**
- **The `ExpenseResponse.fromEntity` projection.**

Modules follow the program's packages: `Enums` and `Model` cover the `model` package, `Dto` the `dto`
package, and `Specification`, `Repository` and `Service` the packages of those names (with the
`projection` records inside `Repository`). The supporting modules `Wrappers`, `Strings`, `Dates`,
`Sorting`, `Grouping` and `Paging` have no package behind them: they model the library types and
the query arithmetic the code relies on.

| module | file | subject |
|---|---|---|
| `Wrappers` | `wrappers.dfy` | `Option`, `Result` and the exceptions the core throws |
| `Strings` | `strings.dfy` | the lexicographic order used for enum names |
| `Enums` | `enums.dfy` | `ECategory`, `ECurrency`, `EPaymentMethod` and their stored names |
| `Dates` | `dates.dfy` | `LocalDate`, `LocalDateTime`, `YearMonth`, and parsing `yyyy-MM` |
| `Sorting` | `sorting.dfy` | stable sorting, and the order of an aggregate row |
| `Model` | `model.dfy` | the `Expense` bean, `ExpenseEntity` and the stored row |
| `Dto` | `dto.dfy` | the request bodies, their validity, and the response records |
| `Grouping` | `grouping.dfy` | `GROUP BY` with `SUM` and `COUNT` |
| `Specification` | `specification.dfy` | `withFilters` and the rows it selects |
| `Repository` | `repository.dfy` | the store, the repository class and the JPQL queries |
| `Paging` | `paging.dfy` | `PageRequest` offsets and the page count |
| `Service` | `service.dfy` | `ExpenseService` |

Three behaviours of the code are worth stating plainly:

- **Summary date order.** The summary rejects only a start date after the end date, with the
  message "Start date must be before end date" (`service/ExpenseService.java:92-94`). Equal
  dates are accepted.
- **Paging errors.** The paging bounds are checked by Spring Data's `PageRequest.of`, with the
  messages "Page index must not be less than zero" and "Page size must not be less than one".
  Those checks run before the filter's month is parsed, because the specification is evaluated
  when the query runs.
- **Summary count.** It is the number of matching rows (`COUNT(e)`). It is not a count of
  distinct dates.

## Model

All source paths are under `src/main/java/com/spedine/trackit/` except the two test files.

| member | source | states |
|---|---|---|
| Model.Expense.constructor | src/main/java/com/spedine/trackit/model/Expense.java:38-39 | a new bean has every field unset |
| Model.Expense.FromState | src/main/java/com/spedine/trackit/model/ExpenseEntity.java:68-70 | the bean built by `toDomain` holds exactly the given field values |
| Model.Expense.SetAmount | src/main/java/com/spedine/trackit/model/Expense.java:49-51 | the getter returns the new amount and no other field changes |
| Model.Expense.SetDescription | src/main/java/com/spedine/trackit/model/Expense.java:57-59 | the getter returns the new description and no other field changes |
| Model.Expense.SetCreatedAt | src/main/java/com/spedine/trackit/model/Expense.java:65-67 | the getter returns the new timestamp and no other field changes |
| Model.Expense.SetExpenseDate | src/main/java/com/spedine/trackit/model/Expense.java:73-75 | the getter returns the new expense date and no other field changes |
| Model.Expense.SetCategory | src/main/java/com/spedine/trackit/model/Expense.java:81-83 | the getter returns the new category and no other field changes |
| Model.Expense.SetCurrency | src/main/java/com/spedine/trackit/model/Expense.java:89-91 | the getter returns the new currency and no other field changes |
| Model.Expense.SetPaymentMethod | src/main/java/com/spedine/trackit/model/Expense.java:97-99 | the getter returns the new payment method and no other field changes |
| Model.Expense.SetUser | src/main/java/com/spedine/trackit/model/Expense.java:105-107 | the getter returns the new owner and no other field changes |
| Model.DomainRoundTrip | src/main/java/com/spedine/trackit/model/ExpenseEntity.java:54-70 | `toDomain(fromDomain(e))` is `e` for every bean state, and `fromDomain(toDomain(x))` is `x` |
| Model.ToDomainKeepsIdentity | src/main/java/com/spedine/trackit/model/ExpenseEntity.java:68-78 | the domain bean keeps the entity's id, creation time, expense date and owner, each in its own field |
| Model.Persist | src/main/java/com/spedine/trackit/model/Expense.java:13-22 | a bean can be stored exactly when its seven non-null columns are set; the stored row keeps a given id and creation time, or gets the generated ones |
| Model.PersistLoadRoundTrip | src/main/java/com/spedine/trackit/repository/ExpenseRepositoryImpl.java:31-35 | writing the entity of a stored row again gives that same row, whatever id and time would have been generated |
| Enums.NameRoundTrips | src/main/java/com/spedine/trackit/model/ExpenseEntity.java:25-32 | each enum constant is read back from the name stored in its column |
| Enums.NamesInjective | src/main/java/com/spedine/trackit/model/ECategory.java:6-15 | different constants have different stored names, so grouping by column groups by constant |
| Enums.AllConstantsListed | src/main/java/com/spedine/trackit/model/EPaymentMethod.java:6-13 | the constant lists hold every constant of the three enums, each once |
| Enums.BankTransferNameSortsFirst | src/main/java/com/spedine/trackit/model/EPaymentMethod.java:6-13 | `BANK_TRANSFER` has the smallest name of the payment methods, so it wins a tie on `ORDER BY COUNT(e) DESC, e.paymentMethod` |
| Strings.LessTotal | src/main/java/com/spedine/trackit/repository/ExpenseJpaRepository.java:42 | two different names are always ordered one way or the other |
| Strings.LessTransitive | src/main/java/com/spedine/trackit/repository/ExpenseJpaRepository.java:42 | the name order used as tie-break is transitive |
| Strings.LessAsymmetric | src/main/java/com/spedine/trackit/repository/ExpenseJpaRepository.java:42 | no two names each precede the other |
| Dates.NotAfterTotalOrder | src/main/java/com/spedine/trackit/specification/ExpenseSpecification.java:23-30 | the date-time order used by the date clauses and the listing sort is a total order |
| Dates.ParseYearMonth | src/main/java/com/spedine/trackit/specification/ExpenseSpecification.java:32 | a month that parses is a valid year and month |
| Dates.ParseFourDigitYearMonth | src/main/java/com/spedine/trackit/specification/ExpenseSpecification.java:32 | an unsigned `yyyy-MM` text parses exactly when its month is 1 to 12, and then denotes the year of its four digits and the month of its two digits |
| Dates.ParseFormatRoundTrip | src/main/java/com/spedine/trackit/specification/ExpenseSpecification.java:32 | every valid month with a four-digit year parses back from its `yyyy-MM` text |
| Dates.MonthRangeExact | src/main/java/com/spedine/trackit/specification/ExpenseSpecification.java:33-35 | a date-time lies between the month's first instant and its last day's end exactly when its date is in that month |
| Dates.MonthLengths | src/main/java/com/spedine/trackit/specification/ExpenseSpecification.java:34 | `lengthOfMonth` is 28, 29, 30 or 31 days, with 29 for February exactly in leap years |
| Dates.FullDayBoundsExact | src/main/java/com/spedine/trackit/service/ExpenseService.java:96-97 | a date-time lies between `atStartOfDay` of `s` and `atTime(MAX)` of `e` exactly when its date lies in `[s, e]` |
| Specification.WithFilters | src/main/java/com/spedine/trackit/specification/ExpenseSpecification.java:16-50 | fails with a parse error exactly when a month that is read does not parse; otherwise the first clause is the owner's, and a row satisfies all clauses exactly when it matches the filter |
| Specification.DateClauses | src/main/java/com/spedine/trackit/specification/ExpenseSpecification.java:23-36 | at most one date clause: fails with a parse error exactly when the month is read and does not parse, and otherwise the clause holds exactly for the rows meeting the date condition |
| Specification.EnumClauses | src/main/java/com/spedine/trackit/specification/ExpenseSpecification.java:38-46 | at most three clauses, holding exactly for the rows equal to each enum filter present |
| Specification.OwnerIsolation | src/main/java/com/spedine/trackit/specification/ExpenseSpecification.java:20 | no row of another user ever matches |
| Specification.ExplicitDatesTakePrecedence | src/main/java/com/spedine/trackit/specification/ExpenseSpecification.java:23-31 | with a start or end date given, the month is ignored, even unparsable |
| Specification.MonthFilterExact | src/main/java/com/spedine/trackit/specification/ExpenseSpecification.java:31-35 | with only a month given, a row matches exactly when its expense date falls in that month |
| Specification.StartDateReplacesMonth | src/main/java/com/spedine/trackit/specification/ExpenseSpecification.java:23-35 | for every filter, start date and row: with a start date given, the filter matches exactly the owner's rows from that date on that meet the end date and the enum filters, whatever the month says |
| Specification.StartDateCanWidenMonth | src/main/java/com/spedine/trackit/specification/ExpenseSpecification.java:23-35 | example: a row of 15 September 2025 is outside the filter for 2025-08 and inside it once a start of 1 August is added |
| Specification.LeapMonthBoundary | src/main/java/com/spedine/trackit/specification/ExpenseSpecification.java:32-35 | for every leap year from 0 to 9999, the filter of its February includes the 29th at 23:59:59.999999999 and excludes 1 March 00:00 |
| Specification.AddingAFilterNarrows | src/main/java/com/spedine/trackit/specification/ExpenseSpecification.java:38-48 | adding a category, currency or payment-method clause never adds a match |
| Specification.Matching | src/main/java/com/spedine/trackit/specification/ExpenseSpecification.java:48 | the selected rows are exactly the table's matching rows, each as often as in the table |
| Grouping.Where | src/main/java/com/spedine/trackit/repository/ExpenseJpaRepository.java:41 | the rows of one group are exactly the rows with that column value |
| Grouping.Groups | src/main/java/com/spedine/trackit/repository/ExpenseJpaRepository.java:33-48 | each aggregate row is the sum and count of its value's rows, and every value a row carries has one |
| Grouping.GroupsPartition | src/main/java/com/spedine/trackit/repository/ExpenseJpaRepository.java:21-48 | the groups' totals add up to the ungrouped sum, and their counts to the number of rows |
| Grouping.GroupsEmpty | src/main/java/com/spedine/trackit/repository/ExpenseJpaRepository.java:33-48 | there are no groups exactly when no row matches |
| Grouping.GroupsNoDuplicates | src/main/java/com/spedine/trackit/repository/ExpenseJpaRepository.java:41 | no value gets two aggregate rows |
| Grouping.SortKeepsSums | src/main/java/com/spedine/trackit/repository/ExpenseJpaRepository.java:42 | ordering the groups keeps their total sum and count |
| Grouping.SortedGroupsStrict | src/main/java/com/spedine/trackit/repository/ExpenseJpaRepository.java:41-42 | the ordered groups are the groups, each once, in strictly decreasing (aggregate, then ascending name) order |
| Grouping.GroupsCover | src/main/java/com/spedine/trackit/repository/ExpenseJpaRepository.java:33-48 | a sequence holding exactly the groups has an entry for the value of every row, and only entries with at least one row, each with its own aggregate |
| Sorting.SortBy | src/main/java/com/spedine/trackit/repository/ExpenseJpaRepository.java:42 | the result is a sorted permutation of its input |
| Sorting.RankedOrder | src/main/java/com/spedine/trackit/repository/ExpenseJpaRepository.java:42 | ordering by aggregate descending, then by name, is a total preorder |
| Sorting.PrecedesStrict | src/main/java/com/spedine/trackit/repository/ExpenseJpaRepository.java:42 | between rows of different names the order is strict |
| Sorting.SortByNoDuplicates | src/main/java/com/spedine/trackit/repository/ExpenseJpaRepository.java:42 | sorting introduces no duplicate |
| Repository.NewId | src/main/java/com/spedine/trackit/model/Expense.java:13-15 | a generated id is used by no stored row |
| Repository.RemoveDistinct | src/main/java/com/spedine/trackit/repository/ExpenseRepositoryImpl.java:50-53 | deleting by id keeps ids distinct and removes exactly one row when the id is stored |
| Repository.UpsertDistinct | src/main/java/com/spedine/trackit/repository/ExpenseRepositoryImpl.java:31-35 | saving a row inserts it or replaces the one with its id, keeps ids distinct, and keeps every other row |
| Repository.ExpenseRepository.constructor | src/main/java/com/spedine/trackit/repository/ExpenseRepositoryImpl.java:27-29 | a new repository has an empty table, which satisfies the distinct-id invariant |
| Repository.ExpenseRepository.Save | src/main/java/com/spedine/trackit/repository/ExpenseRepositoryImpl.java:31-35 | an incomplete bean fails and changes nothing; otherwise the table is the old one with the stored row upserted, and the returned bean is the stored row's state |
| Repository.ExpenseRepository.Delete | src/main/java/com/spedine/trackit/repository/ExpenseRepositoryImpl.java:50-53 | the row with the bean's id is removed and nothing else changes |
| Repository.FindByIdAndUserId | src/main/java/com/spedine/trackit/repository/ExpenseJpaRepository.java:19 | a row is found exactly when one has both the id and the owner, and it is that row |
| Repository.FindRespectsOwner | src/main/java/com/spedine/trackit/repository/ExpenseJpaRepository.java:19 | another user's id never finds the row |
| Repository.Scope | src/main/java/com/spedine/trackit/repository/ExpenseJpaRepository.java:24-25 | the rows the aggregate queries read are exactly the owner's rows with the expense date in the closed range, each as often as in the table |
| Repository.CountAndSumTotalAmount | src/main/java/com/spedine/trackit/repository/ExpenseJpaRepository.java:21-31 | the count is 0 exactly when no row of the owner lies in the closed date range, and then the total is 0 (`COALESCE`) |
| Repository.CategoriesListedOnce | src/main/java/com/spedine/trackit/model/ECategory.java:6-15 | every row's category is among the grouped constants, and each constant is grouped once |
| Repository.CategoryOrder | src/main/java/com/spedine/trackit/repository/ExpenseJpaRepository.java:42 | `(SUM DESC, name)` is a total preorder on category rows, and equal names mean the same category |
| Repository.CurrencyOrder | src/main/java/com/spedine/trackit/repository/ExpenseJpaRepository.java:77 | `(SUM DESC, name)` is a total preorder on currency rows, and equal names mean the same currency |
| Repository.PaymentMethodOrder | src/main/java/com/spedine/trackit/repository/ExpenseJpaRepository.java:59 | `(COUNT DESC, name)` is a total preorder on payment-method rows, and equal names mean the same method |
| Repository.CategoryGroupsCorrect | src/main/java/com/spedine/trackit/repository/ExpenseJpaRepository.java:33-48 | the ordered category groups are exactly the categories present, each with its own sum and count, in strict order |
| Repository.CurrencyGroupsCorrect | src/main/java/com/spedine/trackit/repository/ExpenseJpaRepository.java:68-83 | the ordered currency groups are exactly the currencies present, each with its own sum, in strict order |
| Repository.GroupByCategoryCorrect | src/main/java/com/spedine/trackit/repository/ExpenseJpaRepository.java:33-48 | one row per category present in the range and none other; its total and count are those of its rows; rows are ordered by total descending, then name |
| Repository.GroupByCurrencyCorrect | src/main/java/com/spedine/trackit/repository/ExpenseJpaRepository.java:68-83 | one row per currency present in the range and none other; its total is that of its rows; rows are ordered by total descending, then name |
| Repository.MostUsedPaymentMethodCorrect | src/main/java/com/spedine/trackit/repository/ExpenseJpaRepository.java:50-66 | none exactly when no row is in range; otherwise a payment method in use whose count is maximal, and of the maximal ones the smallest name |
| Repository.BankTransferWinsTies | src/test/java/com/spedine/trackit/repository/ExpenseRepositoryTest.java:278-289 | when bank transfer is used as often as the most-used method, it is the one reported |
| Repository.AggregatesAgree | src/main/java/com/spedine/trackit/repository/ExpenseJpaRepository.java:21-83 | the category totals and counts and the currency totals add up to the overall total and count, and there is a most-used method exactly when the count is positive |
| Paging.TotalPagesCeiling | src/main/java/com/spedine/trackit/service/ExpenseService.java:45-47 | the page count is the ceiling of elements over size: enough pages, none empty, 0 exactly for no elements |
| Paging.PageOf | src/main/java/com/spedine/trackit/service/ExpenseService.java:45-46 | a page holds at most `size` elements, element `i` being element `page*size+i`, and is empty past the end |
| Paging.PagesPartition | src/main/java/com/spedine/trackit/service/ExpenseService.java:45-46 | every element appears on page `k / size` at position `k % size`, a page below the page count |
| Paging.OnePage | src/main/java/com/spedine/trackit/service/ExpenseService.java:45-46 | no other page holds element `k` |
| Paging.PageElementsIn | src/main/java/com/spedine/trackit/service/ExpenseService.java:45-46 | a page holds elements of the result only |
| Paging.PageSorted | src/main/java/com/spedine/trackit/service/ExpenseService.java:45 | a page of a sorted result is sorted |
| Dto.CreateValidIsCompleteValidPatch | src/main/java/com/spedine/trackit/dto/CreateExpenseRequest.java:16-39 | a valid create body has all six fields and is, as a patch, a valid update body |
| Dto.ValidityBoundaries | src/main/java/com/spedine/trackit/dto/CreateExpenseRequest.java:17-29 | from a valid body: amounts 0 and -1 are refused; descriptions of 2 and 256 characters are refused, while 3 and 255 pass; an expense date equal to now passes and a later one is refused; a missing enum is refused |
| Dto.FromEntityForgetsOnlyOwner | src/main/java/com/spedine/trackit/dto/ExpenseResponse.java:22-33 | the response carries every field of the bean except its owner, so two beans differing only in owner give the same response |
| Service.LaterFirstOrder | src/main/java/com/spedine/trackit/service/ExpenseService.java:45 | ordering by expense date descending is a total preorder |
| Service.Listing | src/main/java/com/spedine/trackit/service/ExpenseService.java:44-46 | the listed rows are a permutation of the matching rows, latest expense date first |
| Service.View | src/main/java/com/spedine/trackit/service/ExpenseService.java:46 | a listed item carries the stored row's id, creation time and every column but the owner, each in its own field |
| Service.ListPage | src/main/java/com/spedine/trackit/service/ExpenseService.java:43-48 | the page content is the views of the page of the listing, with page, size, total elements equal to the number of matches, total pages as their ceiling, and only matching rows of the user |
| Service.ListPageLatestFirst | src/main/java/com/spedine/trackit/service/ExpenseService.java:45 | within a page, expense dates never increase |
| Service.PatchLaws | src/main/java/com/spedine/trackit/service/ExpenseService.java:52-69 | an all-null body changes nothing; patching is idempotent; two patches compose into one; id, creation time and owner are never touched; a full body decides all six fields |
| Service.ApplyBody | src/main/java/com/spedine/trackit/service/ExpenseService.java:52-69 | the bean afterwards is the patch of its old state: each value the body holds replaces its field, and every other field is untouched |
| Service.PatchPersists | src/main/java/com/spedine/trackit/service/ExpenseService.java:50-71 | the patched bean of a stored row is storable, and storing it gives the patched row under the same id, owner and creation time |
| Service.EmptyPatchKeepsRows | src/test/java/com/spedine/trackit/service/ExpenseServiceTest.java:139-177 | an update with an all-null body leaves the table with the same rows |
| Service.ValidBodyIsStorable | src/main/java/com/spedine/trackit/service/ExpenseService.java:31-41 | the bean built from a valid create body can be stored |
| Service.ExpenseService.constructor | src/main/java/com/spedine/trackit/service/ExpenseService.java:27-29 | the service uses the given repository |
| Service.ExpenseService.Save | src/main/java/com/spedine/trackit/service/ExpenseService.java:31-41 | an incomplete body fails and changes nothing; otherwise exactly one row is appended with a fresh id, the body's fields, the user as owner and the current time as creation time, and the old rows are kept |
| Service.ExpenseService.FindAll | src/main/java/com/spedine/trackit/service/ExpenseService.java:43-48 | a negative page, then a size below one, then an unparsable month fail with their errors; otherwise the result is the page of the listing |
| Service.ExpenseService.FindByIdAndUser | src/main/java/com/spedine/trackit/service/ExpenseService.java:78-81 | fails with "Expense not found" exactly when the user has no expense with that id; otherwise a fresh bean holding that row |
| Service.ExpenseService.Update | src/main/java/com/spedine/trackit/service/ExpenseService.java:50-71 | not found fails and changes nothing; otherwise the row is replaced in place by its patched version, the table keeps its size and other rows, and the response is the patched row |
| Service.ExpenseService.Delete | src/main/java/com/spedine/trackit/service/ExpenseService.java:73-76 | not found fails and changes nothing; otherwise exactly the row with that id is removed |
| Service.ExpenseService.GetExpenseSummary | src/main/java/com/spedine/trackit/service/ExpenseService.java:83-109 | fails exactly when the start date is after the end date; otherwise it echoes the dates and carries the four queries over the whole days from start to end, with category and currency totals adding up to the total, and a most-used method exactly when some expense is in range |
| Service.SummaryRangeIsWholeDays | src/main/java/com/spedine/trackit/service/ExpenseService.java:96-97 | an expense is in the summary's range exactly when its date is between the start and end dates, whatever its time of day |
| Service.DefaultRangeIsMonthToDate | src/main/java/com/spedine/trackit/service/ExpenseService.java:84-90 | without dates the range is the first day of the current month up to today, which is never reversed |

## Left out

- HTTP controllers, JSON binding, the exception handler, JWT security and user registration are
  not modelled. The authenticated user appears as an owner id.
- Bean validation (`@Valid`) runs in the controller before the service is called. The request
  constraints are therefore separate predicates (`Dto.CreateIsValid`, `Dto.UpdateIsValid`), and
  the service methods do not require them.
- The clock is a parameter:
  - `now` is the creation time that `@CreationTimestamp` stamps.
  - `today` stands for `LocalDate.now()`. The two calls in `getExpenseSummary` are taken as one
    reading, so a summary requested across midnight is not modelled.
- Id generation is not the random UUID of `@GeneratedValue`. The model takes one more than the
  largest stored id, which is only required to be unused.
  - `ExpenseEntity`'s `@Id` (`model/ExpenseEntity.java:13-14`) declares no generator, while the
    domain bean's does (`model/Expense.java:13-14`). The model generates an id for a row saved
    without one.
- Model.Persist: when a bean already carries a creation time, the model keeps it instead of
  stamping the current time.
- The database schema is taken to declare every column NOT NULL. Saving a bean with an unset field
  therefore fails with `StorageFailure` and stores nothing. The failure of any other database
  operation is not modelled.
- The listing's `Sort.Direction.DESC` on `expenseDate` orders rows with equal expense dates in
  whatever order the database returns them. Service.Listing keeps their table order (a stable
  sort), which is one of the orders the database may return.
- The position of a row in the table carries no meaning and is not part of any contract beyond
  the stable tie order.
- `@Size(max = 255)` counts UTF-16 code units in Java. The model counts characters of a Dafny
  string.
- Enum names are compared by code point, which is how they sort under a binary collation. Other
  database collations are not modelled.
- Amounts (`BigDecimal`) are exact reals: sums are exact, and scale and rounding are not modelled.
  Counts are unbounded naturals, so `Long` and `Integer` overflow is not modelled.
- Time arithmetic stays within the `LocalDateTime` fields. Time zones are not modelled.
- Dates.ParseFormatRoundTrip: stated for years 0 to 9999 only, the years `yyyy` formats in four
  digits.
- `model/Expense.java:27` declares the category with a type `EExpenseCategory` that the repository
  does not define. The model uses `ECategory`, the type every other file uses.
- `ExpenseEntity.toDomain` (`model/ExpenseEntity.java:68-70`) and `ExpenseTest`
  (`model/ExpenseTest.java:73`, `:83`) call a nine-argument `Expense` constructor that
  `model/Expense.java` does not declare. `Model.NewExpense` builds that state in the argument order
  of those calls. The service itself builds a bean with `new Expense()` and the setters
  (`service/ExpenseService.java:32-39`).
- The validating `Expense` variant exercised by `ExpenseTest` is not modelled. That test checks
  rejecting, trimming mutators that the shipped `Expense` bean does not have.
- `ExpenseRepositoryImpl.findByIdAndUser_Id` throws "Expense not found for id: <id>"
  (`repository/ExpenseRepositoryImpl.java:37-42`). The service unwraps an `Optional` and throws
  "Expense not found". The model follows the service.
- The service calls `findAll(specification, pageable)` with two arguments
  (`service/ExpenseService.java:46`). `ExpenseRepository` and `ExpenseRepositoryImpl` declare
  `findAll(User, Pageable, ExpenseFilter)` instead (`repository/ExpenseRepository.java:22`,
  `repository/ExpenseRepositoryImpl.java:45`), and the implementation builds the specification
  itself (line 46). Both build `withFilters(user.getId(), filter)`, so the model joins the two into
  `Service.ExpenseService.FindAll`.
- `PageResponse`, `ExpenseSummaryResponse` and `PaymentMethodSummary` are records. They are
  datatypes with no behaviour of their own.
- `DateTimeUtils`, `AuthenticationUtil`, the user repository and the projection interfaces are not
  part of this model. The projections are the datatypes that the queries return.
- Transactions, concurrency and lazy loading of the owner relation are not modelled. Each
  operation is atomic.
