# Budget records and yearly statistics — a Dafny model

This project models the budget module of a small bookkeeping service. Budget
records have a year, a month, an amount, a type (`Приход`, income, or `Расход`,
expense) and optional author. The module covers:

- the budget table and its entity (`BudgetTable`, `BudgetEntity`);
- the entity's response shape, `BudgetEntity.toResponse`, which copies a
  record's fields and adds the author's display fields, falling back to a
  fixed sentinel pair when there is no author;
- the table's author reference. It is nullable, and deleting an author sets
  it to null (`onDelete = SET_NULL`) instead of deleting budget rows;
- the add operation that admits a record (`POST /budget/add`);
- the yearly statistics query (`GET /budget/year/{year}/stats`). It counts the
  rows of a year, sums their amounts per type, orders them by month ascending
  and then amount descending, and returns the `offset`/`limit` window of
  them, each enriched with its author.

The service and API code behind `POST /budget/add` and the stats endpoint is
not modelled as code. Their behaviour is taken from the
API test `BudgetApiKtTest.kt`, which pins down two stats scenarios and two
rejected months (-5 and 15). The rest is inferred: the valid month range
1..12, the order of tied rows, the `UnknownAuthor` rejection and the absence
of entries for types with no rows. The model turns this behaviour into a
reference specification and proves each test scenario against it.

Modules:

- `Wrappers` (`wrappers.dfy`): `Option` (a nullable value) and `Result`.
- `BudgetTable` (`budget_table.dfy`): `BudgetType`, `Author`, the row
  `BudgetRecord` (its `authorId` is the nullable `author_id` column),
  `BudgetEntity` (a row with its author resolved), `BudgetRecordResponse`,
  `ToResponse`, and the `SET_NULL` delete rule `SetNullOnDelete`.
  The no-author sentinel pair is the one constant `NoAuthor`.
- `BudgetStats` (`budget_stats.dfy`): the stats query as functions: year
  selection, per-type sums, the stats order (an insertion sort proved to
  order and to permute), the page window, the enrichment, and `YearStats`.
  It also holds the laws the query obeys, and how its answer changes when an
  author is deleted.
- `BudgetStore` (`budget_store.dfy`): the class `Store`. Its `rows` and
  `authors` fields are the table and the author directory. Its methods are
  `CreateAuthor`, `Add`, `DeleteAuthor` and `Stats`. `Valid()` keeps every
  stored month in 1..12 and every author reference resolvable.
- `BudgetApiTest` (`budget_api_test.dfy`): the test scenarios, as lemmas over
  `YearStats` and as methods that drive a `Store` the way the tests drive the
  API.

Where the code and its tests disagree, the model follows the code. For a
record without an author, `toResponse` gives the name `"Unknown Author"`
(BudgetTable.kt:35). The tests expect `"Unknown"` (BudgetApiKtTest.kt:72 and
:111). `NoAuthor` keeps the code's pair (`"Unknown Author"`, `"N/A"`).
`PaginationSentinelDiverges` shows that the pagination test's expectation at
line 72 does not hold of the model: the first item of its page has no author,
and its name is not `"Unknown"`. `SortOrderSentinelDiverges` shows the same
for line 111, where the first two items of the sort-order page have no
author.

The source does not show what `Add` does with an author id that names no
author. The model rejects such an add with `UnknownAuthor`, because the
`author_id` column is a foreign key to the author table (BudgetTable.kt:16).
This keeps "every reference resolves" an invariant of the store. The tests
never add such a record.

## Model

| member | source | states |
|---|---|---|
| `BudgetTable.TypeName` | src/main/java/mobi/sevenwinds/app/budget/BudgetTable.kt:15 | every type is stored under a non-empty name; `TypeOfName` reads it back |
| `BudgetTable.TypeOfName` | src/main/java/mobi/sevenwinds/app/budget/BudgetTable.kt:15 | a stored type name is read back only when it is the name of that type |
| `BudgetTable.TypeNameRoundTrip` | src/main/java/mobi/sevenwinds/app/budget/BudgetTable.kt:15 | every type reads back from the name it is stored under |
| `BudgetTable.TypeNameInjective` | src/main/java/mobi/sevenwinds/app/budget/BudgetTable.kt:15 | no two types share a stored name |
| `BudgetTable.FindAuthor` | src/main/java/mobi/sevenwinds/app/budget/BudgetTable.kt:26 | an author is found exactly when its id is in the directory, with that entry's name and creation time; its laws under adding and removing authors are `FindAuthorAfterAdd` and `FindAuthorAfterRemove` |
| `BudgetTable.FindAuthorAfterAdd` | src/main/java/mobi/sevenwinds/app/budget/BudgetTable.kt:26 | after an author is stored under an id, that id finds exactly the new author and every other id finds what it found before |
| `BudgetTable.FindAuthorAfterRemove` | src/main/java/mobi/sevenwinds/app/budget/BudgetTable.kt:16 | after an author is deleted, its id finds no author and every other id finds what it found before |
| `BudgetTable.Load` | src/main/java/mobi/sevenwinds/app/budget/BudgetTable.kt:22-26 | the entity has the row's year, month, amount and type; it has an author exactly when the reference is set and resolves, and then that author |
| `BudgetTable.ToResponse` | src/main/java/mobi/sevenwinds/app/budget/BudgetTable.kt:28-38 | year, month, amount and type are copied; `authorId` is the author's id or null; with an author the name and creation time are the author's; without one they are exactly `"Unknown Author"` and `"N/A"`; defined for every entity |
| `BudgetTable.ResponseKeepsRecord` | src/main/java/mobi/sevenwinds/app/budget/BudgetTable.kt:29-34 | for a row whose reference resolves, the response gives back the row's fields and author id, plus the author's name |
| `BudgetTable.ReferencesResolve` | src/main/java/mobi/sevenwinds/app/budget/BudgetTable.kt:16 | the foreign key of `author_id`; when it holds, loading a row gives it an author exactly when its reference is set |
| `BudgetTable.Detach` | src/main/java/mobi/sevenwinds/app/budget/BudgetTable.kt:16 | `SET_NULL` on one row: the four fields are kept, a row that referenced the deleted author has its reference set to null, and a row that referenced another author or none is unchanged |
| `BudgetTable.SetNullOnDelete` | src/main/java/mobi/sevenwinds/app/budget/BudgetTable.kt:16 | deleting an author removes no row, keeps every row's year, month, amount and type, sets exactly the references to that author to null, and leaves every other reference as it was |
| `BudgetTable.SetNullOnDeleteDetachesOnly` | src/main/java/mobi/sevenwinds/app/budget/BudgetTable.kt:16 | after the delete no row references the author; rows that did not reference it are unchanged; rows that did differ only in the cleared reference |
| `BudgetTable.SetNullOnDeleteKeepsReferences` | src/main/java/mobi/sevenwinds/app/budget/BudgetTable.kt:16 | if every reference resolved before the delete, every reference resolves in the directory without the deleted author |
| `BudgetTable.SetNullOnDeleteIdempotent` | src/main/java/mobi/sevenwinds/app/budget/BudgetTable.kt:16 | deleting the same author twice is the same as once; deleting an author nobody references changes nothing |
| `BudgetStats.Matches` | src/test/java/mobi/sevenwinds/app/budget/BudgetApiKtTest.kt:34-39 | the selection holds only rows of the queried year and is no longer than the table |
| `BudgetStats.MatchesContents` | src/test/java/mobi/sevenwinds/app/budget/BudgetApiKtTest.kt:34-39 | the selection holds every row of the year as many times as the table does, and no row of another year |
| `BudgetStats.MatchesOfOneYear` | src/test/java/mobi/sevenwinds/app/budget/BudgetApiKtTest.kt:86-90 | a table whose rows are all of the year is its own selection |
| `BudgetStats.MatchesOfOtherYears` | src/test/java/mobi/sevenwinds/app/budget/BudgetApiKtTest.kt:39 | a table with no row of the year has an empty selection |
| `BudgetStats.MatchesSkipsOtherYears` | src/test/java/mobi/sevenwinds/app/budget/BudgetApiKtTest.kt:39 | appending rows of other years does not change the selection |
| `BudgetStats.SumAmount` | src/test/java/mobi/sevenwinds/app/budget/BudgetApiKtTest.kt:64 | the sum of the amounts of one type: 0 when no row has that type, and not negative when none of that type's amounts is |
| `BudgetStats.TotalByType` | src/test/java/mobi/sevenwinds/app/budget/BudgetApiKtTest.kt:64 | every type that occurs has an entry, and every entry is the sum of the amounts of that type over all the rows given |
| `BudgetStats.ByName` | src/test/java/mobi/sevenwinds/app/budget/BudgetApiKtTest.kt:64 | the totals as the response keys them: each type's total under its stored name, and only names of types that have a total |
| `BudgetStats.Precedes` | src/test/java/mobi/sevenwinds/app/budget/BudgetApiKtTest.kt:98 | the sort key: month decides first; an earlier month always comes first, a row never precedes one of an earlier month, and within a month a row may come first exactly when its amount is not smaller |
| `BudgetStats.PrecedesTotal` | src/test/java/mobi/sevenwinds/app/budget/BudgetApiKtTest.kt:98 | any two rows are comparable |
| `BudgetStats.PrecedesTransitive` | src/test/java/mobi/sevenwinds/app/budget/BudgetApiKtTest.kt:98 | the order is transitive |
| `BudgetStats.Ordered` | src/test/java/mobi/sevenwinds/app/budget/BudgetApiKtTest.kt:98-103 | every row may come before every later one; in particular each row may come before the next, and short sequences are ordered |
| `BudgetStats.Insert` | src/test/java/mobi/sevenwinds/app/budget/BudgetApiKtTest.kt:98-103 | inserting into a sequence in stats order keeps it in stats order, and adds exactly the one row |
| `BudgetStats.OrderForStats` | src/test/java/mobi/sevenwinds/app/budget/BudgetApiKtTest.kt:98-103 | the result is in stats order (month ascending, then amount descending) and is a permutation of the input |
| `BudgetStats.StrictChainPrecedes` | src/test/java/mobi/sevenwinds/app/budget/BudgetApiKtTest.kt:98-103 | in a sequence where each row strictly precedes the next, every earlier row strictly precedes every later one |
| `BudgetStats.OrderIsDetermined` | src/test/java/mobi/sevenwinds/app/budget/BudgetApiKtTest.kt:98-103 | when no two rows share both month and amount, the stats order admits exactly one arrangement |
| `BudgetStats.Window` | src/test/java/mobi/sevenwinds/app/budget/BudgetApiKtTest.kt:44-45 | the page skips `offset` rows and keeps at most `limit`; its length is `min(limit, max(0, n - offset))`; item k is row `offset + k` |
| `BudgetStats.Enrich` | src/test/java/mobi/sevenwinds/app/budget/BudgetApiKtTest.kt:67-75 | each item of the page is the response of its row, loaded with its author |
| `BudgetStats.YearStats` | src/test/java/mobi/sevenwinds/app/budget/BudgetApiKtTest.kt:42-64 | the stats query: `total` counts no more rows than the table has, and the page holds at most `total` and at most `limit` items; its full laws are `TotalsCoverYear`, `PageLaws`, `PageEnrichment` and `PageIsWindow` |
| `BudgetStats.TotalsCoverYear` | src/test/java/mobi/sevenwinds/app/budget/BudgetApiKtTest.kt:60-64 | `total` is the size of the whole year's selection; every type among those rows has a `totalByType` entry, summed over all of them and not only the page |
| `BudgetStats.TotalsIndependentOfWindow` | src/test/java/mobi/sevenwinds/app/budget/BudgetApiKtTest.kt:44-45 | `total` and `totalByType` are the same for every `limit` and `offset` |
| `BudgetStats.PageLaws` | src/test/java/mobi/sevenwinds/app/budget/BudgetApiKtTest.kt:44-62 | the page has the window's length, is in stats order, and holds only rows of the queried year |
| `BudgetStats.PageEnrichment` | src/test/java/mobi/sevenwinds/app/budget/BudgetApiKtTest.kt:67-75 | an item without an author id shows the sentinel pair; an item with one names an author of the directory and shows its name and creation time |
| `BudgetStats.Records` | src/test/java/mobi/sevenwinds/app/budget/BudgetApiKtTest.kt:54 | the records behind a page: one per item, with that item's fields and author id |
| `BudgetStats.PageIsWindow` | src/test/java/mobi/sevenwinds/app/budget/BudgetApiKtTest.kt:44-54 | when every reference resolves, the page's records are exactly the window of the ordered selection; a page from offset 0 with `limit >= total` holds every row of the year as often as the table holds it |
| `BudgetStats.MatchesAfterDelete` | src/main/java/mobi/sevenwinds/app/budget/BudgetTable.kt:16 | deleting an author and selecting a year can be done in either order |
| `BudgetStats.SumAmountAfterDelete` | src/main/java/mobi/sevenwinds/app/budget/BudgetTable.kt:16 | deleting an author changes no sum of amounts |
| `BudgetStats.TotalByTypeAfterDelete` | src/main/java/mobi/sevenwinds/app/budget/BudgetTable.kt:16 | deleting an author changes no per-type total |
| `BudgetStats.OrderAfterDelete` | src/main/java/mobi/sevenwinds/app/budget/BudgetTable.kt:16 | the stats order ignores authors, so sorting and deleting an author can be done in either order |
| `BudgetStats.OrderedAfterDelete` | src/main/java/mobi/sevenwinds/app/budget/BudgetTable.kt:16 | a delete keeps a sequence in stats order |
| `BudgetStats.InsertAfterDelete` | src/main/java/mobi/sevenwinds/app/budget/BudgetTable.kt:16 | inserting a row and deleting an author can be done in either order on a sequence in stats order |
| `BudgetStats.WindowAfterDelete` | src/main/java/mobi/sevenwinds/app/budget/BudgetTable.kt:16 | taking the page and deleting an author can be done in either order |
| `BudgetStats.EnrichAfterDelete` | src/main/java/mobi/sevenwinds/app/budget/BudgetTable.kt:16 | after a delete, each enriched item keeps its fields; items of the deleted author show the sentinel pair; every other item is unchanged |
| `BudgetStats.StatsAfterDeleteAuthor` | src/main/java/mobi/sevenwinds/app/budget/BudgetTable.kt:16 | after deleting an author, every stats query has the same `total`, the same `totalByType` and the same page; items of the deleted author now show the sentinel pair, and all other items are unchanged |
| `BudgetStore.ValidateMonth` | src/test/java/mobi/sevenwinds/app/budget/BudgetApiKtTest.kt:119-130 | a record passes exactly when its month is in 1..12, and passes unchanged; otherwise the error names the month |
| `BudgetStore.IdsBelow` | src/test/java/mobi/sevenwinds/app/budget/BudgetApiKtTest.kt:29-31 | every author id in use is below the next id, which is therefore free |
| `BudgetStore.Store.Valid` | src/main/java/mobi/sevenwinds/app/budget/BudgetTable.kt:16 | the store invariant: every reference resolves, every month is in 1..12, and the next author id is not in use |
| `BudgetStore.Store.constructor` | src/test/java/mobi/sevenwinds/app/budget/BudgetApiKtTest.kt:20-24 | the store starts with no records and no authors |
| `BudgetStore.Store.CreateAuthor` | src/test/java/mobi/sevenwinds/app/budget/BudgetApiKtTest.kt:29-31 | the new author gets an id not in use, with the given name and creation time; looking up its id finds it, every other lookup is unchanged, and nothing else changes |
| `BudgetStore.Store.Add` | src/test/java/mobi/sevenwinds/app/budget/BudgetApiKtTest.kt:132-139 | month outside 1..12 gives `InvalidMonth`, and an unresolvable author id gives `UnknownAuthor`; a rejected add stores nothing; otherwise the record is appended and echoed unchanged, null author id included |
| `BudgetStore.Store.DeleteAuthor` | src/main/java/mobi/sevenwinds/app/budget/BudgetTable.kt:16 | the table becomes `SetNullOnDelete` of the old table, the author leaves the directory so its id finds no author while every other lookup is unchanged, and the store stays valid |
| `BudgetStore.Store.Stats` | src/test/java/mobi/sevenwinds/app/budget/BudgetApiKtTest.kt:42-51 | the answer is `YearStats` of the current table; its page is the window of the ordered selection, and it names only existing authors |
| `BudgetApiTest.PaginationRecords` | src/test/java/mobi/sevenwinds/app/budget/BudgetApiKtTest.kt:34-39 | the six records the pagination test adds: all with valid months, referencing only the three test authors |
| `BudgetApiTest.SortOrderRecords` | src/test/java/mobi/sevenwinds/app/budget/BudgetApiKtTest.kt:86-90 | the five records the sort-order test adds: all with valid months, referencing only the three test authors |
| `BudgetApiTest.PaginationSelection` | src/test/java/mobi/sevenwinds/app/budget/BudgetApiKtTest.kt:34-39 | the 2030 record is not selected for 2020; the five others are |
| `BudgetApiTest.PaginationChain` | src/test/java/mobi/sevenwinds/app/budget/BudgetApiKtTest.kt:34-38 | the amounts 40, 30, 20, 10, 5 of month 5 are strictly ordered |
| `BudgetApiTest.PaginationArrangement` | src/test/java/mobi/sevenwinds/app/budget/BudgetApiKtTest.kt:34-38 | the five 2020 records are ordered as amounts 40, 30, 20, 10, 5 |
| `BudgetApiTest.PaginationIncome` | src/test/java/mobi/sevenwinds/app/budget/BudgetApiKtTest.kt:64 | the income of the five 2020 records is 105 |
| `BudgetApiTest.PaginationIncomeByName` | src/test/java/mobi/sevenwinds/app/budget/BudgetApiKtTest.kt:64 | the response's totals, keyed by type name, hold 105 under `"Приход"` |
| `BudgetApiTest.PaginationScenario` | src/test/java/mobi/sevenwinds/app/budget/BudgetApiKtTest.kt:34-75 | with limit 3 and offset 1: `total` is 5, there are 3 items, income totals 105; the items are amounts 30, 20, 10; the first has no author and shows the sentinel pair, the others show authors 2 and 1 |
| `BudgetApiTest.PaginationSentinelDiverges` | src/test/java/mobi/sevenwinds/app/budget/BudgetApiKtTest.kt:71-73 | the page has an author-less item whose name is not `"Unknown"`, so the test's expectation at line 72 fails against the entity's sentinel |
| `BudgetApiTest.SortOrderSelection` | src/test/java/mobi/sevenwinds/app/budget/BudgetApiKtTest.kt:86-90 | all five records of the sort-order test are selected for 2020 |
| `BudgetApiTest.SortOrderChain` | src/test/java/mobi/sevenwinds/app/budget/BudgetApiKtTest.kt:86-90 | the five records, taken as the 4th, 2nd, 5th, 1st and 3rd added, are strictly ordered |
| `BudgetApiTest.SortOrderArrangement` | src/test/java/mobi/sevenwinds/app/budget/BudgetApiKtTest.kt:86-103 | the five records are ordered as the 4th, 2nd, 5th, 1st and 3rd added |
| `BudgetApiTest.SortOrderWindow` | src/test/java/mobi/sevenwinds/app/budget/BudgetApiKtTest.kt:94 | limit 100 and offset 0 keep all five ordered records |
| `BudgetApiTest.SortOrderPage` | src/test/java/mobi/sevenwinds/app/budget/BudgetApiKtTest.kt:93-96 | the page is the enrichment of the five records in stats order |
| `BudgetApiTest.SortOrderScenario` | src/test/java/mobi/sevenwinds/app/budget/BudgetApiKtTest.kt:98-103 | there are 5 items, with amounts 30, 5, 400, 100, 50 |
| `BudgetApiTest.SortOrderSentinelDiverges` | src/test/java/mobi/sevenwinds/app/budget/BudgetApiKtTest.kt:110-112 | the first two items of the sort-order page have no author and a name other than `"Unknown"`, so the expectation at line 111 fails against the entity's sentinel |
| `BudgetApiTest.ItemsShowTestAuthors` | src/test/java/mobi/sevenwinds/app/budget/BudgetApiKtTest.kt:106-114 | with the tests' three authors, every item shows the sentinel pair or one of the names "Author 1", "Author 2", "Author 3" |
| `BudgetApiTest.AddRecord` | src/test/java/mobi/sevenwinds/app/budget/BudgetApiKtTest.kt:132-139 | an accepted record is appended and the store stays valid |
| `BudgetApiTest.CreateThreeAuthors` | src/test/java/mobi/sevenwinds/app/budget/BudgetApiKtTest.kt:29-31 | a new store holds no records and exactly the three authors, under three distinct ids |
| `BudgetApiTest.TestBudgetPagination` | src/test/java/mobi/sevenwinds/app/budget/BudgetApiKtTest.kt:26-76 | driving the store as the test does gives `total` 5, 3 items and income 105, also under the name `"Приход"`; each item shows the sentinel pair or a test author's name |
| `BudgetApiTest.TestStatsSortOrder` | src/test/java/mobi/sevenwinds/app/budget/BudgetApiKtTest.kt:78-116 | driving the store as the test does gives amounts 30, 5, 400, 100, 50; each item shows the sentinel pair or a test author's name |
| `BudgetApiTest.TestInvalidMonthValues` | src/test/java/mobi/sevenwinds/app/budget/BudgetApiKtTest.kt:119-130 | months -5 and 15 are rejected with `InvalidMonth` and nothing is stored |

## Left out

- HTTP routing, RestAssured, status codes and JSON (de)serialisation are left out. A rejected add is a `Failure` value, not a 400 response.
- The Exposed ORM machinery is left out: `IntIdTable`, `IntEntityClass`, property delegates, `EntityID`, the width-100 name column and the `transaction { deleteAll() }` set-up. The table is a sequence of rows and the directory a map.
- The row's generated id is not modelled, since no response carries it.
- `AuthorService.createAuthor` and `AuthorTable` are not part of this model. Creating an author adds a map entry under an id larger than every id in use.
- Creation times are opaque strings. The clock and `DateTime.toString()` are left out, so the test methods take the times as parameters.
- `runBlocking`, concurrency and transaction isolation are left out. The stats query is one pure function of one store value, so its three parts always come from one snapshot.
- `println` of the response is left out, as output only.
- `BudgetRecord`, `SumAmount` and `BudgetStats.TotalByType`: years, months, amounts and their sums are unbounded integers. The 32-bit `integer` columns (BudgetTable.kt:12-14) and any 32-bit overflow of the per-type sums are not modelled.
- Negative `limit` or `offset`: nothing in the source handles them, so the model gives both the type `nat`.
- `BudgetStats.TotalByType`: the contract says nothing about entries for types with no rows that year. The tests do not say either. (The definition has no such entries.)
- `BudgetStats.OrderForStats`: rows sharing both month and amount come out in table order. The store's order for such ties is unspecified. `OrderAfterDelete`, `InsertAfterDelete` and the page clauses of `StatsAfterDeleteAuthor` hold for this tie rule: `SetNullOnDelete` keeps every row's position. A store that reorders tied rows after the `SET_NULL` update could show a different page.
- `BudgetStats.PageEnrichment`: it does not state that an item with an author shows a name other than the sentinel's. An author may be named `"Unknown Author"`, and the tests only check that the fields are not null, which string fields always satisfy here.
- The tests' expected sentinel name `"Unknown"` is not proved. The model keeps the code's `"Unknown Author"`, and `PaginationSentinelDiverges` and `SortOrderSentinelDiverges` record the difference.
