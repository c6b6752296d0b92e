/** The scenarios of the budget API tests, stated over the model: the
    records each test adds, the stats it asks for, and what it expects. */
module BudgetApiTest {
  import opened Wrappers
  import opened BudgetTable
  import opened BudgetStats
  import opened BudgetStore

  /** The records `testBudgetPagination` adds, with the ids of its three
      authors. */
  function PaginationRecords(a1: int, a2: int, a3: int): (r: seq<BudgetRecord>)
    ensures |r| == 6
    ensures forall i :: 0 <= i < |r| ==> 1 <= r[i].month <= 12
    ensures forall i :: 0 <= i < |r| && r[i].authorId.Some? ==> r[i].authorId.value in {a1, a2, a3}
  {
    [ BudgetRecord(2020, 5, 10, Income, Some(a1)),
      BudgetRecord(2020, 5, 5, Income, None),
      BudgetRecord(2020, 5, 20, Income, Some(a2)),
      BudgetRecord(2020, 5, 30, Income, None),
      BudgetRecord(2020, 5, 40, Income, Some(a3)),
      BudgetRecord(2030, 1, 1, Expense, None) ]
  }

  /** The records `testStatsSortOrder` adds. */
  function SortOrderRecords(a1: int, a2: int, a3: int): (r: seq<BudgetRecord>)
    ensures |r| == 5
    ensures forall i :: 0 <= i < |r| ==> 1 <= r[i].month <= 12
    ensures forall i :: 0 <= i < |r| && r[i].authorId.Some? ==> r[i].authorId.value in {a1, a2, a3}
  {
    [ BudgetRecord(2020, 5, 100, Income, Some(a1)),
      BudgetRecord(2020, 1, 5, Income, None),
      BudgetRecord(2020, 5, 50, Income, Some(a2)),
      BudgetRecord(2020, 1, 30, Income, None),
      BudgetRecord(2020, 5, 400, Income, Some(a3)) ]
  }

  /** The test's records are all of 2020. */
  lemma SortOrderSelection(a1: int, a2: int, a3: int)
    ensures Matches(SortOrderRecords(a1, a2, a3), 2020) == SortOrderRecords(a1, a2, a3)
  {
    MatchesOfOneYear(SortOrderRecords(a1, a2, a3), 2020);
  }

  /** The test's records in the order the test expects form a strict chain. */
  lemma SortOrderChain(a1: int, a2: int, a3: int)
    ensures var rows := SortOrderRecords(a1, a2, a3);
      StrictChain([rows[3], rows[1], rows[4], rows[0], rows[2]])
  {
    var rows := SortOrderRecords(a1, a2, a3);
    var r0, r1, r2, r3, r4 := rows[0], rows[1], rows[2], rows[3], rows[4];
    assert StrictChain([r2]);
    assert StrictChain([r0, r2]);
    assert StrictChain([r4, r0, r2]);
    assert StrictChain([r1, r4, r0, r2]);
  }

  /** The stats order of the test's records: month 1 first, and within each
      month the larger amount first. */
  lemma SortOrderArrangement(a1: int, a2: int, a3: int)
    ensures var rows := SortOrderRecords(a1, a2, a3);
      OrderForStats(rows) == [rows[3], rows[1], rows[4], rows[0], rows[2]]
  {
    var rows := SortOrderRecords(a1, a2, a3);
    var expected := [rows[3], rows[1], rows[4], rows[0], rows[2]];
    SortOrderChain(a1, a2, a3);
    assert rows == [rows[0], rows[1], rows[2], rows[3], rows[4]];
    assert multiset(expected) == multiset(rows);
    OrderIsDetermined(expected, OrderForStats(rows));
  }

  /** The window of the sort-order test: every record, in stats order. */
  lemma SortOrderWindow(a1: int, a2: int, a3: int)
    ensures var rows := SortOrderRecords(a1, a2, a3);
      Window(OrderForStats(Matches(rows, 2020)), 100, 0) == [rows[3], rows[1], rows[4], rows[0], rows[2]]
  {
    SortOrderSelection(a1, a2, a3);
    SortOrderArrangement(a1, a2, a3);
  }

  /** The page of the sort-order test: every record, in stats order. */
  lemma SortOrderPage(dir: Directory, a1: int, a2: int, a3: int)
    ensures var rows := SortOrderRecords(a1, a2, a3);
      YearStats(rows, dir, 2020, 100, 0).items
        == Enrich(dir, [rows[3], rows[1], rows[4], rows[0], rows[2]])
  {
    SortOrderWindow(a1, a2, a3);
  }

  /** The sort-order scenario: limit 100, offset 0 gives the amounts
      30, 5, 400, 100, 50. */
  lemma SortOrderScenario(dir: Directory, a1: int, a2: int, a3: int)
    ensures var r := YearStats(SortOrderRecords(a1, a2, a3), dir, 2020, 100, 0);
      && |r.items| == 5
      && r.items[0].amount == 30 && r.items[1].amount == 5 && r.items[2].amount == 400
      && r.items[3].amount == 100 && r.items[4].amount == 50
  {
    var rows := SortOrderRecords(a1, a2, a3);
    SortOrderPage(dir, a1, a2, a3);
    var items := Enrich(dir, [rows[3], rows[1], rows[4], rows[0], rows[2]]);
    assert items[0].amount == 30 && items[1].amount == 5 && items[2].amount == 400;
    assert items[3].amount == 100 && items[4].amount == 50;
  }

  /** The five 2020 records of the pagination test are its selection; the
      2030 record is left out. */
  lemma PaginationSelection(a1: int, a2: int, a3: int)
    ensures var rows := PaginationRecords(a1, a2, a3);
      Matches(rows, 2020) == rows[..5]
  {
    var rows := PaginationRecords(a1, a2, a3);
    var first, last := rows[..5], rows[5..];
    assert rows == first + last;
    assert |last| == 1 && last[0].year == 2030;
    MatchesSkipsOtherYears(first, last, 2020);
    assert |first| == 5 && first[0].year == 2020 && first[1].year == 2020 && first[2].year == 2020;
    assert first[3].year == 2020 && first[4].year == 2020;
    MatchesOfOneYear(first, 2020);
  }

  /** The five 2020 records by descending amount form a strict chain. */
  lemma PaginationChain(a1: int, a2: int, a3: int)
    ensures var rows := PaginationRecords(a1, a2, a3);
      StrictChain([rows[4], rows[3], rows[2], rows[0], rows[1]])
  {
    var rows := PaginationRecords(a1, a2, a3);
    var r0, r1, r2, r3, r4 := rows[0], rows[1], rows[2], rows[3], rows[4];
    assert StrictChain([r1]);
    assert StrictChain([r0, r1]);
    assert StrictChain([r2, r0, r1]);
    assert StrictChain([r3, r2, r0, r1]);
  }

  /** The five 2020 records, all of month 5, in descending amount. */
  lemma PaginationArrangement(a1: int, a2: int, a3: int)
    ensures var rows := PaginationRecords(a1, a2, a3);
      OrderForStats(rows[..5]) == [rows[4], rows[3], rows[2], rows[0], rows[1]]
  {
    var rows := PaginationRecords(a1, a2, a3);
    var expected := [rows[4], rows[3], rows[2], rows[0], rows[1]];
    PaginationChain(a1, a2, a3);
    assert rows[..5] == [rows[0], rows[1], rows[2], rows[3], rows[4]];
    assert multiset(expected) == multiset(rows[..5]);
    OrderIsDetermined(expected, OrderForStats(rows[..5]));
  }

  /** The income of the five 2020 records: 10 + 5 + 20 + 30 + 40. */
  lemma PaginationIncome(a1: int, a2: int, a3: int)
    ensures var rows := PaginationRecords(a1, a2, a3);
      SumAmount(rows[..5], Income) == 105
  {
    var s := PaginationRecords(a1, a2, a3)[..5];
    assert s[4..][1..] == [];
    assert s[3..][1..] == s[4..];
    assert s[2..][1..] == s[3..];
    assert s[1..][1..] == s[2..];
    assert SumAmount(s[4..], Income) == 40;
    assert SumAmount(s[3..], Income) == 70;
    assert SumAmount(s[2..], Income) == 90;
    assert SumAmount(s[1..], Income) == 95;
  }

  /** The pagination scenario: limit 3 and offset 1 over the year 2020. The
      count is 5 and the income total 105 although the page holds 3 items;
      the page is amounts 30, 20, 10; the item without an author shows the
      sentinel pair, the others their author's fields. */
  lemma PaginationScenario(dir: Directory, a1: int, a2: int, a3: int)
    requires a1 in dir && a2 in dir && a3 in dir
    ensures var r := YearStats(PaginationRecords(a1, a2, a3), dir, 2020, 3, 1);
      && r.total == 5
      && |r.items| == 3
      && Income in r.totalByType && r.totalByType[Income] == 105
      && r.items[0].amount == 30 && r.items[1].amount == 20 && r.items[2].amount == 10
      && r.items[0].authorId == None
      && r.items[0].authorFullName == NoAuthor.fullName && r.items[0].authorCreatedAt == NoAuthor.createdAt
      && r.items[1].authorId == Some(a2)
      && r.items[1].authorFullName == dir[a2].fullName && r.items[1].authorCreatedAt == dir[a2].createdAt
      && r.items[2].authorId == Some(a1)
      && r.items[2].authorFullName == dir[a1].fullName && r.items[2].authorCreatedAt == dir[a1].createdAt
  {
    var rows := PaginationRecords(a1, a2, a3);
    PaginationSelection(a1, a2, a3);
    PaginationArrangement(a1, a2, a3);
    PaginationIncome(a1, a2, a3);
    var m := rows[..5];
    var o := [rows[4], rows[3], rows[2], rows[0], rows[1]];
    var w := Window(o, 3, 1);
    assert |w| == 3 && w[0] == rows[3] && w[1] == rows[2] && w[2] == rows[0];
    var r := YearStats(rows, dir, 2020, 3, 1);
    assert r.items == Enrich(dir, w);
    assert r.items[0] == ToResponse(Load(dir, rows[3]));
    assert r.items[1] == ToResponse(Load(dir, rows[2]));
    assert r.items[2] == ToResponse(Load(dir, rows[0]));
    assert rows[2].authorId == Some(a2) && rows[0].authorId == Some(a1);
    assert Load(dir, rows[2]).author.Some? && Load(dir, rows[2]).author.value.id == a2;
    assert Load(dir, rows[0]).author.Some? && Load(dir, rows[0]).author.value.id == a1;
    assert m[0].btype == Income;
  }

  /** The pagination test expects an author-less item to show the name
      "Unknown"; the entity's sentinel is "Unknown Author", so that
      expectation does not hold of the model. */
  lemma PaginationSentinelDiverges(dir: Directory, a1: int, a2: int, a3: int)
    requires a1 in dir && a2 in dir && a3 in dir
    ensures var r := YearStats(PaginationRecords(a1, a2, a3), dir, 2020, 3, 1);
      exists k :: 0 <= k < |r.items| && r.items[k].authorId.None? && r.items[k].authorFullName != "Unknown"
  {
    PaginationScenario(dir, a1, a2, a3);
    var r := YearStats(PaginationRecords(a1, a2, a3), dir, 2020, 3, 1);
    assert r.items[0].authorFullName == "Unknown Author";
  }

  /** The sort-order test expects its author-less items, the first two of the
      page, to show the name "Unknown"; they show "Unknown Author". */
  lemma SortOrderSentinelDiverges(dir: Directory, a1: int, a2: int, a3: int)
    ensures var r := YearStats(SortOrderRecords(a1, a2, a3), dir, 2020, 100, 0);
      && |r.items| == 5
      && r.items[0].authorId.None? && r.items[0].authorFullName != "Unknown"
      && r.items[1].authorId.None? && r.items[1].authorFullName != "Unknown"
  {
    var rows := SortOrderRecords(a1, a2, a3);
    SortOrderPage(dir, a1, a2, a3);
    var items := Enrich(dir, [rows[3], rows[1], rows[4], rows[0], rows[2]]);
    assert items[0] == ToResponse(Load(dir, rows[3])) && rows[3].authorId.None?;
    assert items[1] == ToResponse(Load(dir, rows[1])) && rows[1].authorId.None?;
    assert items[0].authorFullName == "Unknown Author" && items[1].authorFullName == "Unknown Author";
  }

  /** The response keys the totals by the type's name; the pagination test
      reads the income total under `"Приход"`. */
  lemma PaginationIncomeByName(dir: Directory, a1: int, a2: int, a3: int)
    ensures var totals := ByName(YearStats(PaginationRecords(a1, a2, a3), dir, 2020, 3, 1).totalByType);
      "Приход" in totals && totals["Приход"] == 105
  {
    var rows := PaginationRecords(a1, a2, a3);
    PaginationSelection(a1, a2, a3);
    PaginationIncome(a1, a2, a3);
    var m := rows[..5];
    assert m[0].btype == Income;
    assert TypeName(Income) == "Приход";
  }

  /** The test's `addRecord` helper: adds a record the API accepts and checks
      that the response echoes it. */
  method AddRecord(store: Store, rec: BudgetRecord)
    requires store.Valid()
    requires 1 <= rec.month <= 12 && (rec.authorId.Some? ==> rec.authorId.value in store.authors)
    modifies store
    ensures store.Valid()
    ensures store.rows == old(store.rows) + [rec]
    ensures store.authors == old(store.authors)
  {
    var response := store.Add(rec);
    assert response == Success(rec);
  }

  /** The first steps of both stats tests: an empty store and three new
      authors. */
  method CreateThreeAuthors(createdAt1: string, createdAt2: string, createdAt3: string)
    returns (store: Store, a1: int, a2: int, a3: int)
    ensures fresh(store) && store.Valid() && store.rows == []
    ensures a1 != a2 && a1 != a3 && a2 != a3
    ensures store.authors == map[a1 := AuthorInfo("Author 1", createdAt1),
                                 a2 := AuthorInfo("Author 2", createdAt2),
                                 a3 := AuthorInfo("Author 3", createdAt3)]
  {
    store := new Store();
    var author1 := store.CreateAuthor("Author 1", createdAt1);
    var author2 := store.CreateAuthor("Author 2", createdAt2);
    var author3 := store.CreateAuthor("Author 3", createdAt3);
    a1, a2, a3 := author1.id, author2.id, author3.id;
  }

  /** Every item names one of the three authors of the tests or shows the
      sentinel pair. */
  lemma ItemsShowTestAuthors(rows: seq<BudgetRecord>, dir: Directory, year: int, limit: nat, offset: nat,
                             a1: int, a2: int, a3: int, createdAt1: string, createdAt2: string, createdAt3: string)
    requires dir == map[a1 := AuthorInfo("Author 1", createdAt1),
                        a2 := AuthorInfo("Author 2", createdAt2),
                        a3 := AuthorInfo("Author 3", createdAt3)]
    ensures var items := YearStats(rows, dir, year, limit, offset).items;
      && (forall k :: 0 <= k < |items| && items[k].authorId.None? ==>
            items[k].authorFullName == NoAuthor.fullName && items[k].authorCreatedAt == NoAuthor.createdAt)
      && (forall k :: 0 <= k < |items| && items[k].authorId.Some? ==>
            items[k].authorFullName in {"Author 1", "Author 2", "Author 3"})
  {
    PageEnrichment(rows, dir, year, limit, offset);
  }

  /** `testBudgetPagination`: three authors, six records, then the 2020 stats
      with limit 3 and offset 1. The creation times are whatever the clock
      gave. */
  method TestBudgetPagination(createdAt1: string, createdAt2: string, createdAt3: string)
    returns (response: BudgetYearStatsResponse)
    ensures response.total == 5
    ensures |response.items| == 3
    ensures Income in response.totalByType && response.totalByType[Income] == 105
    ensures "Приход" in ByName(response.totalByType) && ByName(response.totalByType)["Приход"] == 105
    ensures forall k :: 0 <= k < |response.items| && response.items[k].authorId.None? ==>
      response.items[k].authorFullName == NoAuthor.fullName
      && response.items[k].authorCreatedAt == NoAuthor.createdAt
    ensures forall k :: 0 <= k < |response.items| && response.items[k].authorId.Some? ==>
      response.items[k].authorFullName in {"Author 1", "Author 2", "Author 3"}
  {
    var store, a1, a2, a3 := CreateThreeAuthors(createdAt1, createdAt2, createdAt3);
    AddRecord(store, BudgetRecord(2020, 5, 10, Income, Some(a1)));
    AddRecord(store, BudgetRecord(2020, 5, 5, Income, None));
    AddRecord(store, BudgetRecord(2020, 5, 20, Income, Some(a2)));
    AddRecord(store, BudgetRecord(2020, 5, 30, Income, None));
    AddRecord(store, BudgetRecord(2020, 5, 40, Income, Some(a3)));
    AddRecord(store, BudgetRecord(2030, 1, 1, Expense, None));
    assert store.rows == PaginationRecords(a1, a2, a3);
    response := store.Stats(2020, 3, 1);
    PaginationScenario(store.authors, a1, a2, a3);
    PaginationIncomeByName(store.authors, a1, a2, a3);
    ItemsShowTestAuthors(store.rows, store.authors, 2020, 3, 1, a1, a2, a3, createdAt1, createdAt2, createdAt3);
  }

  /** `testStatsSortOrder`: three authors, five records of 2020, then the
      stats with limit 100 and offset 0. */
  method TestStatsSortOrder(createdAt1: string, createdAt2: string, createdAt3: string)
    returns (response: BudgetYearStatsResponse)
    ensures |response.items| == 5
    ensures response.items[0].amount == 30 && response.items[1].amount == 5
    ensures response.items[2].amount == 400 && response.items[3].amount == 100
    ensures response.items[4].amount == 50
    ensures forall k :: 0 <= k < |response.items| && response.items[k].authorId.None? ==>
      response.items[k].authorFullName == NoAuthor.fullName
      && response.items[k].authorCreatedAt == NoAuthor.createdAt
    ensures forall k :: 0 <= k < |response.items| && response.items[k].authorId.Some? ==>
      response.items[k].authorFullName in {"Author 1", "Author 2", "Author 3"}
  {
    var store, a1, a2, a3 := CreateThreeAuthors(createdAt1, createdAt2, createdAt3);
    AddRecord(store, BudgetRecord(2020, 5, 100, Income, Some(a1)));
    AddRecord(store, BudgetRecord(2020, 1, 5, Income, None));
    AddRecord(store, BudgetRecord(2020, 5, 50, Income, Some(a2)));
    AddRecord(store, BudgetRecord(2020, 1, 30, Income, None));
    AddRecord(store, BudgetRecord(2020, 5, 400, Income, Some(a3)));
    assert store.rows == SortOrderRecords(a1, a2, a3);
    response := store.Stats(2020, 100, 0);
    SortOrderScenario(store.authors, a1, a2, a3);
    ItemsShowTestAuthors(store.rows, store.authors, 2020, 100, 0, a1, a2, a3, createdAt1, createdAt2, createdAt3);
  }

  /** `testInvalidMonthValues`: months -5 and 15 are rejected and nothing is
      stored. */
  method TestInvalidMonthValues() returns (first: Result<BudgetRecord, BudgetError>,
                                           second: Result<BudgetRecord, BudgetError>,
                                           stored: seq<BudgetRecord>)
    ensures first == Failure(InvalidMonth(-5))
    ensures second == Failure(InvalidMonth(15))
    ensures stored == []
  {
    var store := new Store();
    first := store.Add(BudgetRecord(2020, -5, 5, Income, None));
    second := store.Add(BudgetRecord(2020, 15, 5, Income, None));
    stored := store.rows;
  }
}
