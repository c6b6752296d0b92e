/** The yearly statistics query: the rows of one year, their count, their
    per-type sums, and a page of them in a fixed order, each enriched with
    its author. */
module BudgetStats {
  import opened Wrappers
  import opened BudgetTable

  /** The answer to a stats query. */
  datatype BudgetYearStatsResponse = BudgetYearStatsResponse(
    total: int, totalByType: map<BudgetType, int>, items: seq<BudgetRecordResponse>)

  /** The rows of `rows` whose year is `year`, in table order. */
  function Matches(rows: seq<BudgetRecord>, year: int): (m: seq<BudgetRecord>)
    ensures |m| <= |rows|
    ensures forall i :: 0 <= i < |m| ==> m[i].year == year
  {
    if rows == [] then []
    else (if rows[0].year == year then [rows[0]] else []) + Matches(rows[1..], year)
  }

  /** The selection holds every row of the year as often as the table does,
      and nothing else. */
  lemma {:induction false} MatchesContents(rows: seq<BudgetRecord>, year: int)
    ensures forall x :: multiset(Matches(rows, year))[x] == if x.year == year then multiset(rows)[x] else 0
  {
    if rows != [] {
      MatchesContents(rows[1..], year);
      assert rows == [rows[0]] + rows[1..];
    }
  }

  /** A table that holds only rows of the year is its own selection. */
  lemma {:induction false} MatchesOfOneYear(rows: seq<BudgetRecord>, year: int)
    requires forall i :: 0 <= i < |rows| ==> rows[i].year == year
    ensures Matches(rows, year) == rows
  {
    if rows != [] {
      MatchesOfOneYear(rows[1..], year);
      assert rows == [rows[0]] + rows[1..];
    }
  }

  /** A table without rows of the year selects nothing. */
  lemma {:induction false} MatchesOfOtherYears(rows: seq<BudgetRecord>, year: int)
    requires forall i :: 0 <= i < |rows| ==> rows[i].year != year
    ensures Matches(rows, year) == []
  {
    if rows != [] {
      MatchesOfOtherYears(rows[1..], year);
    }
  }

  /** Rows of other years appended to a table change no selection. */
  lemma {:induction false} MatchesSkipsOtherYears(a: seq<BudgetRecord>, b: seq<BudgetRecord>, year: int)
    requires forall i :: 0 <= i < |b| ==> b[i].year != year
    ensures Matches(a + b, year) == Matches(a, year)
  {
    if a == [] {
      assert a + b == b;
      MatchesOfOtherYears(b, year);
    } else {
      assert (a + b)[0] == a[0] && (a + b)[1..] == a[1..] + b;
      MatchesSkipsOtherYears(a[1..], b, year);
    }
  }

  /** The sum of `amount` over the rows of type `t`. */
  function SumAmount(s: seq<BudgetRecord>, t: BudgetType): (r: int)
    ensures (forall i :: 0 <= i < |s| ==> s[i].btype != t) ==> r == 0
    ensures (forall i :: 0 <= i < |s| && s[i].btype == t ==> s[i].amount >= 0) ==> r >= 0
  {
    if s == [] then 0
    else (if s[0].btype == t then s[0].amount else 0) + SumAmount(s[1..], t)
  }

  /** The types that occur among the rows. */
  function TypesOf(s: seq<BudgetRecord>): set<BudgetType>
  {
    set i | 0 <= i < |s| :: s[i].btype
  }

  /** The per-type totals: one entry per type that occurs, holding the sum of
      its amounts. */
  function TotalByType(s: seq<BudgetRecord>): (r: map<BudgetType, int>)
    ensures forall i :: 0 <= i < |s| ==> s[i].btype in r
    ensures forall t :: t in r ==> r[t] == SumAmount(s, t)
  {
    map t | t in TypesOf(s) :: SumAmount(s, t)
  }

  /** The per-type totals as the response carries them: keyed by the type's
      stored name. */
  function ByName(m: map<BudgetType, int>): (r: map<string, int>)
    ensures forall t :: t in m ==> TypeName(t) in r && r[TypeName(t)] == m[t]
    ensures forall n :: n in r ==> TypeOfName(n).Some? && TypeOfName(n).value in m
  {
    forall t, u | TypeName(t) == TypeName(u) ensures t == u {
      TypeNameInjective(t, u);
    }
    map t | t in m :: TypeName(t) := m[t]
  }

  /** The stats order: month ascending, then amount descending. `a` may come
      before `b`. */
  predicate Precedes(a: BudgetRecord, b: BudgetRecord): (p: bool)
    ensures a.month < b.month ==> p
    ensures p ==> a.month <= b.month
    ensures a.month == b.month ==> (p <==> a.amount >= b.amount)
  {
    a.month < b.month || (a.month == b.month && a.amount >= b.amount)
  }

  /** Any two rows are comparable in the stats order. */
  lemma PrecedesTotal(a: BudgetRecord, b: BudgetRecord)
    ensures Precedes(a, b) || Precedes(b, a)
  {
  }

  /** The stats order is transitive. */
  lemma PrecedesTransitive(a: BudgetRecord, b: BudgetRecord, c: BudgetRecord)
    ensures Precedes(a, b) && Precedes(b, c) ==> Precedes(a, c)
  {
  }

  /** Every row may come before every later one. */
  predicate Ordered(s: seq<BudgetRecord>): (b: bool)
    ensures |s| <= 1 ==> b
    ensures b ==> forall i :: 0 <= i < |s| - 1 ==> Precedes(s[i], s[i + 1])
  {
    forall i, j :: 0 <= i < j < |s| ==> Precedes(s[i], s[j])
  }

  /** Inserts `x` into an ordered sequence ahead of the first row it may
      precede. */
  function Insert(x: BudgetRecord, s: seq<BudgetRecord>): (r: seq<BudgetRecord>)
    requires Ordered(s)
    ensures Ordered(r)
    ensures multiset(r) == multiset(s) + multiset{x}
  {
    if s == [] || Precedes(x, s[0]) then [x] + s
    else
      var rest := Insert(x, s[1..]);
      assert s == [s[0]] + s[1..];
      HeadPrecedesInsert(x, s, rest);
      [s[0]] + rest
  }

  /** The head of `s` may precede everything `x` was inserted among. */
  lemma HeadPrecedesInsert(x: BudgetRecord, s: seq<BudgetRecord>, rest: seq<BudgetRecord>)
    requires Ordered(s) && s != [] && !Precedes(x, s[0])
    requires Ordered(rest) && multiset(rest) == multiset(s[1..]) + multiset{x}
    ensures Ordered([s[0]] + rest)
  {
    forall k | 0 <= k < |rest| ensures Precedes(s[0], rest[k]) {
      assert rest[k] in multiset(rest);
      if rest[k] != x {
        assert rest[k] in s[1..];
        var j :| 0 <= j < |s[1..]| && s[1..][j] == rest[k];
        assert s[j + 1] == rest[k];
      }
    }
    var r := [s[0]] + rest;
    forall i, j | 0 <= i < j < |r| ensures Precedes(r[i], r[j]) {
      if i > 0 {
        assert r[i] == rest[i - 1] && r[j] == rest[j - 1];
      } else {
        assert r[j] == rest[j - 1];
      }
    }
  }

  /** The rows sorted into the stats order; a permutation of its input. */
  function OrderForStats(s: seq<BudgetRecord>): (r: seq<BudgetRecord>)
    ensures Ordered(r)
    ensures multiset(r) == multiset(s)
  {
    if s == [] then []
    else
      assert s == [s[0]] + s[1..];
      Insert(s[0], OrderForStats(s[1..]))
  }

  /** `a` comes strictly before `b` in the stats order. */
  predicate StrictlyPrecedes(a: BudgetRecord, b: BudgetRecord)
  {
    a.month < b.month || (a.month == b.month && a.amount > b.amount)
  }

  /** Each row strictly before the next: stats order with no two rows
      sharing month and amount. */
  predicate StrictChain(s: seq<BudgetRecord>)
  {
    |s| <= 1 || (StrictlyPrecedes(s[0], s[1]) && StrictChain(s[1..]))
  }

  /** In a strict chain every row is strictly before every later row. */
  lemma {:induction false} StrictChainPrecedes(s: seq<BudgetRecord>, i: nat, j: nat)
    requires StrictChain(s) && i < j < |s|
    ensures StrictlyPrecedes(s[i], s[j])
  {
    if i > 0 {
      StrictChainPrecedes(s[1..], i - 1, j - 1);
    } else if j > 1 {
      StrictChainPrecedes(s[1..], 0, j - 1);
    }
  }

  /** The tail of an ordered sequence is ordered. */
  lemma OrderedTail(s: seq<BudgetRecord>)
    requires Ordered(s) && s != []
    ensures Ordered(s[1..])
  {
    forall i, j | 0 <= i < j < |s| - 1 ensures Precedes(s[1..][i], s[1..][j]) {
      assert Precedes(s[i + 1], s[j + 1]);
    }
  }

  /** Two arrangements of the same rows, the first a strict chain and the
      second ordered, start with the same row. */
  lemma SameHead(a: seq<BudgetRecord>, b: seq<BudgetRecord>)
    requires StrictChain(a) && Ordered(b) && multiset(a) == multiset(b) && a != []
    ensures b != [] && b[0] == a[0]
  {
    assert a[0] in multiset(b);
    var j :| 0 <= j < |b| && b[j] == a[0];
    assert b[0] in multiset(a);
    var i :| 0 <= i < |a| && a[i] == b[0];
    if i != 0 {
      StrictChainPrecedes(a, 0, i);
      assert false;
    }
  }

  /** Two arrangements of the same rows with the same head have tails that
      are arrangements of the same rows. */
  lemma SameTail(a: seq<BudgetRecord>, b: seq<BudgetRecord>)
    requires a != [] && b != [] && a[0] == b[0] && multiset(a) == multiset(b)
    ensures multiset(a[1..]) == multiset(b[1..])
  {
    assert a == [a[0]] + a[1..] && b == [b[0]] + b[1..];
    assert multiset(a[1..]) == multiset(a) - multiset{a[0]};
    assert multiset(b[1..]) == multiset(b) - multiset{b[0]};
  }

  /** Without ties the stats order is fully determined: an ordered
      arrangement of rows that form a strict chain is that chain. */
  lemma {:induction false} OrderIsDetermined(a: seq<BudgetRecord>, b: seq<BudgetRecord>)
    requires StrictChain(a) && Ordered(b) && multiset(a) == multiset(b)
    ensures a == b
  {
    if a == [] {
      assert |b| == |multiset(b)| == 0;
    } else {
      SameHead(a, b);
      SameTail(a, b);
      OrderedTail(b);
      OrderIsDetermined(a[1..], b[1..]);
    }
  }

  /** The page: skip `offset` rows, then keep at most `limit`. */
  function Window(s: seq<BudgetRecord>, limit: nat, offset: nat): (w: seq<BudgetRecord>)
    ensures |w| == if offset >= |s| then 0 else if limit < |s| - offset then limit else |s| - offset
    ensures forall k :: 0 <= k < |w| ==> w[k] == s[offset + k]
  {
    var lo := if offset < |s| then offset else |s|;
    var hi := if limit < |s| - lo then lo + limit else |s|;
    s[lo..hi]
  }

  /** Each row of the page loaded with its author and turned into its
      response. */
  function Enrich(dir: Directory, s: seq<BudgetRecord>): (items: seq<BudgetRecordResponse>)
    ensures |items| == |s|
    ensures forall k :: 0 <= k < |s| ==> items[k] == ToResponse(Load(dir, s[k]))
  {
    seq(|s|, k requires 0 <= k < |s| => ToResponse(Load(dir, s[k])))
  }

  /** `GET /budget/year/{year}/stats?limit=..&offset=..`: count and sums
      over all rows of the year, the page over the ordered rows. */
  function YearStats(rows: seq<BudgetRecord>, dir: Directory, year: int, limit: nat, offset: nat)
    : (r: BudgetYearStatsResponse)
    ensures r.total <= |rows|
    ensures |r.items| <= r.total && |r.items| <= limit
  {
    var m := Matches(rows, year);
    var o := OrderForStats(m);
    assert |o| == |multiset(o)| == |multiset(m)| == |m|;
    BudgetYearStatsResponse(|m|, TotalByType(m), Enrich(dir, Window(o, limit, offset)))
  }

  /** Every row of the year counts, and every type among them has an entry
      summing the amounts of all of them, not only those of the page. */
  lemma TotalsCoverYear(rows: seq<BudgetRecord>, dir: Directory, year: int, limit: nat, offset: nat)
    ensures var r := YearStats(rows, dir, year, limit, offset);
      && r.total == |Matches(rows, year)|
      && (forall i :: 0 <= i < |rows| && rows[i].year == year ==> rows[i].btype in r.totalByType)
      && (forall t :: t in r.totalByType ==> r.totalByType[t] == SumAmount(Matches(rows, year), t))
  {
    var m := Matches(rows, year);
    MatchesContents(rows, year);
    forall i | 0 <= i < |rows| && rows[i].year == year ensures rows[i].btype in TotalByType(m) {
      assert rows[i] in multiset(rows);
      assert rows[i] in multiset(m);
      var j :| 0 <= j < |m| && m[j] == rows[i];
    }
  }

  /** The page has the windowed length, is in stats order and holds only
      rows of the year. */
  lemma PageLaws(rows: seq<BudgetRecord>, dir: Directory, year: int, limit: nat, offset: nat)
    ensures var r := YearStats(rows, dir, year, limit, offset);
      && |r.items| == (if offset >= r.total then 0 else if limit < r.total - offset then limit else r.total - offset)
      && (forall i, j :: 0 <= i < j < |r.items| ==>
            r.items[i].month < r.items[j].month
            || (r.items[i].month == r.items[j].month && r.items[i].amount >= r.items[j].amount))
      && (forall k :: 0 <= k < |r.items| ==> r.items[k].year == year)
  {
    var m := Matches(rows, year);
    var o := OrderForStats(m);
    var w := Window(o, limit, offset);
    var items := Enrich(dir, w);
    forall k | 0 <= k < |o| ensures o[k].year == year {
      assert o[k] in multiset(o);
      assert o[k] in multiset(m);
      var j :| 0 <= j < |m| && m[j] == o[k];
    }
    forall i, j | 0 <= i < j < |items|
      ensures items[i].month < items[j].month
              || (items[i].month == items[j].month && items[i].amount >= items[j].amount)
    {
      assert Precedes(o[offset + i], o[offset + j]);
    }
  }

  /** Each item shows its author's fields when it has an author id, and the
      sentinel pair when it has none. */
  lemma PageEnrichment(rows: seq<BudgetRecord>, dir: Directory, year: int, limit: nat, offset: nat)
    ensures var r := YearStats(rows, dir, year, limit, offset);
      && (forall k :: 0 <= k < |r.items| && r.items[k].authorId.None? ==>
            r.items[k].authorFullName == NoAuthor.fullName && r.items[k].authorCreatedAt == NoAuthor.createdAt)
      && (forall k :: 0 <= k < |r.items| && r.items[k].authorId.Some? ==>
            var id := r.items[k].authorId.value;
            id in dir && r.items[k].authorFullName == dir[id].fullName
            && r.items[k].authorCreatedAt == dir[id].createdAt)
  {
  }

  /** Count and sums do not depend on the page window. */
  lemma TotalsIndependentOfWindow(rows: seq<BudgetRecord>, dir: Directory, year: int,
                                  limit: nat, offset: nat, limit': nat, offset': nat)
    ensures YearStats(rows, dir, year, limit, offset).total == YearStats(rows, dir, year, limit', offset').total
    ensures YearStats(rows, dir, year, limit, offset).totalByType ==
            YearStats(rows, dir, year, limit', offset').totalByType
  {
  }

  /** The records behind a page of responses. */
  function Records(items: seq<BudgetRecordResponse>): (s: seq<BudgetRecord>)
    ensures |s| == |items|
    ensures forall k :: 0 <= k < |items| ==> s[k] == RecordOf(items[k])
  {
    seq(|items|, k requires 0 <= k < |items| => RecordOf(items[k]))
  }

  /** Under the foreign key, a page is exactly the window of the ordered rows
      of the year; the page that starts at 0 and is at least `total` long
      holds every row of the year, each once. */
  lemma PageIsWindow(rows: seq<BudgetRecord>, dir: Directory, year: int, limit: nat, offset: nat)
    requires ReferencesResolve(rows, dir)
    ensures var r := YearStats(rows, dir, year, limit, offset);
      Records(r.items) == Window(OrderForStats(Matches(rows, year)), limit, offset)
    ensures var r := YearStats(rows, dir, year, limit, offset);
      offset == 0 && limit >= r.total ==> multiset(Records(r.items)) == multiset(Matches(rows, year))
  {
    var m := Matches(rows, year);
    var o := OrderForStats(m);
    var w := Window(o, limit, offset);
    var items := Enrich(dir, w);
    MatchesContents(rows, year);
    forall k | 0 <= k < |w| ensures RecordOf(items[k]) == w[k] {
      assert w[k] == o[offset + k];
      assert o[offset + k] in multiset(o);
      assert o[offset + k] in multiset(rows);
      var j :| 0 <= j < |rows| && rows[j] == o[offset + k];
      ResponseKeepsRecord(dir, w[k]);
    }
    assert Records(items) == w;
    if offset == 0 && limit >= |m| {
      assert w == o;
    }
  }

  /** Deleting an author commutes with selecting a year. */
  lemma {:induction false} MatchesAfterDelete(rows: seq<BudgetRecord>, year: int, id: int)
    ensures Matches(SetNullOnDelete(rows, id), year) == SetNullOnDelete(Matches(rows, year), id)
  {
    if rows != [] {
      var d := SetNullOnDelete(rows, id);
      assert d[1..] == SetNullOnDelete(rows[1..], id);
      MatchesAfterDelete(rows[1..], year, id);
      var head := if rows[0].year == year then [rows[0]] else [];
      assert Matches(rows, year) == head + Matches(rows[1..], year);
      SetNullOnDeleteAppend(head, Matches(rows[1..], year), id);
    }
  }

  /** Deleting an author acts on each part of a concatenation. */
  lemma SetNullOnDeleteAppend(a: seq<BudgetRecord>, b: seq<BudgetRecord>, id: int)
    ensures SetNullOnDelete(a + b, id) == SetNullOnDelete(a, id) + SetNullOnDelete(b, id)
  {
    var l, r := SetNullOnDelete(a + b, id), SetNullOnDelete(a, id) + SetNullOnDelete(b, id);
    forall k | 0 <= k < |l| ensures l[k] == r[k] {
      if k < |a| { assert (a + b)[k] == a[k]; } else { assert (a + b)[k] == b[k - |a|]; }
    }
  }

  /** Deleting an author changes no sum. */
  lemma {:induction false} SumAmountAfterDelete(s: seq<BudgetRecord>, t: BudgetType, id: int)
    ensures SumAmount(SetNullOnDelete(s, id), t) == SumAmount(s, t)
  {
    if s != [] {
      assert SetNullOnDelete(s, id)[1..] == SetNullOnDelete(s[1..], id);
      SumAmountAfterDelete(s[1..], t, id);
    }
  }

  /** Deleting an author changes no per-type total. */
  lemma TotalByTypeAfterDelete(s: seq<BudgetRecord>, id: int)
    ensures TotalByType(SetNullOnDelete(s, id)) == TotalByType(s)
  {
    var d := SetNullOnDelete(s, id);
    assert TypesOf(d) == TypesOf(s) by {
      forall t | t in TypesOf(s) ensures t in TypesOf(d) {
        var i :| 0 <= i < |s| && s[i].btype == t;
        assert d[i].btype == t;
      }
    }
    forall t | t in TypesOf(s) ensures SumAmount(d, t) == SumAmount(s, t) {
      SumAmountAfterDelete(s, t, id);
    }
  }

  /** The stats order ignores authors, so sorting commutes with a delete. */
  lemma {:induction false} OrderAfterDelete(s: seq<BudgetRecord>, id: int)
    ensures OrderForStats(SetNullOnDelete(s, id)) == SetNullOnDelete(OrderForStats(s), id)
  {
    if s != [] {
      var d := SetNullOnDelete(s, id);
      assert d[0] == Detach(s[0], id) && d[1..] == SetNullOnDelete(s[1..], id);
      OrderAfterDelete(s[1..], id);
      InsertAfterDelete(s[0], OrderForStats(s[1..]), id);
    }
  }

  /** The stats order ignores authors, so a delete keeps a sequence ordered. */
  lemma OrderedAfterDelete(s: seq<BudgetRecord>, id: int)
    requires Ordered(s)
    ensures Ordered(SetNullOnDelete(s, id))
  {
    var d := SetNullOnDelete(s, id);
    forall i, j | 0 <= i < j < |d| ensures Precedes(d[i], d[j]) {
      assert Precedes(s[i], s[j]);
    }
  }

  lemma {:induction false} InsertAfterDelete(x: BudgetRecord, s: seq<BudgetRecord>, id: int)
    requires Ordered(s)
    ensures Ordered(SetNullOnDelete(s, id))
    ensures Insert(Detach(x, id), SetNullOnDelete(s, id)) == SetNullOnDelete(Insert(x, s), id)
    decreases |s|, 1
  {
    OrderedAfterDelete(s, id);
    if s == [] || Precedes(x, s[0]) {
      SetNullOnDeleteAppend([x], s, id);
    } else {
      InsertAfterDeleteStep(x, s, id);
    }
  }

  /** The step of `InsertAfterDelete` where `x` goes past the head. */
  lemma InsertAfterDeleteStep(x: BudgetRecord, s: seq<BudgetRecord>, id: int)
    requires Ordered(s) && s != [] && !Precedes(x, s[0])
    ensures Ordered(SetNullOnDelete(s, id))
    ensures Insert(Detach(x, id), SetNullOnDelete(s, id)) == SetNullOnDelete(Insert(x, s), id)
    decreases |s|, 0
  {
    OrderedAfterDelete(s, id);
    OrderedTail(s);
    InsertAfterDelete(x, s[1..], id);
    var d := SetNullOnDelete(s, id);
    assert d[0] == Detach(s[0], id);
    assert d[1..] == SetNullOnDelete(s[1..], id);
    assert !Precedes(Detach(x, id), d[0]);
    calc {
      Insert(Detach(x, id), d);
      [d[0]] + Insert(Detach(x, id), d[1..]);
      [Detach(s[0], id)] + SetNullOnDelete(Insert(x, s[1..]), id);
      { SetNullOnDeleteAppend([s[0]], Insert(x, s[1..]), id); }
      SetNullOnDelete([s[0]] + Insert(x, s[1..]), id);
    }
  }

  /** Deleting an author commutes with taking the page. */
  lemma WindowAfterDelete(s: seq<BudgetRecord>, limit: nat, offset: nat, id: int)
    ensures Window(SetNullOnDelete(s, id), limit, offset) == SetNullOnDelete(Window(s, limit, offset), id)
  {
  }

  /** Enriching a page after a delete: fields kept, the deleted author's
      rows show the sentinel pair, all other items unchanged. */
  lemma EnrichAfterDelete(dir: Directory, w: seq<BudgetRecord>, id: int)
    ensures var before := Enrich(dir, w);
      var after := Enrich(dir - {id}, SetNullOnDelete(w, id));
      && |after| == |before|
      && (forall k :: 0 <= k < |before| ==>
            && after[k].year == before[k].year
            && after[k].month == before[k].month
            && after[k].amount == before[k].amount
            && after[k].btype == before[k].btype)
      && (forall k :: 0 <= k < |before| && before[k].authorId == Some(id) ==>
            && after[k].authorId.None?
            && after[k].authorFullName == NoAuthor.fullName
            && after[k].authorCreatedAt == NoAuthor.createdAt)
      && (forall k :: 0 <= k < |before| && before[k].authorId != Some(id) ==>
            after[k] == before[k])
  {
  }

  /** Deleting an author (`onDelete = SET_NULL`) leaves the count and the sums
      of every stats query as they were; each item keeps its fields, an item
      of the deleted author now shows the sentinel pair, and every other item
      is unchanged. */
  lemma StatsAfterDeleteAuthor(rows: seq<BudgetRecord>, dir: Directory, id: int,
                               year: int, limit: nat, offset: nat)
    ensures var before := YearStats(rows, dir, year, limit, offset);
      var after := YearStats(SetNullOnDelete(rows, id), dir - {id}, year, limit, offset);
      && after.total == before.total
      && after.totalByType == before.totalByType
      && |after.items| == |before.items|
      && (forall k :: 0 <= k < |before.items| ==>
            && after.items[k].year == before.items[k].year
            && after.items[k].month == before.items[k].month
            && after.items[k].amount == before.items[k].amount
            && after.items[k].btype == before.items[k].btype)
      && (forall k :: 0 <= k < |before.items| && before.items[k].authorId == Some(id) ==>
            && after.items[k].authorId.None?
            && after.items[k].authorFullName == NoAuthor.fullName
            && after.items[k].authorCreatedAt == NoAuthor.createdAt)
      && (forall k :: 0 <= k < |before.items| && before.items[k].authorId != Some(id) ==>
            after.items[k] == before.items[k])
  {
    var m := Matches(rows, year);
    var w := Window(OrderForStats(m), limit, offset);
    MatchesAfterDelete(rows, year, id);
    TotalByTypeAfterDelete(m, id);
    OrderAfterDelete(m, id);
    WindowAfterDelete(OrderForStats(m), limit, offset, id);
    assert Matches(SetNullOnDelete(rows, id), year) == SetNullOnDelete(m, id);
    assert Window(OrderForStats(SetNullOnDelete(m, id)), limit, offset) == SetNullOnDelete(w, id);
    EnrichAfterDelete(dir, w, id);
  }
}
