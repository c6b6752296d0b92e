/** The budget store as the API drives it: authors are created, records are
    added one at a time after validation, authors may be deleted, and the
    stats query reads one snapshot of the table. */
module BudgetStore {
  import opened Wrappers
  import opened BudgetTable
  import opened BudgetStats

  /** Why an add was rejected. */
  datatype BudgetError =
    | InvalidMonth(month: int)      // month outside 1..12: a client error
    | UnknownAuthor(authorId: int)  // the `author_id` foreign key has no target

  /** The month check of the add operation. */
  function ValidateMonth(rec: BudgetRecord): (r: Result<BudgetRecord, BudgetError>)
    ensures r.Success? <==> 1 <= rec.month <= 12
    ensures r.Success? ==> r.value == rec
    ensures r.Failure? ==> r.error == InvalidMonth(rec.month)
  {
    if 1 <= rec.month <= 12 then Success(rec) else Failure(InvalidMonth(rec.month))
  }

  /** Every id in use is below `next`, so `next` is free. */
  predicate IdsBelow(dir: Directory, next: int): (b: bool)
    ensures b ==> next !in dir
  {
    forall id :: id in dir ==> id < next
  }

  class Store {
    /** The budget table, in insertion order. */
    var rows: seq<BudgetRecord>
    /** The author directory. */
    var authors: Directory
    /** The next id the author table hands out. */
    var nextAuthorId: int

    /** Every stored month is valid, every reference resolves, and the next
        author id is above every id in use. */
    ghost predicate Valid(): (b: bool)
      reads this
      ensures b ==> nextAuthorId !in authors
    {
      && ReferencesResolve(rows, authors)
      && (forall i :: 0 <= i < |rows| ==> 1 <= rows[i].month <= 12)
      && IdsBelow(authors, nextAuthorId)
    }

    /** An empty store: no records, no authors. */
    constructor ()
      ensures Valid()
      ensures rows == [] && authors == map[]
    {
      rows := [];
      authors := map[];
      nextAuthorId := 1;
    }

    /** Creates an author with a fresh id; `createdAt` is the creation time
        the caller read from the clock. */
    method CreateAuthor(fullName: string, createdAt: string) returns (a: Author)
      requires Valid()
      modifies this
      ensures Valid()
      ensures a.id !in old(authors) && a.fullName == fullName && a.createdAt == createdAt
      ensures authors == old(authors)[a.id := AuthorInfo(fullName, createdAt)]
      ensures rows == old(rows)
      ensures forall id :: FindAuthor(authors, id) == if id == a.id then Some(a) else FindAuthor(old(authors), id)
    {
      a := Author(nextAuthorId, fullName, createdAt);
      forall id ensures FindAuthor(authors[a.id := AuthorInfo(fullName, createdAt)], id)
        == if id == a.id then Some(a) else FindAuthor(authors, id)
      {
        FindAuthorAfterAdd(authors, a.id, AuthorInfo(fullName, createdAt), id);
      }
      authors := authors[nextAuthorId := AuthorInfo(fullName, createdAt)];
      nextAuthorId := nextAuthorId + 1;
    }

    /** `POST /budget/add`: rejects a month outside 1..12 and a reference to
        an author that does not exist; otherwise appends the record and
        echoes it. A rejected add stores nothing. */
    method Add(rec: BudgetRecord) returns (r: Result<BudgetRecord, BudgetError>)
      requires Valid()
      modifies this
      ensures Valid()
      ensures authors == old(authors) && nextAuthorId == old(nextAuthorId)
      ensures r.Success? <==>
        1 <= rec.month <= 12 && (rec.authorId.Some? ==> rec.authorId.value in old(authors))
      ensures r.Success? ==> r.value == rec && rows == old(rows) + [rec]
      ensures r.Failure? ==> rows == old(rows)
      ensures !(1 <= rec.month <= 12) ==> r == Failure(InvalidMonth(rec.month))
      ensures 1 <= rec.month <= 12 && rec.authorId.Some? && rec.authorId.value !in old(authors) ==>
        r == Failure(UnknownAuthor(rec.authorId.value))
    {
      r := ValidateMonth(rec);
      if r.Failure? {
        return;
      }
      if rec.authorId.Some? && rec.authorId.value !in authors {
        r := Failure(UnknownAuthor(rec.authorId.value));
        return;
      }
      rows := rows + [rec];
    }

    /** Deletes an author; the table's `SET_NULL` rule clears every reference
        to it and removes no record. */
    method DeleteAuthor(id: int)
      requires Valid()
      modifies this
      ensures Valid()
      ensures rows == SetNullOnDelete(old(rows), id)
      ensures authors == old(authors) - {id} && nextAuthorId == old(nextAuthorId)
      ensures forall x :: FindAuthor(authors, x) == if x == id then None else FindAuthor(old(authors), x)
    {
      forall x ensures FindAuthor(authors - {id}, x) == if x == id then None else FindAuthor(authors, x) {
        FindAuthorAfterRemove(authors, id, x);
      }
      SetNullOnDeleteKeepsReferences(rows, authors, id);
      rows := SetNullOnDelete(rows, id);
      authors := authors - {id};
    }

    /** `GET /budget/year/{year}/stats`: the stats of the current table, whose
        page is exactly the window of the ordered rows of the year and whose
        items name only existing authors. */
    method Stats(year: int, limit: nat, offset: nat) returns (s: BudgetYearStatsResponse)
      requires Valid()
      ensures s == YearStats(rows, authors, year, limit, offset)
      ensures Records(s.items) == Window(OrderForStats(Matches(rows, year)), limit, offset)
      ensures forall k :: 0 <= k < |s.items| && s.items[k].authorId.Some? ==>
        s.items[k].authorId.value in authors
    {
      s := YearStats(rows, authors, year, limit, offset);
      PageIsWindow(rows, authors, year, limit, offset);
      PageEnrichment(rows, authors, year, limit, offset);
    }
  }
}
