/** The budget table, the entity loaded from it and the entity's response
    shape (`BudgetTable`, `BudgetEntity.toResponse`). */
module BudgetTable {
  import opened Wrappers

  /** The two kinds of budget entry. The table stores them by name
      (`enumerationByName`); the names are the Russian words for
      income and expense. */
  datatype BudgetType = Income | Expense

  /** The stored name of a type. */
  function TypeName(t: BudgetType): (n: string)
    ensures n != []
  {
    match t
    case Income => "Приход"
    case Expense => "Расход"
  }

  /** Reading a stored name back; unknown names are rejected. */
  function TypeOfName(n: string): (r: Option<BudgetType>)
    ensures r.Some? ==> TypeName(r.value) == n
  {
    if n == "Приход" then Some(Income)
    else if n == "Расход" then Some(Expense)
    else None
  }

  /** Every type reads back from its stored name. */
  lemma TypeNameRoundTrip(t: BudgetType)
    ensures TypeOfName(TypeName(t)) == Some(t)
  {
  }

  /** No two types are stored under the same name. */
  lemma TypeNameInjective(t: BudgetType, u: BudgetType)
    ensures TypeName(t) == TypeName(u) ==> t == u
  {
    TypeNameRoundTrip(t);
    TypeNameRoundTrip(u);
  }

  /** An author as the enrichment sees it; `createdAt` is the author's
      creation time already rendered as text. */
  datatype Author = Author(id: int, fullName: string, createdAt: string)

  /** What the author directory keeps for one id. */
  datatype AuthorInfo = AuthorInfo(fullName: string, createdAt: string)

  /** The author directory: id to author data. */
  type Directory = map<int, AuthorInfo>

  /** Looks an author up by id; a missing id gives no author. */
  function FindAuthor(dir: Directory, id: int): (a: Option<Author>)
    ensures a.Some? <==> id in dir
    ensures a.Some? ==> a.value == Author(id, dir[id].fullName, dir[id].createdAt)
  {
    if id in dir then Some(Author(id, dir[id].fullName, dir[id].createdAt)) else None
  }

  /** After an author is stored under `x`, looking `x` up finds it and every
      other lookup is as before. */
  lemma FindAuthorAfterAdd(dir: Directory, x: int, info: AuthorInfo, id: int)
    ensures FindAuthor(dir[x := info], id)
      == if id == x then Some(Author(x, info.fullName, info.createdAt)) else FindAuthor(dir, id)
  {
  }

  /** After author `x` is deleted, looking `x` up finds nothing and every
      other lookup is as before. */
  lemma FindAuthorAfterRemove(dir: Directory, x: int, id: int)
    ensures FindAuthor(dir - {x}, id) == if id == x then None else FindAuthor(dir, id)
  {
  }

  /** A row of the budget table, which is also the record a client submits:
      `authorId` is the nullable `author_id` reference column. */
  datatype BudgetRecord = BudgetRecord(
    year: int, month: int, amount: int, btype: BudgetType, authorId: Option<int>)

  /** A row loaded as an entity, its author reference resolved. */
  datatype BudgetEntity = BudgetEntity(
    year: int, month: int, amount: int, btype: BudgetType, author: Option<Author>)

  /** The response shape of one record: its fields plus the author's
      display fields. */
  datatype BudgetRecordResponse = BudgetRecordResponse(
    year: int, month: int, amount: int, btype: BudgetType,
    authorId: Option<int>, authorFullName: string, authorCreatedAt: string)

  /** The display fields shown for a record without an author, in the shape
      of a directory entry; the one place the sentinel pair is defined. */
  const NoAuthor: AuthorInfo := AuthorInfo("Unknown Author", "N/A")

  /** Every row whose reference is set points at an author of the directory:
      the foreign key of the `author_id` column. */
  ghost predicate ReferencesResolve(rows: seq<BudgetRecord>, dir: Directory): (b: bool)
    ensures b ==> forall i :: 0 <= i < |rows| ==>
      (Load(dir, rows[i]).author.Some? <==> rows[i].authorId.Some?)
  {
    forall i :: 0 <= i < |rows| && rows[i].authorId.Some? ==> rows[i].authorId.value in dir
  }

  /** Loads a row as an entity, resolving its author reference through the
      directory; an absent or unresolvable reference gives no author. */
  function Load(dir: Directory, rec: BudgetRecord): (e: BudgetEntity)
    ensures e.year == rec.year && e.month == rec.month
    ensures e.amount == rec.amount && e.btype == rec.btype
    ensures e.author.Some? <==> rec.authorId.Some? && rec.authorId.value in dir
    ensures e.author.Some? ==>
      e.author.value == Author(rec.authorId.value, dir[rec.authorId.value].fullName,
                               dir[rec.authorId.value].createdAt)
  {
    var author := match rec.authorId
      case None => None
      case Some(id) => FindAuthor(dir, id);
    BudgetEntity(rec.year, rec.month, rec.amount, rec.btype, author)
  }

  /** `toResponse`: copies the record's fields and derives the author's
      display fields, falling back to the sentinel pair. Total: every
      entity has a response. */
  function ToResponse(e: BudgetEntity): (r: BudgetRecordResponse)
    ensures r.year == e.year && r.month == e.month
    ensures r.amount == e.amount && r.btype == e.btype
    ensures r.authorId.Some? <==> e.author.Some?
    ensures e.author.Some? ==>
      && r.authorId == Some(e.author.value.id)
      && r.authorFullName == e.author.value.fullName
      && r.authorCreatedAt == e.author.value.createdAt
    ensures e.author.None? ==>
      r.authorFullName == NoAuthor.fullName && r.authorCreatedAt == NoAuthor.createdAt
  {
    match e.author
    case Some(a) =>
      BudgetRecordResponse(e.year, e.month, e.amount, e.btype, Some(a.id), a.fullName, a.createdAt)
    case None =>
      BudgetRecordResponse(e.year, e.month, e.amount, e.btype, None, NoAuthor.fullName, NoAuthor.createdAt)
  }

  /** The record a response was made from: its fields and the author id. */
  function RecordOf(r: BudgetRecordResponse): BudgetRecord
  {
    BudgetRecord(r.year, r.month, r.amount, r.btype, r.authorId)
  }

  /** A stored row whose reference resolves comes back unchanged from its
      response: enrichment adds display fields and loses nothing. */
  lemma ResponseKeepsRecord(dir: Directory, rec: BudgetRecord)
    requires rec.authorId.Some? ==> rec.authorId.value in dir
    ensures RecordOf(ToResponse(Load(dir, rec))) == rec
    ensures rec.authorId.Some? ==>
      ToResponse(Load(dir, rec)).authorFullName == dir[rec.authorId.value].fullName
  {
  }

  /** One row after its author `id` was deleted (`onDelete = SET_NULL`). */
  function Detach(rec: BudgetRecord, id: int): (r: BudgetRecord)
    ensures r.year == rec.year && r.month == rec.month
    ensures r.amount == rec.amount && r.btype == rec.btype
    ensures r.authorId != Some(id)
    ensures rec.authorId != Some(id) ==> r == rec
    ensures rec.authorId == Some(id) ==> r == rec.(authorId := None)
  {
    if rec.authorId == Some(id) then rec.(authorId := None) else rec
  }

  /** The table after deleting author `id`: every reference to it is set to
      null, no row is removed and nothing else changes. */
  function SetNullOnDelete(rows: seq<BudgetRecord>, id: int): (r: seq<BudgetRecord>)
    ensures |r| == |rows|
    ensures forall i :: 0 <= i < |rows| ==>
      && r[i].year == rows[i].year && r[i].month == rows[i].month
      && r[i].amount == rows[i].amount && r[i].btype == rows[i].btype
    ensures forall i :: 0 <= i < |rows| ==>
      r[i].authorId == if rows[i].authorId == Some(id) then None else rows[i].authorId
  {
    if rows == [] then [] else [Detach(rows[0], id)] + SetNullOnDelete(rows[1..], id)
  }

  /** After the delete no row references the deleted author, and rows that
      referenced another author or none are exactly as before. */
  lemma SetNullOnDeleteDetachesOnly(rows: seq<BudgetRecord>, id: int, i: nat)
    requires i < |rows|
    ensures SetNullOnDelete(rows, id)[i].authorId != Some(id)
    ensures rows[i].authorId != Some(id) ==> SetNullOnDelete(rows, id)[i] == rows[i]
    ensures rows[i].authorId == Some(id) ==> SetNullOnDelete(rows, id)[i] == rows[i].(authorId := None)
  {
  }

  /** Deleting an author keeps the foreign key intact for the directory
      without that author. */
  lemma SetNullOnDeleteKeepsReferences(rows: seq<BudgetRecord>, dir: Directory, id: int)
    requires ReferencesResolve(rows, dir)
    ensures ReferencesResolve(SetNullOnDelete(rows, id), dir - {id})
  {
  }

  /** Deleting an author nobody references leaves the table as it is, and
      deleting it twice is the same as once. */
  lemma SetNullOnDeleteIdempotent(rows: seq<BudgetRecord>, id: int)
    ensures SetNullOnDelete(SetNullOnDelete(rows, id), id) == SetNullOnDelete(rows, id)
    ensures (forall i :: 0 <= i < |rows| ==> rows[i].authorId != Some(id)) ==>
      SetNullOnDelete(rows, id) == rows
  {
  }
}
