/** The read side of the fine routes (backend/routes/denda.js). */
module Fines {
  import opened Records
  import opened Listing

  /** A row of `GET /denda/user/:user_id`: the fine with the title of the book its loan is for. */
  datatype FineRow = FineRow(id: Id, fine: Fine, judul: string)

  /** A row of `GET /denda`: the fine with its borrower's id and name and the book's title. */
  datatype AllFineRow = AllFineRow(id: Id, fine: Fine, userId: Id, nama: string, judul: string)

  /** The inner joins from a fine through its loan to the loan's book. */
  predicate ReachesBook(books: map<Id, Book>, loans: map<Id, Loan>, fines: map<Id, Fine>, id: Id) {
    id in fines && fines[id].peminjamanId in loans && loans[fines[id].peminjamanId].bukuId in books
  }

  /** Row `r` shows fine `r.id` with the title of its loan's book. */
  predicate IsFineRow(books: map<Id, Book>, loans: map<Id, Loan>, fines: map<Id, Fine>, r: FineRow) {
    && ReachesBook(books, loans, fines, r.id) && r.fine == fines[r.id]
    && r.judul == books[loans[r.fine.peminjamanId].bukuId].judul
  }

  /** Row `r` shows fine `r.id` with its borrower's id and name and its book's title. */
  predicate IsAllFineRow(users: map<Id, User>, books: map<Id, Book>, loans: map<Id, Loan>, fines: map<Id, Fine>, r: AllFineRow) {
    && ReachesBook(books, loans, fines, r.id) && r.fine == fines[r.id]
    && r.userId == loans[r.fine.peminjamanId].userId && r.userId in users
    && r.nama == users[r.userId].nama && r.judul == books[loans[r.fine.peminjamanId].bukuId].judul
  }

  /** The fines `GET /denda/user/:user_id` shows: those reaching a book whose loan is the user's. */
  predicate InUserFines(books: map<Id, Book>, loans: map<Id, Loan>, fines: map<Id, Fine>, userId: Id, id: Id) {
    ReachesBook(books, loans, fines, id) && loans[fines[id].peminjamanId].userId == userId
  }

  /** The fines `GET /denda` shows: those reaching a book whose borrower still exists. */
  predicate InAllFines(users: map<Id, User>, books: map<Id, Book>, loans: map<Id, Loan>, fines: map<Id, Fine>, id: Id) {
    ReachesBook(books, loans, fines, id) && loans[fines[id].peminjamanId].userId in users
  }

  function FineRowOf(books: map<Id, Book>, loans: map<Id, Loan>, fines: map<Id, Fine>, id: Id): (r: FineRow)
    requires ReachesBook(books, loans, fines, id)
    ensures r.id == id && IsFineRow(books, loans, fines, r)
  {
    FineRow(id, fines[id], books[loans[fines[id].peminjamanId].bukuId].judul)
  }

  function AllFineRowOf(users: map<Id, User>, books: map<Id, Book>, loans: map<Id, Loan>, fines: map<Id, Fine>, id: Id)
    : (r: AllFineRow)
    requires InAllFines(users, books, loans, fines, id)
    ensures r.id == id && IsAllFineRow(users, books, loans, fines, r)
  {
    var l := loans[fines[id].peminjamanId];
    AllFineRow(id, fines[id], l.userId, users[l.userId].nama, books[l.bukuId].judul)
  }

  /** `GET /denda/user/:user_id`: the fines whose loan belongs to the user, newest fine first. */
  function FinesOfUser(books: map<Id, Book>, loans: map<Id, Loan>, fines: map<Id, Fine>, userId: Id, n: int)
    : (rows: seq<FineRow>)
    requires KeysBelow(fines, n)
    ensures forall i :: 0 <= i < |rows| ==> IsFineRow(books, loans, fines, rows[i]) && loans[rows[i].fine.peminjamanId].userId == userId
    ensures forall id :: InUserFines(books, loans, fines, userId, id) ==> exists i :: 0 <= i < |rows| && rows[i].id == id
    ensures forall i, j :: 0 <= i < j < |rows| ==> rows[i].id > rows[j].id
  {
    var ids := Select(n, id => InUserFines(books, loans, fines, userId, id));
    var rows := seq(|ids|, i requires 0 <= i < |ids| => FineRowOf(books, loans, fines, ids[i]));
    assert forall i :: 0 <= i < |ids| ==> rows[i].id == ids[i];
    assert forall id :: InUserFines(books, loans, fines, userId, id) ==> id in ids;
    rows
  }

  /** `GET /denda`: every fine whose loan, borrower and book all exist, newest fine first. */
  function AllFines(users: map<Id, User>, books: map<Id, Book>, loans: map<Id, Loan>, fines: map<Id, Fine>, n: int)
    : (rows: seq<AllFineRow>)
    requires KeysBelow(fines, n)
    ensures forall i :: 0 <= i < |rows| ==> IsAllFineRow(users, books, loans, fines, rows[i])
    ensures forall id :: InAllFines(users, books, loans, fines, id) ==> exists i :: 0 <= i < |rows| && rows[i].id == id
    ensures forall i, j :: 0 <= i < j < |rows| ==> rows[i].id > rows[j].id
  {
    var ids := Select(n, id => InAllFines(users, books, loans, fines, id));
    var rows := seq(|ids|, i requires 0 <= i < |ids| => AllFineRowOf(users, books, loans, fines, ids[i]));
    assert forall i :: 0 <= i < |ids| ==> rows[i].id == ids[i];
    assert forall id :: InAllFines(users, books, loans, fines, id) ==> id in ids;
    rows
  }
}
