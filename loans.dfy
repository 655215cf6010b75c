/**
 * The read side of the loan routes (backend/routes/peminjaman.js) and the
 * stock accounting that the borrow and return handlers keep.
 */
module Loans {
  import opened Records
  import opened Listing

  /** `UPDATE buku SET stok = stok + delta WHERE id = bukuId`: a no-op when that book row is gone. */
  function Restock(books: map<Id, Book>, bukuId: Id, delta: int): (r: map<Id, Book>)
    ensures r.Keys == books.Keys
    ensures forall k :: k in books && k != bukuId ==> r[k] == books[k]
    ensures bukuId in books ==> r[bukuId] == books[bukuId].(stok := books[bukuId].stok + delta)
  {
    if bukuId in books then books[bukuId := books[bukuId].(stok := books[bukuId].stok + delta)] else books
  }

  /** The loans of book `bukuId` still marked `Dipinjam`. */
  function ActiveLoansOf(loans: map<Id, Loan>, bukuId: Id): set<Id> {
    set id | id in loans && loans[id].bukuId == bukuId && loans[id].status == StatusDipinjam
  }

  /** The stock column of a book, 0 for a book that is not there. */
  function StockOf(books: map<Id, Book>, bukuId: Id): int {
    if bukuId in books then books[bukuId].stok else 0
  }

  /** Copies of a book on the shelf plus copies out on a `Dipinjam` loan. */
  function Holdings(books: map<Id, Book>, loans: map<Id, Loan>, bukuId: Id): int {
    StockOf(books, bukuId) + |ActiveLoansOf(loans, bukuId)|
  }

  /** Every book has the same holdings in both states. */
  ghost predicate SameHoldings(books: map<Id, Book>, loans: map<Id, Loan>, books': map<Id, Book>, loans': map<Id, Loan>) {
    forall c :: Holdings(books, loans, c) == Holdings(books', loans', c)
  }

  /** No book has a negative stock. */
  predicate StocksNonNegative(books: map<Id, Book>) {
    forall k :: k in books ==> books[k].stok >= 0
  }

  /**
   * A successful borrow inserts a fresh `Dipinjam` loan and takes one copy of
   * its book off the shelf: every book's holdings stay as they were.
   */
  lemma BorrowKeepsHoldings(books: map<Id, Book>, loans: map<Id, Loan>, id: Id, loan: Loan, c: Id)
    requires id !in loans
    requires loan.status == StatusDipinjam && loan.bukuId in books
    ensures Holdings(Restock(books, loan.bukuId, -1), loans[id := loan], c) == Holdings(books, loans, c)
  {
    var before, after := ActiveLoansOf(loans, c), ActiveLoansOf(loans[id := loan], c);
    if c == loan.bukuId {
      assert after == before + {id};
      assert id !in before;
    } else {
      assert after == before;
    }
  }

  /**
   * Returning a loan that is still `Dipinjam` puts its copy back on the shelf:
   * every book's holdings stay as they were.
   */
  lemma ReturnKeepsHoldings(books: map<Id, Book>, loans: map<Id, Loan>, id: Id, c: Id)
    requires id in loans && loans[id].status == StatusDipinjam && loans[id].bukuId in books
    ensures Holdings(Restock(books, loans[id].bukuId, 1), loans[id := loans[id].(status := StatusKembali)], c)
         == Holdings(books, loans, c)
  {
    var b := loans[id].bukuId;
    var before, after := ActiveLoansOf(loans, c), ActiveLoansOf(loans[id := loans[id].(status := StatusKembali)], c);
    if c == b {
      assert before == after + {id};
      assert id !in after;
    } else {
      assert after == before;
    }
  }

  /**
   * The return handler does not look at the loan's status: returning a loan
   * that is no longer `Dipinjam` (a second return) adds a copy that was never
   * lent out, so the book's holdings grow by one.
   */
  lemma ReturnOfClosedLoanAddsCopy(books: map<Id, Book>, loans: map<Id, Loan>, id: Id)
    requires id in loans && loans[id].status != StatusDipinjam && loans[id].bukuId in books
    ensures Holdings(Restock(books, loans[id].bukuId, 1), loans[id := loans[id].(status := StatusKembali)], loans[id].bukuId)
         == Holdings(books, loans, loans[id].bukuId) + 1
  {
    var b := loans[id].bukuId;
    assert ActiveLoansOf(loans[id := loans[id].(status := StatusKembali)], b) == ActiveLoansOf(loans, b);
  }

  /** A row of `GET /peminjaman`: the loan with its borrower's name and its book's title. */
  datatype LoanRow = LoanRow(id: Id, loan: Loan, nama: string, judul: string)

  /** A row of `GET /peminjaman/user/:user_id`: as above, plus the book's author. */
  datatype UserLoanRow = UserLoanRow(id: Id, loan: Loan, nama: string, judul: string, pengarang: string)

  /** The inner joins of the listings keep a loan only while its user and its book exist. */
  predicate Joined(users: map<Id, User>, books: map<Id, Book>, loans: map<Id, Loan>, id: Id) {
    id in loans && loans[id].userId in users && loans[id].bukuId in books
  }

  /** Row `r` shows loan `r.id` with its borrower's name and its book's title. */
  predicate IsLoanRow(users: map<Id, User>, books: map<Id, Book>, loans: map<Id, Loan>, r: LoanRow) {
    && Joined(users, books, loans, r.id) && r.loan == loans[r.id]
    && r.nama == users[r.loan.userId].nama && r.judul == books[r.loan.bukuId].judul
  }

  /** Row `r` shows loan `r.id` with its borrower's name and its book's title and author. */
  predicate IsUserLoanRow(users: map<Id, User>, books: map<Id, Book>, loans: map<Id, Loan>, r: UserLoanRow) {
    && Joined(users, books, loans, r.id) && r.loan == loans[r.id] && r.nama == users[r.loan.userId].nama
    && r.judul == books[r.loan.bukuId].judul && r.pengarang == books[r.loan.bukuId].pengarang
  }

  /** The loans `GET /peminjaman/user/:user_id` shows. */
  predicate InUserLoans(users: map<Id, User>, books: map<Id, Book>, loans: map<Id, Loan>, userId: Id, id: Id) {
    Joined(users, books, loans, id) && loans[id].userId == userId
  }

  function LoanRowOf(users: map<Id, User>, books: map<Id, Book>, loans: map<Id, Loan>, id: Id): (r: LoanRow)
    requires Joined(users, books, loans, id)
    ensures r.id == id && IsLoanRow(users, books, loans, r)
  {
    LoanRow(id, loans[id], users[loans[id].userId].nama, books[loans[id].bukuId].judul)
  }

  function UserLoanRowOf(users: map<Id, User>, books: map<Id, Book>, loans: map<Id, Loan>, id: Id): (r: UserLoanRow)
    requires Joined(users, books, loans, id)
    ensures r.id == id && IsUserLoanRow(users, books, loans, r)
  {
    var l := loans[id];
    UserLoanRow(id, l, users[l.userId].nama, books[l.bukuId].judul, books[l.bukuId].pengarang)
  }

  /** `GET /peminjaman`: every joined loan, newest id first. */
  function AllLoans(users: map<Id, User>, books: map<Id, Book>, loans: map<Id, Loan>, n: int): (rows: seq<LoanRow>)
    requires KeysBelow(loans, n)
    ensures forall i :: 0 <= i < |rows| ==> IsLoanRow(users, books, loans, rows[i])
    ensures forall id :: Joined(users, books, loans, id) ==> exists i :: 0 <= i < |rows| && rows[i].id == id
    ensures forall i, j :: 0 <= i < j < |rows| ==> rows[i].id > rows[j].id
  {
    var ids := Select(n, id => Joined(users, books, loans, id));
    var rows := seq(|ids|, i requires 0 <= i < |ids| => LoanRowOf(users, books, loans, ids[i]));
    assert forall i :: 0 <= i < |ids| ==> rows[i].id == ids[i];
    assert forall id :: Joined(users, books, loans, id) ==> id in ids;
    rows
  }

  /** `GET /peminjaman/user/:user_id`: the joined loans of one user, newest id first. */
  function LoansOfUser(users: map<Id, User>, books: map<Id, Book>, loans: map<Id, Loan>, userId: Id, n: int)
    : (rows: seq<UserLoanRow>)
    requires KeysBelow(loans, n)
    ensures forall i :: 0 <= i < |rows| ==> IsUserLoanRow(users, books, loans, rows[i]) && rows[i].loan.userId == userId
    ensures forall id :: InUserLoans(users, books, loans, userId, id) ==> exists i :: 0 <= i < |rows| && rows[i].id == id
    ensures forall i, j :: 0 <= i < j < |rows| ==> rows[i].id > rows[j].id
  {
    var ids := Select(n, id => InUserLoans(users, books, loans, userId, id));
    var rows := seq(|ids|, i requires 0 <= i < |ids| => UserLoanRowOf(users, books, loans, ids[i]));
    assert forall i :: 0 <= i < |ids| ==> rows[i].id == ids[i];
    assert forall id :: InUserLoans(users, books, loans, userId, id) ==> id in ids;
    rows
  }
}
