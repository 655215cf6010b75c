/**
 * The library's database as the route handlers change it: the four tables and
 * their AUTO_INCREMENT counters, with one method per handler that writes
 * (backend/routes/peminjaman.js, denda.js, user.js, buku.js). A handler runs
 * its checks in the order of the source, answers the first error it meets,
 * and otherwise performs its INSERT, UPDATE or DELETE.
 */
module Library {
  import opened Records
  import opened Loans
  import opened Users

  /** Every key of `m` is an id handed out by a counter now at `next`. */
  predicate IssuedBelow<T>(m: map<Id, T>, next: Id) {
    forall k :: k in m ==> 1 <= k < next
  }

  /** No two users share a username (register refuses a taken one; nothing else writes usernames). */
  predicate UniqueUsernames(users: map<Id, User>) {
    forall a, b :: a in users && b in users && users[a].username == users[b].username ==> a == b
  }

  /** The four request fields of a borrow are all present and truthy. */
  predicate BorrowComplete(userId: Option<Id>, bukuId: Option<Id>, tglPinjam: Option<Date>, tglKembali: Option<Date>) {
    NumberGiven(userId) && NumberGiven(bukuId) && tglPinjam.Some? && tglKembali.Some?
  }

  /** The four request fields of a registration are all present and non-empty. */
  predicate RegisterComplete(nama: Option<string>, nim: Option<string>, username: Option<string>, password: Option<string>) {
    TextGiven(nama) && TextGiven(nim) && TextGiven(username) && TextGiven(password)
  }

  /** The fields the add-book route insists on: non-empty title, author and ISBN, and a stock that is not undefined. */
  predicate BookComplete(judul: Option<string>, pengarang: Option<string>, isbn: Option<string>, stok: Option<int>) {
    TextGiven(judul) && TextGiven(pengarang) && TextGiven(isbn) && stok.Some?
  }

  class Library {
    var users: map<Id, User>
    var books: map<Id, Book>
    var loans: map<Id, Loan>
    var fines: map<Id, Fine>
    var nextUserId: Id
    var nextBookId: Id
    var nextLoanId: Id
    var nextFineId: Id

    /**
     * Keys come from the counters; every fine points at a loan (loans are
     * never deleted); usernames are unique.
     */
    ghost predicate Valid()
      reads this
    {
      && 1 <= nextUserId && 1 <= nextBookId && 1 <= nextLoanId && 1 <= nextFineId
      && IssuedBelow(users, nextUserId) && IssuedBelow(books, nextBookId)
      && IssuedBelow(loans, nextLoanId) && IssuedBelow(fines, nextFineId)
      && (forall k :: k in fines ==> fines[k].peminjamanId in loans)
      && UniqueUsernames(users)
    }

    /** The `total_denda` of a user's profile. */
    function TotalDenda(userId: Id): int
      reads this
    {
      UnpaidTotal(fines, loans, userId, nextFineId)
    }

    /** An empty database. */
    constructor ()
      ensures Valid()
      ensures users == map[] && books == map[] && loans == map[] && fines == map[]
      ensures nextUserId == 1 && nextBookId == 1 && nextLoanId == 1 && nextFineId == 1
    {
      users, books, loans, fines := map[], map[], map[], map[];
      nextUserId, nextBookId, nextLoanId, nextFineId := 1, 1, 1, 1;
    }

    // ------------------------------------------------------------ loans

    /**
     * `POST /peminjaman`. The answer on success is the new loan's id; every
     * book's stock plus its `Dipinjam` loans is what it was.
     */
    method Borrow(userId: Option<Id>, bukuId: Option<Id>, tglPinjam: Option<Date>, tglKembali: Option<Date>)
      returns (r: Result<Id>)
      requires Valid()
      modifies this`loans, this`books, this`nextLoanId
      ensures Valid()
      ensures !BorrowComplete(userId, bukuId, tglPinjam, tglKembali) ==> r == Err(400, "Data tidak lengkap")
      ensures BorrowComplete(userId, bukuId, tglPinjam, tglKembali) && userId.value !in users
        ==> r == Err(404, "User tidak ditemukan")
      ensures BorrowComplete(userId, bukuId, tglPinjam, tglKembali) && userId.value in users && bukuId.value !in old(books)
        ==> r == Err(404, "Buku tidak ditemukan")
      ensures BorrowComplete(userId, bukuId, tglPinjam, tglKembali) && userId.value in users && bukuId.value in old(books)
        && old(books)[bukuId.value].stok <= 0
        ==> r == Err(400, "Stok buku habis")
      ensures r.Ok? <==> (BorrowComplete(userId, bukuId, tglPinjam, tglKembali) && userId.value in users
                          && bukuId.value in old(books) && old(books)[bukuId.value].stok > 0)
      ensures r.Err? ==> loans == old(loans) && books == old(books) && nextLoanId == old(nextLoanId)
      ensures r.Ok? ==>
        && BorrowComplete(userId, bukuId, tglPinjam, tglKembali) && userId.value in users
        && bukuId.value in old(books) && old(books)[bukuId.value].stok > 0
        && r.value == old(nextLoanId) && r.value !in old(loans) && nextLoanId == old(nextLoanId) + 1
        && loans == old(loans)[r.value := Loan(userId.value, bukuId.value, tglPinjam.value, tglKembali.value, StatusDipinjam)]
        && books == Restock(old(books), bukuId.value, -1)
      ensures SameHoldings(old(books), old(loans), books, loans)
      ensures old(StocksNonNegative(books)) ==> StocksNonNegative(books)
    {
      if !BorrowComplete(userId, bukuId, tglPinjam, tglKembali) {
        return Err(400, "Data tidak lengkap");
      }
      if userId.value !in users {
        return Err(404, "User tidak ditemukan");
      }
      if bukuId.value !in books {
        return Err(404, "Buku tidak ditemukan");
      }
      if books[bukuId.value].stok <= 0 {
        return Err(400, "Stok buku habis");
      }
      var id := nextLoanId;
      var loan := Loan(userId.value, bukuId.value, tglPinjam.value, tglKembali.value, StatusDipinjam);
      forall c ensures Holdings(Restock(books, loan.bukuId, -1), loans[id := loan], c) == Holdings(books, loans, c) {
        BorrowKeepsHoldings(books, loans, id, loan, c);
      }
      loans := loans[id := loan];
      books := Restock(books, loan.bukuId, -1);
      nextLoanId := nextLoanId + 1;
      r := Ok(id);
    }

    /**
     * `PUT /peminjaman/:id/return`. The loan's status is not looked at: a
     * loan that is already `Kembali` puts one more copy on the shelf.
     */
    method ReturnBook(id: Id) returns (r: Result<string>)
      requires Valid()
      modifies this`loans, this`books
      ensures Valid()
      ensures id !in old(loans) ==> r == Err(404, "Peminjaman tidak ditemukan") && loans == old(loans) && books == old(books)
      ensures id in old(loans) ==>
        && r == Ok("Buku berhasil dikembalikan")
        && loans == old(loans)[id := old(loans)[id].(status := StatusKembali)]
        && books == Restock(old(books), old(loans)[id].bukuId, 1)
      ensures id in old(loans) && old(loans)[id].status == StatusDipinjam && old(loans)[id].bukuId in old(books)
        ==> SameHoldings(old(books), old(loans), books, loans)
      ensures id in old(loans) && old(loans)[id].status != StatusDipinjam && old(loans)[id].bukuId in old(books)
        ==> Holdings(books, loans, old(loans)[id].bukuId) == old(Holdings(books, loans, loans[id].bukuId)) + 1
    {
      if id !in loans {
        return Err(404, "Peminjaman tidak ditemukan");
      }
      var b := loans[id].bukuId;
      if loans[id].status == StatusDipinjam && b in books {
        forall c ensures Holdings(Restock(books, b, 1), loans[id := loans[id].(status := StatusKembali)], c)
                      == Holdings(books, loans, c) {
          ReturnKeepsHoldings(books, loans, id, c);
        }
      } else if b in books {
        ReturnOfClosedLoanAddsCopy(books, loans, id);
      }
      loans := loans[id := loans[id].(status := StatusKembali)];
      books := Restock(books, b, 1);
      r := Ok("Buku berhasil dikembalikan");
    }

    // ------------------------------------------------------------ fines

    /**
     * `POST /denda`. A new fine is unpaid and has no payment details; it
     * raises its borrower's `total_denda` by its amount.
     */
    method CreateFine(peminjamanId: Option<Id>, nominal: Option<int>, alasan: Option<string>) returns (r: Result<Id>)
      requires Valid()
      modifies this`fines, this`nextFineId
      ensures Valid()
      ensures !(NumberGiven(peminjamanId) && NumberGiven(nominal) && TextGiven(alasan)) ==> r == Err(400, "Data tidak lengkap")
      ensures NumberGiven(peminjamanId) && NumberGiven(nominal) && TextGiven(alasan) && peminjamanId.value !in loans
        ==> r == Err(404, "Peminjaman tidak ditemukan")
      ensures r.Ok? <==> (NumberGiven(peminjamanId) && NumberGiven(nominal) && TextGiven(alasan) && peminjamanId.value in loans)
      ensures r.Err? ==> fines == old(fines) && nextFineId == old(nextFineId)
      ensures r.Ok? ==>
        && NumberGiven(peminjamanId) && NumberGiven(nominal) && TextGiven(alasan) && peminjamanId.value in loans
        && r.value == old(nextFineId) && r.value !in old(fines) && nextFineId == old(nextFineId) + 1
        && fines == old(fines)[r.value := Fine(peminjamanId.value, nominal.value, alasan.value, FineUnpaid, None, None, None)]
      ensures r.Ok? ==> forall u :: TotalDenda(u) == old(TotalDenda(u)) + (if loans[peminjamanId.value].userId == u then nominal.value else 0)
    {
      if !(NumberGiven(peminjamanId) && NumberGiven(nominal) && TextGiven(alasan)) {
        return Err(400, "Data tidak lengkap");
      }
      if peminjamanId.value !in loans {
        return Err(404, "Peminjaman tidak ditemukan");
      }
      var id := nextFineId;
      var f := Fine(peminjamanId.value, nominal.value, alasan.value, FineUnpaid, None, None, None);
      forall u ensures UnpaidTotal(fines[id := f], loans, u, id + 1)
                    == UnpaidTotal(fines, loans, u, id) + (if loans[f.peminjamanId].userId == u then f.nominal else 0) {
        NewFineRaisesUnpaidTotal(fines, loans, id, f, u);
      }
      fines := fines[id := f];
      nextFineId := nextFineId + 1;
      r := Ok(id);
    }

    /**
     * `PUT /denda/:id/bayar`. Only that fine's status changes; paying a paid
     * fine changes nothing, and paying an unpaid one lowers its borrower's
     * `total_denda` by its amount.
     */
    method PayFine(id: Id) returns (r: Result<string>)
      requires Valid()
      modifies this`fines
      ensures Valid()
      ensures id !in old(fines) ==> r == Err(404, "Denda tidak ditemukan") && fines == old(fines)
      ensures id in old(fines) ==> r == Ok("Denda berhasil dibayar") && fines == old(fines)[id := old(fines)[id].(status := FinePaid)]
      ensures id in old(fines) && old(fines)[id].status == FinePaid ==> fines == old(fines)
      ensures id in old(fines) && old(fines)[id].status == FineUnpaid ==>
        forall u :: TotalDenda(u) == old(TotalDenda(u)) - (if loans[old(fines)[id].peminjamanId].userId == u then old(fines)[id].nominal else 0)
    {
      if id !in fines {
        return Err(404, "Denda tidak ditemukan");
      }
      if fines[id].status == FineUnpaid {
        forall u ensures UnpaidTotal(fines[id := fines[id].(status := FinePaid)], loans, u, nextFineId)
                      == UnpaidTotal(fines, loans, u, nextFineId) - (if loans[fines[id].peminjamanId].userId == u then fines[id].nominal else 0) {
          PayLowersUnpaidTotal(fines, loans, nextFineId, id, u);
        }
      }
      fines := fines[id := fines[id].(status := FinePaid)];
      r := Ok("Denda berhasil dibayar");
    }

    /**
     * `PUT /denda/:id`. Sets the status to the one given (unpaid when none is
     * given), overwrites the payment method and note with what was sent, and
     * stamps the payment date with `today`. The borrower's `total_denda`
     * changes by exactly the change of this fine's own charge.
     */
    method UpdateFine(id: Id, status: Option<string>, metodeBayar: Option<string>, keteranganBayar: Option<string>, today: Date)
      returns (r: Result<string>)
      requires Valid()
      modifies this`fines
      ensures Valid()
      ensures id !in old(fines) ==> r == Err(404, "Denda tidak ditemukan") && fines == old(fines)
      ensures id in old(fines) ==>
        && r == Ok("Denda berhasil diupdate")
        && fines == old(fines)[id := old(fines)[id].(
             status := if TextGiven(status) then status.value else FineUnpaid,
             metodeBayar := metodeBayar, keteranganBayar := keteranganBayar, tglBayar := Some(today))]
      ensures id in old(fines) ==> forall u ::
        TotalDenda(u) == old(TotalDenda(u)) - old(UnpaidCharge(fines, loans, u, id)) + UnpaidCharge(fines, loans, u, id)
    {
      if id !in fines {
        return Err(404, "Denda tidak ditemukan");
      }
      var f := fines[id].(
        status := if TextGiven(status) then status.value else FineUnpaid,
        metodeBayar := metodeBayar, keteranganBayar := keteranganBayar, tglBayar := Some(today));
      forall u ensures UnpaidTotal(fines[id := f], loans, u, nextFineId)
                    == UnpaidTotal(fines, loans, u, nextFineId) - UnpaidCharge(fines, loans, u, id) + UnpaidCharge(fines[id := f], loans, u, id) {
        UnpaidTotalAfterWrite(fines, loans, u, nextFineId, id, f);
      }
      fines := fines[id := f];
      r := Ok("Denda berhasil diupdate");
    }

    // ------------------------------------------------------------ users

    /**
     * `POST /user/register`. The stored password is `hashed`, the bcrypt
     * hash of `password` computed outside the model; the role column is left
     * null.
     */
    method Register(nama: Option<string>, nim: Option<string>, username: Option<string>, password: Option<string>, hashed: string)
      returns (r: Result<Id>)
      requires Valid()
      modifies this`users, this`nextUserId
      ensures Valid()
      ensures !RegisterComplete(nama, nim, username, password) ==> r == Err(400, "Data tidak lengkap")
      ensures RegisterComplete(nama, nim, username, password)
        ==> ((exists k :: k in old(users) && old(users)[k].username == username.value) <==> r == Err(400, "Username sudah terdaftar"))
      ensures r.Ok? <==> (RegisterComplete(nama, nim, username, password)
                          && !(exists k :: k in old(users) && old(users)[k].username == username.value))
      ensures r.Err? ==> users == old(users) && nextUserId == old(nextUserId)
      ensures r.Ok? ==>
        && RegisterComplete(nama, nim, username, password)
        && r.value == old(nextUserId) && r.value !in old(users) && nextUserId == old(nextUserId) + 1
        && users == old(users)[r.value := User(nama.value, nim.value, username.value, hashed, None)]
    {
      if !RegisterComplete(nama, nim, username, password) {
        return Err(400, "Data tidak lengkap");
      }
      if exists k :: k in users && users[k].username == username.value {
        return Err(400, "Username sudah terdaftar");
      }
      var id := nextUserId;
      users := users[id := User(nama.value, nim.value, username.value, hashed, None)];
      nextUserId := nextUserId + 1;
      r := Ok(id);
    }

    /**
     * `PUT /user/:id`. Only `nama` and `nim` of that user change; a NIM held
     * by another user is refused, the user's own NIM is not. The answer
     * echoes the new `nama` and `nim`.
     */
    method UpdateUser(id: Id, nama: Option<string>, nim: Option<string>) returns (r: Result<(string, string)>)
      requires Valid()
      modifies this`users
      ensures Valid()
      ensures !(TextGiven(nama) && TextGiven(nim)) ==> r == Err(400, "Nama dan NIM harus diisi")
      ensures TextGiven(nama) && TextGiven(nim) && id !in old(users) ==> r == Err(404, "User tidak ditemukan")
      ensures TextGiven(nama) && TextGiven(nim) && id in old(users) ==>
        ((exists k :: k in old(users) && k != id && old(users)[k].nim == nim.value) <==> r == Err(400, "NIM sudah terdaftar user lain"))
      ensures r.Ok? <==> (TextGiven(nama) && TextGiven(nim) && id in old(users)
                          && !(exists k :: k in old(users) && k != id && old(users)[k].nim == nim.value))
      ensures r.Err? ==> users == old(users)
      ensures r.Ok? ==>
        && TextGiven(nama) && TextGiven(nim) && id in old(users)
        && r.value == (nama.value, nim.value)
        && users == old(users)[id := old(users)[id].(nama := nama.value, nim := nim.value)]
    {
      if !(TextGiven(nama) && TextGiven(nim)) {
        return Err(400, "Nama dan NIM harus diisi");
      }
      if id !in users {
        return Err(404, "User tidak ditemukan");
      }
      if exists k :: k in users && k != id && users[k].nim == nim.value {
        return Err(400, "NIM sudah terdaftar user lain");
      }
      users := users[id := users[id].(nama := nama.value, nim := nim.value)];
      r := Ok((nama.value, nim.value));
    }

    /**
     * `DELETE /user/:id`. Id 1 (the admin account) is refused before anything
     * is looked up; then an unknown id; then a user with a `Dipinjam` loan.
     * The user's loans and fines stay.
     */
    method DeleteUser(id: Id) returns (r: Result<string>)
      requires Valid()
      modifies this`users
      ensures Valid()
      ensures id == 1 ==> r == Err(400, "Tidak bisa menghapus akun admin")
      ensures id != 1 && id !in old(users) ==> r == Err(404, "User tidak ditemukan")
      ensures id != 1 && id in old(users) && HasActiveLoan(loans, id)
        ==> r == Err(400, "User masih memiliki peminjaman aktif, tidak bisa dihapus")
      ensures r.Ok? <==> (id != 1 && id in old(users) && !HasActiveLoan(loans, id))
      ensures r.Err? ==> users == old(users)
      ensures r.Ok? ==>
        && id != 1 && id in old(users) && !HasActiveLoan(loans, id)
        && r.value == "User berhasil dihapus" && users == old(users) - {id}
    {
      if id == 1 {
        return Err(400, "Tidak bisa menghapus akun admin");
      }
      if id !in users {
        return Err(404, "User tidak ditemukan");
      }
      if HasActiveLoan(loans, id) {
        return Err(400, "User masih memiliki peminjaman aktif, tidak bisa dihapus");
      }
      users := users - {id};
      r := Ok("User berhasil dihapus");
    }

    // ------------------------------------------------------------ books

    /** `POST /buku`. A stock of 0, or a negative one, is accepted; only an undefined stock is refused. */
    method AddBook(judul: Option<string>, pengarang: Option<string>, penerbit: Option<string>, tahun: Option<int>,
                   isbn: Option<string>, kategori: Option<string>, stok: Option<int>, deskripsi: Option<string>)
      returns (r: Result<Id>)
      requires Valid()
      modifies this`books, this`nextBookId
      ensures Valid()
      ensures !BookComplete(judul, pengarang, isbn, stok) ==> r == Err(400, "Data tidak lengkap")
      ensures BookComplete(judul, pengarang, isbn, stok)
        ==> ((exists k :: k in old(books) && old(books)[k].isbn == isbn.value) <==> r == Err(400, "ISBN sudah terdaftar"))
      ensures r.Ok? <==> (BookComplete(judul, pengarang, isbn, stok)
                          && !(exists k :: k in old(books) && old(books)[k].isbn == isbn.value))
      ensures r.Err? ==> books == old(books) && nextBookId == old(nextBookId)
      ensures r.Ok? ==>
        && BookComplete(judul, pengarang, isbn, stok)
        && r.value == old(nextBookId) && r.value !in old(books) && nextBookId == old(nextBookId) + 1
        && books == old(books)[r.value := Book(judul.value, pengarang.value, penerbit, tahun, isbn.value, kategori, stok.value, deskripsi)]
    {
      if !BookComplete(judul, pengarang, isbn, stok) {
        return Err(400, "Data tidak lengkap");
      }
      if exists k :: k in books && books[k].isbn == isbn.value {
        return Err(400, "ISBN sudah terdaftar");
      }
      var id := nextBookId;
      books := books[id := Book(judul.value, pengarang.value, penerbit, tahun, isbn.value, kategori, stok.value, deskripsi)];
      nextBookId := nextBookId + 1;
      r := Ok(id);
    }

    /** `PUT /buku/:id`. Every column of that book is overwritten; the ISBN is not checked against other books. */
    method UpdateBook(id: Id, b: Book) returns (r: Result<string>)
      requires Valid()
      modifies this`books
      ensures Valid()
      ensures id !in old(books) ==> r == Err(404, "Buku tidak ditemukan") && books == old(books)
      ensures id in old(books) ==> r == Ok("Buku berhasil diupdate") && books == old(books)[id := b]
    {
      if id !in books {
        return Err(404, "Buku tidak ditemukan");
      }
      books := books[id := b];
      r := Ok("Buku berhasil diupdate");
    }

    /** `DELETE /buku/:id`. Loans of the book, active or not, stay. */
    method DeleteBook(id: Id) returns (r: Result<string>)
      requires Valid()
      modifies this`books
      ensures Valid()
      ensures id !in old(books) ==> r == Err(404, "Buku tidak ditemukan") && books == old(books)
      ensures id in old(books) ==> r == Ok("Buku berhasil dihapus") && books == old(books) - {id}
    {
      if id !in books {
        return Err(404, "Buku tidak ditemukan");
      }
      books := books - {id};
      r := Ok("Buku berhasil dihapus");
    }
  }

  // ------------------------------------------------------------ scenarios

  const Ani := User("Ani", "2201001", "ani01", "h1", None)
  const Laskar := Book("Laskar Pelangi", "Andrea Hirata", None, None, "9789793062792", None, 1, None)

  /** Registering one member and adding one single-copy book, through the route handlers. */
  method MemberAndBookLibrary() returns (lib: Library)
    ensures fresh(lib) && lib.Valid()
    ensures lib.users == map[1 := Ani] && lib.books == map[1 := Laskar] && lib.loans == map[] && lib.fines == map[]
    ensures lib.nextUserId == 2 && lib.nextBookId == 2 && lib.nextLoanId == 1 && lib.nextFineId == 1
  {
    lib := new Library();
    var u := lib.Register(Some(Ani.nama), Some(Ani.nim), Some(Ani.username), Some("rahasia123"), Ani.password);
    assert lib.users == map[1 := Ani];
    var b := lib.AddBook(Some(Laskar.judul), Some(Laskar.pengarang), None, None, Some(Laskar.isbn), None, Some(1), None);
  }

  /** The library above after the member borrows the book's only copy. */
  method OneLoanLibrary() returns (lib: Library)
    ensures fresh(lib) && lib.Valid()
    ensures lib.users == map[1 := Ani] && lib.books == map[1 := Laskar.(stok := 0)]
    ensures lib.loans == map[1 := Loan(1, 1, 100, 114, StatusDipinjam)] && lib.fines == map[]
    ensures lib.nextUserId == 2 && lib.nextBookId == 2 && lib.nextLoanId == 2 && lib.nextFineId == 1
  {
    lib := MemberAndBookLibrary();
    var l := lib.Borrow(Some(1), Some(1), Some(100), Some(114));
  }

  /** With the only copy lent out, the next borrow finds no stock and changes nothing. */
  method LastCopyScenario() returns (second: Result<Id>, stok: int, loanCount: nat)
    ensures second == Err(400, "Stok buku habis")
    ensures stok == 0 && loanCount == 1
  {
    var lib := OneLoanLibrary();
    second := lib.Borrow(Some(1), Some(1), Some(101), Some(115));
    stok := lib.books[1].stok;
    loanCount := |lib.loans|;
  }

  /**
   * Returning the same loan twice: both returns succeed, and a book that
   * was added with one copy ends with two on the shelf.
   */
  method DoubleReturnScenario() returns (again: Result<string>, stok: int, holdings: int)
    ensures again == Ok("Buku berhasil dikembalikan")
    ensures stok == 2 && holdings == 2
  {
    var lib := OneLoanLibrary();
    var once := lib.ReturnBook(1);
    again := lib.ReturnBook(1);
    stok := lib.books[1].stok;
    assert ActiveLoansOf(lib.loans, 1) == {};
    holdings := Holdings(lib.books, lib.loans, 1);
  }

  const BumiManusia := Book("Bumi Manusia", "Pramoedya", None, None, "111", None, 2, None)
  const AnakSemuaBangsa := Book("Anak Semua Bangsa", "Pramoedya", None, None, "222", None, 2, None)

  /** Two books with different ISBNs, added through the add route. */
  method TwoBookLibrary() returns (lib: Library)
    ensures fresh(lib) && lib.Valid()
    ensures lib.books == map[1 := BumiManusia, 2 := AnakSemuaBangsa] && lib.nextBookId == 3
  {
    lib := new Library();
    var a := lib.AddBook(Some(BumiManusia.judul), Some(BumiManusia.pengarang), None, None, Some(BumiManusia.isbn), None, Some(2), None);
    assert lib.books == map[1 := BumiManusia];
    var b := lib.AddBook(Some(AnakSemuaBangsa.judul), Some(AnakSemuaBangsa.pengarang), None, None, Some(AnakSemuaBangsa.isbn), None, Some(2), None);
  }

  /**
   * The add route refuses a taken ISBN, but the update route writes one:
   * afterwards two books share an ISBN.
   */
  method DuplicateIsbnScenario() returns (refused: Result<Id>, updated: Result<string>, shared: bool)
    ensures refused == Err(400, "ISBN sudah terdaftar")
    ensures updated == Ok("Buku berhasil diupdate") && shared
  {
    var lib := TwoBookLibrary();
    refused := lib.AddBook(Some("Jejak Langkah"), Some("Pramoedya"), None, None, Some("111"), None, Some(2), None);
    updated := lib.UpdateBook(2, lib.books[2].(isbn := "111"));
    shared := 1 in lib.books && 2 in lib.books && lib.books[1].isbn == lib.books[2].isbn;
  }

  /**
   * Paying a fine twice: both calls succeed, the second changes nothing, and
   * the borrower's `total_denda` drops to 0 after the first.
   */
  method DoublePaymentScenario() returns (before: int, afterOnce: int, second: Result<string>, afterTwice: int)
    ensures before == 5000 && afterOnce == 0
    ensures second == Ok("Denda berhasil dibayar") && afterTwice == 0
  {
    var lib := OneLoanLibrary();
    var f := lib.CreateFine(Some(1), Some(5000), Some("Terlambat"));
    before := lib.TotalDenda(1);
    var once := lib.PayFine(1);
    afterOnce := lib.TotalDenda(1);
    second := lib.PayFine(1);
    afterTwice := lib.TotalDenda(1);
  }
}
