/**
 * The pure part of the user routes (backend/routes/user.js): the login role
 * rule and reply, the profile statistics, the unpaid-fine total and the
 * borrowing history.
 */
module Users {
  import opened Records
  import opened Listing

  // ---------------------------------------------------------------- login

  /** The role a login reports: the stored role if truthy, otherwise derived from the username. */
  function LoginRole(stored: Option<string>, username: string): (role: string)
    ensures TextGiven(stored) ==> role == stored.value
    ensures !TextGiven(stored) ==> (role == "admin" <==> username == "admin")
    ensures !TextGiven(stored) ==> (role == "member" <==> username != "admin")
  {
    if TextGiven(stored) then stored.value
    else if username == "admin" then "admin" else "member"
  }

  /** The user with a given username among the ids below `n` (`... WHERE username = ? LIMIT 1`). */
  function FindByUsername(users: map<Id, User>, name: string, n: int): (r: Option<Id>)
    decreases n
    ensures r.Some? ==> 0 <= r.value < n && r.value in users && users[r.value].username == name
    ensures r.None? ==> forall id :: 0 <= id < n && id in users ==> users[id].username != name
  {
    if n <= 0 then None
    else if n - 1 in users && users[n - 1].username == name then Some(n - 1)
    else FindByUsername(users, name, n - 1)
  }

  /**
   * `POST /user/login`. Matching a password against its bcrypt hash is the
   * parameter `matches`.
   */
  function Login(users: map<Id, User>, n: int, username: Option<string>, password: Option<string>,
                 matches: (string, string) -> bool): (r: Result<LoginData>)
    requires KeysBelow(users, n)
    ensures !(TextGiven(username) && TextGiven(password)) ==> r == Err(400, "Username dan password harus diisi")
    ensures TextGiven(username) && TextGiven(password) && (forall id :: id in users ==> users[id].username != username.value)
      ==> r == Err(401, "Username tidak ditemukan")
    ensures r.Ok? ==>
      && TextGiven(username) && TextGiven(password)
      && r.value.id in users
      && var u := users[r.value.id];
      && u.username == username.value && matches(password.value, u.password)
      && r.value == LoginData(r.value.id, u.nama, u.nim, u.username, LoginRole(u.role, u.username))
    ensures r == Err(401, "Password salah") ==>
      exists id :: id in users && users[id].username == username.value && !matches(password.value, users[id].password)
    ensures r.Ok? || r == Err(400, "Username dan password harus diisi") || r == Err(401, "Username tidak ditemukan")
         || r == Err(401, "Password salah")
    ensures r == Err(401, "Username tidak ditemukan") ==>
      TextGiven(username) && TextGiven(password) && forall id :: id in users ==> users[id].username != username.value
    ensures TextGiven(username) && TextGiven(password) && FindByUsername(users, username.value, n).Some? ==>
      && (r.Ok? <==> matches(password.value, users[FindByUsername(users, username.value, n).value].password))
      && (!r.Ok? ==> r == Err(401, "Password salah"))
      && (r.Ok? ==> r.value.id == FindByUsername(users, username.value, n).value)
  {
    if !(TextGiven(username) && TextGiven(password)) then Err(400, "Username dan password harus diisi")
    else match FindByUsername(users, username.value, n)
      case None => Err(401, "Username tidak ditemukan")
      case Some(id) =>
        var u := users[id];
        if !matches(password.value, u.password) then Err(401, "Password salah")
        else Ok(LoginData(id, u.nama, u.nim, u.username, LoginRole(u.role, u.username)))
  }

  /** The JSON body of a login reply: `{message, data}` on success, `{error}` otherwise. */
  datatype LoginBody = LoginBody(message: Option<string>, error: Option<string>, user: Option<LoginData>, data: Option<LoginData>)

  /** What the client sees of a login: whether the status was 2xx, and the body. */
  datatype LoginReply = LoginReply(ok: bool, body: LoginBody)

  /** The reply the login route sends for a login result. */
  function LoginReplyOf(r: Result<LoginData>): (reply: LoginReply)
    ensures reply.ok <==> r.Ok?
    ensures reply.body.user.None?
    ensures r.Ok? ==> reply.body.data == Some(r.value)
    ensures r.Err? ==> reply.body.error == Some(r.message) && reply.body.data.None?
    ensures reply.body.message == (if r.Ok? then Some("Login berhasil") else None)
    ensures r.Ok? ==> reply.body.error.None?
  {
    match r
    case Ok(d) => LoginReply(true, LoginBody(Some("Login berhasil"), None, None, Some(d)))
    case Err(_, m) => LoginReply(false, LoginBody(None, Some(m), None, None))
  }

  // ---------------------------------------------------------------- statistics

  /** The loans of a user. */
  function UserLoans(loans: map<Id, Loan>, userId: Id): set<Id> {
    set id | id in loans && loans[id].userId == userId
  }

  /** The loans of a user with a given status. */
  function UserLoansWith(loans: map<Id, Loan>, userId: Id, status: string): set<Id> {
    set id | id in loans && loans[id].userId == userId && loans[id].status == status
  }

  /** The user has a loan still marked `Dipinjam`: what makes deleting them fail. */
  predicate HasActiveLoan(loans: map<Id, Loan>, userId: Id) {
    exists id :: id in loans && loans[id].userId == userId && loans[id].status == StatusDipinjam
  }

  /**
   * `stats` of `GET /user/:id`: `COUNT(*)` and two `SUM(CASE ...)` columns.
   * Over no rows SQL's SUM is NULL, so both sums are None exactly when the user has no loans.
   */
  datatype LoanStats = LoanStats(totalPeminjaman: nat, aktif: Option<nat>, kembali: Option<nat>)

  lemma DisjointPartsFit(a: set<Id>, b: set<Id>, t: set<Id>)
    requires a <= t && b <= t && a !! b
    ensures |a| + |b| <= |t|
  {
    assert |a + b| == |a| + |b|;
    SubsetCardinality(a + b, t);
  }

  lemma SubsetCardinality(s: set<Id>, t: set<Id>)
    requires s <= t
    ensures |s| <= |t|
  {
    assert t == s + (t - s);
    assert s !! (t - s);
  }

  function StatsOf(loans: map<Id, Loan>, userId: Id): (s: LoanStats)
    ensures s.totalPeminjaman == |UserLoans(loans, userId)|
    ensures s.aktif.Some? <==> s.totalPeminjaman > 0
    ensures s.kembali.Some? <==> s.totalPeminjaman > 0
    ensures s.aktif.Some? ==> s.aktif.value == |UserLoansWith(loans, userId, StatusDipinjam)|
    ensures s.kembali.Some? ==> s.kembali.value == |UserLoansWith(loans, userId, StatusKembali)|
    ensures s.aktif.Some? && s.kembali.Some? ==> s.aktif.value + s.kembali.value <= s.totalPeminjaman
  {
    var all := UserLoans(loans, userId);
    var aktif := UserLoansWith(loans, userId, StatusDipinjam);
    var kembali := UserLoansWith(loans, userId, StatusKembali);
    DisjointPartsFit(aktif, kembali, all);
    if |all| == 0 then LoanStats(0, None, None)
    else LoanStats(|all|, Some(|aktif|), Some(|kembali|))
  }

  /** The delete guard and the statistics agree: a user has an active loan iff `aktif` is positive. */
  lemma ActiveLoanShowsInStats(loans: map<Id, Loan>, userId: Id)
    ensures HasActiveLoan(loans, userId) <==> (StatsOf(loans, userId).aktif.Some? && StatsOf(loans, userId).aktif.value > 0)
  {
    var aktif := UserLoansWith(loans, userId, StatusDipinjam);
    if HasActiveLoan(loans, userId) {
      var id :| id in loans && loans[id].userId == userId && loans[id].status == StatusDipinjam;
      assert id in aktif && id in UserLoans(loans, userId);
    } else {
      assert forall id :: id !in aktif;
      assert aktif == {};
    }
  }

  /** A successful borrow adds one loan to the borrower's total and to `aktif`, and none to `kembali`. */
  lemma BorrowCountsAsActive(loans: map<Id, Loan>, id: Id, loan: Loan)
    requires id !in loans && loan.status == StatusDipinjam
    ensures |UserLoans(loans[id := loan], loan.userId)| == |UserLoans(loans, loan.userId)| + 1
    ensures |UserLoansWith(loans[id := loan], loan.userId, StatusDipinjam)|
         == |UserLoansWith(loans, loan.userId, StatusDipinjam)| + 1
    ensures UserLoansWith(loans[id := loan], loan.userId, StatusKembali) == UserLoansWith(loans, loan.userId, StatusKembali)
  {
    var u, after := loan.userId, loans[id := loan];
    var all, aktif := UserLoans(loans, u), UserLoansWith(loans, u, StatusDipinjam);
    assert UserLoans(after, u) == all + {id} by {
      forall k ensures k in UserLoans(after, u) <==> k in all + {id} {
        if k != id { assert k in after <==> k in loans; }
      }
    }
    assert UserLoansWith(after, u, StatusDipinjam) == aktif + {id} by {
      forall k ensures k in UserLoansWith(after, u, StatusDipinjam) <==> k in aktif + {id} {
        if k != id { assert k in after <==> k in loans; }
      }
    }
    assert UserLoansWith(after, u, StatusKembali) == UserLoansWith(loans, u, StatusKembali) by {
      forall k ensures k in UserLoansWith(after, u, StatusKembali) <==> k in UserLoansWith(loans, u, StatusKembali) {
        if k != id { assert k in after <==> k in loans; }
      }
    }
  }

  /** Returning a `Dipinjam` loan moves it from the borrower's `aktif` to `kembali`; the total stays. */
  lemma ReturnMovesToKembali(loans: map<Id, Loan>, id: Id)
    requires id in loans && loans[id].status == StatusDipinjam
    ensures var after, u := loans[id := loans[id].(status := StatusKembali)], loans[id].userId;
      && UserLoans(after, u) == UserLoans(loans, u)
      && |UserLoansWith(after, u, StatusDipinjam)| + 1 == |UserLoansWith(loans, u, StatusDipinjam)|
      && |UserLoansWith(after, u, StatusKembali)| == |UserLoansWith(loans, u, StatusKembali)| + 1
  {
    var after, u := loans[id := loans[id].(status := StatusKembali)], loans[id].userId;
    assert UserLoans(after, u) == UserLoans(loans, u);
    assert UserLoansWith(loans, u, StatusDipinjam) == UserLoansWith(after, u, StatusDipinjam) + {id};
    assert UserLoansWith(after, u, StatusKembali) == UserLoansWith(loans, u, StatusKembali) + {id};
  }

  // ---------------------------------------------------------------- unpaid fines

  /** What fine `id` adds to the user's `total_denda`: its amount if it is unpaid and its loan is theirs. */
  function UnpaidCharge(fines: map<Id, Fine>, loans: map<Id, Loan>, userId: Id, id: Id): int {
    if id in fines && fines[id].status == FineUnpaid && fines[id].peminjamanId in loans
       && loans[fines[id].peminjamanId].userId == userId
    then fines[id].nominal else 0
  }

  /** `SUM(nominal)` over the user's unpaid fines with id below `n`. */
  function UnpaidTotal(fines: map<Id, Fine>, loans: map<Id, Loan>, userId: Id, n: int): (r: int)
    decreases n
    ensures (forall id :: 0 <= id < n ==> UnpaidCharge(fines, loans, userId, id) >= 0) ==> r >= 0
  {
    if n <= 0 then 0 else UnpaidTotal(fines, loans, userId, n - 1) + UnpaidCharge(fines, loans, userId, n - 1)
  }

  /** With no unpaid fine on any of the user's loans the total is 0 (the `|| 0` of a NULL sum). */
  lemma {:induction false} NoUnpaidFineMeansZero(fines: map<Id, Fine>, loans: map<Id, Loan>, userId: Id, n: int)
    requires forall id :: (id in fines && fines[id].status == FineUnpaid && fines[id].peminjamanId in loans
      ==> loans[fines[id].peminjamanId].userId != userId)
    ensures UnpaidTotal(fines, loans, userId, n) == 0
    decreases n
  {
    if n > 0 {
      NoUnpaidFineMeansZero(fines, loans, userId, n - 1);
    }
  }

  /** Writing fine `k` leaves the total over the ids below `k` alone. */
  lemma {:induction false} UnpaidTotalBelowWrite(fines: map<Id, Fine>, loans: map<Id, Loan>, userId: Id, n: int, k: Id, f: Fine)
    requires n <= k
    ensures UnpaidTotal(fines[k := f], loans, userId, n) == UnpaidTotal(fines, loans, userId, n)
    decreases n
  {
    if n > 0 {
      UnpaidTotalBelowWrite(fines, loans, userId, n - 1, k, f);
    }
  }

  /** Writing fine `k` changes the total by exactly the change of that fine's own charge. */
  lemma {:induction false} UnpaidTotalAfterWrite(fines: map<Id, Fine>, loans: map<Id, Loan>, userId: Id, n: int, k: Id, f: Fine)
    requires 0 <= k < n
    ensures UnpaidTotal(fines[k := f], loans, userId, n)
         == UnpaidTotal(fines, loans, userId, n) - UnpaidCharge(fines, loans, userId, k)
            + UnpaidCharge(fines[k := f], loans, userId, k)
    decreases n
  {
    if n - 1 == k {
      UnpaidTotalBelowWrite(fines, loans, userId, k, k, f);
    } else {
      UnpaidTotalAfterWrite(fines, loans, userId, n - 1, k, f);
    }
  }

  /**
   * Marking an unpaid fine paid lowers its borrower's `total_denda` by exactly
   * its amount and leaves every other user's total as it was.
   */
  lemma PayLowersUnpaidTotal(fines: map<Id, Fine>, loans: map<Id, Loan>, n: int, k: Id, userId: Id)
    requires 0 <= k < n && k in fines && fines[k].status == FineUnpaid && fines[k].peminjamanId in loans
    ensures UnpaidTotal(fines[k := fines[k].(status := FinePaid)], loans, userId, n)
         == UnpaidTotal(fines, loans, userId, n)
            - (if loans[fines[k].peminjamanId].userId == userId then fines[k].nominal else 0)
  {
    UnpaidTotalAfterWrite(fines, loans, userId, n, k, fines[k].(status := FinePaid));
  }

  /**
   * Inserting fine `k` with id `n` (the next insert id) raises the total of
   * the loan's borrower by its amount if it is unpaid, and no one else's.
   */
  lemma NewFineRaisesUnpaidTotal(fines: map<Id, Fine>, loans: map<Id, Loan>, n: int, f: Fine, userId: Id)
    requires 0 <= n && n !in fines && f.peminjamanId in loans
    ensures UnpaidTotal(fines[n := f], loans, userId, n + 1)
         == UnpaidTotal(fines, loans, userId, n)
            + (if f.status == FineUnpaid && loans[f.peminjamanId].userId == userId then f.nominal else 0)
  {
    UnpaidTotalBelowWrite(fines, loans, userId, n, n, f);
  }

  // ---------------------------------------------------------------- history

  /** `COALESCE(SUM(d.nominal), 0)` over the fines of one loan with id below `n`, whatever their status. */
  function LoanFineTotal(fines: map<Id, Fine>, loanId: Id, n: int): (r: int)
    decreases n
    ensures (forall id :: 0 <= id < n && id in fines && fines[id].peminjamanId == loanId ==> fines[id].nominal >= 0) ==> r >= 0
  {
    if n <= 0 then 0
    else LoanFineTotal(fines, loanId, n - 1)
         + (if n - 1 in fines && fines[n - 1].peminjamanId == loanId then fines[n - 1].nominal else 0)
  }

  /** A loan with no fines shows 0. */
  lemma {:induction false} LoanWithoutFinesShowsZero(fines: map<Id, Fine>, loanId: Id, n: int)
    requires forall id :: id in fines ==> fines[id].peminjamanId != loanId
    ensures LoanFineTotal(fines, loanId, n) == 0
    decreases n
  {
    if n > 0 {
      LoanWithoutFinesShowsZero(fines, loanId, n - 1);
    }
  }

  /**
   * A write to a fine that keeps its loan and amount (paying it, or any
   * status or payment-field update) leaves every loan's history total alone.
   */
  lemma {:induction false} FineStatusIgnoredInHistory(fines: map<Id, Fine>, loanId: Id, n: int, k: Id, f: Fine)
    requires k in fines && f.peminjamanId == fines[k].peminjamanId && f.nominal == fines[k].nominal
    ensures LoanFineTotal(fines[k := f], loanId, n) == LoanFineTotal(fines, loanId, n)
    decreases n
  {
    if n > 0 {
      FineStatusIgnoredInHistory(fines, loanId, n - 1, k, f);
    }
  }

  /** A row of `GET /user/:id/riwayat`. */
  datatype HistoryRow = HistoryRow(
    id: Id,
    tglPinjam: Date,
    tglKembali: Date,
    status: string,
    judul: string,
    pengarang: string,
    isbn: string,
    hariTerlambat: int,
    denda: int)

  /** The loans the history shows: the user's loans whose book still exists (inner join on `buku`). */
  predicate InHistory(books: map<Id, Book>, loans: map<Id, Loan>, userId: Id, id: Id) {
    id in loans && loans[id].userId == userId && loans[id].bukuId in books
  }

  /** One history row; `DATEDIFF(CURDATE(), tgl_kembali)` with today's day number `today`. */
  function HistoryRowOf(books: map<Id, Book>, loans: map<Id, Loan>, fines: map<Id, Fine>, nFines: int, today: Date, id: Id)
    : (r: HistoryRow)
    requires id in loans && loans[id].bukuId in books
    ensures r.id == id
  {
    var l := loans[id];
    var b := books[l.bukuId];
    HistoryRow(id, l.tglPinjam, l.tglKembali, l.status, b.judul, b.pengarang, b.isbn,
               today - l.tglKembali, LoanFineTotal(fines, id, nFines))
  }

  /** The history rows in id order, newest first (one row per loan: `GROUP BY p.id`). */
  function HistoryById(books: map<Id, Book>, loans: map<Id, Loan>, fines: map<Id, Fine>,
                       userId: Id, nLoans: int, nFines: int, today: Date): (rows: seq<HistoryRow>)
    requires KeysBelow(loans, nLoans) && KeysBelow(fines, nFines)
    ensures forall i :: 0 <= i < |rows| ==>
      InHistory(books, loans, userId, rows[i].id) && rows[i] == HistoryRowOf(books, loans, fines, nFines, today, rows[i].id)
    ensures forall id :: InHistory(books, loans, userId, id) ==> exists i :: 0 <= i < |rows| && rows[i].id == id
    ensures forall i, j :: 0 <= i < j < |rows| ==> rows[i].id > rows[j].id
  {
    var ids := Select(nLoans, id => InHistory(books, loans, userId, id));
    var rows := HistoryRowsOf(books, loans, fines, nFines, today, ids);
    assert forall id :: InHistory(books, loans, userId, id) ==> id in ids;
    rows
  }

  /** The history rows for the selected loan ids, in the order given. */
  function HistoryRowsOf(books: map<Id, Book>, loans: map<Id, Loan>, fines: map<Id, Fine>,
                         nFines: int, today: Date, ids: seq<Id>): (rows: seq<HistoryRow>)
    requires forall i :: 0 <= i < |ids| ==> ids[i] in loans && loans[ids[i]].bukuId in books
    ensures |rows| == |ids|
    ensures forall i :: 0 <= i < |ids| ==> rows[i].id == ids[i] && rows[i] == HistoryRowOf(books, loans, fines, nFines, today, ids[i])
  {
    seq(|ids|, i requires 0 <= i < |ids| => HistoryRowOf(books, loans, fines, nFines, today, ids[i]))
  }

  /** Newest borrow date first. */
  predicate SortedByPinjam(rows: seq<HistoryRow>) {
    forall i, j :: 0 <= i < j < |rows| ==> rows[i].tglPinjam >= rows[j].tglPinjam
  }

  /** A row no older than the head of a sorted sequence can go in front of it. */
  lemma ConsSorted(x: HistoryRow, rows: seq<HistoryRow>)
    requires SortedByPinjam(rows) && (rows == [] || x.tglPinjam >= rows[0].tglPinjam)
    ensures SortedByPinjam([x] + rows)
  {
    forall i, j | 0 <= i < j < |[x] + rows|
      ensures ([x] + rows)[i].tglPinjam >= ([x] + rows)[j].tglPinjam
    {
      if i == 0 && j > 1 {
        assert rows[0].tglPinjam >= rows[j - 1].tglPinjam;
      }
    }
  }

  function InsertByPinjam(x: HistoryRow, rows: seq<HistoryRow>): (r: seq<HistoryRow>)
    requires SortedByPinjam(rows)
    ensures SortedByPinjam(r)
    ensures multiset(r) == multiset(rows) + multiset{x}
    ensures |r| == |rows| + 1 && (r[0] == x || (rows != [] && r[0] == rows[0]))
  {
    if rows == [] || x.tglPinjam >= rows[0].tglPinjam then
      ConsSorted(x, rows);
      [x] + rows
    else
      assert rows == [rows[0]] + rows[1..];
      var rest := InsertByPinjam(x, rows[1..]);
      ConsSorted(rows[0], rest);
      [rows[0]] + rest
  }

  /** `ORDER BY p.tgl_pinjam DESC`, keeping the given order among equal dates. */
  function SortByPinjam(rows: seq<HistoryRow>): (r: seq<HistoryRow>)
    ensures SortedByPinjam(r)
    ensures multiset(r) == multiset(rows)
  {
    if rows == [] then []
    else
      assert rows == [rows[0]] + rows[1..];
      InsertByPinjam(rows[0], SortByPinjam(rows[1..]))
  }

  /** `GET /user/:id/riwayat`: the user's history, newest borrow date first. */
  function Riwayat(books: map<Id, Book>, loans: map<Id, Loan>, fines: map<Id, Fine>,
                   userId: Id, nLoans: int, nFines: int, today: Date): (rows: seq<HistoryRow>)
    requires KeysBelow(loans, nLoans) && KeysBelow(fines, nFines)
    ensures SortedByPinjam(rows)
    ensures multiset(rows) == multiset(HistoryById(books, loans, fines, userId, nLoans, nFines, today))
    ensures forall row :: row in rows <==> row in HistoryById(books, loans, fines, userId, nLoans, nFines, today)
  {
    var byId := HistoryById(books, loans, fines, userId, nLoans, nFines, today);
    var rows := SortByPinjam(byId);
    assert forall y :: y in rows <==> y in byId by {
      forall y ensures y in rows <==> y in byId {
        assert y in rows <==> y in multiset(rows);
        assert y in byId <==> y in multiset(byId);
      }
    }
    rows
  }

  // ---------------------------------------------------------------- user list

  /** A row of `GET /user`: the public columns of a user (timestamps left out); the password hash is not among them. */
  datatype UserSummary = UserSummary(id: Id, nama: string, nim: string, username: string)

  /** `GET /user`: every user. The query has no `ORDER BY`; the model lists newest id first. */
  function UserList(users: map<Id, User>, n: int): (rows: seq<UserSummary>)
    requires KeysBelow(users, n)
    ensures forall i :: 0 <= i < |rows| ==>
      rows[i].id in users && rows[i] == UserSummary(rows[i].id, users[rows[i].id].nama, users[rows[i].id].nim, users[rows[i].id].username)
    ensures forall id :: id in users ==> exists i :: 0 <= i < |rows| && rows[i].id == id
    ensures forall i, j :: 0 <= i < j < |rows| ==> rows[i].id > rows[j].id
  {
    var ids := Select(n, id => id in users);
    var rows := seq(|ids|, i requires 0 <= i < |ids| => UserSummary(ids[i], users[ids[i]].nama, users[ids[i]].nim, users[ids[i]].username));
    assert forall i :: 0 <= i < |ids| ==> rows[i].id == ids[i];
    assert forall id :: id in users ==> id in ids;
    rows
  }

  // ---------------------------------------------------------------- profile

  /** The reply of `GET /user/:id` (timestamps left out). */
  datatype Profile = Profile(id: Id, nama: string, nim: string, username: string, stats: LoanStats, totalDenda: int)

  function ProfileOf(users: map<Id, User>, loans: map<Id, Loan>, fines: map<Id, Fine>, nFines: int, id: Id)
    : (r: Result<Profile>)
    requires KeysBelow(fines, nFines)
    ensures id !in users <==> r == Err(404, "User tidak ditemukan")
    ensures r.Ok? ==>
      && r.value.id == id && r.value.nama == users[id].nama && r.value.nim == users[id].nim
      && r.value.username == users[id].username
      && r.value.stats == StatsOf(loans, id) && r.value.totalDenda == UnpaidTotal(fines, loans, id, nFines)
  {
    if id !in users then Err(404, "User tidak ditemukan")
    else
      var u := users[id];
      Ok(Profile(id, u.nama, u.nim, u.username, StatsOf(loans, id), UnpaidTotal(fines, loans, id, nFines)))
  }
}
