# Library loans and fines: a Dafny model

This project models the state machine behind a small campus library web app: an Express backend over MySQL, plus a browser client. The backend keeps four tables:

- `users`: members and the admin;
- `buku`: books, each with a stock count `stok`;
- `peminjaman`: loans, `Dipinjam` while out and `Kembali` once returned;
- `denda`: fines, `Belum dibayar` (unpaid) or `Sudah dibayar` (paid).

The route handlers in `backend/routes/*.js` read and write these tables.

The model holds the database as one object, `Library.Library`. It keeps one map per table, keyed by id, and the table's AUTO_INCREMENT counter. Every handler that writes is a method on that object:

- it answers `Ok(value)` or `Err(status, message)` with the source's own status codes and messages;
- it runs its checks in the order the source does;
- field-granular `modifies` clauses state which tables it may touch.

The read-only routes are functions over the maps, one module per route file:

- `Loans` for `peminjaman.js`;
- `Fines` for `denda.js`;
- `Users` for `user.js`;
- `Books` for `buku.js`.

The listings' `ORDER BY id DESC` becomes a scan of the ids below the table's counter, largest first (`Listing.Select`). SQL aggregates become recursive sums over fine ids, or set sizes over loan ids. The `Client` module models the decision logic of the browser client `api.js`:

- the registration checks;
- `localStorage` as a class over a string map, with login and logout;
- the history-cache staleness rule;
- the "last sync" label;
- the borrow request the client drafts;
- the history table it draws.

Request fields are `Option` values. The JavaScript truthiness tests `!x` become `NumberGiven` (present and non-zero) and `TextGiven` (present and non-empty). Dates are day numbers, and clock readings in the client are milliseconds. "Today" and "now" are parameters.

The central invariant concerns the **holdings** of a book: its stock plus its loans still marked `Dipinjam`. A borrow preserves it. So does the return of a loan that is still `Dipinjam`, as long as its book is still in the catalogue. Once the book row is deleted, the stock update of a return matches no row. The return handler does not check the loan's status, so a second return puts a copy on the shelf that was never lent out. The model keeps that behaviour: `Loans.ReturnOfClosedLoanAddsCopy` and `Library.DoubleReturnScenario` show the holdings growing by one.

The table definitions are not modelled. The model assumes the tables have:

- no unique index;
- no foreign key;
- no check on `stok`;
- free-text status columns;
- a NULL default for `role`.

Every guarantee above and below holds under that assumption.

The model keeps these behaviours of the code:

- a double return is not rejected;
- a double payment is not rejected;
- no fine is assessed at return time;
- every refusal answers 400, 401 (login only) or 404; no route answers 409.

## Model

| member | source | states |
|---|---|---|
| Library.Library.Borrow | backend/routes/peminjaman.js:10-42 | Checks in order: 400 if a field is missing or falsy, 404 for an unknown user, then 404 for an unknown book, then 400 "Stok buku habis" when stock is at most 0. Ok exactly when all four pass. On error nothing changes. On success exactly one `Dipinjam` loan with the given ids and dates is inserted under the next id, and only that book's stock drops by 1. Every book's holdings are preserved, and non-negative stocks stay non-negative. |
| Library.Library.ReturnBook | backend/routes/peminjaman.js:98-108 | 404 for an unknown loan, with nothing changed. Otherwise, whatever the loan's status, that loan becomes `Kembali` and its book's stock rises by 1. While the loan's book still exists, holdings are preserved when the loan was `Dipinjam` and grow by one when it was not. |
| Library.Library.CreateFine | backend/routes/denda.js:10-26 | 400 when the loan id, the amount or the reason is missing or falsy (so an amount of 0 is refused). 404 for an unknown loan. Ok exactly otherwise. On success exactly one unpaid fine with the given loan, amount and reason is inserted. The borrower's `total_denda` rises by the amount and every other user's total stays. |
| Library.Library.PayFine | backend/routes/denda.js:81-87 | 404 for an unknown fine, with nothing changed. Otherwise only that fine's status becomes `Sudah dibayar`. Paying a paid fine changes nothing, so paying is idempotent. Paying an unpaid fine lowers its borrower's `total_denda` by its amount. |
| Library.Library.UpdateFine | backend/routes/denda.js:99-111 | 404 for an unknown fine. Otherwise that fine alone gets the given status (unpaid when none is given), the given method and note, and today as payment date. Each user's `total_denda` changes by exactly the change in this fine's unpaid charge. |
| Library.Library.Register | backend/routes/user.js:11-30 | 400 for a missing field. For a complete request, 400 "Username sudah terdaftar" exactly when the username is taken. Ok exactly otherwise. On success one user with the given fields, the hash parameter as password and no role is inserted. Usernames stay unique. |
| Library.Library.UpdateUser | backend/routes/user.js:169-193 | 400 without `nama` and `nim`, then 404 for an unknown id. For a known id, 400 exactly when another user holds that NIM; the user's own NIM is allowed. On success only that user's `nama` and `nim` change, and both are echoed. |
| Library.Library.DeleteUser | backend/routes/user.js:244-268 | Id 1 is always refused. Then an unknown id is 404. Then a user with any `Dipinjam` loan is refused. Ok exactly otherwise, and exactly that user is removed. |
| Library.Library.AddBook | backend/routes/buku.js:41-57 | 400 when the title, author or ISBN is missing or the stock is undefined; a stock of 0 or less is accepted. For a complete request, 400 "ISBN sudah terdaftar" exactly when the ISBN is taken. On success exactly one book carrying the given fields is inserted under the next id. |
| Library.Library.UpdateBook | backend/routes/buku.js:77-86 | 404 for an unknown id, with nothing changed. Otherwise every field of that book alone is overwritten. There is no ISBN check. |
| Library.Library.DeleteBook | backend/routes/buku.js:101-108 | 404 for an unknown id, with nothing changed. Otherwise exactly that book is removed. |
| Library.LastCopyScenario | backend/routes/peminjaman.js:30-33 | After the only copy of a book is lent out, a second borrow answers 400 "Stok buku habis"; stock stays 0 and there is still one loan. |
| Library.DoubleReturnScenario | backend/routes/peminjaman.js:98-108 | Returning the same loan twice succeeds both times, and a book added with one copy ends with stock 2 and holdings 2. |
| Library.DuplicateIsbnScenario | backend/routes/buku.js:48-86 | The add route refuses a taken ISBN, but the update route writes it, leaving two books with the same ISBN when `buku.isbn` has no unique index. |
| Library.DoublePaymentScenario | backend/routes/denda.js:81-87 | A 5000 fine brings `total_denda` to 5000. The first payment brings it to 0. The second payment also answers Ok and the total stays 0. |
| Loans.BorrowKeepsHoldings | backend/routes/peminjaman.js:36-42 | Inserting a fresh `Dipinjam` loan and taking one copy of its book off the shelf leaves every book's holdings unchanged. |
| Loans.ReturnKeepsHoldings | backend/routes/peminjaman.js:105-108 | Marking a `Dipinjam` loan of a book that still exists `Kembali` and putting its copy back leaves every book's holdings unchanged. |
| Loans.ReturnOfClosedLoanAddsCopy | backend/routes/peminjaman.js:98-108 | Returning a loan that is no longer `Dipinjam` raises its book's holdings by one, so the balance breaks. |
| Loans.Restock | backend/routes/peminjaman.js:41-42 | `UPDATE buku SET stok = stok ± 1 WHERE id = ?` (also line 108 with +1): the stock of that one book moves by the delta, every other book is unchanged, no book is added or removed, and an unknown id changes nothing. |
| Loans.AllLoans | backend/routes/peminjaman.js:59-65 | Exactly the loans whose user and book both exist, each with the user's name and the book's title, in strictly decreasing id order. |
| Loans.LoansOfUser | backend/routes/peminjaman.js:77-84 | Exactly that user's loans whose user and book exist, with name, title and author, in strictly decreasing id order. |
| Fines.FinesOfUser | backend/routes/denda.js:61-68 | Exactly the fines whose loan belongs to the user and whose book exists, each with the book's title, in strictly decreasing fine id order. |
| Fines.AllFines | backend/routes/denda.js:42-49 | Exactly the fines whose loan, borrower and book exist, each with the borrower's id and name and the book's title, newest first. |
| Users.LoginRole | backend/routes/user.js:85 | The stored role when it is truthy. Otherwise `admin` exactly when the username is `admin`, and `member` exactly when it is not. |
| Users.FindByUsername | backend/routes/user.js:55-58 | Finds an existing user with that username, or reports that none exists. |
| Users.Login | backend/routes/user.js:50-86 | 400 without a username or password. 401 "Username tidak ditemukan" when no user has that username, and only then. When the lookup finds a user, the answer is Ok exactly when the password matches that user's hash, and 401 "Password salah" otherwise. On Ok, the data show that user's id, name, NIM, username and derived role. There is no other outcome. |
| Users.LoginReplyOf | backend/routes/user.js:88-91 | A successful login replies 2xx with `{message: "Login berhasil", data}`, no `error` and no `user` field. A failed one replies non-2xx with `{error}` carrying the refusal text, and no `message` or `data`. |
| Users.StatsOf | backend/routes/user.js:134-141 | `total_peminjaman` counts the user's loans. `aktif` and `kembali` count the `Dipinjam` and `Kembali` ones, and are NULL exactly when the user has no loans. `aktif + kembali <= total`. |
| Users.ActiveLoanShowsInStats | backend/routes/user.js:134-141 | The delete guard agrees with the stats: a user has a `Dipinjam` loan exactly when `aktif` is positive. |
| Users.BorrowCountsAsActive | backend/routes/user.js:134-141 | A new `Dipinjam` loan adds one to the borrower's total and to `aktif`, and leaves `kembali` as it was. |
| Users.ReturnMovesToKembali | backend/routes/user.js:134-141 | Returning a `Dipinjam` loan moves it from `aktif` to `kembali`, and the total stays. |
| Users.NoUnpaidFineMeansZero | backend/routes/user.js:144-156 | With no unpaid fine on any of the user's loans, `total_denda` is 0. |
| Users.UnpaidTotal | backend/routes/user.js:143-149 | `SUM(nominal)` over the fines with status `Belum dibayar` whose loan belongs to the user. It is never negative when no counted fine has a negative amount. Its exact changes under a fine write, a payment and an insert are the three lemmas beside it. |
| Users.UnpaidTotalAfterWrite | backend/routes/user.js:144-149 | Overwriting one fine changes a user's unpaid total by exactly the change in that fine's own charge. |
| Users.PayLowersUnpaidTotal | backend/routes/user.js:144-149 | Marking an unpaid fine paid lowers its borrower's unpaid total by exactly its amount and leaves every other user's total alone. |
| Users.NewFineRaisesUnpaidTotal | backend/routes/user.js:144-149 | Inserting a fine under the next id raises the unpaid total of the loan's borrower by its amount if the fine is unpaid, and changes no one else's. |
| Users.LoanWithoutFinesShowsZero | backend/routes/user.js:221-224 | A loan with no fines shows `denda` 0 in the history. |
| Users.LoanFineTotal | backend/routes/user.js:221 | `COALESCE(SUM(d.nominal), 0)` over every fine of one loan, whatever its status. It is never negative when none of that loan's fines has a negative amount. |
| Users.FineStatusIgnoredInHistory | backend/routes/user.js:221-224 | A loan's history `denda` ignores fine status: paying or updating a fine without changing its loan or amount leaves every loan's sum unchanged. |
| Users.HistoryById | backend/routes/user.js:211-226 | One row per loan of the user whose book exists (and no other rows), with the loan's dates, status, book, days late and the sum of all its fines, in strictly decreasing id order. |
| Users.SortByPinjam | backend/routes/user.js:227 | Orders history rows by borrow date, newest first, as a permutation of its input. |
| Users.Riwayat | backend/routes/user.js:211-228 | The history is sorted by borrow date, newest first, and is a permutation of the per-loan rows. |
| Users.UserList | backend/routes/user.js:110 | Exactly the existing users, each with id, name, NIM and username only, so no password hash is exposed. |
| Users.ProfileOf | backend/routes/user.js:124-157 | 404 exactly for an unknown id. Otherwise the user's public fields, the loan statistics and `total_denda` as the sum of that user's unpaid fines. |
| Books.AllBooks | backend/routes/buku.js:9 | Every book exactly once, with its stored fields, in strictly decreasing id order. |
| Books.BookById | backend/routes/buku.js:22-29 | Ok with the stored book exactly when the id exists. Otherwise 404 "Buku tidak ditemukan". |
| Books.Search | backend/routes/buku.js:119-123 | Exactly the books whose title, author, ISBN or (non-null) category contains the keyword, ignoring ASCII case. |
| Books.ByCategory | backend/routes/buku.js:136 | Exactly the books whose category equals the argument. |
| Books.CategoryFoundBySearch | backend/routes/buku.js:119-136 | Every book the category filter returns is also found by a keyword search for the category's name. |
| Books.SearchFindsIsbn | backend/routes/buku.js:119-123 | Searching for a book's ISBN finds that book. |
| Books.SearchIgnoresCase | backend/routes/buku.js:119-123 | Two keywords that differ only in ASCII letter case give the same result. |
| Client.RegisterCheck | api.js:182-195 | The request is sent exactly when all four fields are non-empty, the username has at least 5 characters and the password at least 8. Otherwise the first failing check's warning is shown. |
| Client.Logout | api.js:355-361 | Removes exactly `login`, `user_id`, `username` and `nama`. Every other key, including `user` and `lastSync`, stays. |
| Client.AdminLogout | api.js:363-368 | Removes exactly `admin_login`, `admin_id` and `admin_user`. |
| Client.StoreLogin | api.js:240-259 | A non-2xx reply shows the error and writes nothing. A 2xx reply writes `login`; if the user object is missing, the next write throws and the connection notice is shown. Otherwise all seven session keys are written. |
| Client.LoginAPI | api.js:228-259 | As written, for one reply. Missing fields: warning, nothing written. Failed reply: its error, nothing written. Otherwise the user is read from the reply's `user` field: without one, only `login` is written, and with one, all seven keys are written. |
| Client.LoginAPIFixed | api.js:228-259 | The same, but reading the user from the `data` field the backend sends. |
| Client.StoredUserIdAfterLogin | api.js:247 | The `user` item a completed login stores reads back to the user's id. |
| Client.StoredUserId | api.js:914 | The `id` of the parsed `user` item: no id without a `user` item, and an id exactly when the item starts with `{"id":` followed by a digit. That id is the number the digits after `{"id":` spell. |
| Client.LoginAgainstBackend | api.js:240-248 | For a correct login, the backend's real reply leaves `loginAPI` as written showing the connection-failure notice. `login` is set, but `user_id` and `user` are not. |
| Client.LoginAgainstBackendFixed | api.js:240-248 | For the same reply, the corrected `loginAPI` writes all seven keys and welcomes the user. `user_id` is the user's id as text, and the stored `user` reads back to that id. |
| Client.RiwayatSource | api.js:851-863 | Refetch exactly when forced, or when there is no cache, or no stamp (counted as 999999 s old), or the cache is more than 300000 ms old. An unparsable stamp never forces a refetch. |
| Client.LastSyncLabel | api.js:891-907 | No label without a stamp. "Invalid Date" for an unparsable stamp. "Baru saja" under a minute. Whole minutes for 1-59 minutes and whole hours for 1-23 hours, each floored. Otherwise the date of the stamp. |
| Client.SyncText | api.js:900-906 | The shown texts: "Baru saja", "N menit yang lalu" and "H jam yang lalu" with the label's number, the formatted date for an older stamp, "Invalid Date" for an unparsable one, and nothing without a label. |
| Client.PinjamDraft | api.js:912-928 | Warns exactly when the stored user has no truthy id or the book field is empty. Otherwise sends that user id, today as the borrow date, the chosen due date or today + 14, and, when the field starts with a digit, the number its leading digits spell. |
| Client.DraftMeetsBorrowCheck | api.js:923-928 | A drafted request passes the backend's missing-field check exactly when the book field parsed to a non-zero number. |
| Client.BorrowAfterLogin | api.js:914-921 | After `loginAPI` as written, a fresh browser refuses every borrow with the warning, because no `user` item is stored. |
| Client.BorrowAfterLogout | api.js:912-928 | After the corrected login and `logout`, the browser is logged out. Yet the borrow form still drafts a request for the same user with book 7, due in 14 days. |
| Client.RowViewOf | api.js:1010-1025 | A row shows the loan's id, title and fine sum. It has the returned style exactly for `Kembali`, a late note exactly when days late are positive, and a return button exactly for `Dipinjam`. |
| Client.HistoryTable | api.js:993-1027 | Nothing without a truthy stored user id. A placeholder for an empty history. Otherwise one row view per history row, in order. |
| Client.ReturnButtonOnActiveLoans | api.js:1023 | In the history the backend serves, the return button appears exactly on loans still marked `Dipinjam`. Those are the returns that keep the holdings balance. |

## Left out

- Transport and storage plumbing: Express routing, the MySQL pool, connection release, JSON encoding of replies, and the 500 answers to thrown database errors. Each handler is a method over in-memory maps.
- Concurrency. The model is sequential, so the non-atomic check-then-decrement of a borrow and the parallel profile and history fetches of the client are not modelled.
- bcrypt. Hashing at registration is the parameter `hashed`, and comparison at login is the parameter `matches`. The "Bcrypt comparison failed" answer to a thrown comparison is not modelled.
- SQL and JavaScript date functions. `CURDATE()` is the parameter `today` and `DATEDIFF` is a subtraction of day numbers. `new Date()` is a millisecond parameter. `toISOString`, `toLocaleDateString` and `Intl.NumberFormat` produce text that is a parameter or not modelled. The `created_at` and `updated_at` columns are left out.
- `fetchWithRetry` timing and retry, all DOM rendering, notifications, redirects, and the `confirm` dialog of `kembaliBukuAPI`. The request that function sends carries a `tgl_kembali` the backend ignores, so its effect is `Library.Library.ReturnBook`.
- `syncUserDataAPI`, which runs after every successful borrow and return (api.js:943, 979). Through `loadUserProfileAPI` it merges the fetched profile into the stored `user` item and writes `lastSync` (api.js:775-778). Through `loadUserRiwayatAPI` it writes `riwayat` and `riwayatSync` (api.js:834-835). These four writes are not modelled. Client.RiwayatSource and Client.LastSyncLabel take the cached history and the stamps as parameters, and Client.StoredUserId reads the `user` item as a login leaves it.
- `checkLogin` and `checkAdminLogin`: they only read the session, notify or redirect.
- The setup, debugging and test scripts under `backend/` and at the top level. Only `backend/routes/*.js` and `api.js` are modelled.
- Books.Search: the keyword is matched as a literal substring; `%` and `_` inside it are not treated as LIKE wildcards. Case folding covers ASCII letters only, not MySQL's full collation. The model's username, NIM, ISBN, category and status equality tests (`Dipinjam`, `Kembali`, `Belum dibayar`) are exact, where a case-insensitive collation would also match other letter cases.
- Books.Search, Books.ByCategory, Users.UserList: the queries have no `ORDER BY`, so the database may return any order. The model fixes newest id first.
- Library.Library.UpdateBook: takes a complete `Book`. A request field left undefined, which the query writes as NULL, is not distinguished for `judul`, `pengarang`, `isbn` or `stok`.
- Library.Library.AddBook: a `stok` sent as JSON `null` passes the `=== undefined` check. The model reads a given stock as an integer.
- Library.Library.AddBook, Library.Library.UpdateBook, Library.Library.UpdateFine, Library.Library.Register, Library.Library.DeleteUser, Library.Library.DeleteBook, Library.DuplicateIsbnScenario: the table definitions are not modelled. The model assumes no unique index (on `buku.isbn` or elsewhere), no foreign keys from `peminjaman` and `denda` to `users` and `buku`, no CHECK or UNSIGNED on `stok`, free-text status columns and a NULL default for `users.role`. So a negative stock is accepted, any status text is written, a new user's role is absent, a delete removes exactly one row and leaves the loans and fines that refer to it, and an update may duplicate an ISBN. A schema with such constraints would answer 500 for the refused write, or cascade the delete, instead.
- Client.RegisterCheck: lengths count Unicode code points, while JavaScript counts UTF-16 code units.
- Client.UserJson: text fields are written without JSON escaping.
- Client.StoredUserId: reads the id only from the shape a login writes. A malformed `user` item, which makes `JSON.parse` throw, is not modelled.
- Client.PinjamDraft: `parseInt`'s skipping of leading whitespace, its sign handling and its reading of a `0x`/`0X` prefix as hexadecimal (`parseInt("0x10")` is 16, where the model reads 0) are not modelled. Only a leading run of decimal digits is read.
- Client.LoginAgainstBackend, Client.BorrowAfterLogin: start from an empty `localStorage`.

## Findings

| source | as written | input that shows it | evidently intended | confidence | as-written member | corrected member |
|---|---|---|---|---|---|---|
| api.js:243-248 | After a 2xx login reply, `loginAPI` reads `result.user`. The login route replies `{message, data}` (backend/routes/user.js:88-91), so `result.user` is undefined. The write at line 242 has already stored `login` = `true`, and line 243 then throws. The catch shows "Koneksi ke server gagal", and `user_id`, `user` and the other keys are never written. A later `pinjamBukuAPI` always warns. | A registered user logs in with the correct password: the reply is `{message: "Login berhasil", data: {...}}` | Read the user from `result.data` and store all seven session keys | not executed | Client.LoginAPI, Client.LoginAgainstBackend, Client.BorrowAfterLogin | Client.LoginAPIFixed, Client.LoginAgainstBackendFixed |
