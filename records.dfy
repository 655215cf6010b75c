/**
 * Row types of the four tables (users, buku, peminjaman, denda), the status
 * strings the route handlers write, and the request/response shapes they share.
 */
module Records {

  /** A primary key of one of the tables (MySQL AUTO_INCREMENT, starting at 1). */
  type Id = int

  /** A DATE column as a day number; the client sends ISO `YYYY-MM-DD` strings. */
  type Date = int

  datatype Option<T> = None | Some(value: T)

  /** What a route handler answers: the success payload, or an HTTP status with its `error` text. */
  datatype Result<T> = Ok(value: T) | Err(status: int, message: string)

  // Loan statuses written by the loan routes.
  const StatusDipinjam := "Dipinjam"
  const StatusKembali := "Kembali"

  // Fine statuses written by the fine routes.
  const FineUnpaid := "Belum dibayar"
  const FinePaid := "Sudah dibayar"

  /** JavaScript truthiness of a numeric body field: missing, null and 0 are falsy. */
  predicate NumberGiven(f: Option<int>) {
    f.Some? && f.value != 0
  }

  /** JavaScript truthiness of a text body field: missing, null and "" are falsy. */
  predicate TextGiven(f: Option<string>) {
    f.Some? && f.value != ""
  }

  /** A row of `users`; `password` holds the bcrypt hash, `role` is nullable. */
  datatype User = User(nama: string, nim: string, username: string, password: string, role: Option<string>)

  /** A row of `buku`; the columns the add route does not demand are nullable. */
  datatype Book = Book(
    judul: string,
    pengarang: string,
    penerbit: Option<string>,
    tahun: Option<int>,
    isbn: string,
    kategori: Option<string>,
    stok: int,
    deskripsi: Option<string>)

  /** A row of `peminjaman`: `tglKembali` is the due date. */
  datatype Loan = Loan(userId: Id, bukuId: Id, tglPinjam: Date, tglKembali: Date, status: string)

  /** A row of `denda`; the payment columns are null until the general update writes them. */
  datatype Fine = Fine(
    peminjamanId: Id,
    nominal: int,
    alasan: string,
    status: string,
    metodeBayar: Option<string>,
    keteranganBayar: Option<string>,
    tglBayar: Option<Date>)

  /** The `data` object of a successful login reply (the user row without its password). */
  datatype LoginData = LoginData(id: Id, nama: string, nim: string, username: string, role: string)
}
