/** The read side of the book routes (backend/routes/buku.js): the full list, keyword search and category filter. */
module Books {
  import opened Records
  import opened Listing

  /** A row of a book listing (`SELECT *`). */
  datatype BookRow = BookRow(id: Id, book: Book)

  /** ASCII case folding, as the case-insensitive collation compares letters. */
  function FoldChar(c: char): (d: char)
    ensures 'A' <= c <= 'Z' ==> d as int == c as int + 32
    ensures !('A' <= c <= 'Z') ==> d == c
  {
    if 'A' <= c <= 'Z' then (c as int + 32) as char else c
  }

  function Fold(s: string): (r: string)
    ensures |r| == |s| && forall i :: 0 <= i < |s| ==> r[i] == FoldChar(s[i])
  {
    seq(|s|, i requires 0 <= i < |s| => FoldChar(s[i]))
  }

  /** `needle` occurs in `hay` as a contiguous substring. */
  predicate Contains(hay: string, needle: string) {
    exists i | 0 <= i <= |hay| - |needle| :: needle <= hay[i..]
  }

  /** `column LIKE '%keyword%'` for a non-null column. */
  predicate Like(column: string, keyword: string) {
    Contains(Fold(column), Fold(keyword))
  }

  /** The `WHERE` clause of the search route; a NULL `kategori` matches nothing. */
  predicate MatchesKeyword(b: Book, keyword: string) {
    || Like(b.judul, keyword)
    || Like(b.pengarang, keyword)
    || Like(b.isbn, keyword)
    || (b.kategori.Some? && Like(b.kategori.value, keyword))
  }

  /** Rows for the selected ids, in the order given. */
  function RowsOf(books: map<Id, Book>, ids: seq<Id>): (rows: seq<BookRow>)
    requires forall i :: 0 <= i < |ids| ==> ids[i] in books
    ensures |rows| == |ids| && forall i :: 0 <= i < |ids| ==> rows[i] == BookRow(ids[i], books[ids[i]])
  {
    seq(|ids|, i requires 0 <= i < |ids| => BookRow(ids[i], books[ids[i]]))
  }

  /** `GET /buku`: every book, newest id first. */
  function AllBooks(books: map<Id, Book>, n: int): (rows: seq<BookRow>)
    requires KeysBelow(books, n)
    ensures forall i :: 0 <= i < |rows| ==> rows[i].id in books && rows[i].book == books[rows[i].id]
    ensures forall id :: id in books ==> exists i :: 0 <= i < |rows| && rows[i].id == id
    ensures forall i, j :: 0 <= i < j < |rows| ==> rows[i].id > rows[j].id
  {
    var ids := Select(n, id => id in books);
    var rows := RowsOf(books, ids);
    assert forall id :: id in books ==> id in ids;
    rows
  }

  /** `GET /buku/:id`: the book, or 404 when there is none with that id. */
  function BookById(books: map<Id, Book>, id: Id): (r: Result<Book>)
    ensures r.Ok? <==> id in books
    ensures r.Ok? ==> r.value == books[id]
    ensures r.Err? ==> r == Err(404, "Buku tidak ditemukan")
  {
    if id in books then Ok(books[id]) else Err(404, "Buku tidak ditemukan")
  }

  /**
   * `GET /buku/search/:keyword`. The query has no `ORDER BY`; the model
   * returns the matches newest id first.
   */
  function Search(books: map<Id, Book>, keyword: string, n: int): (rows: seq<BookRow>)
    requires KeysBelow(books, n)
    ensures forall i :: 0 <= i < |rows| ==>
      rows[i].id in books && rows[i].book == books[rows[i].id] && MatchesKeyword(rows[i].book, keyword)
    ensures forall id :: id in books && MatchesKeyword(books[id], keyword) ==> exists i :: 0 <= i < |rows| && rows[i].id == id
    ensures forall i, j :: 0 <= i < j < |rows| ==> rows[i].id > rows[j].id
  {
    var ids := Select(n, id => id in books && MatchesKeyword(books[id], keyword));
    var rows := RowsOf(books, ids);
    assert forall id :: id in books && MatchesKeyword(books[id], keyword) ==> id in ids;
    rows
  }

  /** `GET /buku/kategori/:kategori`: the books whose category equals the argument (no `ORDER BY`). */
  function ByCategory(books: map<Id, Book>, kategori: string, n: int): (rows: seq<BookRow>)
    requires KeysBelow(books, n)
    ensures forall i :: 0 <= i < |rows| ==>
      rows[i].id in books && rows[i].book == books[rows[i].id] && books[rows[i].id].kategori == Some(kategori)
    ensures forall id :: id in books && books[id].kategori == Some(kategori) ==> exists i :: 0 <= i < |rows| && rows[i].id == id
    ensures forall i, j :: 0 <= i < j < |rows| ==> rows[i].id > rows[j].id
  {
    var ids := Select(n, id => id in books && books[id].kategori == Some(kategori));
    var rows := RowsOf(books, ids);
    assert forall id :: id in books && books[id].kategori == Some(kategori) ==> id in ids;
    rows
  }

  lemma LikeItself(s: string)
    ensures Like(s, s)
  {
    assert Fold(s) <= Fold(s)[0..];
  }

  /** The ids a listing shows. */
  function IdsOf(rows: seq<BookRow>): set<Id> {
    set i | 0 <= i < |rows| :: rows[i].id
  }

  /** Every book of a category is also found by searching for the category's name. */
  lemma CategoryFoundBySearch(books: map<Id, Book>, kategori: string, n: int)
    requires KeysBelow(books, n)
    ensures IdsOf(ByCategory(books, kategori, n)) <= IdsOf(Search(books, kategori, n))
  {
    LikeItself(kategori);
    var cat, found := ByCategory(books, kategori, n), Search(books, kategori, n);
    forall id | id in IdsOf(cat)
      ensures id in IdsOf(found)
    {
      var i :| 0 <= i < |cat| && cat[i].id == id;
      assert MatchesKeyword(books[id], kategori);
      var j :| 0 <= j < |found| && found[j].id == id;
    }
  }

  /** Searching for a book's ISBN finds that book. */
  lemma SearchFindsIsbn(books: map<Id, Book>, id: Id, n: int)
    requires KeysBelow(books, n) && id in books
    ensures exists i :: 0 <= i < |Search(books, books[id].isbn, n)| && Search(books, books[id].isbn, n)[i].id == id
  {
    LikeItself(books[id].isbn);
    var rows := Search(books, books[id].isbn, n);
    assert MatchesKeyword(books[id], books[id].isbn);
    assert exists i :: 0 <= i < |rows| && rows[i].id == id;
  }

  lemma {:induction false} SelectSame(n: int, f: int -> bool, g: int -> bool)
    requires forall x :: f(x) == g(x)
    ensures Select(n, f) == Select(n, g)
    decreases n
  {
    if n > 0 {
      SelectSame(n - 1, f, g);
      if f(n - 1) {
        assert g(n - 1);
        assert Select(n, f) == [n - 1] + Select(n - 1, f);
        assert Select(n, g) == [n - 1] + Select(n - 1, g);
      } else {
        assert !g(n - 1);
        assert Select(n, f) == Select(n - 1, f);
        assert Select(n, g) == Select(n - 1, g);
      }
    }
  }

  /** The search ignores letter case: two keywords that fold to the same text find the same rows. */
  lemma SearchIgnoresCase(books: map<Id, Book>, k1: string, k2: string, n: int)
    requires KeysBelow(books, n) && Fold(k1) == Fold(k2)
    ensures Search(books, k1, n) == Search(books, k2, n)
  {
    SelectSame(n, id => id in books && MatchesKeyword(books[id], k1), id => id in books && MatchesKeyword(books[id], k2));
  }
}
