/**
 * The decision logic of the browser client (api.js): the registration
 * checks, the login and logout updates of `localStorage`, the history-cache
 * staleness rule, the "last sync" label, the borrow request it drafts and
 * the history table it draws. Clock readings are parameters in
 * milliseconds; dates are day numbers as in the backend.
 */
module Client {
  import opened Records
  import opened Listing
  import opened Users
  import Library

  // ---------------------------------------------------------------- numbers as text

  function DigitChar(d: int): (c: char)
    requires 0 <= d < 10
    ensures '0' <= c <= '9' && c as int - '0' as int == d
  {
    (d + '0' as int) as char
  }

  /** `String(n)` for a non-negative integer. */
  function Decimal(n: nat): (s: string)
    decreases n
    ensures |s| > 0 && forall i :: 0 <= i < |s| ==> '0' <= s[i] <= '9'
  {
    if n < 10 then [DigitChar(n)] else Decimal(n / 10) + [DigitChar(n % 10)]
  }

  /** `String(i)` for any integer. */
  function IntText(i: int): string {
    if i < 0 then "-" + Decimal(-i) else Decimal(i)
  }

  predicate IsDigit(c: char) {
    '0' <= c <= '9'
  }

  /** The value of the digit string `d` read after the digits already worth `acc`. */
  function DigitsValue(acc: nat, d: string): nat
    requires forall i :: 0 <= i < |d| ==> IsDigit(d[i])
    decreases |d|
  {
    if d == [] then acc
    else
      assert IsDigit(d[0]);
      DigitsValue(acc * 10 + (d[0] as int - '0' as int), d[1..])
  }

  /** Reads the longest run of leading digits: its value and what follows, or `None` when `s` starts with no digit. */
  function ReadNumber(s: string): (r: Option<(nat, string)>)
    ensures r.None? <==> (s == [] || !IsDigit(s[0]))
  {
    if s == [] || !IsDigit(s[0]) then None else Some(ReadDigits(0, s))
  }

  function ReadDigits(acc: nat, s: string): (nat, string)
    decreases |s|
  {
    if s != [] && IsDigit(s[0]) then ReadDigits(acc * 10 + (s[0] as int - '0' as int), s[1..]) else (acc, s)
  }

  lemma {:induction false} ReadDigitsOver(acc: nat, d: string, rest: string)
    requires forall i :: 0 <= i < |d| ==> IsDigit(d[i])
    requires rest == [] || !IsDigit(rest[0])
    ensures ReadDigits(acc, d + rest) == (DigitsValue(acc, d), rest)
    decreases |d|
  {
    if d == [] {
      assert d + rest == rest;
    } else {
      assert (d + rest)[1..] == d[1..] + rest;
      ReadDigitsOver(acc * 10 + (d[0] as int - '0' as int), d[1..], rest);
    }
  }

  lemma {:induction false} DigitsValueSnoc(acc: nat, d: string, c: char)
    requires forall i :: 0 <= i < |d| ==> IsDigit(d[i])
    requires IsDigit(c)
    ensures DigitsValue(acc, d + [c]) == DigitsValue(acc, d) * 10 + (c as int - '0' as int)
    decreases |d|
  {
    if d == [] {
      assert d + [c] == [c];
    } else {
      assert (d + [c])[1..] == d[1..] + [c];
      DigitsValueSnoc(acc * 10 + (d[0] as int - '0' as int), d[1..], c);
    }
  }

  lemma {:induction false} DecimalValue(n: nat)
    ensures DigitsValue(0, Decimal(n)) == n
    decreases n
  {
    if n >= 10 {
      DecimalValue(n / 10);
      DigitsValueSnoc(0, Decimal(n / 10), DigitChar(n % 10));
    }
  }

  /** Reading back a number written with `Decimal` gives the number and leaves what followed it. */
  lemma DecimalReadsBack(n: nat, rest: string)
    requires rest == [] || !IsDigit(rest[0])
    ensures ReadNumber(Decimal(n) + rest) == Some((n, rest))
  {
    ReadDigitsOver(0, Decimal(n), rest);
    DecimalValue(n);
  }

  // ---------------------------------------------------------------- registration

  /**
   * `registerAPI`: the warning shown instead of sending the request, or
   * `None` when the request is sent. Lengths count characters.
   */
  function RegisterCheck(nama: Option<string>, nim: Option<string>, username: Option<string>, password: Option<string>)
    : (warning: Option<string>)
    ensures warning.None? <==>
      Library.RegisterComplete(nama, nim, username, password) && |username.value| >= 5 && |password.value| >= 8
    ensures !Library.RegisterComplete(nama, nim, username, password) ==> warning == Some("Lengkapi semua data!")
    ensures Library.RegisterComplete(nama, nim, username, password) && |username.value| < 5
      ==> warning == Some("Username minimal 5 karakter")
    ensures Library.RegisterComplete(nama, nim, username, password) && |username.value| >= 5 && |password.value| < 8
      ==> warning == Some("Password minimal 8 karakter")
  {
    if !(TextGiven(nama) && TextGiven(nim) && TextGiven(username) && TextGiven(password)) then Some("Lengkapi semua data!")
    else if |username.value| < 5 then Some("Username minimal 5 karakter")
    else if |password.value| < 8 then Some("Password minimal 8 karakter")
    else None
  }

  // ---------------------------------------------------------------- localStorage

  /** The browser's `localStorage`: a map from keys to string values. */
  class LocalStorage {
    var items: map<string, string>

    constructor ()
      ensures items == map[]
    {
      items := map[];
    }

    function GetItem(key: string): (v: Option<string>)
      reads this
      ensures v.Some? <==> key in items
      ensures v.Some? ==> v.value == items[key]
    {
      if key in items then Some(items[key]) else None
    }

    method SetItem(key: string, value: string)
      modifies this`items
      ensures items == old(items)[key := value]
    {
      items := items[key := value];
    }

    method RemoveItem(key: string)
      modifies this`items
      ensures items == old(items) - {key}
    {
      items := items - {key};
    }
  }

  /** The keys `logout` removes. */
  const SessionKeys: set<string> := {"login", "user_id", "username", "nama"}

  /** The keys `adminLogout` removes. */
  const AdminKeys: set<string> := {"admin_login", "admin_id", "admin_user"}

  /** `logout`: removes the four member-session keys and nothing else (`nim`, `user` and `lastSync` stay). */
  method Logout(store: LocalStorage)
    modifies store`items
    ensures store.items == old(store.items) - SessionKeys
  {
    store.RemoveItem("login");
    store.RemoveItem("user_id");
    store.RemoveItem("username");
    store.RemoveItem("nama");
  }

  /** `adminLogout`: removes the three admin-session keys and nothing else. */
  method AdminLogout(store: LocalStorage)
    modifies store`items
    ensures store.items == old(store.items) - AdminKeys
  {
    store.RemoveItem("admin_login");
    store.RemoveItem("admin_id");
    store.RemoveItem("admin_user");
  }

  /** `JSON.stringify` of the login `data` object (text fields are written without escaping). */
  function UserJson(u: LoginData): string {
    "{\"id\":" + IntText(u.id) + UserJsonTail(u)
  }

  /** The fields after `id`. */
  function UserJsonTail(u: LoginData): (s: string)
    ensures |s| > 0 && s[0] == ','
  {
    ",\"nama\":\"" + u.nama + "\",\"nim\":\"" + u.nim + "\",\"username\":\"" + u.username + "\",\"role\":\"" + u.role + "\"}"
  }

  /** What `loginAPI` shows the user. */
  datatype LoginNotice = MissingFields | Welcome(nama: string) | Failed(message: string) | ConnectionFailed

  /** The seven keys a completed login writes, with their values. */
  function SessionAfterLogin(items: map<string, string>, u: LoginData, nowIso: string): map<string, string> {
    items["login" := "true"]["user_id" := IntText(u.id)]["username" := u.username]["nama" := u.nama]
         ["nim" := u.nim]["user" := UserJson(u)]["lastSync" := nowIso]
  }

  /** The message of a failed login: the reply's `error`, or a fixed text when it has none. */
  function FailureText(body: LoginBody): string {
    if body.error.Some? && body.error.value != "" then body.error.value else "Login gagal"
  }

  /** The part of `loginAPI` after the reply is in, reading the user from `who`. */
  method StoreLogin(store: LocalStorage, reply: LoginReply, who: Option<LoginData>, nowIso: string)
    returns (notice: LoginNotice)
    modifies store`items
    ensures !reply.ok ==> notice == Failed(FailureText(reply.body)) && store.items == old(store.items)
    ensures reply.ok && who.None? ==> notice == ConnectionFailed && store.items == old(store.items)["login" := "true"]
    ensures reply.ok && who.Some? ==>
      notice == Welcome(who.value.nama) && store.items == SessionAfterLogin(old(store.items), who.value, nowIso)
  {
    if !reply.ok {
      return Failed(FailureText(reply.body));
    }
    store.SetItem("login", "true");
    if who.None? {
      // reading `id` of an undefined user throws; the catch shows the connection notice
      return ConnectionFailed;
    }
    var u := who.value;
    store.SetItem("user_id", IntText(u.id));
    store.SetItem("username", u.username);
    store.SetItem("nama", u.nama);
    store.SetItem("nim", u.nim);
    store.SetItem("user", UserJson(u));
    store.SetItem("lastSync", nowIso);
    notice := Welcome(u.nama);
  }

  /**
   * `loginAPI` as written: after a successful reply it reads the reply's
   * `user` field, which the backend's login reply does not have.
   */
  method LoginAPI(store: LocalStorage, username: Option<string>, password: Option<string>, reply: LoginReply, nowIso: string)
    returns (notice: LoginNotice)
    modifies store`items
    ensures !(TextGiven(username) && TextGiven(password)) ==> notice == MissingFields && store.items == old(store.items)
    ensures TextGiven(username) && TextGiven(password) && !reply.ok
      ==> notice == Failed(FailureText(reply.body)) && store.items == old(store.items)
    ensures TextGiven(username) && TextGiven(password) && reply.ok && reply.body.user.None?
      ==> notice == ConnectionFailed && store.items == old(store.items)["login" := "true"]
    ensures TextGiven(username) && TextGiven(password) && reply.ok && reply.body.user.Some?
      ==> notice == Welcome(reply.body.user.value.nama)
          && store.items == SessionAfterLogin(old(store.items), reply.body.user.value, nowIso)
  {
    if !(TextGiven(username) && TextGiven(password)) {
      return MissingFields;
    }
    notice := StoreLogin(store, reply, reply.body.user, nowIso);
  }

  /** `loginAPI` reading the user from the reply's `data` field, where the backend puts it. */
  method LoginAPIFixed(store: LocalStorage, username: Option<string>, password: Option<string>, reply: LoginReply, nowIso: string)
    returns (notice: LoginNotice)
    modifies store`items
    ensures !(TextGiven(username) && TextGiven(password)) ==> notice == MissingFields && store.items == old(store.items)
    ensures TextGiven(username) && TextGiven(password) && !reply.ok
      ==> notice == Failed(FailureText(reply.body)) && store.items == old(store.items)
    ensures TextGiven(username) && TextGiven(password) && reply.ok && reply.body.data.None?
      ==> notice == ConnectionFailed && store.items == old(store.items)["login" := "true"]
    ensures TextGiven(username) && TextGiven(password) && reply.ok && reply.body.data.Some?
      ==> notice == Welcome(reply.body.data.value.nama)
          && store.items == SessionAfterLogin(old(store.items), reply.body.data.value, nowIso)
  {
    if !(TextGiven(username) && TextGiven(password)) {
      return MissingFields;
    }
    notice := StoreLogin(store, reply, reply.body.data, nowIso);
  }

  /** The `id` of the stored `user` object, in the shape `UserJson` writes; `None` when there is no such item. */
  function StoredUserId(items: map<string, string>): (id: Option<int>)
    ensures "user" !in items ==> id.None?
    ensures id.Some? <==> "user" in items && |items["user"]| > 6 && items["user"][..6] == "{\"id\":" && IsDigit(items["user"][6])
    ensures id.Some? ==>
      "user" in items && |items["user"]| > 6 && ReadNumber(items["user"][6..]).Some?
      && id.value == ReadNumber(items["user"][6..]).value.0 as int
  {
    if "user" !in items then None
    else
      var s := items["user"];
      var prefix := "{\"id\":";
      if |s| >= |prefix| && s[..|prefix|] == prefix then
        match ReadNumber(s[|prefix|..])
        case Some((v, _)) => Some(v)
        case None => None
      else None
  }

  /** After a completed login the stored `user` object carries the user's id. */
  lemma StoredUserIdAfterLogin(items: map<string, string>, u: LoginData, nowIso: string)
    requires u.id >= 0
    ensures StoredUserId(SessionAfterLogin(items, u, nowIso)) == Some(u.id)
  {
    var s := UserJson(u);
    var prefix, rest := "{\"id\":", UserJsonTail(u);
    assert s == prefix + (Decimal(u.id) + rest);
    assert s[|prefix|..] == Decimal(u.id) + rest;
    DecimalReadsBack(u.id, rest);
  }

  /**
   * The login reply the backend builds for a correct username and password,
   * handed to `loginAPI` as written, leaves a session marked logged in but
   * without `user_id` and without `user`.
   */
  method LoginAgainstBackend(users: map<Id, User>, n: int, username: string, password: string,
                             matches: (string, string) -> bool, nowIso: string)
    returns (notice: LoginNotice, loggedIn: bool, hasUserId: bool, hasUser: bool)
    requires KeysBelow(users, n)
    requires Login(users, n, Some(username), Some(password), matches).Ok?
    ensures notice == ConnectionFailed && loggedIn && !hasUserId && !hasUser
  {
    var reply := LoginReplyOf(Login(users, n, Some(username), Some(password), matches));
    var store := new LocalStorage();
    notice := LoginAPI(store, Some(username), Some(password), reply, nowIso);
    loggedIn := store.GetItem("login") == Some("true");
    hasUserId := "user_id" in store.items;
    hasUser := "user" in store.items;
  }

  /** The same reply handed to the corrected `loginAPI` writes every session key, and the stored user carries its id. */
  method LoginAgainstBackendFixed(users: map<Id, User>, n: int, username: string, password: string,
                                  matches: (string, string) -> bool, nowIso: string)
    returns (notice: LoginNotice, keys: set<string>, userId: Option<string>, storedId: Option<int>)
    requires KeysBelow(users, n) && forall k :: k in users ==> k >= 0
    requires Login(users, n, Some(username), Some(password), matches).Ok?
    ensures keys == {"login", "user_id", "username", "nama", "nim", "user", "lastSync"}
    ensures var d := Login(users, n, Some(username), Some(password), matches).value;
      notice == Welcome(d.nama) && userId == Some(IntText(d.id)) && storedId == Some(d.id)
  {
    var r := Login(users, n, Some(username), Some(password), matches);
    var reply := LoginReplyOf(r);
    var store := new LocalStorage();
    notice := LoginAPIFixed(store, Some(username), Some(password), reply, nowIso);
    keys := store.items.Keys;
    userId := store.GetItem("user_id");
    StoredUserIdAfterLogin(map[], r.value, nowIso);
    storedId := StoredUserId(store.items);
  }

  // ---------------------------------------------------------------- history cache

  /** A timestamp read from `localStorage`: missing (or empty), not a date, or a time in milliseconds. */
  datatype Stamp = NoStamp | Unparsable | At(ms: int)

  datatype HistorySource = Refetch | FromCache

  /**
   * `getRiwayatAPI`: refetch when forced, when there is no cached history,
   * or when the cache is more than 300 seconds old. A missing stamp counts
   * as 999999 seconds old; an unparsable one gives an age of NaN, which is
   * never more than 300.
   */
  function RiwayatSource(forceRefresh: bool, cached: Option<string>, syncTime: Stamp, now: int): (s: HistorySource)
    ensures s == Refetch <==>
      forceRefresh || !TextGiven(cached) || syncTime == NoStamp || (syncTime.At? && now - syncTime.ms > 300000)
  {
    var stale := match syncTime
      case NoStamp => 999999.0 > 300.0
      case Unparsable => false
      case At(t) => (now - t) as real / 1000.0 > 300.0;
    if forceRefresh || !TextGiven(cached) || stale then Refetch else FromCache
  }

  // ---------------------------------------------------------------- last sync

  datatype SyncLabel = NoLabel | JustNow | MinutesAgo(minutes: int) | HoursAgo(hours: int) | OnDate(ms: int) | InvalidDate

  /**
   * `getLastSyncTime`, classified: no label without a stamp, then by whole
   * minutes (`Math.floor`) since the stamp. A stamp in the future counts as
   * just now; an unparsable one falls through every comparison.
   */
  function LastSyncLabel(lastSync: Stamp, now: int): (l: SyncLabel)
    ensures l == NoLabel <==> lastSync == NoStamp
    ensures l == InvalidDate <==> lastSync == Unparsable
    ensures l == JustNow <==> lastSync.At? && now - lastSync.ms < 60000
    ensures l.MinutesAgo? <==> lastSync.At? && 60000 <= now - lastSync.ms < 3600000
    ensures l.MinutesAgo? ==> l.minutes * 60000 <= now - lastSync.ms < (l.minutes + 1) * 60000
    ensures l.HoursAgo? <==> lastSync.At? && 3600000 <= now - lastSync.ms < 86400000
    ensures l.HoursAgo? ==> l.hours * 3600000 <= now - lastSync.ms < (l.hours + 1) * 3600000
    ensures l.OnDate? <==> lastSync.At? && now - lastSync.ms >= 86400000
    ensures l.OnDate? ==> l.ms == lastSync.ms
  {
    match lastSync
    case NoStamp => NoLabel
    case Unparsable => InvalidDate
    case At(t) =>
      var diffMins := (now - t) / 60000;
      if diffMins < 1 then JustNow
      else if diffMins < 60 then MinutesAgo(diffMins)
      else
        var diffHours := diffMins / 60;
        if diffHours < 24 then HoursAgo(diffHours) else OnDate(t)
  }

  /** The text shown for a label; `dateText` is the `id-ID` date of the stamp. */
  function SyncText(l: SyncLabel, dateText: string): (s: Option<string>)
    ensures s.None? <==> l == NoLabel
    ensures l == JustNow ==> s == Some("Baru saja")
    ensures l == InvalidDate ==> s == Some("Invalid Date")
    ensures l.OnDate? ==> s == Some(dateText)
    ensures l.MinutesAgo? ==> s == Some(IntText(l.minutes) + " menit yang lalu")
    ensures l.HoursAgo? ==> s == Some(IntText(l.hours) + " jam yang lalu")
  {
    match l
    case NoLabel => None
    case JustNow => Some("Baru saja")
    case MinutesAgo(m) => Some(IntText(m) + " menit yang lalu")
    case HoursAgo(h) => Some(IntText(h) + " jam yang lalu")
    case OnDate(_) => Some(dateText)
    case InvalidDate => Some("Invalid Date")
  }

  // ---------------------------------------------------------------- borrow request

  /** The body `pinjamBukuAPI` posts; `bukuId` is `None` when `parseInt` gives NaN (sent as `null`). */
  datatype PinjamRequest = PinjamRequest(userId: int, bukuId: Option<int>, tglPinjam: Date, tglKembali: Date)

  datatype PinjamAttempt = PinjamWarning | Send(request: PinjamRequest)

  /**
   * `pinjamBukuAPI` up to the request: the user comes from the stored `user`
   * object, the book from the form's text, the borrow date is today and the
   * due date is the one chosen or 14 days on.
   */
  function PinjamDraft(items: map<string, string>, bukuInput: Option<string>, tglKembali: Option<Date>, today: Date)
    : (a: PinjamAttempt)
    ensures a == PinjamWarning <==> !NumberGiven(StoredUserId(items)) || !TextGiven(bukuInput)
    ensures a.Send? ==>
      && a.request.userId == StoredUserId(items).value
      && a.request.tglPinjam == today
      && a.request.tglKembali == (if tglKembali.Some? then tglKembali.value else today + 14)
      && (a.request.bukuId.Some? <==> ReadNumber(bukuInput.value).Some?)
    ensures a.Send? && ReadNumber(bukuInput.value).Some? ==> a.request.bukuId == Some(ReadNumber(bukuInput.value).value.0 as int)
  {
    var uid := StoredUserId(items);
    if !NumberGiven(uid) || !TextGiven(bukuInput) then PinjamWarning
    else
      var parsed := match ReadNumber(bukuInput.value)
        case Some((v, _)) => Some(v as int)
        case None => None;
      Send(PinjamRequest(uid.value, parsed, today, if tglKembali.Some? then tglKembali.value else today + 14))
  }

  /**
   * A drafted request passes the backend's missing-field check exactly when
   * the book field parsed to a non-zero number.
   */
  lemma DraftMeetsBorrowCheck(items: map<string, string>, bukuInput: Option<string>, tglKembali: Option<Date>, today: Date)
    requires PinjamDraft(items, bukuInput, tglKembali, today).Send?
    ensures var q := PinjamDraft(items, bukuInput, tglKembali, today).request;
      Library.BorrowComplete(Some(q.userId), q.bukuId, Some(q.tglPinjam), Some(q.tglKembali)) <==> NumberGiven(q.bukuId)
  {
  }

  /**
   * After `loginAPI` as written, a borrow is refused in the browser whatever
   * is typed: there is no stored `user` to take the id from.
   */
  method BorrowAfterLogin(users: map<Id, User>, n: int, username: string, password: string,
                          matches: (string, string) -> bool, nowIso: string,
                          bukuInput: Option<string>, tglKembali: Option<Date>, today: Date)
    returns (attempt: PinjamAttempt)
    requires KeysBelow(users, n)
    requires Login(users, n, Some(username), Some(password), matches).Ok?
    ensures attempt == PinjamWarning
  {
    var store := new LocalStorage();
    var notice := LoginAPI(store, Some(username), Some(password), LoginReplyOf(Login(users, n, Some(username), Some(password), matches)), nowIso);
    attempt := PinjamDraft(store.items, bukuInput, tglKembali, today);
  }

  /**
   * `logout` leaves the stored `user`: after signing in with the corrected
   * `loginAPI` and signing out, a borrow form still drafts a request for
   * the same user.
   */
  method BorrowAfterLogout(users: map<Id, User>, n: int, username: string, password: string,
                           matches: (string, string) -> bool, nowIso: string, today: Date)
    returns (loggedIn: bool, attempt: PinjamAttempt)
    requires KeysBelow(users, n) && forall k :: k in users ==> k >= 1
    requires Login(users, n, Some(username), Some(password), matches).Ok?
    ensures !loggedIn
    ensures attempt == Send(PinjamRequest(Login(users, n, Some(username), Some(password), matches).value.id, Some(7), today, today + 14))
  {
    var r := Login(users, n, Some(username), Some(password), matches);
    var store := new LocalStorage();
    var notice := LoginAPIFixed(store, Some(username), Some(password), LoginReplyOf(r), nowIso);
    StoredUserIdAfterLogin(map[], r.value, nowIso);
    Logout(store);
    assert store.items["user"] == UserJson(r.value);
    loggedIn := "login" in store.items;
    DecimalReadsBack(7, "");
    assert "7" == Decimal(7) + "";
    attempt := PinjamDraft(store.items, Some("7"), None, today);
  }

  // ---------------------------------------------------------------- history table

  /** How `loadRiwayatPinjam` draws one history row. */
  datatype RowView = RowView(id: Id, judul: string, returned: bool, lateDays: Option<int>, denda: int, returnButton: bool)

  function RowViewOf(p: HistoryRow): (v: RowView)
    ensures v.id == p.id && v.judul == p.judul && v.denda == p.denda
    ensures v.returned <==> p.status == StatusKembali
    ensures v.returnButton <==> p.status == StatusDipinjam
    ensures v.lateDays.Some? <==> p.hariTerlambat > 0
    ensures v.lateDays.Some? ==> v.lateDays.value == p.hariTerlambat
  {
    RowView(p.id, p.judul, p.status == StatusKembali,
            if p.hariTerlambat > 0 then Some(p.hariTerlambat) else None,
            p.denda, p.status == StatusDipinjam)
  }

  datatype TableView = NoTable | EmptyHistory | Rows(rows: seq<RowView>)

  /** `loadRiwayatPinjam`: nothing without a stored user id, a placeholder for an empty history, else one row per entry. */
  function HistoryTable(storedUserId: Option<int>, riwayat: seq<HistoryRow>): (t: TableView)
    ensures t == NoTable <==> !NumberGiven(storedUserId)
    ensures t == EmptyHistory <==> NumberGiven(storedUserId) && riwayat == []
    ensures t.Rows? ==> |t.rows| == |riwayat| && forall i :: 0 <= i < |riwayat| ==> t.rows[i] == RowViewOf(riwayat[i])
  {
    if !NumberGiven(storedUserId) then NoTable
    else if riwayat == [] then EmptyHistory
    else Rows(seq(|riwayat|, i requires 0 <= i < |riwayat| => RowViewOf(riwayat[i])))
  }

  /**
   * In the history the backend serves, the return button appears exactly on
   * the loans still marked `Dipinjam` — the ones whose return keeps the
   * stock balance.
   */
  lemma ReturnButtonOnActiveLoans(books: map<Id, Book>, loans: map<Id, Loan>, fines: map<Id, Fine>,
                                  userId: Id, nLoans: int, nFines: int, today: Date)
    requires KeysBelow(loans, nLoans) && KeysBelow(fines, nFines)
    ensures var rows := Riwayat(books, loans, fines, userId, nLoans, nFines, today);
      forall i :: 0 <= i < |rows| ==>
        rows[i].id in loans && (RowViewOf(rows[i]).returnButton <==> loans[rows[i].id].status == StatusDipinjam)
  {
    var rows := Riwayat(books, loans, fines, userId, nLoans, nFines, today);
    var byId := HistoryById(books, loans, fines, userId, nLoans, nFines, today);
    forall i | 0 <= i < |rows|
      ensures rows[i].id in loans && (RowViewOf(rows[i]).returnButton <==> loans[rows[i].id].status == StatusDipinjam)
    {
      assert rows[i] in byId;
      var j :| 0 <= j < |byId| && byId[j] == rows[i];
    }
  }
}
