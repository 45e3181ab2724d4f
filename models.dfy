/**
 * The account record, the `users` table with its lookups and its insert, and the
 * `user_cookies` audit log of app/models.py.
 *
 * The database is in memory: the `users` table is a sequence of rows held by a
 * `UsersTable` object, the audit log a sequence held by a `CookieLog` object.
 */
module Models {
  import opened Wrappers

  /*************************************************************************
   * The User record and its positional constructor
   *************************************************************************/

  /** A row of `users`, and the `User` record made from it, with the columns in
      the order `SELECT *` returns them. */
  datatype User = User(
    id: nat,
    username: string,
    email: string,
    passwordHash: string,
    confirmed: bool,
    confirmationToken: Option<string>,
    roles: Option<string>)

  /** A column value as the driver hands it over in a fetched row. */
  datatype SqlValue = SqlInt(i: int) | SqlText(s: string) | SqlBool(b: bool) | SqlNull

  /** Why `User(*args)` fails. `WrongArity` is Python's TypeError for the
      wrong number of positional arguments. `WrongColumnType` is the model's
      own refusal of a value its typed fields cannot hold: `__init__` checks
      no types, and no `Columns(u)` row reaches this case (ColumnsRoundTrip). */
  datatype ConstructError = WrongArity(given: nat) | WrongColumnType(column: nat)

  /** The column count of the `User` constructor. */
  const UserArity := 7

  function Nullable(o: Option<string>): SqlValue {
    match o
    case None => SqlNull
    case Some(s) => SqlText(s)
  }

  function FromNullable(v: SqlValue): Option<string>
    requires v.SqlText? || v.SqlNull?
  {
    if v.SqlText? then Some(v.s) else None
  }

  /** The row `SELECT * FROM users` yields for a stored user. */
  function Columns(u: User): seq<SqlValue> {
    [SqlInt(u.id), SqlText(u.username), SqlText(u.email), SqlText(u.passwordHash),
     SqlBool(u.confirmed), Nullable(u.confirmationToken), Nullable(u.roles)]
  }

  /** `User(*args)`: the k-th positional argument becomes the k-th field
      (id, username, email, password_hash, confirmed, confirmation_token, roles);
      any other number of arguments raises. */
  function UserOf(args: seq<SqlValue>): (r: Result<User, ConstructError>)
    ensures |args| != UserArity ==> r == Err(WrongArity(|args|))
    ensures r.Ok? ==> Columns(r.value) == args
  {
    if |args| != UserArity then Err(WrongArity(|args|))
    else if !(args[0].SqlInt? && args[0].i >= 0) then Err(WrongColumnType(0))
    else if !args[1].SqlText? then Err(WrongColumnType(1))
    else if !args[2].SqlText? then Err(WrongColumnType(2))
    else if !args[3].SqlText? then Err(WrongColumnType(3))
    else if !args[4].SqlBool? then Err(WrongColumnType(4))
    else if !(args[5].SqlText? || args[5].SqlNull?) then Err(WrongColumnType(5))
    else if !(args[6].SqlText? || args[6].SqlNull?) then Err(WrongColumnType(6))
    else Ok(User(args[0].i, args[1].s, args[2].s, args[3].s, args[4].b,
                 FromNullable(args[5]), FromNullable(args[6])))
  }

  /** Building a record from a fetched row gives back the stored row. */
  lemma ColumnsRoundTrip(u: User)
    ensures UserOf(Columns(u)) == Ok(u)
  {
  }

  /*************************************************************************
   * Lookups over the users table
   *************************************************************************/

  /** The column a `WHERE` clause compares. */
  datatype Key = IdIs(id: nat) | EmailIs(email: string) | TokenIs(token: string)

  /** Whether a row satisfies `WHERE <column> = <value>`; a NULL token matches
      no value. */
  predicate Matches(u: User, key: Key) {
    match key
    case IdIs(id) => u.id == id
    case EmailIs(e) => u.email == e
    case TokenIs(t) => u.confirmationToken == Some(t)
  }

  /** The index of the first row satisfying the `WHERE` clause, if any. */
  function Find(rows: seq<User>, key: Key): (r: Option<nat>)
    ensures r.Some? ==> r.value < |rows| && Matches(rows[r.value], key)
    ensures r.Some? ==> forall j :: 0 <= j < r.value ==> !Matches(rows[j], key)
    ensures r.None? <==> forall j :: 0 <= j < |rows| ==> !Matches(rows[j], key)
    decreases |rows|
  {
    if rows == [] then None
    else if Matches(rows[0], key) then Some(0)
    else
      match Find(rows[1..], key)
      case None => None
      case Some(k) => Some(k + 1)
  }

  /** The keys that single out one row: ids, emails and non-null tokens are
      pairwise distinct. */
  ghost predicate UniqueKeys(rows: seq<User>) {
    forall i, j :: 0 <= i < j < |rows| ==>
      && rows[i].id != rows[j].id
      && rows[i].email != rows[j].email
      && (rows[i].confirmationToken.None? || rows[i].confirmationToken != rows[j].confirmationToken)
  }

  /** Under `UniqueKeys` a row that matches is the only one, and the one a
      lookup returns. */
  lemma FindUnique(rows: seq<User>, key: Key, i: nat)
    requires UniqueKeys(rows) && i < |rows| && Matches(rows[i], key)
    ensures forall j :: 0 <= j < |rows| && Matches(rows[j], key) ==> j == i
    ensures Find(rows, key) == Some(i)
  {
  }

  /** `cur.execute("SELECT * ... WHERE <key>")`, `fetchone()`, `User(*data)`. */
  function Fetch(rows: seq<User>, key: Key): (r: Option<User>)
    ensures r.Some? <==> Find(rows, key).Some?
    ensures r.Some? ==> r.value == rows[Find(rows, key).value]
  {
    match Find(rows, key)
    case None => None
    case Some(i) =>
      ColumnsRoundTrip(rows[i]);
      match UserOf(Columns(rows[i]))
      case Ok(u) => Some(u)
      case Err(_) => None
  }

  /** `User.get`: the row with that id, or None. */
  function Get(rows: seq<User>, id: nat): (r: Option<User>)
    ensures r.Some? <==> exists i :: 0 <= i < |rows| && rows[i].id == id
    ensures r.Some? ==> r.value in rows && r.value.id == id
  {
    Fetch(rows, IdIs(id))
  }

  /** `User.get_by_email`: the row with that email, or None. */
  function GetByEmail(rows: seq<User>, email: string): (r: Option<User>)
    ensures r.Some? <==> exists i :: 0 <= i < |rows| && rows[i].email == email
    ensures r.Some? ==> r.value in rows && r.value.email == email
  {
    Fetch(rows, EmailIs(email))
  }

  /** Whether some row has that email. */
  ghost predicate EmailTaken(rows: seq<User>, email: string) {
    exists i :: 0 <= i < |rows| && rows[i].email == email
  }

  /** Whether no row holds that token: what a freshly drawn random token is. */
  ghost predicate TokenFresh(rows: seq<User>, token: string) {
    forall i :: 0 <= i < |rows| ==> rows[i].confirmationToken != Some(token)
  }

  /*************************************************************************
   * Password hashing
   *************************************************************************/

  /** The salted password hash: `generate(salt, password)` builds the stored
      string, `check(hash, password)` verifies a guess against it. */
  datatype Hasher = Hasher(generate: (string, string) -> string, check: (string, string) -> bool)

  /** A hash that verifies exactly the password it was made from. */
  ghost predicate Sound(h: Hasher) {
    forall salt, password, guess :: h.check(h.generate(salt, password), guess) <==> guess == password
  }

  /*************************************************************************
   * The users table and User.create
   *************************************************************************/

  datatype CreateError = DuplicateEmail | ConstructorFailed(e: ConstructError)

  /** The row `User.create` inserts, in its final form. The insert names four
      columns; `confirmed` and `roles` take their defaults, false and NULL. */
  function NewUser(id: nat, username: string, email: string, passwordHash: string, token: string): User {
    User(id, username, email, passwordHash, false, Some(token), None)
  }

  class UsersTable {
    var rows: seq<User>
    /** The next value of the `id` sequence. */
    var nextId: nat

    ghost predicate Valid()
      reads this
    {
      UniqueKeys(rows) && forall i :: 0 <= i < |rows| ==> rows[i].id < nextId
    }

    constructor ()
      ensures Valid() && rows == [] && nextId == 1
    {
      rows := [];
      nextId := 1;
    }

    /** `INSERT INTO users (...) RETURNING id`. The id is drawn from the
        sequence before the insert, so it is used up even when the email's
        uniqueness constraint refuses the row. */
    method Insert(username: string, email: string, passwordHash: string, token: string)
      returns (r: Result<nat, CreateError>)
      requires Valid() && TokenFresh(rows, token)
      modifies this
      ensures Valid() && nextId == old(nextId) + 1
      ensures EmailTaken(old(rows), email) ==> r == Err(DuplicateEmail) && rows == old(rows)
      ensures !EmailTaken(old(rows), email) ==>
        && r == Ok(old(nextId))
        && rows == old(rows) + [NewUser(old(nextId), username, email, passwordHash, token)]
    {
      var id := nextId;
      nextId := nextId + 1;
      if Find(rows, EmailIs(email)).Some? {
        r := Err(DuplicateEmail);
      } else {
        rows := rows + [NewUser(id, username, email, passwordHash, token)];
        r := Ok(id);
      }
    }

    /** `User.create` with the record built from all seven columns: the stored
        hash is made from the password, the token is the fresh one, and the
        returned record is the row that was committed. */
    method Create(username: string, email: string, password: string, salt: string, token: string, h: Hasher)
      returns (r: Result<User, CreateError>)
      requires Valid() && TokenFresh(rows, token)
      modifies this
      ensures Valid() && nextId == old(nextId) + 1
      ensures EmailTaken(old(rows), email) ==> r == Err(DuplicateEmail) && rows == old(rows)
      ensures !EmailTaken(old(rows), email) ==>
        && r.Ok? && rows == old(rows) + [r.value]
        && r.value == User(old(nextId), username, email, h.generate(salt, password), false, Some(token), None)
    {
      var passwordHash := h.generate(salt, password);
      var inserted := Insert(username, email, passwordHash, token);
      match inserted
      case Err(e) =>
        r := Err(e);
      case Ok(id) =>
        ColumnsRoundTrip(NewUser(id, username, email, passwordHash, token));
        var made := UserOf([SqlInt(id), SqlText(username), SqlText(email), SqlText(passwordHash),
                            SqlBool(false), SqlText(token), SqlNull]);
        r := match made case Ok(u) => Ok(u) case Err(e) => Err(ConstructorFailed(e));
    }

    /** `User.create` as app/models.py:67 writes it: the record is built from
        six arguments, so the constructor raises after the row was committed. */
    method CreateAsWritten(username: string, email: string, password: string, salt: string, token: string, h: Hasher)
      returns (r: Result<User, CreateError>)
      requires Valid() && TokenFresh(rows, token)
      modifies this
      ensures Valid() && nextId == old(nextId) + 1
      ensures r.Err?
      ensures EmailTaken(old(rows), email) ==> r == Err(DuplicateEmail) && rows == old(rows)
      ensures !EmailTaken(old(rows), email) ==>
        && r == Err(ConstructorFailed(WrongArity(6)))
        && rows == old(rows) + [NewUser(old(nextId), username, email, h.generate(salt, password), token)]
    {
      var passwordHash := h.generate(salt, password);
      var inserted := Insert(username, email, passwordHash, token);
      match inserted
      case Err(e) =>
        r := Err(e);
      case Ok(id) =>
        var made := UserOf([SqlInt(id), SqlText(username), SqlText(email), SqlText(passwordHash),
                            SqlBool(false), SqlText(token)]);
        r := match made case Ok(u) => Ok(u) case Err(e) => Err(ConstructorFailed(e));
    }
  }

  /** The record app/models.py:67 asks for cannot be built: six positional
      arguments where the constructor takes seven. */
  lemma CreateRecordAsWrittenFails(id: nat, username: string, email: string, passwordHash: string, token: string)
    ensures UserOf([SqlInt(id), SqlText(username), SqlText(email), SqlText(passwordHash),
                    SqlBool(false), SqlText(token)]) == Err(WrongArity(6))
  {
  }

  /*************************************************************************
   * Device string
   *************************************************************************/

  /** What the user-agent parser reports of the device; brand and model may be
      None. */
  datatype ParsedDevice = ParsedDevice(family: string, brand: Option<string>, model: Option<string>)

  /** How an f-string shows an optional string: None prints as "None". */
  function Show(o: Option<string>): string {
    match o
    case None => "None"
    case Some(s) => s
  }

  /** `get_device_info`: family, brand and model joined by single spaces. */
  function DeviceString(d: ParsedDevice): string {
    d.family + " " + Show(d.brand) + " " + Show(d.model)
  }

  /** Python's `s.split(' ')`: the pieces between single spaces. */
  function Split(s: string): (parts: seq<string>)
    ensures |parts| > 0
  {
    if s == [] then [""]
    else
      var rest := Split(s[1..]);
      if s[0] == ' ' then [""] + rest
      else [[s[0]] + rest[0]] + rest[1..]
  }

  /** A word without spaces splits off as one piece. */
  lemma {:induction false} SplitWord(a: string, b: string)
    requires ' ' !in a
    ensures Split(a + " " + b) == [a] + Split(b)
    ensures Split(a) == [a]
  {
    if a != [] {
      assert (a + " " + b)[1..] == a[1..] + " " + b;
      assert ' ' !in a[1..] by {
        forall k | 0 <= k < |a[1..]| ensures a[1..][k] != ' ' {
          assert a[1..][k] == a[k + 1];
        }
      }
      SplitWord(a[1..], b);
      assert [a[0]] + a[1..] == a;
    } else {
      assert a + " " + b == [' '] + b;
      assert ([' '] + b)[1..] == b;
    }
  }

  /** When no part contains a space, the device string splits back into
      family, brand and model. */
  lemma DeviceStringSplits(d: ParsedDevice)
    requires ' ' !in d.family && ' ' !in Show(d.brand) && ' ' !in Show(d.model)
    ensures Split(DeviceString(d)) == [d.family, Show(d.brand), Show(d.model)]
  {
    var f, b, m := d.family, Show(d.brand), Show(d.model);
    assert DeviceString(d) == f + " " + (b + " " + m);
    SplitWord(f, b + " " + m);
    SplitWord(b, m);
    SplitWord(m, "");
  }

  /*************************************************************************
   * The user_cookies audit log
   *************************************************************************/

  /** A row of `user_cookies`. */
  datatype CookieRow = CookieRow(
    userId: nat, cookieName: string, cookieValue: string, ipAddress: string,
    userAgent: string, device: string, country: string, timestamp: int)

  /** The country every audit row records ("ХЗ", Cyrillic for "dunno"). */
  const Country: string := "\U{0425}\U{0417}"

  /** The rows `save_user_cookies` writes for these cookies, in order; the k-th
      row carries the k-th reading of the clock. */
  function AuditRows(userId: nat, cookies: seq<(string, string)>, ip: string, userAgent: string,
                     device: string, clock: nat -> int): (r: seq<CookieRow>)
    ensures |r| == |cookies|
    ensures forall k :: 0 <= k < |cookies| ==>
      r[k] == CookieRow(userId, cookies[k].0, cookies[k].1, ip, userAgent, device, Country, clock(k))
  {
    if cookies == [] then []
    else
      var n := |cookies| - 1;
      AuditRows(userId, cookies[..n], ip, userAgent, device, clock)
        + [CookieRow(userId, cookies[n].0, cookies[n].1, ip, userAgent, device, Country, clock(n))]
  }

  class CookieLog {
    var rows: seq<CookieRow>

    constructor ()
      ensures rows == []
    {
      rows := [];
    }
  }

  /** `save_user_cookies`: one audit row per cookie, appended after the rows
      already there. The request's cookies, address, user agent, the parser's
      reading of the agent and the clock are parameters. */
  method SaveUserCookies(log: CookieLog, userId: nat, cookies: seq<(string, string)>, ip: string,
                         userAgent: string, parsed: ParsedDevice, clock: nat -> int)
    modifies log
    ensures log.rows == old(log.rows) + AuditRows(userId, cookies, ip, userAgent, DeviceString(parsed), clock)
    ensures old(log.rows) <= log.rows
    ensures |log.rows| == |old(log.rows)| + |cookies|
  {
    var device := DeviceString(parsed);
    var country := Country;
    for k := 0 to |cookies|
      invariant log.rows == old(log.rows) + AuditRows(userId, cookies[..k], ip, userAgent, device, clock)
    {
      var (name, value) := cookies[k];
      log.rows := log.rows + [CookieRow(userId, name, value, ip, userAgent, device, country, clock(k))];
      assert cookies[..k + 1][..k] == cookies[..k];
    }
    assert cookies[..|cookies|] == cookies;
  }
}
