/**
 * The request handlers of app/routes.py that hold logic: the login decision,
 * the token handlers that confirm an account, issue a reset token and reset
 * the password, and the photo branches of `upload` and `edit`.
 *
 * The handlers work on the in-memory tables of module Models. Each token
 * handler is a method that changes the `users` table as a pure function of
 * the old rows describes; the properties of the token lifecycle are lemmas
 * about those functions.
 */
module Routes {
  import opened Wrappers
  import opened Models
  import opened Normaliser

  /** The HTTP method of the request. */
  datatype HttpMethod = HttpGet | HttpPost

  /** Whether some row's token is exactly this one. */
  ghost predicate HasToken(rows: seq<User>, token: string) {
    exists i :: 0 <= i < |rows| && Matches(rows[i], TokenIs(token))
  }

  /*************************************************************************
   * Login
   *************************************************************************/

  datatype LoginOutcome =
    | LoggedIn(id: nat)       // login_user, then to the index
    | ConfirmEmailFirst       // right password, email not yet confirmed
    | WrongLogin              // no such email, or a wrong password

  function LoginDecision(user: Option<User>, password: string, h: Hasher): LoginOutcome {
    if user.Some? && h.check(user.value.passwordHash, password) then
      if user.value.confirmed then LoggedIn(user.value.id) else ConfirmEmailFirst
    else WrongLogin
  }

  /** The POST branch of `login`: the account with that email, the password
      checked against its hash, then its confirmed flag. */
  function Login(rows: seq<User>, email: string, password: string, h: Hasher): (r: LoginOutcome)
    requires UniqueKeys(rows)
    ensures r.LoggedIn? <==> exists i :: 0 <= i < |rows| && rows[i].email == email
                                         && h.check(rows[i].passwordHash, password) && rows[i].confirmed
    ensures r.LoggedIn? ==> exists i :: 0 <= i < |rows| && rows[i].email == email && rows[i].id == r.id
    ensures r == ConfirmEmailFirst <==> exists i :: 0 <= i < |rows| && rows[i].email == email
                                         && h.check(rows[i].passwordHash, password) && !rows[i].confirmed
    ensures r == WrongLogin <==> forall i :: 0 <= i < |rows| && rows[i].email == email
                                         ==> !h.check(rows[i].passwordHash, password)
  {
    var found := Find(rows, EmailIs(email));
    assert found.Some? ==> forall j :: 0 <= j < |rows| && Matches(rows[j], EmailIs(email)) ==> j == found.value by {
      if found.Some? {
        FindUnique(rows, EmailIs(email), found.value);
      }
    }
    LoginDecision(GetByEmail(rows, email), password, h)
  }

  /*************************************************************************
   * Email confirmation
   *************************************************************************/

  /** A confirmed account: flag set, token cleared. */
  function Confirm(u: User): User {
    u.(confirmed := true, confirmationToken := None)
  }

  /** The `users` table after `/confirm/<token>`: the row holding the token is
      confirmed and loses its token, every other row is as it was, and no row
      holds the token any more. */
  function ConfirmRows(rows: seq<User>, token: string): (r: seq<User>)
    requires UniqueKeys(rows)
    ensures |r| == |rows|
    ensures forall i :: 0 <= i < |rows| ==>
      r[i] == if Matches(rows[i], TokenIs(token)) then Confirm(rows[i]) else rows[i]
    ensures UniqueKeys(r)
    ensures !HasToken(r, token)
  {
    match Find(rows, TokenIs(token))
    case None => rows
    case Some(i) =>
      FindUnique(rows, TokenIs(token), i);
      rows[i := Confirm(rows[i])]
  }

  datatype ConfirmOutcome = Confirmed | InvalidConfirmLink

  /** `confirm_email`: find the row holding the token, set `confirmed` and
      clear the token in the record, and write both back by id. */
  method ConfirmEmail(db: UsersTable, token: string) returns (outcome: ConfirmOutcome)
    requires db.Valid()
    modifies db
    ensures db.Valid() && db.nextId == old(db.nextId)
    ensures outcome == Confirmed <==> HasToken(old(db.rows), token)
    ensures db.rows == ConfirmRows(old(db.rows), token)
  {
    var found := Find(db.rows, TokenIs(token));
    if found.None? {
      outcome := InvalidConfirmLink;
    } else {
      var i := found.value;
      var user := db.rows[i];
      user := user.(confirmed := true);
      user := user.(confirmationToken := None);
      db.rows := db.rows[i := user];
      outcome := Confirmed;
    }
  }

  /** A token confirms once: a second visit to the same link changes nothing
      and finds no account. */
  lemma ConfirmSingleUse(rows: seq<User>, token: string)
    requires UniqueKeys(rows)
    ensures ConfirmRows(ConfirmRows(rows, token), token) == ConfirmRows(rows, token)
    ensures !HasToken(ConfirmRows(rows, token), token)
  {
  }

  /*************************************************************************
   * Password reset request
   *************************************************************************/

  /** The `users` table after a reset request for `email` with the fresh
      `token`: that account's token is overwritten, every other row is as it
      was. */
  function RequestResetRows(rows: seq<User>, email: string, token: string): (r: seq<User>)
    requires UniqueKeys(rows) && TokenFresh(rows, token)
    ensures |r| == |rows|
    ensures forall i :: 0 <= i < |rows| ==>
      r[i] == if rows[i].email == email then rows[i].(confirmationToken := Some(token)) else rows[i]
    ensures UniqueKeys(r)
  {
    match Find(rows, EmailIs(email))
    case None => rows
    case Some(i) =>
      FindUnique(rows, EmailIs(email), i);
      rows[i := rows[i].(confirmationToken := Some(token))]
  }

  /** A reset request retires the account's earlier token, whether it was a
      confirmation link or an earlier reset link; only the new token now
      selects a row, and that row is the account's. */
  lemma ResetRequestRetiresEarlierToken(rows: seq<User>, email: string, token: string, earlier: string)
    requires UniqueKeys(rows) && TokenFresh(rows, token)
    requires exists i :: 0 <= i < |rows| && rows[i].email == email && rows[i].confirmationToken == Some(earlier)
    ensures !HasToken(RequestResetRows(rows, email, token), earlier)
    ensures HasToken(RequestResetRows(rows, email, token), token)
    ensures forall i :: 0 <= i < |rows| && Matches(RequestResetRows(rows, email, token)[i], TokenIs(token)) ==>
      rows[i].email == email
  {
  }

  /** The token column is shared, so a reset link also works as a
      confirmation link: confirming with the reset token confirms the account
      it was issued for. */
  lemma ResetTokenConfirms(rows: seq<User>, email: string, token: string, i: nat)
    requires UniqueKeys(rows) && TokenFresh(rows, token)
    requires i < |rows| && rows[i].email == email
    ensures ConfirmRows(RequestResetRows(rows, email, token), token)[i] == Confirm(rows[i])
  {
  }

  datatype ResetRequestOutcome = ResetRequestForm | ResetMailSent(recipient: string) | UnknownEmail

  /** `reset_password_request`: on POST, an account with that email gets the
      fresh token (and a mail with the reset link); otherwise nothing changes. */
  method ResetPasswordRequest(db: UsersTable, httpMethod: HttpMethod, email: string, token: string)
    returns (outcome: ResetRequestOutcome)
    requires db.Valid() && TokenFresh(db.rows, token)
    modifies db
    ensures db.Valid() && db.nextId == old(db.nextId)
    ensures httpMethod == HttpGet ==> outcome == ResetRequestForm && db.rows == old(db.rows)
    ensures httpMethod == HttpPost ==>
      && (outcome == ResetMailSent(email) <==> EmailTaken(old(db.rows), email))
      && (outcome == UnknownEmail <==> !EmailTaken(old(db.rows), email))
      && db.rows == RequestResetRows(old(db.rows), email, token)
  {
    if httpMethod == HttpGet {
      outcome := ResetRequestForm;
      return;
    }
    var user := GetByEmail(db.rows, email);
    if user.Some? {
      var i := Find(db.rows, EmailIs(email)).value;
      db.rows := db.rows[i := db.rows[i].(confirmationToken := Some(token))];
      outcome := ResetMailSent(user.value.email);
    } else {
      outcome := UnknownEmail;
    }
  }

  /*************************************************************************
   * Password reset
   *************************************************************************/

  /** The `users` table after a reset with `token`: the row holding the token
      gets the new hash and loses its token, its `confirmed` flag untouched;
      every other row is as it was. */
  function ResetPasswordRows(rows: seq<User>, token: string, newHash: string): (r: seq<User>)
    requires UniqueKeys(rows)
    ensures |r| == |rows|
    ensures forall i :: 0 <= i < |rows| ==>
      r[i] == if Matches(rows[i], TokenIs(token))
              then rows[i].(passwordHash := newHash, confirmationToken := None)
              else rows[i]
    ensures UniqueKeys(r)
    ensures !HasToken(r, token)
  {
    match Find(rows, TokenIs(token))
    case None => rows
    case Some(i) =>
      FindUnique(rows, TokenIs(token), i);
      rows[i := rows[i].(passwordHash := newHash, confirmationToken := None)]
  }

  datatype ResetOutcome = InvalidResetLink | NewPasswordForm | PasswordChanged

  /** `reset_password`: an unknown token is refused; a GET with a known token
      shows the form; a POST stores the hash of the new password and clears
      the token. */
  method ResetPassword(db: UsersTable, token: string, httpMethod: HttpMethod,
                       newPassword: string, salt: string, h: Hasher)
    returns (outcome: ResetOutcome)
    requires db.Valid()
    modifies db
    ensures db.Valid() && db.nextId == old(db.nextId)
    ensures outcome == InvalidResetLink <==> !HasToken(old(db.rows), token)
    ensures outcome == PasswordChanged <==> HasToken(old(db.rows), token) && httpMethod == HttpPost
    ensures db.rows == if outcome == PasswordChanged
                       then ResetPasswordRows(old(db.rows), token, h.generate(salt, newPassword))
                       else old(db.rows)
  {
    var found := Find(db.rows, TokenIs(token));
    if found.None? {
      outcome := InvalidResetLink;
      return;
    }
    if httpMethod == HttpPost {
      var newHash := h.generate(salt, newPassword);
      var i := found.value;
      db.rows := db.rows[i := db.rows[i].(passwordHash := newHash, confirmationToken := None)];
      outcome := PasswordChanged;
    } else {
      outcome := NewPasswordForm;
    }
  }

  /** After a reset the account logs in with the new password, and no longer
      with any other, as long as it was confirmed. */
  lemma ResetThenLogin(rows: seq<User>, token: string, newPassword: string, salt: string,
                       guess: string, h: Hasher, i: nat)
    requires UniqueKeys(rows) && Sound(h)
    requires i < |rows| && Matches(rows[i], TokenIs(token))
    ensures var after := ResetPasswordRows(rows, token, h.generate(salt, newPassword));
      && (Login(after, rows[i].email, guess, h).LoggedIn? <==> rows[i].confirmed && guess == newPassword)
      && after[i].confirmed == rows[i].confirmed
  {
  }

  /*************************************************************************
   * A session: register, confirm, confirm again, log in
   *************************************************************************/

  /** Registering alice, then visiting her confirmation link twice: the first
      visit confirms, the second finds no account; before the confirmation
      her right password gets the confirm-email answer, after it a login. */
  method RegisterAndConfirm(h: Hasher)
    returns (early: LoginOutcome, first: ConfirmOutcome, second: ConfirmOutcome, late: LoginOutcome)
    requires Sound(h)
    ensures early == ConfirmEmailFirst
    ensures first == Confirmed && second == InvalidConfirmLink
    ensures late == LoggedIn(1)
  {
    var db := new UsersTable();
    var created := db.Create("alice", "a@x.com", "pw123", "salt", "T", h);
    assert db.rows[0].email == "a@x.com";
    early := Login(db.rows, "a@x.com", "pw123", h);
    first := ConfirmEmail(db, "T");
    second := ConfirmEmail(db, "T");
    assert db.rows[0].email == "a@x.com";
    late := Login(db.rows, "a@x.com", "pw123", h);
  }

  /*************************************************************************
   * Instruments: the photo branches of upload and edit
   *************************************************************************/

  /** A row of `instruments`. */
  datatype Instrument = Instrument(
    name: string, description: string, photo: Option<seq<byte>>,
    storageLocationId: string, userId: nat)

  class InstrumentTable {
    var rows: map<nat, Instrument>
    /** The next value of the `id` sequence. */
    var nextId: nat

    ghost predicate Valid()
      reads this
    {
      forall id :: id in rows ==> id < nextId
    }

    constructor ()
      ensures Valid() && rows == map[] && nextId == 1
    {
      rows := map[];
      nextId := 1;
    }
  }

  /** The photo column after a request: a new upload is normalised, no upload
      leaves what was there. */
  function PhotoAfter(stored: Option<seq<byte>>, upload: Option<Image>, codec: Codec): Option<seq<byte>> {
    match upload
    case None => stored
    case Some(img) => Some(Normalized(img, codec))
  }

  /** `upload` (POST): a new instrument row whose photo is the normalised
      upload, or NULL when no file was sent. */
  method Upload(table: InstrumentTable, name: string, description: string, storageLocationId: string,
                upload: Option<Image>, userId: nat, codec: Codec)
    requires table.Valid()
    modifies table
    ensures table.Valid() && table.nextId == old(table.nextId) + 1
    ensures old(table.nextId) !in old(table.rows)
    ensures table.rows == old(table.rows)[old(table.nextId) :=
      Instrument(name, description, PhotoAfter(None, upload, codec), storageLocationId, userId)]
  {
    var photo: Option<seq<byte>>;
    match upload {
      case Some(image) =>
        ghost var tried;
        var bytes;
        bytes, tried := Normalize(image, codec);
        photo := Some(bytes);
      case None =>
        photo := None;
    }
    table.rows := table.rows[table.nextId := Instrument(name, description, photo, storageLocationId, userId)];
    table.nextId := table.nextId + 1;
  }

  datatype EditOutcome = Saved | InstrumentMissing

  /** `edit` (POST): the new photo is the normalised upload; with no upload
      the stored photo is read back and kept, which fails when the instrument
      does not exist (`fetchone()` gives None). With an upload, an unknown id
      updates no row. The owner is never changed. */
  method Edit(table: InstrumentTable, instrumentId: nat, name: string, description: string,
              storageLocationId: string, upload: Option<Image>, codec: Codec)
    returns (outcome: EditOutcome)
    requires table.Valid()
    modifies table
    ensures table.Valid() && table.nextId == old(table.nextId)
    ensures outcome == InstrumentMissing <==> upload.None? && instrumentId !in old(table.rows)
    ensures instrumentId !in old(table.rows) ==> table.rows == old(table.rows)
    ensures instrumentId in old(table.rows) ==>
      var before := old(table.rows)[instrumentId];
      table.rows == old(table.rows)[instrumentId :=
        Instrument(name, description, PhotoAfter(before.photo, upload, codec), storageLocationId, before.userId)]
  {
    var photo: Option<seq<byte>>;
    match upload {
      case Some(image) =>
        ghost var tried;
        var bytes;
        bytes, tried := Normalize(image, codec);
        photo := Some(bytes);
      case None =>
        if instrumentId !in table.rows {
          outcome := InstrumentMissing;
          return;
        }
        photo := table.rows[instrumentId].photo;
    }
    if instrumentId in table.rows {
      var before := table.rows[instrumentId];
      table.rows := table.rows[instrumentId := Instrument(name, description, photo, storageLocationId, before.userId)];
    }
    outcome := Saved;
  }
}
