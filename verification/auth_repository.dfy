/** The session logic over the local user table and the preference store: the login guard, the
    merge of the remote user into the local record, logout, and the profile update. The local
    table is an in-memory sequence of rows in rowid order, and the remote login call is a
    function parameter. */
module AuthRepository {
  import opened Wrappers
  import opened Text
  import opened HydroApi
  import opened AuthStore

  /** A row of `users_local`, with the columns the repository reads and writes. */
  datatype UserEntity = UserEntity(
    id: int,
    name: string,
    lastName: string,
    email: string,
    passwordPlain: string,
    avatarUri: Option<string>,
    phonePrefix: Option<string>,
    phone: Option<string>)

  /** The table: its rows in rowid order and the next id autogeneration hands out. */
  datatype Db = Db(rows: seq<UserEntity>, nextId: int)

  /** Ids are positive, below `nextId`, and unique. */
  predicate ValidDb(db: Db) {
    && db.nextId >= 1
    && (forall i :: 0 <= i < |db.rows| ==> 1 <= db.rows[i].id < db.nextId)
    && (forall i, j :: 0 <= i < j < |db.rows| ==> db.rows[i].id != db.rows[j].id)
  }

  /** The first row that satisfies `p`, as a `LIMIT 1` scan in rowid order finds it. */
  function FirstIndex(rows: seq<UserEntity>, p: UserEntity -> bool): (r: Option<nat>)
    ensures r.None? <==> forall i :: 0 <= i < |rows| ==> !p(rows[i])
    ensures r.Some? ==> r.value < |rows| && p(rows[r.value])
    ensures r.Some? ==> forall i :: 0 <= i < r.value ==> !p(rows[i])
  {
    if |rows| == 0 then None
    else if p(rows[0]) then Some(0)
    else match FirstIndex(rows[1..], p)
      case None => None
      case Some(k) => Some(k + 1)
  }

  /** `findByEmail`: the first row holding that email. */
  function FindByEmail(db: Db, email: string): (r: Option<UserEntity>)
    ensures r.None? <==> forall i :: 0 <= i < |db.rows| ==> db.rows[i].email != email
    ensures r.Some? ==> r.value in db.rows && r.value.email == email
  {
    match FirstIndex(db.rows, (u: UserEntity) => u.email == email)
    case None => None
    case Some(k) => Some(db.rows[k])
  }

  /** `findById`: the row with that primary key. */
  function FindById(db: Db, id: int): (r: Option<UserEntity>)
    ensures r.None? <==> forall i :: 0 <= i < |db.rows| ==> db.rows[i].id != id
    ensures r.Some? ==> r.value in db.rows && r.value.id == id
  {
    match FirstIndex(db.rows, (u: UserEntity) => u.id == id)
    case None => None
    case Some(k) => Some(db.rows[k])
  }

  lemma FindByIdAt(db: Db, i: nat)
    requires ValidDb(db) && i < |db.rows|
    ensures FindById(db, db.rows[i].id) == Some(db.rows[i])
  {
    var k := FirstIndex(db.rows, (u: UserEntity) => u.id == db.rows[i].id);
    assert k.Some?;
  }

  /** The table with the row keyed `u.id` replaced by `u` (`update`). */
  function ReplaceRow(db: Db, u: UserEntity): (r: Db)
    ensures |r.rows| == |db.rows| && r.nextId == db.nextId
    ensures forall i :: 0 <= i < |db.rows| ==> r.rows[i] == (if db.rows[i].id == u.id then u else db.rows[i])
  {
    Db(seq(|db.rows|, i requires 0 <= i < |db.rows| => if db.rows[i].id == u.id then u else db.rows[i]), db.nextId)
  }

  /** Replacing a row by its key keeps every id where it was. */
  lemma ReplaceRowValid(db: Db, u: UserEntity)
    requires ValidDb(db) && FindById(db, u.id).Some?
    ensures ValidDb(ReplaceRow(db, u))
    ensures forall i :: 0 <= i < |db.rows| ==> ReplaceRow(db, u).rows[i].id == db.rows[i].id
  {
  }

  /** Replacing a row by its key: the key now finds `u`, every other key finds what it found. */
  lemma ReplaceRowLookup(db: Db, u: UserEntity, k: int)
    requires ValidDb(db) && FindById(db, u.id).Some?
    ensures ValidDb(ReplaceRow(db, u))
    ensures FindById(ReplaceRow(db, u), k) == (if k == u.id then Some(u) else FindById(db, k))
  {
    var r := ReplaceRow(db, u);
    ReplaceRowValid(db, u);
    if k == u.id {
      var j :| 0 <= j < |db.rows| && db.rows[j] == FindById(db, u.id).value;
      assert r.rows[j] == u;
      FindByIdAt(r, j);
    } else {
      var m := FindById(db, k);
      if m.Some? {
        var i :| 0 <= i < |db.rows| && db.rows[i] == m.value;
        FindByIdAt(db, i);
        assert r.rows[i] == db.rows[i];
        FindByIdAt(r, i);
      }
    }
  }

  /** The table with `u` appended under the next free id (`insert` with an autogenerated key). */
  function InsertRow(db: Db, u: UserEntity): (r: Db)
    requires u.id == db.nextId
    ensures r.rows == db.rows + [u] && r.nextId == db.nextId + 1
  {
    Db(db.rows + [u], u.id + 1)
  }

  /** Inserting under the next free id keeps the ids positive, below `nextId` and unique. */
  lemma InsertRowValid(db: Db, u: UserEntity)
    requires ValidDb(db) && u.id == db.nextId
    ensures ValidDb(InsertRow(db, u))
  {
    var r := InsertRow(db, u);
    assert forall i :: 0 <= i < |db.rows| ==> r.rows[i] == db.rows[i];
    assert r.rows[|db.rows|] == u;
  }

  /** Inserting under the next free id: that id now finds `u`, every other id what it found. */
  lemma InsertRowLookup(db: Db, u: UserEntity, k: int)
    requires ValidDb(db) && u.id == db.nextId
    ensures ValidDb(InsertRow(db, u))
    ensures FindById(db, u.id).None?
    ensures FindById(InsertRow(db, u), k) == (if k == u.id then Some(u) else FindById(db, k))
  {
    var r := InsertRow(db, u);
    InsertRowValid(db, u);
    if k == u.id {
      FindByIdAt(r, |db.rows|);
    } else {
      var m := FindById(db, k);
      if m.Some? {
        var i :| 0 <= i < |db.rows| && db.rows[i] == m.value;
        FindByIdAt(db, i);
        assert r.rows[i] == db.rows[i];
        FindByIdAt(r, i);
      } else {
        assert forall i :: 0 <= i < |db.rows| ==> r.rows[i] == db.rows[i];
        assert r.rows[|db.rows|].id != k;
      }
    }
  }

  /** `upsert` as login uses it: a row with id 0 is inserted under a fresh id; a row with the id
      of an existing one replaces it. The result is the row id. */
  function Upsert(db: Db, e: UserEntity): (r: (Db, int))
    requires ValidDb(db)
    requires e.id == 0 || FindById(db, e.id).Some?
    ensures ValidDb(r.0)
    ensures FindById(r.0, r.1) == Some(e.(id := r.1))
    ensures e.id != 0 ==> r.1 == e.id
    ensures e.id == 0 ==> FindById(db, r.1).None?
    ensures forall k :: k != r.1 ==> FindById(r.0, k) == FindById(db, k)
  {
    if e.id == 0 then
      var u := e.(id := db.nextId);
      forall k ensures FindById(InsertRow(db, u), k) == (if k == u.id then Some(u) else FindById(db, k)) {
        InsertRowLookup(db, u, k);
      }
      InsertRowLookup(db, u, u.id);
      (InsertRow(db, u), u.id)
    else
      forall k ensures FindById(ReplaceRow(db, e), k) == (if k == e.id then Some(e) else FindById(db, k)) {
        ReplaceRowLookup(db, e, k);
      }
      ReplaceRowLookup(db, e, e.id);
      (ReplaceRow(db, e), e.id)
  }

  /** The record login stores: name and email from the server; last name, avatar and phone
      fields from the server when it sent them, otherwise from the existing row (or empty / none
      for a new one); the password is the one just typed. */
  function Merge(existing: Option<UserEntity>, remote: ApiUser, pass: string): (r: UserEntity)
    ensures r.name == remote.name && r.email == remote.email && r.passwordPlain == pass
    ensures existing.Some? ==> r.id == existing.value.id
    ensures existing.None? ==> r.id == 0
    ensures r.lastName == remote.lastName.GetOr(if existing.Some? then existing.value.lastName else "")
    ensures r.avatarUri == remote.avatarUrl.OrElse(if existing.Some? then existing.value.avatarUri else None)
    ensures r.phonePrefix == remote.phonePrefix.OrElse(if existing.Some? then existing.value.phonePrefix else None)
    ensures r.phone == remote.phone.OrElse(if existing.Some? then existing.value.phone else None)
  {
    match existing
    case Some(prev) =>
      prev.(
        name := remote.name,
        lastName := remote.lastName.GetOr(prev.lastName),
        email := remote.email,
        passwordPlain := pass,
        avatarUri := remote.avatarUrl.OrElse(prev.avatarUri),
        phonePrefix := remote.phonePrefix.OrElse(prev.phonePrefix),
        phone := remote.phone.OrElse(prev.phone))
    case None =>
      UserEntity(0, remote.name, remote.lastName.GetOr(""), remote.email, pass,
                 remote.avatarUrl, remote.phonePrefix, remote.phone)
  }

  /** What `login` leaves behind: its answer, the store, the table, and the credentials it sent
      to the server (`None` when it did not call it). */
  datatype LoginOutcome = LoginOutcome(ok: bool, prefs: Prefs, db: Db, sent: Option<(string, string)>)

  /** `login`: trims both inputs and refuses blank ones without calling the server; a failed or
      empty answer clears the session; otherwise the remote user is merged into the table and
      the session opened with its row id. */
  function Login(prefs: Prefs, db: Db, email: string, pass: string, remember: bool,
                 api: (string, string) -> Result<Option<ApiUser>, ApiError>): (r: LoginOutcome)
    requires ValidDb(db)
    ensures ValidDb(r.db)
    ensures r.sent.None? <==> IsBlank(Trim(email)) || IsBlank(Trim(pass))
    ensures r.sent.Some? ==> r.sent.value == (Trim(email), Trim(pass))
    ensures r.ok <==> r.sent.Some? && api(Trim(email), Trim(pass)).Ok? && api(Trim(email), Trim(pass)).value.Some?
    ensures r.sent.None? ==> r.prefs == prefs && r.db == db
    ensures r.sent.Some? && !r.ok ==> r.prefs == Clear(prefs) && r.db == db
  {
    var e := Trim(email);
    var p := Trim(pass);
    if IsBlank(e) || IsBlank(p) then LoginOutcome(false, prefs, db, None)
    else
      match api(e, p)
      case Ok(Some(remote)) =>
        var entity := Merge(FindByEmail(db, remote.email), remote, p);
        var (db', localId) := Upsert(db, entity);
        LoginOutcome(true, SetLoggedIn(prefs, localId, remote.email, remember), db', Some((e, p)))
      case _ => LoginOutcome(false, Clear(prefs), db, Some((e, p)))
  }

  /** A successful login opens the session on a row that holds the server's name and email and
      the trimmed password, and it is the row that already had that email when there was one. */
  lemma LoginSuccess(prefs: Prefs, db: Db, email: string, pass: string, remember: bool,
                     api: (string, string) -> Result<Option<ApiUser>, ApiError>)
    requires ValidDb(db)
    requires !IsBlank(Trim(email)) && !IsBlank(Trim(pass))
    requires api(Trim(email), Trim(pass)).Ok? && api(Trim(email), Trim(pass)).value.Some?
    ensures var out := Login(prefs, db, email, pass, remember, api);
      var remote := api(Trim(email), Trim(pass)).value.value;
      && State(out.prefs).isLoggedIn
      && State(out.prefs).userId.Some?
      && var row := FindById(out.db, State(out.prefs).userId.value);
      && row.Some?
      && row.value.name == remote.name
      && row.value.email == remote.email
      && row.value.passwordPlain == Trim(pass)
      && (FindByEmail(db, remote.email).Some? ==> row.value.id == FindByEmail(db, remote.email).value.id)
      && (remember <==> LastEmail(out.prefs) == Some(remote.email))
  {
  }

  /** `logout`: exactly `clear` on the store. */
  function Logout(prefs: Prefs): (r: Prefs)
    ensures State(r) == AuthState(false, None)
    ensures RememberPref(r) == RememberPref(prefs) && LastEmail(r) == LastEmail(prefs)
  {
    Clear(prefs)
  }

  /** `updateProfile`: nothing changes for an unknown id; otherwise every field is overwritten as
      given (nulls included), except that an absent or empty new password keeps the old one. */
  function UpdateProfile(db: Db, userId: int, name: string, lastName: string, email: string,
                         newPassword: Option<string>, avatarUri: Option<string>,
                         phonePrefix: Option<string>, phone: Option<string>): (r: Db)
    requires ValidDb(db)
    ensures ValidDb(r)
    ensures FindById(db, userId).None? ==> r == db
    ensures FindById(db, userId).Some? ==>
      var prev := FindById(db, userId).value;
      FindById(r, userId) == Some(UserEntity(
        userId, name, lastName, email,
        if newPassword.Some? && |newPassword.value| > 0 then newPassword.value else prev.passwordPlain,
        avatarUri, phonePrefix, phone))
    ensures forall k :: k != userId ==> FindById(r, k) == FindById(db, k)
  {
    match FindById(db, userId)
    case None => db
    case Some(current) =>
      var updated := current.(
        name := name,
        lastName := lastName,
        email := email,
        passwordPlain := if newPassword.Some? && |newPassword.value| > 0 then newPassword.value else current.passwordPlain,
        avatarUri := avatarUri,
        phonePrefix := phonePrefix,
        phone := phone);
      forall k ensures FindById(ReplaceRow(db, updated), k) == (if k == userId then Some(updated) else FindById(db, k)) {
        ReplaceRowLookup(db, updated, k);
      }
      ReplaceRow(db, updated)
  }
}
