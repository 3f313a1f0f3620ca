/**
 * UserService: creating, overwriting, deleting and partially updating user rows under the
 * unique username and email columns.
 */
module UserService {
  import opened Wrappers
  import opened Text
  import opened Entities
  import opened Store
  import opened Checks

  /** validateUserFields: the username rule, then the email rule. */
  function CheckUser(user: UserData): (r: Outcome<Failure>)
    ensures r.Pass? <==> CheckUsername(user.username).Pass? && CheckEmail(user.email).Pass?
    ensures CheckUsername(user.username).Fail? ==> r == Fail(Invalid(Username))
    ensures CheckUsername(user.username).Pass? && CheckEmail(user.email).Fail? ==> r == Fail(Invalid(Email))
  {
    if CheckUsername(user.username).Fail? then CheckUsername(user.username)
    else CheckEmail(user.email)
  }

  /** checkUniqueConstraints: either value already in use throws. */
  function CheckUnique(t: Tables, username: string, email: string): (r: Outcome<Failure>)
    ensures r.Pass? <==> !UsernameTaken(t, username) && !EmailTaken(t, email)
    ensures r.Fail? ==> r.error == Taken
  {
    if UsernameTaken(t, username) || EmailTaken(t, email) then Fail(Taken) else Pass
  }

  /** Everything createUser checks before it saves. */
  function CreateUserGuard(t: Tables, user: UserData): (r: Outcome<Failure>)
    ensures r.Pass? <==>
              user.id.None? && CheckUser(user).Pass? &&
              !UsernameTaken(t, user.username.value) && !EmailTaken(t, user.email.value)
    ensures user.id.Some? ==> r == Fail(IdPresent)
    ensures user.id.None? && CheckUser(user).Fail? ==> r == CheckUser(user)
    ensures user.id.None? && CheckUser(user).Pass? && r.Fail? ==> r == Fail(Taken)
  {
    if user.id.Some? then Fail(IdPresent)
    else if CheckUser(user).Fail? then CheckUser(user)
    else CheckUnique(t, user.username.value, user.email.value)
  }

  /** The row a save of a new user inserts: createdAt stamped by @PrePersist, updatedAt null. */
  function NewUserRow(username: string, email: string, now: int): (r: UserRow)
    ensures r.username == username && r.email == email && r.createdAt == now && r.updatedAt.None?
  {
    UserRow(username, email, now, None)
  }

  /**
   * Everything updateUser checks before it saves: the user must exist and be valid, and a
   * username or email that differs from the stored one must not be in use.
   */
  function UpdateUserGuard(t: Tables, user: UserData): (r: Outcome<Failure>)
    ensures r.Pass? <==>
              user.id.Some? && user.id.value in t.users && CheckUser(user).Pass? &&
              (user.username.value != t.users[user.id.value].username ==> !UsernameTaken(t, user.username.value)) &&
              (user.email.value != t.users[user.id.value].email ==> !EmailTaken(t, user.email.value))
    ensures FindUser(t, user.id).Failure? ==> r == Found(FindUser(t, user.id))
    ensures FindUser(t, user.id).Success? && CheckUser(user).Fail? ==> r == CheckUser(user)
    ensures FindUser(t, user.id).Success? && CheckUser(user).Pass? && r.Fail? ==> r == Fail(Taken)
  {
    match FindUser(t, user.id)
    case Failure(e) => Fail(e)
    case Success(row) =>
      if CheckUser(user).Fail? then CheckUser(user)
      else if user.username.value != row.username && UsernameTaken(t, user.username.value) then Fail(Taken)
      else if user.email.value != row.email && EmailTaken(t, user.email.value) then Fail(Taken)
      else Pass
  }

  /** updateUser's overwrite of both fields, stamped by @PreUpdate only when something changed. */
  function SavedUser(row: UserRow, username: string, email: string, now: int): (r: UserRow)
    ensures r.username == username && r.email == email && r.createdAt == row.createdAt
    ensures row.username == username && row.email == email ==> r == row
    ensures row.username != username || row.email != email ==> r.updatedAt == Some(now)
  {
    if row.username == username && row.email == email then row
    else row.(username := username, email := email, updatedAt := Some(now))
  }

  /** createUser; returns the generated id. */
  method CreateUser(db: Database, user: UserData, now: int) returns (r: Result<int, Failure>)
    requires db.Valid()
    modifies db
    ensures db.Valid()
    ensures r.Failure? <==> CreateUserGuard(old(db.tables), user).Fail?
    ensures r.Failure? ==> r.error == CreateUserGuard(old(db.tables), user).error && db.tables == old(db.tables)
    ensures r.Success? ==> r.value !in old(db.tables.users)
    ensures r.Success? ==>
              db.tables == old(db.tables).(users := old(db.tables.users)[r.value :=
                NewUserRow(user.username.value, user.email.value, now)])
  {
    if user.id.Some? {
      return Failure(IdPresent);
    }
    var valid := CheckUser(user);
    if valid.Fail? {
      return Failure(valid.error);
    }
    var unique := CheckUnique(db.tables, user.username.value, user.email.value);
    if unique.Fail? {
      return Failure(unique.error);
    }
    var id := db.NewId();
    db.PutUser(id, NewUserRow(user.username.value, user.email.value, now));
    return Success(id);
  }

  /** updateUser: returns the saved row. */
  method UpdateUser(db: Database, user: UserData, now: int) returns (r: Result<UserRow, Failure>)
    requires db.Valid()
    modifies db`tables
    ensures db.Valid()
    ensures r.Failure? <==> UpdateUserGuard(old(db.tables), user).Fail?
    ensures r.Failure? ==> r.error == UpdateUserGuard(old(db.tables), user).error && db.tables == old(db.tables)
    ensures r.Success? ==>
              r.value == SavedUser(old(db.tables.users[user.id.value]), user.username.value, user.email.value, now) &&
              db.tables == old(db.tables).(users := old(db.tables.users)[user.id.value := r.value])
  {
    var existing := FindUser(db.tables, user.id);
    if existing.Failure? {
      return Failure(existing.error);
    }
    var valid := CheckUser(user);
    if valid.Fail? {
      return Failure(valid.error);
    }
    var k := user.id.value;
    var username := user.username.value;
    var email := user.email.value;
    if username != existing.value.username && UsernameTaken(db.tables, username) {
      return Failure(Taken);
    }
    if email != existing.value.email && EmailTaken(db.tables, email) {
      return Failure(Taken);
    }
    var saved := SavedUser(existing.value, username, email, now);
    assert FreeFor(db.tables.users, k, saved);
    db.PutUser(k, saved);
    return Success(saved);
  }

  /**
   * updateUsername: the username rule, the user must exist, then a bulk update by id. Nothing
   * checks uniqueness first: a username another user holds is refused by the unique column.
   */
  method UpdateUsername(db: Database, id: Option<int>, newUsername: Option<string>) returns (r: Outcome<Failure>)
    requires db.Valid()
    modifies db`tables
    ensures db.Valid()
    ensures r.Pass? <==>
              CheckUsername(newUsername).Pass? && id.Some? && id.value in old(db.tables.users) &&
              (forall j :: j in old(db.tables.users) && j != id.value ==> old(db.tables.users[j]).username != newUsername.value)
    ensures CheckUsername(newUsername).Fail? ==> r == Fail(Invalid(Username))
    ensures CheckUsername(newUsername).Pass? && FindUser(old(db.tables), id).Failure? ==> r == Found(FindUser(old(db.tables), id))
    ensures CheckUsername(newUsername).Pass? && FindUser(old(db.tables), id).Success? && r.Fail? ==> r == Fail(PersistenceFailure)
    ensures r.Fail? ==> db.tables == old(db.tables)
    ensures r.Pass? ==> db.tables == old(db.tables).(users := old(db.tables.users)[id.value :=
              old(db.tables.users[id.value]).(username := newUsername.value)])
  {
    var valid := CheckUsername(newUsername);
    if valid.Fail? {
      return valid;
    }
    var user := FindUser(db.tables, id);
    if user.Failure? {
      return Fail(user.error);
    }
    var k := id.value;
    var row := user.value.(username := newUsername.value);
    NewUsernameFree(db.tables.users, k, newUsername.value);
    if !FreeFor(db.tables.users, k, row) {
      return Fail(PersistenceFailure);
    }
    db.PutUser(k, row);
    return Pass;
  }

  /**
   * updateEmail: the email rule, the user must exist, then a bulk update by id. Nothing checks
   * uniqueness first: an email another user holds is refused by the unique column.
   */
  method UpdateEmail(db: Database, id: Option<int>, newEmail: Option<string>) returns (r: Outcome<Failure>)
    requires db.Valid()
    modifies db`tables
    ensures db.Valid()
    ensures r.Pass? <==>
              CheckEmail(newEmail).Pass? && id.Some? && id.value in old(db.tables.users) &&
              (forall j :: j in old(db.tables.users) && j != id.value ==> old(db.tables.users[j]).email != newEmail.value)
    ensures CheckEmail(newEmail).Fail? ==> r == Fail(Invalid(Email))
    ensures CheckEmail(newEmail).Pass? && FindUser(old(db.tables), id).Failure? ==> r == Found(FindUser(old(db.tables), id))
    ensures CheckEmail(newEmail).Pass? && FindUser(old(db.tables), id).Success? && r.Fail? ==> r == Fail(PersistenceFailure)
    ensures r.Fail? ==> db.tables == old(db.tables)
    ensures r.Pass? ==> db.tables == old(db.tables).(users := old(db.tables.users)[id.value :=
              old(db.tables.users[id.value]).(email := newEmail.value)])
  {
    var valid := CheckEmail(newEmail);
    if valid.Fail? {
      return valid;
    }
    var user := FindUser(db.tables, id);
    if user.Failure? {
      return Fail(user.error);
    }
    var k := id.value;
    var row := user.value.(email := newEmail.value);
    NewEmailFree(db.tables.users, k, newEmail.value);
    if !FreeFor(db.tables.users, k, row) {
      return Fail(PersistenceFailure);
    }
    db.PutUser(k, row);
    return Pass;
  }

  /** deleteUser: the user must exist and own no board; then exactly that row goes. */
  method DeleteUser(db: Database, id: Option<int>) returns (r: Outcome<Failure>)
    requires db.Valid()
    modifies db`tables
    ensures db.Valid()
    ensures r.Pass? <==> id.Some? && id.value in old(db.tables.users) && BoardsOf(old(db.tables), id.value) == {}
    ensures r.Fail? && FindUser(old(db.tables), id).Failure? ==> r == Found(FindUser(old(db.tables), id))
    ensures r.Fail? && FindUser(old(db.tables), id).Success? ==> r == Fail(OwnsBoards)
    ensures r.Fail? ==> db.tables == old(db.tables)
    ensures r.Pass? ==> db.tables == old(db.tables).(users := old(db.tables.users) - {id.value})
  {
    var user := FindUser(db.tables, id);
    if user.Failure? {
      return Fail(user.error);
    }
    if BoardsOf(db.tables, id.value) != {} {
      return Fail(OwnsBoards);
    }
    db.tables := DeleteUserRow(db.tables, id.value);
    return Pass;
  }

  // ---- properties ----

  /** A username shorter than three characters is refused, whatever its characters. */
  lemma ShortUsernameIsRefused(username: string)
    requires |username| < 3
    ensures CheckUsername(Some(username)).Fail?
  {
  }

  /** Length is counted before trimming: three characters around spaces pass. */
  lemma PaddedUsernameIsAccepted()
    ensures CheckUsername(Some(" a ")).Pass?
  {
    assert !IsSpace(" a "[1]);
  }

  /** Re-saving a user's own username and email never reports them as taken. */
  lemma OwnValuesAreNeverTaken(t: Tables, k: int)
    requires k in t.users
    requires CheckUser(UserData(Some(k), Some(t.users[k].username), Some(t.users[k].email))).Pass?
    ensures UpdateUserGuard(t, UserData(Some(k), Some(t.users[k].username), Some(t.users[k].email))).Pass?
  {
  }

  /**
   * updateUser and updateUsername disagree on a username another user holds: the first refuses
   * it as taken before touching the store, the second only fails on the unique column.
   */
  lemma TakenUsernameRefusedBothWays(t: Tables, k: int, j: int, email: string)
    requires UniqueAccounts(t.users) && k in t.users && j in t.users && k != j
    requires CheckUser(UserData(Some(k), Some(t.users[j].username), Some(email))).Pass?
    ensures UpdateUserGuard(t, UserData(Some(k), Some(t.users[j].username), Some(email))) == Fail(Taken)
    ensures !FreeFor(t.users, k, t.users[k].(username := t.users[j].username))
  {
    assert UsernameTaken(t, t.users[j].username);
    assert t.users[j].username != t.users[k].username;
  }
}
