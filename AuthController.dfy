/**
 * Sign-in, registration and sign-out. Login looks the credentials up in the
 * user table, stamps the user's last login and fills the session;
 * registration refuses a taken username or email and always creates an
 * active customer; logout empties the session.
 */
module AuthController {
  import opened Wrappers
  import opened Models
  import opened Seqs
  import opened Text
  import opened Sessions
  import opened Store

  const InvalidCredentialsMessage: string := "Invalid username or password"
  const UsernameTakenMessage: string := "Username already exists. Please choose a different username."
  const EmailTakenMessage: string := "Email already exists. Please use a different email."

  datatype LoginReply = LoginToAdmin | LoginToShop | LoginForm(error: string)

  /** `RedirectToAction("Login")`, or the form shown again with an error message when there is one. */
  datatype RegisterReply = RegisterToLogin | RegisterForm(error: Option<string>)

  // ---------------------------------------------------------------- login

  /** An exact, case-sensitive match of both credentials, on an active account. */
  predicate CredentialsMatch(u: User, username: string, password: string)
  {
    u.username == username && u.password == password && u.isActive
  }

  /** `Users.FirstOrDefault(u => u.Username == username && u.Password == password && u.IsActive)`. */
  function FindLoginUser(users: seq<User>, username: string, password: string): (r: Option<nat>)
    ensures r.Some? <==> exists k :: 0 <= k < |users| && CredentialsMatch(users[k], username, password)
    ensures r.Some? ==> r.value < |users| && CredentialsMatch(users[r.value], username, password)
  {
    FindFirst(users, (u: User) => CredentialsMatch(u, username, password))
  }

  /** With unique usernames the matching account is the only account of that name. */
  lemma LoginUserIsTheOnlyOneOfThatName(users: seq<User>, username: string, password: string)
    requires UsernamesUnique(users) && FindLoginUser(users, username, password).Some?
    ensures forall k :: 0 <= k < |users| && users[k].username == username ==> k == FindLoginUser(users, username, password).value
  {
  }

  /** The four session entries a successful login writes. */
  function LoginSession(values: map<string, string>, u: User): map<string, string>
  {
    values[UserIdKey := NatToString(u.id)][UsernameKey := u.username][UserRoleKey := u.role][UserFullNameKey := u.fullName]
  }

  /** After login the session names the user, and it passes the admin gate exactly when the user's role is "Admin". */
  lemma LoginSessionIdentifiesUser(values: map<string, string>, u: User)
    ensures var s := LoginSession(values, u);
      && WellFormed(s)
      && CurrentUserId(s) == Some(u.id)
      && GetString(s, UsernameKey) == Some(u.username)
      && GetString(s, UserFullNameKey) == Some(u.fullName)
      && (IsAdminSession(s) <==> u.role == RoleAdmin)
  {
    var s := LoginSession(values, u);
    assert s[UserIdKey] == NatToString(u.id);
    ParseNatToString(u.id);
  }

  /** Changing the last-login stamp changes neither name nor email, so both stay unique. */
  lemma StampKeepsUsersUnique(users: seq<User>, i: nat, now: Time)
    requires i < |users| && UsernamesUnique(users) && EmailsUnique(users)
    ensures UsernamesUnique(users[i := users[i].(lastLogin := now)])
    ensures EmailsUnique(users[i := users[i].(lastLogin := now)])
  {
  }

  method Login(db: Database, session: Session, username: string, password: string, now: Time) returns (r: LoginReply)
    requires db.Valid()
    modifies db`users, session
    ensures db.Valid()
    ensures match FindLoginUser(old(db.users), username, password)
      case None =>
        && r == LoginForm(InvalidCredentialsMessage)
        && db.users == old(db.users) && session.values == old(session.values)
      case Some(i) =>
        var u := old(db.users)[i];
        && db.users == old(db.users)[i := u.(lastLogin := now)]
        && session.values == LoginSession(old(session.values), u)
        && WellFormed(session.values)
        && r == if u.role == RoleAdmin then LoginToAdmin else LoginToShop
  {
    var found := FindLoginUser(db.users, username, password);
    if found.None? {
      return LoginForm(InvalidCredentialsMessage);
    }
    var i := found.value;
    var u := db.users[i];
    StampKeepsUsersUnique(db.users, i, now);
    db.users := db.users[i := u.(lastLogin := now)];
    session.SetString(UserIdKey, NatToString(u.id));
    session.SetString(UsernameKey, u.username);
    session.SetString(UserRoleKey, u.role);
    session.SetString(UserFullNameKey, u.fullName);
    LoginSessionIdentifiesUser(old(session.values), u);
    r := if u.role == RoleAdmin then LoginToAdmin else LoginToShop;
  }

  // ---------------------------------------------------------------- registration

  /** `Users.Any(u => u.Username == username)`. */
  predicate UsernameTaken(users: seq<User>, username: string)
  {
    exists k :: 0 <= k < |users| && users[k].username == username
  }

  /** `Users.Any(u => u.Email == email)`. */
  predicate EmailTaken(users: seq<User>, email: string)
  {
    exists k :: 0 <= k < |users| && users[k].email == email
  }

  /** The account `Register` stores: the submitted fields, but always an active customer, stamped `now`. */
  function NewUser(form: User, id: nat, now: Time): (r: User)
    ensures r.role == RoleCustomer && r.isActive && r.id == id && r.createdAt == now && r.lastLogin == now
    ensures r.(id := form.id, role := form.role, isActive := form.isActive, createdAt := form.createdAt, lastLogin := form.lastLogin) == form
  {
    form.(id := id, role := RoleCustomer, isActive := true, createdAt := now, lastLogin := now)
  }

  predicate IsAdmin(u: User)
  {
    u.role == RoleAdmin
  }

  function AdminCount(users: seq<User>): nat
  {
    Count(users, IsAdmin)
  }

  /** Registration never creates an administrator: the number of admin accounts stays as it was. */
  lemma RegistrationAddsNoAdmin(users: seq<User>, form: User, id: nat, now: Time)
    ensures AdminCount(users + [NewUser(form, id, now)]) == AdminCount(users)
  {
    FilterSnoc(users, NewUser(form, id, now), IsAdmin);
  }

  /** A fresh name and a fresh email keep both unique. */
  lemma AppendFreshUserKeepsUnique(users: seq<User>, u: User)
    requires UsernamesUnique(users) && EmailsUnique(users)
    requires !UsernameTaken(users, u.username) && !EmailTaken(users, u.email)
    ensures UsernamesUnique(users + [u]) && EmailsUnique(users + [u])
  {
    var all := users + [u];
    forall i, j | 0 <= i < j < |all|
      ensures all[i].username != all[j].username && all[i].email != all[j].email
    {
      if j == |users| {
        assert all[i] == users[i];
      }
    }
  }

  method Register(db: Database, form: User, modelValid: bool, now: Time) returns (r: RegisterReply)
    requires db.Valid()
    modifies db`users, db`nextUserId
    ensures db.Valid()
    ensures var users := old(db.users);
      if !modelValid then r == RegisterForm(None) && db.users == users && db.nextUserId == old(db.nextUserId)
      else if UsernameTaken(users, form.username) then
        r == RegisterForm(Some(UsernameTakenMessage)) && db.users == users && db.nextUserId == old(db.nextUserId)
      else if EmailTaken(users, form.email) then
        r == RegisterForm(Some(EmailTakenMessage)) && db.users == users && db.nextUserId == old(db.nextUserId)
      else
        && r == RegisterToLogin
        && db.users == users + [NewUser(form, old(db.nextUserId), now)]
        && db.nextUserId == old(db.nextUserId) + 1
  {
    if !modelValid {
      return RegisterForm(None);
    }
    if UsernameTaken(db.users, form.username) {
      return RegisterForm(Some(UsernameTakenMessage));
    }
    if EmailTaken(db.users, form.email) {
      return RegisterForm(Some(EmailTakenMessage));
    }
    var u := NewUser(form, db.nextUserId, now);
    AppendFreshUserKeepsUnique(db.users, u);
    db.users := db.users + [u];
    db.nextUserId := db.nextUserId + 1;
    r := RegisterToLogin;
  }

  // ---------------------------------------------------------------- logout

  /** `Session.Clear()`: afterwards nobody is signed in and the admin gate is closed. */
  method Logout(session: Session)
    modifies session
    ensures session.values == map[]
    ensures !LoggedIn(session.values) && !IsAdminSession(session.values)
  {
    session.Clear();
  }
}
