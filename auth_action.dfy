/**
 * The two server actions behind the login and sign-up forms, over a store of users.
 * Sign-up looks the email up, hashes the password and saves a new user document;
 * login looks the email up and compares the password with the stored hash.
 * The password hash and its comparison are the store's two function constants:
 * nothing is assumed of them except that a password matches its own hash and
 * that a hash is 60 characters long.
 */
module AuthAction {
  import opened Wrappers
  import opened JsString
  import opened UserModel

  /** What the actions return about a user: never the password. */
  datatype SessionUser = SessionUser(id: UserId, email: string, username: string, role: Role)

  /** Why `save` throws: a failed validator, or a second user with the same username (unique index). */
  datatype SaveError = ValidationFailed(errors: seq<FieldError>) | DuplicateUsername

  datatype AuthOutcome =
    | Succeeded(message: string, user: SessionUser)
    | Failed(error: string)
    | Threw(cause: SaveError)

  const InvalidCredentials: string := "Invalid email or password"
  const UserExists: string := "User already exists"
  const LoginSuccessful: string := "Login successful"
  const RegistrationSuccessful: string := "Registration successful"

  function Session(u: User): SessionUser {
    SessionUser(u.id, u.email, u.username, u.role)
  }

  /** The properties of bcrypt the actions rely on. */
  ghost predicate BcryptLike(hash: string -> string, compare: (string, string) -> bool) {
    forall p :: compare(p, hash(p)) && |hash(p)| == 60
  }

  /** What every saved user satisfies, and ids below `nextId`. */
  ghost predicate StoreInvariant(users: seq<User>, nextId: nat) {
    && UniqueKeys(users)
    && forall i | 0 <= i < |users| :: ValidUser(users[i]) && users[i].id < nextId
  }

  predicate UsernameTaken(users: seq<User>, name: string) {
    exists i | 0 <= i < |users| :: users[i].username == name
  }

  /** The login action's answer for a store. */
  function LoginResult(users: seq<User>, compare: (string, string) -> bool, email: string, password: string): AuthOutcome {
    var found := FindByEmail(users, email);
    if found.None? then Failed(InvalidCredentials)
    else if !compare(password, users[found.value].password) then Failed(InvalidCredentials)
    else Succeeded(LoginSuccessful, Session(users[found.value]))
  }

  /** The document the sign-up action builds (the role is passed through as given). */
  function SignUpDocument(hash: string -> string, username: string, email: string, password: string, role: Option<Role>, now: int): UserInput {
    UserInput(Some(username), Some(email), Some(hash(password)),
              if role.Some? then Some(RoleName(role.value)) else None, Some(now))
  }

  /** No stored user has the email. */
  predicate EmailFree(users: seq<User>, email: string) {
    forall i | 0 <= i < |users| :: users[i].email != email
  }

  /** The fields the record's validators accept: a role, a matching email, a non-blank username and a non-empty hash. */
  predicate SignUpFieldsValid(hash: string -> string, username: string, email: string, password: string, role: Option<Role>) {
    role.Some? && MatchesEmailPattern(email) && Trim(username) != "" && hash(password) != ""
  }

  /** The sign-up action's new store and answer. */
  function SignUpResult(users: seq<User>, hash: string -> string, id: UserId, now: int,
                        username: string, email: string, password: string, role: Option<Role>): (res: (seq<User>, AuthOutcome))
    ensures res.1.Failed? <==> !EmailFree(users, email)
    ensures res.1.Failed? ==> res.1.error == UserExists
    ensures res.1.Succeeded? <==>
      EmailFree(users, email) && SignUpFieldsValid(hash, username, email, password, role) && !UsernameTaken(users, Trim(username))
    ensures (res.1.Threw? && res.1.cause.ValidationFailed?) <==>
      EmailFree(users, email) && !SignUpFieldsValid(hash, username, email, password, role)
    ensures res.1.Threw? && res.1.cause.ValidationFailed? ==>
      res.1.cause.errors != [] && (RoleRequired in res.1.cause.errors <==> role.None?)
      && (UsernameRequired in res.1.cause.errors <==> Trim(username) == "")
      && (EmailInvalid in res.1.cause.errors <==> email != "" && !MatchesEmailPattern(email))
    ensures res.1 == Threw(DuplicateUsername) <==>
      EmailFree(users, email) && SignUpFieldsValid(hash, username, email, password, role) && UsernameTaken(users, Trim(username))
    ensures !res.1.Succeeded? ==> res.0 == users
    ensures res.1.Succeeded? ==>
      && |res.0| == |users| + 1 && res.0[..|users|] == users
      && var u := res.0[|users|];
      && u.email == email && u.username == Trim(username) && Some(u.role) == role
      && u.password == hash(password) && u.id == id && u.createdAt == now && HasDefaults(u) && ValidUser(u)
      && res.1 == Succeeded(RegistrationSuccessful, Session(u))
  {
    if FindByEmail(users, email).Some? then (users, Failed(UserExists))
    else
      SignUpValidation(hash, username, email, password, role, id, now);
      var input := SignUpDocument(hash, username, email, password, role, now);
      match CreateUser(input, id, now)
      case Err(errs) => (users, Threw(ValidationFailed(errs)))
      case Ok(u) =>
        if UsernameTaken(users, u.username) then (users, Threw(DuplicateUsername))
        else (users + [u], Succeeded(RegistrationSuccessful, Session(u)))
  }

  /** Which of the sign-up document's fields the record's validators refuse. */
  lemma SignUpValidation(hash: string -> string, username: string, email: string, password: string, role: Option<Role>,
                         id: UserId, now: int)
    ensures var input := SignUpDocument(hash, username, email, password, role, now);
      var r := CreateUser(input, id, now);
      && (r.Ok? <==> SignUpFieldsValid(hash, username, email, password, role))
      && (r.Err? ==> r.error != [] && (RoleRequired in r.error <==> role.None?)
                     && (UsernameRequired in r.error <==> Trim(username) == "")
                     && (EmailInvalid in r.error <==> email != "" && !MatchesEmailPattern(email)))
  {
    var input := SignUpDocument(hash, username, email, password, role, now);
    if MatchesEmailPattern(email) {
      var a, k :| 0 < a && a + 1 < k < |email| - 1 && email[a] == '@';
      assert email != "";
    }
    assert Present(input.role) <==> role.Some? by {
      if role.Some? {
        assert RoleName(role.value) in RoleNames;
      }
    }
    assert Present(input.role) ==> input.role.value in RoleNames;
    var r := CreateUser(input, id, now);
    assert r.Ok? <==> SignUpFieldsValid(hash, username, email, password, role);
    if r.Err? {
      var errs := ValidationErrors(input);
      assert r.error == errs;
      assert RoleRequired in errs <==> role.None?;
      assert UsernameRequired in errs <==> Trim(username) == "";
      assert EmailInvalid in errs <==> email != "" && !MatchesEmailPattern(email);
    }
  }

  /** Sign-up without a role fails at save: the role is optional in the form but required in the record. */
  lemma SignUpWithoutRoleThrows(users: seq<User>, hash: string -> string, id: UserId, now: int,
                                username: string, email: string, password: string)
    requires forall i | 0 <= i < |users| :: users[i].email != email
    ensures SignUpResult(users, hash, id, now, username, email, password, None).1.Threw?
    ensures var out := SignUpResult(users, hash, id, now, username, email, password, None).1;
      out.Threw? && out.cause.ValidationFailed? && exists e | e in out.cause.errors :: Message(e) == "Role is required"
  {
    var out := SignUpResult(users, hash, id, now, username, email, password, None).1;
    assert RoleRequired in out.cause.errors;
  }

  /** Appending a valid user under the next id, with a free email and username, keeps the store invariant. */
  lemma AppendKeepsInvariant(users: seq<User>, u: User, id: UserId)
    requires StoreInvariant(users, id)
    requires ValidUser(u) && u.id == id && EmailFree(users, u.email) && !UsernameTaken(users, u.username)
    ensures StoreInvariant(users + [u], id + 1)
  {
    var s := users + [u];
    forall i, j | 0 <= i < j < |s|
      ensures s[i].id != s[j].id && s[i].username != s[j].username && s[i].email != s[j].email
    {
      assert s[i] == users[i];
      if j < |users| {
        assert s[j] == users[j];
      }
    }
    forall i | 0 <= i < |s| ensures ValidUser(s[i]) && s[i].id < id + 1 {
      if i < |users| {
        assert s[i] == users[i];
      }
    }
  }

  /** Every sign-up outcome keeps the store invariant, with the id counter advanced only on success. */
  lemma SignUpKeepsInvariant(users: seq<User>, hash: string -> string, id: UserId, now: int,
                             username: string, email: string, password: string, role: Option<Role>)
    requires StoreInvariant(users, id)
    ensures StoreInvariant(SignUpResult(users, hash, id, now, username, email, password, role).0,
                           if SignUpResult(users, hash, id, now, username, email, password, role).1.Succeeded? then id + 1 else id)
  {
    var res := SignUpResult(users, hash, id, now, username, email, password, role);
    if res.1.Succeeded? {
      var u := res.0[|users|];
      assert res.0 == users + [u];
      AppendKeepsInvariant(users, u, id);
    }
  }

  /** After appending a user whose email no stored user has, the lookup finds the appended user. */
  lemma FindByEmailAppend(users: seq<User>, u: User)
    requires forall i | 0 <= i < |users| :: users[i].email != u.email
    ensures FindByEmail(users + [u], u.email) == Some(|users|)
  {
    assert forall i | 0 <= i < |users| :: (users + [u])[i] == users[i];
    assert (users + [u])[|users|].email == u.email;
  }

  /** Login right after a successful sign-up with the same email and password succeeds as that user. */
  lemma LoginAfterSignUp(users: seq<User>, hash: string -> string, compare: (string, string) -> bool, id: UserId, now: int,
                         username: string, email: string, password: string, role: Option<Role>)
    requires BcryptLike(hash, compare)
    requires SignUpResult(users, hash, id, now, username, email, password, role).1.Succeeded?
    ensures LoginResult(SignUpResult(users, hash, id, now, username, email, password, role).0, compare, email, password)
         == Succeeded(LoginSuccessful, SignUpResult(users, hash, id, now, username, email, password, role).1.user)
  {
    var res := SignUpResult(users, hash, id, now, username, email, password, role);
    var u := res.0[|users|];
    assert res.0 == users + [u];
    FindByEmailAppend(users, u);
    assert compare(password, hash(password));
  }

  /** An unknown email and a wrong password give the same answer. */
  lemma LoginFailuresIndistinguishable(users: seq<User>, compare: (string, string) -> bool, email: string, password: string)
    requires forall i | 0 <= i < |users| :: users[i].email == email ==> !compare(password, users[i].password)
    ensures LoginResult(users, compare, email, password) == Failed(InvalidCredentials)
  {
  }

  /** Login succeeds exactly for a stored email whose hash matches, and answers with that user. */
  lemma LoginSucceedsIffMatch(users: seq<User>, compare: (string, string) -> bool, email: string, password: string, i: nat)
    requires UniqueKeys(users) && i < |users| && users[i].email == email
    ensures LoginResult(users, compare, email, password)
         == if compare(password, users[i].password) then Succeeded(LoginSuccessful, Session(users[i]))
            else Failed(InvalidCredentials)
  {
    FindByEmailUnique(users, i);
  }

  class UserStore {
    var users: seq<User>
    var nextId: nat
    const hash: string -> string
    const compare: (string, string) -> bool

    ghost predicate Valid()
      reads this
    {
      StoreInvariant(users, nextId) && BcryptLike(hash, compare)
    }

    constructor (hash: string -> string, compare: (string, string) -> bool)
      requires BcryptLike(hash, compare)
      ensures Valid() && users == []
      ensures this.hash == hash && this.compare == compare
    {
      this.hash := hash;
      this.compare := compare;
      users := [];
      nextId := 0;
    }

    /** `actionLoginUser`: reads the store and changes nothing. */
    method Login(email: string, password: string) returns (out: AuthOutcome)
      requires Valid()
      ensures out == LoginResult(users, compare, email, password)
      ensures out.Failed? ==> out.error == InvalidCredentials
    {
      var found := FindByEmail(users, email);
      if found.None? {
        return Failed(InvalidCredentials);
      }
      var user := users[found.value];
      var isMatch := compare(password, user.password);
      if !isMatch {
        return Failed(InvalidCredentials);
      }
      return Succeeded(LoginSuccessful, Session(user));
    }

    /** `actionSignUpUser`: appends one user unless the email is taken or the save throws. */
    method SignUp(username: string, email: string, password: string, role: Option<Role>, now: int) returns (out: AuthOutcome)
      requires Valid()
      modifies this
      ensures Valid()
      ensures (users, out) == SignUpResult(old(users), hash, old(nextId), now, username, email, password, role)
      ensures nextId == if out.Succeeded? then old(nextId) + 1 else old(nextId)
    {
      SignUpKeepsInvariant(users, hash, nextId, now, username, email, password, role);
      var existingUser := FindByEmail(users, email);
      if existingUser.Some? {
        return Failed(UserExists);
      }
      var hashedPassword := hash(password);
      var input := UserInput(Some(username), Some(email), Some(hashedPassword),
                             if role.Some? then Some(RoleName(role.value)) else None, Some(now));
      var newUser := CreateUser(input, nextId, now);
      if newUser.Err? {
        return Threw(ValidationFailed(newUser.error));
      }
      if UsernameTaken(users, newUser.value.username) {
        return Threw(DuplicateUsername);
      }
      users := users + [newUser.value];
      nextId := nextId + 1;
      return Succeeded(RegistrationSuccessful, Session(newUser.value));
    }
  }
}
