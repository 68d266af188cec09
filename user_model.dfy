/**
 * The stored user record: its fields, the defaults a new document receives, and the
 * validators that run when a document is saved (required fields, the username trim,
 * the email pattern and the role enumeration). Unique indexes on username and email
 * become the store invariant `UniqueKeys`.
 */
module UserModel {
  import opened Wrappers
  import opened JsString

  datatype Role = Student | Alumni | Admin

  /** The enumeration's values as they are stored. */
  const RoleNames: seq<string> := ["student", "alumni", "admin"]

  function RoleName(r: Role): (s: string)
    ensures s in RoleNames
  {
    match r
    case Student => "student"
    case Alumni => "alumni"
    case Admin => "admin"
  }

  /** The enum check: which role, if any, a string names. */
  function ParseRole(s: string): (r: Option<Role>)
    ensures r.Some? <==> s in RoleNames
    ensures r.Some? ==> RoleName(r.value) == s
  {
    if s == "student" then Some(Student)
    else if s == "alumni" then Some(Alumni)
    else if s == "admin" then Some(Admin)
    else None
  }

  /** Naming a role and parsing the name back gives the role. */
  lemma RoleRoundTrip(r: Role)
    ensures ParseRole(RoleName(r)) == Some(r)
  {
  }

  type UserId = nat

  datatype User = User(
    id: UserId,
    username: string,
    email: string,
    password: string,
    role: Role,
    profileImage: string,
    bio: string,
    graduationYear: Option<int>,
    degree: string,
    currentCompany: string,
    jobTitle: string,
    enrollmentYear: Option<int>,
    currentYear: Option<int>,
    major: string,
    followers: seq<UserId>,
    following: seq<UserId>,
    createdAt: int)

  /** A character the email pattern's class `[^\s@]` admits. */
  predicate IsEmailChar(c: char) {
    !IsSpace(c) && c != '@'
  }

  /** Every character of `s` in positions `lo` up to `hi` (exclusive) is admitted by `[^\s@]`. */
  predicate EmailCharsIn(s: string, lo: int, hi: int)
    requires 0 <= lo <= hi <= |s|
  {
    forall i | lo <= i < hi :: IsEmailChar(s[i])
  }

  /**
   * The pattern /^[^\s@]+@[^\s@]+\.[^\s@]+$/: the string splits as L "@" D1 "." D2
   * with L, D1 and D2 non-empty and free of white space and '@'
   * (L is s[..a], D1 is s[a + 1..k], D2 is s[k + 1..]).
   */
  predicate MatchesEmailPattern(s: string) {
    exists a, k | 0 < a && a + 1 < k < |s| - 1 ::
      s[a] == '@' && s[k] == '.' && EmailCharsIn(s, 0, a) && EmailCharsIn(s, a + 1, k) && EmailCharsIn(s, k + 1, |s|)
  }

  /** Around the '@' at `a`, every character of a split L "@" D1 "." D2 is admitted by `[^\s@]`. */
  lemma EmailCharsAround(s: string, a: int, k: int)
    requires 0 < a && a + 1 < k < |s| - 1 && s[k] == '.'
    requires EmailCharsIn(s, 0, a) && EmailCharsIn(s, a + 1, k) && EmailCharsIn(s, k + 1, |s|)
    ensures forall j | 0 <= j < |s| && j != a :: IsEmailChar(s[j])
  {
    forall j | 0 <= j < |s| && j != a ensures IsEmailChar(s[j]) {
      if j < a {
      } else if j < k {
      } else if j > k {
      }
    }
  }

  /** A string whose only '@' is at `a` counts one '@'. */
  lemma OneAt(s: string, a: int)
    requires 0 <= a < |s| && s[a] == '@'
    requires forall j | 0 <= j < |s| && j != a :: s[j] != '@'
    ensures Count(s, '@') == 1
  {
    var local, domain := s[..a], s[a + 1..];
    assert '@' !in local by {
      forall j | 0 <= j < |local| ensures local[j] != '@' {
        assert local[j] == s[j];
      }
    }
    assert '@' !in domain by {
      forall j | 0 <= j < |domain| ensures domain[j] != '@' {
        assert domain[j] == s[a + 1 + j];
      }
    }
    assert s == local + [s[a]] + domain;
    CountConcat(local + [s[a]], domain, '@');
    CountConcat(local, [s[a]], '@');
  }

  /** An accepted email holds exactly one '@' and no white space. */
  lemma EmailHasOneAtNoSpace(s: string)
    requires MatchesEmailPattern(s)
    ensures Count(s, '@') == 1 && NoSpace(s)
  {
    var a, k :| 0 < a && a + 1 < k < |s| - 1 && s[a] == '@' && s[k] == '.'
      && EmailCharsIn(s, 0, a) && EmailCharsIn(s, a + 1, k) && EmailCharsIn(s, k + 1, |s|);
    EmailCharsAround(s, a, k);
    OneAt(s, a);
  }

  /** Two addresses the pattern accepts, one of them with a dot in each domain part. */
  lemma EmailPatternAccepts()
    ensures MatchesEmailPattern("jo@uni.edu")
    ensures MatchesEmailPattern("a@b..")
  {
    var s := "jo@uni.edu";
    assert s[2] == '@' && s[6] == '.' && EmailCharsIn(s, 0, 2) && EmailCharsIn(s, 3, 6) && EmailCharsIn(s, 7, |s|);
    var t := "a@b..";
    assert t[1] == '@' && t[3] == '.' && EmailCharsIn(t, 0, 1) && EmailCharsIn(t, 2, 3) && EmailCharsIn(t, 4, |t|);
  }

  /** Addresses the pattern refuses: no dot after the '@', an empty local part, white space. */
  lemma EmailPatternRefuses()
    ensures !MatchesEmailPattern("jo@uni")
    ensures !MatchesEmailPattern("@uni.edu")
    ensures !MatchesEmailPattern("j o@uni.edu")
  {
    var u := "j o@uni.edu";
    assert IsSpace(u[1]);
    if MatchesEmailPattern(u) {
      EmailHasOneAtNoSpace(u);
    }
    var v := "jo@uni";
    assert forall k | 0 <= k < |v| :: v[k] != '.';
    var w := "@uni.edu";
    assert forall a | 0 < a < |w| :: w[a] != '@';
  }

  /** The fields passed to the model's constructor; absent ones are `None`. */
  datatype UserInput = UserInput(
    username: Option<string>,
    email: Option<string>,
    password: Option<string>,
    role: Option<string>,
    createdAt: Option<int>)

  /** The validators' complaints, one per failing path (the first failing validator of that path). */
  datatype FieldError = UsernameRequired | EmailRequired | EmailInvalid | PasswordRequired | RoleRequired | RoleNotInEnum

  /** The message each validator reports (the enumeration's message without the offending value in front). */
  function Message(e: FieldError): (m: string)
    ensures m != ""
  {
    match e
    case UsernameRequired => "Username is required"
    case EmailRequired => "Email is required"
    case EmailInvalid => "Enter a valid email"
    case PasswordRequired => "Password is required"
    case RoleRequired => "Role is required"
    case RoleNotInEnum => "is not a valid enum value for path `role`."
  }

  /** Each error reports its own message, so a message tells which validator failed. */
  lemma MessagesIdentifyErrors(e1: FieldError, e2: FieldError)
    requires Message(e1) == Message(e2)
    ensures e1 == e2
  {
  }

  /** `required` on a string path fails on a missing value and on the empty string. */
  predicate Present(v: Option<string>) {
    v.Some? && v.value != ""
  }

  function UsernameErrors(v: Option<string>): (errs: seq<FieldError>)
    ensures errs == [] || errs == [UsernameRequired]
    ensures errs == [] <==> v.Some? && Trim(v.value) != ""
  {
    if v.None? || Trim(v.value) == "" then [UsernameRequired] else []
  }

  function EmailErrors(v: Option<string>): (errs: seq<FieldError>)
    ensures errs == [] || errs == [EmailRequired] || errs == [EmailInvalid]
    ensures errs == [EmailRequired] <==> !Present(v)
    ensures errs == [EmailInvalid] <==> Present(v) && !MatchesEmailPattern(v.value)
  {
    if !Present(v) then [EmailRequired]
    else if !MatchesEmailPattern(v.value) then [EmailInvalid]
    else []
  }

  function PasswordErrors(v: Option<string>): (errs: seq<FieldError>)
    ensures errs == [] || errs == [PasswordRequired]
    ensures errs == [] <==> Present(v)
  {
    if !Present(v) then [PasswordRequired] else []
  }

  function RoleErrors(v: Option<string>): (errs: seq<FieldError>)
    ensures errs == [] || errs == [RoleRequired] || errs == [RoleNotInEnum]
    ensures errs == [RoleRequired] <==> !Present(v)
    ensures errs == [RoleNotInEnum] <==> Present(v) && v.value !in RoleNames
  {
    if !Present(v) then [RoleRequired]
    else if ParseRole(v.value).None? then [RoleNotInEnum]
    else []
  }

  /** The validation errors of a new document, in schema order (the username is trimmed first). */
  function ValidationErrors(input: UserInput): (errs: seq<FieldError>)
    ensures UsernameRequired in errs <==> input.username.None? || Trim(input.username.value) == ""
    ensures EmailRequired in errs <==> !Present(input.email)
    ensures EmailInvalid in errs <==> Present(input.email) && !MatchesEmailPattern(input.email.value)
    ensures PasswordRequired in errs <==> !Present(input.password)
    ensures RoleRequired in errs <==> !Present(input.role)
    ensures RoleNotInEnum in errs <==> Present(input.role) && input.role.value !in RoleNames
    ensures errs == [] <==>
      UsernameErrors(input.username) == [] && EmailErrors(input.email) == []
      && PasswordErrors(input.password) == [] && RoleErrors(input.role) == []
  {
    var u, e, p, r := UsernameErrors(input.username), EmailErrors(input.email),
                      PasswordErrors(input.password), RoleErrors(input.role);
    u + e + p + r
  }

  /** What a stored user satisfies: the save-time validators passed. */
  predicate ValidUser(u: User) {
    && u.username != "" && Trim(u.username) == u.username
    && MatchesEmailPattern(u.email)
    && u.password != ""
  }

  /** The schema defaults of every optional field. */
  predicate HasDefaults(u: User) {
    && u.profileImage == "" && u.bio == ""
    && u.graduationYear.None? && u.degree == "" && u.currentCompany == "" && u.jobTitle == ""
    && u.enrollmentYear.None? && u.currentYear.None? && u.major == ""
    && u.followers == [] && u.following == []
  }

  /**
   * Builds the document `new UserModel(input)` describes and validates it as `save` does:
   * the username is trimmed, absent optional fields take their defaults, `createdAt`
   * defaults to `now`.
   */
  function CreateUser(input: UserInput, id: UserId, now: int): (r: Result<User, seq<FieldError>>)
    ensures r.Ok? <==>
      && Present(input.username) && Trim(input.username.value) != ""
      && Present(input.email) && MatchesEmailPattern(input.email.value)
      && Present(input.password)
      && Present(input.role) && input.role.value in RoleNames
    ensures r.Err? ==> r.error != [] && r.error == ValidationErrors(input)
    ensures r.Ok? ==>
      && ValidUser(r.value) && HasDefaults(r.value)
      && r.value.id == id
      && r.value.username == Trim(input.username.value)
      && r.value.email == input.email.value
      && r.value.password == input.password.value
      && RoleName(r.value.role) == input.role.value
      && r.value.createdAt == input.createdAt.GetOr(now)
  {
    var errs := ValidationErrors(input);
    if errs != [] then Err(errs)
    else
      var name := Trim(input.username.value);
      TrimIdempotent(input.username.value);
      Ok(User(id, name, input.email.value, input.password.value, ParseRole(input.role.value).value,
              "", "", None, "", "", "", None, None, "", [], [], input.createdAt.GetOr(now)))
  }

  /** The unique indexes on username and email, and distinct ids. */
  predicate UniqueKeys(users: seq<User>) {
    forall i, j | 0 <= i < j < |users| ::
      users[i].id != users[j].id && users[i].username != users[j].username && users[i].email != users[j].email
  }

  /** `findOne({ email })`: the position of the first user with that email. */
  function FindByEmail(users: seq<User>, email: string): (r: Option<nat>)
    ensures r.Some? ==> r.value < |users| && users[r.value].email == email
    ensures r.Some? ==> forall j | 0 <= j < r.value :: users[j].email != email
    ensures r.None? ==> forall j | 0 <= j < |users| :: users[j].email != email
  {
    if users == [] then None
    else if users[0].email == email then Some(0)
    else
      var rest := FindByEmail(users[1..], email);
      if rest.Some? then Some(rest.value + 1) else None
  }

  /** `findById(id)`: the first user with that id. */
  function FindById(users: seq<User>, id: UserId): (r: Option<User>)
    ensures r.Some? ==> r.value in users && r.value.id == id
    ensures r.None? ==> forall j | 0 <= j < |users| :: users[j].id != id
  {
    if users == [] then None
    else if users[0].id == id then Some(users[0])
    else FindById(users[1..], id)
  }

  /** With unique emails, the lookup finds exactly the user that has the email. */
  lemma FindByEmailUnique(users: seq<User>, i: nat)
    requires UniqueKeys(users) && i < |users|
    ensures FindByEmail(users, users[i].email) == Some(i)
  {
  }
}
