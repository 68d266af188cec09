/**
 * The three form schemas: sign-up, sign-in and the login form. Each field rule becomes
 * a check that yields an issue naming the field and the schema's message; an input is
 * accepted exactly when no issue is produced. The library's email check is not
 * visible here, so every schema takes it as the parameter `isEmail`.
 */
module Schemas {
  import opened Wrappers
  import UserModel

  datatype Field = Username | Email | Password | Role

  datatype Issue = Issue(path: Field, message: string)

  /** Some issue concerns `f`. */
  predicate Flags(issues: seq<Issue>, f: Field) {
    issues != [] && (issues[0].path == f || Flags(issues[1..], f))
  }

  /** `z.string().min(n, message)` (length counted in characters). */
  function MinLength(f: Field, s: string, n: nat, message: string): (issues: seq<Issue>)
    ensures issues == [] <==> |s| >= n
    ensures issues == [] || issues == [Issue(f, message)]
    ensures forall g :: Flags(issues, g) <==> g == f && |s| < n
  {
    if |s| < n then [Issue(f, message)] else []
  }

  /** `z.string().email(message)`, with the library's check supplied as `isEmail`. */
  function EmailRule(s: string, isEmail: string -> bool, message: string): (issues: seq<Issue>)
    ensures issues == [] <==> isEmail(s)
    ensures issues == [] || issues == [Issue(Email, message)]
    ensures forall g :: Flags(issues, g) <==> g == Email && !isEmail(s)
  {
    if isEmail(s) then [] else [Issue(Email, message)]
  }

  /** `z.enum(["student", "alumni", "admin"]).optional()` */
  function OptionalRoleRule(role: Option<string>): (issues: seq<Issue>)
    ensures issues == [] <==> role.None? || role.value in UserModel.RoleNames
    ensures issues == [] || issues == [Issue(Role, RoleEnumMessage(role.value))]
    ensures forall g :: Flags(issues, g) <==> g == Role && issues != []
  {
    if role.Some? && UserModel.ParseRole(role.value).None? then [Issue(Role, RoleEnumMessage(role.value))] else []
  }

  function RoleEnumMessage(received: string): string {
    "Invalid enum value. Expected 'student' | 'alumni' | 'admin', received '" + received + "'"
  }

  lemma {:induction false} FlagsConcat(a: seq<Issue>, b: seq<Issue>, f: Field)
    ensures Flags(a + b, f) <==> Flags(a, f) || Flags(b, f)
  {
    if a == [] {
      assert a + b == b;
    } else {
      assert (a + b)[1..] == a[1..] + b;
      FlagsConcat(a[1..], b, f);
    }
  }

  datatype SignUpInput = SignUpInput(username: string, email: string, password: string, role: Option<string>)

  /** `signUpSchema` */
  function SignUpIssues(input: SignUpInput, isEmail: string -> bool): (issues: seq<Issue>)
    ensures Flags(issues, Username) <==> |input.username| < 3
    ensures Flags(issues, Email) <==> !isEmail(input.email)
    ensures Flags(issues, Password) <==> |input.password| < 6
    ensures Flags(issues, Role) <==> input.role.Some? && input.role.value !in UserModel.RoleNames
    ensures issues == [] <==>
      |input.username| >= 3 && isEmail(input.email) && |input.password| >= 6
      && (input.role.None? || input.role.value in UserModel.RoleNames)
  {
    var u := MinLength(Username, input.username, 3, "Username must be at least 3 characters long");
    var e := EmailRule(input.email, isEmail, "Invalid email");
    var p := MinLength(Password, input.password, 6, "Password must be at least 6 characters long");
    var r := OptionalRoleRule(input.role);
    FlagsConcat(u, e, Username); FlagsConcat(u + e, p, Username); FlagsConcat(u + e + p, r, Username);
    FlagsConcat(u, e, Email); FlagsConcat(u + e, p, Email); FlagsConcat(u + e + p, r, Email);
    FlagsConcat(u, e, Password); FlagsConcat(u + e, p, Password); FlagsConcat(u + e + p, r, Password);
    FlagsConcat(u, e, Role); FlagsConcat(u + e, p, Role); FlagsConcat(u + e + p, r, Role);
    u + e + p + r
  }

  /** `signInSchema` */
  function SignInIssues(email: string, password: string, isEmail: string -> bool): (issues: seq<Issue>)
    ensures Flags(issues, Email) <==> !isEmail(email)
    ensures Flags(issues, Password) <==> |password| < 6
    ensures !Flags(issues, Username) && !Flags(issues, Role)
    ensures issues == [] <==> isEmail(email) && |password| >= 6
  {
    var e := EmailRule(email, isEmail, "Invalid email");
    var p := MinLength(Password, password, 6, "Password must be at least 6 characters long");
    FlagsConcat(e, p, Email); FlagsConcat(e, p, Password);
    FlagsConcat(e, p, Username); FlagsConcat(e, p, Role);
    e + p
  }

  /** `FormSchema`, the type of the login action's input. */
  function FormIssues(username: string, email: string, password: string, isEmail: string -> bool): (issues: seq<Issue>)
    ensures Flags(issues, Username) <==> |username| < 3
    ensures Flags(issues, Email) <==> !isEmail(email)
    ensures Flags(issues, Password) <==> |password| < 3
    ensures issues == [] <==> |username| >= 3 && isEmail(email) && |password| >= 3
  {
    var u := MinLength(Username, username, 3, "Useranme must at least 3 characters long");
    var e := EmailRule(email, isEmail, "Invalid Email");
    var p := MinLength(Password, password, 3, "Password is required");
    FlagsConcat(u, e, Username); FlagsConcat(u + e, p, Username);
    FlagsConcat(u, e, Email); FlagsConcat(u + e, p, Email);
    FlagsConcat(u, e, Password); FlagsConcat(u + e, p, Password);
    u + e + p
  }

  /** Every schema flags an email the email check refuses. */
  lemma EverySchemaRejectsBadEmail(input: SignUpInput, username: string, password: string, isEmail: string -> bool)
    requires !isEmail(input.email)
    ensures SignUpIssues(input, isEmail) != []
    ensures SignInIssues(input.email, password, isEmail) != []
    ensures FormIssues(username, input.email, password, isEmail) != []
  {
  }

  /**
   * The login form is weaker on passwords than the sign-in schema: whatever sign-in
   * accepts the form accepts (given a long enough username), and a three-character
   * password shows the converse fails.
   */
  lemma FormPasswordRuleIsWeaker(username: string, email: string, password: string, isEmail: string -> bool)
    requires |username| >= 3
    ensures SignInIssues(email, password, isEmail) == [] ==> FormIssues(username, email, password, isEmail) == []
    ensures isEmail(email) ==>
      FormIssues(username, email, "abc", isEmail) == [] && SignInIssues(email, "abc", isEmail) != []
  {
  }

  /** The login form demands a username of at least three characters, though login never reads it. */
  lemma FormRequiresUsername(username: string, email: string, password: string, isEmail: string -> bool)
    requires |username| < 3
    ensures FormIssues(username, email, password, isEmail) != []
    ensures Flags(FormIssues(username, email, password, isEmail), Username)
  {
  }
}
