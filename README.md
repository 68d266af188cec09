# Alumni network: authentication, route guard, feed and user directory

A Dafny model of the server-side core of a small alumni-networking web application:

- the route guard that decides, from the `auth_token` cookie and the requested path, whether a page request passes or is redirected to `/login` or `/dashboard`;
- the three form schemas (sign-up, sign-in, login form) as validators that report per-field issues;
- the stored user record: required fields, the trimmed username, the email pattern `^[^\s@]+@[^\s@]+\.[^\s@]+$`, the role enumeration and the defaults a new document receives;
- the sign-up and login actions over a store of users (class `AuthAction.UserStore`), with bcrypt reduced to a pair of functions `hash` and `compare` of which only `compare(p, hash(p))` and 60-character hashes are assumed;
- the stored post record and the feed endpoint: a paged newest-first GET, and a POST that validates the content, settles the author name and appends one post (class `FeedRoute.PostStore`);
- the user directory endpoint: role filter, excluded id, default page size 50, newest first, and a projection without email or password.

The database is replaced by in-memory sequences. `find`, `sort({ createdAt: -1 })`, `skip` and `limit` become the functions of module `Query`. `limit` keeps the database's reading of its argument: 0 means no limit, and a negative `-n` means at most `n`. Timestamps, the clock and new ids are parameters or counters.

Where the comments and the code disagree, the model follows the code. The sign-up action's comment calls the role a "default role", but the record has no default and requires a role. So a sign-up without a role fails when the document is saved (`AuthAction.SignUpWithoutRoleThrows`).

Modules: `Wrappers` (Option, Result), `JsString` (JavaScript white space, `trim`, `startsWith`), `Middleware`, `Schemas`, `UserModel`, `AuthAction`, `PostModel`, `Query`, `Request` (request-body values and their truthiness), `FeedRoute`, `UsersRoute`.

## Model

| member | source | states |
|---|---|---|
| Middleware.Token | middleware.ts:5 | the token is present exactly when the request carries an `auth_token` cookie, and is that cookie's value |
| Middleware.Truthy | middleware.ts:14-20 | a token counts as present exactly when the cookie exists and its value is not the empty string (JavaScript truthiness of `token`) |
| Middleware.SomePrefix | middleware.ts:13-20 | holds exactly when the pathname starts with at least one route of the list |
| Middleware.Decide | middleware.ts:3-25 | the guard only ever lets the request through or redirects to `/login` or `/dashboard`; it sends to `/login` only without a truthy token and to `/dashboard` only with one |
| Middleware.Handle | middleware.ts:27-29 | the guard runs only for the four matcher paths; every other path passes |
| Middleware.UnauthenticatedProtectedGoesToLogin | middleware.ts:10-16 | without a token, every path starting with `/dashboard` or `/register` redirects to `/login` |
| Middleware.AuthenticatedAuthRouteGoesToDashboard | middleware.ts:19-22 | with a token, every path starting with `/login`, `/signup` or `/register` redirects to `/dashboard` |
| Middleware.RegisterIsUnreachable | middleware.ts:10-21 | no path under `/register` is ever let through: it goes to `/login` without a token and to `/dashboard` with one |
| Middleware.NotProtected | middleware.ts:10-13 | no path under `/login` or `/signup` starts with a protected route |
| Middleware.UnauthenticatedAuthPagesPass | middleware.ts:13-24 | without a token, paths under `/login` and `/signup` pass |
| Middleware.DashboardNotAuthRoute | middleware.ts:19-20 | no path under `/dashboard` starts with an authentication route |
| Middleware.AuthenticatedDashboardPasses | middleware.ts:19-24 | with a token, paths under `/dashboard` pass |
| Middleware.NoRedirectLoop | middleware.ts:13-29 | for every request the guard redirects, the same request to the redirect target passes, so neither kind of user loops |
| Middleware.PrefixMatching | middleware.ts:13-20 | the guard's own test is by prefix: any suffix added to a matcher path is decided exactly as the path itself (whether the guard runs at all for that path is `Handle`'s matter) |
| Middleware.DashboardSubpagesUnguarded | middleware.ts:27-29 | as written, without a cookie `/dashboard/jobs` and `/dashboard/events` are let through, though the guard's test would send both to `/login` |
| Middleware.CoveredHandle | middleware.ts:10-29 | with the matcher covering the pages below each entry, the guard runs on every matcher path exactly as before and on nothing outside the covered paths |
| Middleware.CoveredHandleGuardsSubpages | middleware.ts:10-16 | with the covering matcher, every page below `/dashboard` or `/register` without a truthy token goes to `/login` |
| Middleware.CoveredNoRedirectLoop | middleware.ts:13-29 | with the covering matcher too, every redirect target is let through for the same cookies |
| Middleware.EmptyTokenIsUnauthenticated | middleware.ts:5-20 | an empty cookie value is decided exactly as a missing cookie |
| Schemas.MinLength | src/lib/validations/schemas.ts:5 | a minimum-length rule reports one issue on its field exactly when the string is too short |
| Schemas.EmailRule | src/lib/validations/schemas.ts:6 | the email rule reports one issue on the email field exactly when the email check refuses the string |
| Schemas.OptionalRoleRule | src/lib/validations/schemas.ts:8 | the role may be absent; when present it is accepted exactly when it is student, alumni or admin |
| Schemas.FlagsConcat | src/lib/validations/schemas.ts:4-9 | issues of a combined report are those of its parts |
| Schemas.SignUpIssues | src/lib/validations/schemas.ts:4-9 | each field is flagged exactly when its rule fails (username under 3, email refused, password under 6, role outside the enumeration); no issue exactly when all rules hold |
| Schemas.SignInIssues | src/lib/validations/schemas.ts:12-15 | email and password are flagged exactly when refused or under 6 characters; no other field is checked |
| Schemas.FormIssues | src/lib/validations/schemas.ts:17-21 | username under 3, email refused and password under 3 are each flagged exactly when they occur |
| Schemas.EverySchemaRejectsBadEmail | src/lib/validations/schemas.ts:6-19 | all three schemas reject an email the email check refuses |
| Schemas.FormPasswordRuleIsWeaker | src/lib/validations/schemas.ts:14-20 | whatever sign-in accepts the login form accepts, but a 3-character password passes the form and fails sign-in |
| Schemas.FormRequiresUsername | src/lib/validations/schemas.ts:17-18 | the login form rejects a username under 3 characters whatever the email and password |
| JsString.TrimStart | src/models/User.ts:33 | leading trim returns a suffix, removes only white space, and leaves no leading white space |
| JsString.TrimEnd | src/models/User.ts:33 | trailing trim returns a prefix, removes only white space, and leaves no trailing white space |
| JsString.Trim | src/models/User.ts:33 | `trim()`: the leading then the trailing trim, removing JavaScript white space at both ends and nothing else (`Post.ts:20,25` and `feed/route.ts:45,66` use the same trim) |
| JsString.TrimIsInfix | src/models/User.ts:33 | a trimmed string is a contiguous piece of the input with only white space cut on either side |
| JsString.TrimEnds | src/models/Post.ts:20 | a non-empty trimmed string neither starts nor ends with white space |
| JsString.TrimEmptyIffAllSpace | src/app/api/feed/route.ts:45 | the trim is empty exactly when the string is all white space |
| JsString.TrimFixesTrimmed | src/models/Post.ts:25 | a string without white space at either end is its own trim |
| JsString.TrimIdempotent | src/models/Post.ts:20-25 | trimming a trimmed string changes nothing |
| JsString.Count | src/models/User.ts:40 | the count is at most the length and is zero exactly when the character is absent |
| JsString.CountConcat | src/models/User.ts:40 | counts add over concatenation |
| UserModel.RoleName | src/models/User.ts:48 | every role's stored name is one of student, alumni, admin |
| UserModel.ParseRole | src/models/User.ts:46-50 | a string names a role exactly when it is in the enumeration, and then it is that role's name |
| UserModel.RoleRoundTrip | src/models/User.ts:7 | parsing a role's name gives the role back |
| UserModel.MatchesEmailPattern | src/models/User.ts:40 | holds exactly when the string splits as L "@" D1 "." D2, with L, D1 and D2 non-empty and free of white space and '@' |
| UserModel.EmailHasOneAtNoSpace | src/models/User.ts:40 | every email the pattern accepts has exactly one '@' and no white space |
| UserModel.EmailPatternAccepts | src/models/User.ts:40 | `jo@uni.edu` and `a@b..` match the pattern |
| UserModel.EmailPatternRefuses | src/models/User.ts:40 | `jo@uni`, `@uni.edu` and `j o@uni.edu` do not match |
| UserModel.Message | src/models/User.ts:32-49 | each validator error carries its non-empty message: "Username is required", "Email is required", "Enter a valid email", "Password is required", "Role is required", and the enumeration's message |
| UserModel.MessagesIdentifyErrors | src/models/User.ts:32-49 | distinct validator errors report distinct messages |
| UserModel.UsernameErrors | src/models/User.ts:30-33 | the username fails `required` exactly when absent or empty after trimming |
| UserModel.EmailErrors | src/models/User.ts:36-41 | the email fails `required` when absent or empty, and otherwise fails the pattern exactly when it does not match |
| UserModel.PasswordErrors | src/models/User.ts:42-45 | the password fails `required` exactly when absent or empty |
| UserModel.RoleErrors | src/models/User.ts:46-50 | the role fails `required` when absent or empty, and otherwise fails the enumeration exactly when it is not a role name |
| UserModel.ValidationErrors | src/models/User.ts:30-50 | each validator error is reported exactly when its field fails; no error exactly when every field passes |
| UserModel.ValidUser | src/models/User.ts:30-45 | a stored user has a non-empty username that is its own trim, an email matching the pattern and a non-empty password |
| UserModel.HasDefaults | src/models/User.ts:51-100 | a new user has an empty profile image, bio, degree, company, job title and major, no graduation, enrollment or current year, and no followers or following |
| UserModel.CreateUser | src/models/User.ts:28-108 | a document is accepted exactly when username, email, password and role pass; the stored user is valid, has the trimmed username and the given email, password and role, all defaults (empty strings, no years, no followers or following), and `createdAt` defaulting to now |
| UserModel.FindByEmail | src/lib/server-action/auth-action.ts:15 | the lookup returns the first user with the email, or nothing when no user has it |
| UserModel.FindById | src/app/api/feed/route.ts:56 | the lookup returns a stored user with the id, or nothing when none has it |
| UserModel.FindByEmailUnique | src/models/User.ts:36-39 | with unique emails the lookup finds exactly the user holding the email |
| UserModel.UniqueKeys | src/models/User.ts:30-39 | no two stored users share an id, a username (unique index) or an email (unique index) |
| AuthAction.SignUpResult | src/lib/server-action/auth-action.ts:34-67 | sign-up fails with "User already exists" exactly when the email is stored; it succeeds exactly when the email is free, a role is given, the email matches the pattern, the trimmed username is non-blank and free, and the hash is non-empty; it throws a validation error exactly when the email is free and a field is refused (a missing role, a blank username and a refused email each named), and a duplicate-username error exactly when only the username is taken; every non-success leaves the store unchanged; success appends exactly one valid user with the given email and role, trimmed username, `hash(password)` as password, all defaults, and returns only id, email, username and role |
| AuthAction.SignUpValidation | src/lib/server-action/auth-action.ts:47-55 | the document the action builds passes the record's validators exactly when a role is given, the email matches, the trimmed username is non-blank and the hash non-empty; otherwise the errors name a missing role, a blank username and a refused email exactly when they occur |
| AuthAction.AppendKeepsInvariant | src/models/User.ts:30-50 | appending a valid user under the next id whose email and username no stored user holds keeps ids, usernames and emails unique and every user valid |
| AuthAction.SignUpWithoutRoleThrows | src/lib/server-action/auth-action.ts:47-55 | a sign-up with a free email but without a role fails when the document is saved with a validation error whose message is "Role is required", because the record requires one |
| AuthAction.SignUpKeepsInvariant | src/lib/server-action/auth-action.ts:42-55 | sign-up keeps usernames, emails and ids unique and every stored user valid |
| AuthAction.FindByEmailAppend | src/lib/server-action/auth-action.ts:15 | after appending a user with a new email the lookup finds that user |
| AuthAction.LoginAfterSignUp | src/lib/server-action/auth-action.ts:9-55 | with `compare(p, hash(p))`, login right after a successful sign-up with the same email and password succeeds as the new user |
| AuthAction.LoginFailuresIndistinguishable | src/lib/server-action/auth-action.ts:15-19 | for every store, an unknown email and a wrong password give the identical answer "Invalid email or password" |
| AuthAction.LoginSucceedsIffMatch | src/lib/server-action/auth-action.ts:15-30 | for a stored email, login succeeds exactly when the password matches its hash, answering with that user's id, email, username and role |
| AuthAction.LoginResult | src/lib/server-action/auth-action.ts:15-30 | login looks up the first user with the email; no user or a failed `compare` is "Invalid email or password", otherwise "Login successful" with that user's id, email, username and role |
| AuthAction.UserStore.Login | src/lib/server-action/auth-action.ts:9-31 | login reads the store without changing it, and every failure says "Invalid email or password" |
| AuthAction.UserStore.SignUp | src/lib/server-action/auth-action.ts:34-67 | sign-up's new store and answer are the ones described for `SignUpResult`, and the store invariant is kept |
| PostModel.PostErrors | src/models/Post.ts:17-26 | author name and content each fail `required` exactly when absent or empty after trimming |
| PostModel.CreatePost | src/models/Post.ts:10-33 | a post is accepted exactly when both trimmed strings are non-empty; it stores them trimmed, keeps the optional author id, and `createdAt` defaults to now |
| PostModel.ValidPost | src/models/Post.ts:17-26 | a stored post has a non-empty author name and content, each its own trim |
| Query.Insert | src/app/api/feed/route.ts:16 | inserting into a newest-first sequence keeps it newest first and adds exactly the element |
| Query.SortNewestFirst | src/app/api/feed/route.ts:16 | the sort returns a newest-first permutation of its input |
| Query.Skip | src/app/api/feed/route.ts:17 | skipping `n` leaves the documents from position `n` on |
| Query.LimitBound | src/app/api/feed/route.ts:18 | a limit of 0 means no limit; a positive `n` bounds the count by `n` and a negative `-n` by `n` |
| Query.Limit | src/app/api/feed/route.ts:18 | a limit returns a prefix: everything for 0, else the first `min(n, length)` for a positive `n` and `min(-n, length)` for a negative `n` |
| Query.WindowIsContiguous | src/app/api/feed/route.ts:15-19 | skip-then-limit returns the contiguous run starting at the skip, no longer than the bound |
| Query.WindowNewestFirst | src/app/api/feed/route.ts:15-19 | a run of a newest-first sequence is newest first |
| FeedRoute.FeedParameters | src/app/api/feed/route.ts:12-13 | the page size is 10 by default, the request when at most 100 and exactly 100 above that; the offset is 0 by default, the request when non-negative and exactly 0 below that |
| FeedRoute.FeedLimit | src/app/api/feed/route.ts:12 | the page size as written: the request, or 10 when absent or empty, then at most 100 |
| FeedRoute.FeedSkip | src/app/api/feed/route.ts:13 | the offset: the request, or 0 when absent or empty, then at least 0 |
| FeedRoute.FeedGet | src/app/api/feed/route.ts:12-27 | the GET handler as written: the page of `FeedPage` for the clamped page size and offset |
| FeedRoute.FeedPageIsWindow | src/app/api/feed/route.ts:15-27 | a page is the run of the newest-first posts starting at the offset, bounded by the limit; for a positive limit it holds exactly the smaller of the limit and the posts left after the offset |
| FeedRoute.FeedPageNewestFirst | src/app/api/feed/route.ts:15-27 | a page is in non-increasing `createdAt` order |
| FeedRoute.FeedLimitEscapesCap | src/app/api/feed/route.ts:12-18 | as written, `limit=0` and `limit=-150` return 150 posts from a store of 150 (for `-150`, in the model's reading of a negative limit as a full batch) |
| FeedRoute.CappedFeedLimit | src/app/api/feed/route.ts:12 | the corrected page size lies between 1 and 100, is 10 by default, and is the request when that is in range |
| FeedRoute.CappedFeedHonoursCap | src/app/api/feed/route.ts:12-18 | with the corrected page size no page exceeds 100 posts, and requests with a page size of at least 1 are served exactly as before |
| FeedRoute.ContentRejected | src/app/api/feed/route.ts:45 | content is refused exactly when it is falsy, not a string, or only white space |
| FeedRoute.AuthorNameFor | src/app/api/feed/route.ts:52-57 | the author name is the found user's username when non-empty, else the supplied name when non-empty, else "Anonymous" |
| FeedRoute.StoredAuthorId | src/app/api/feed/route.ts:64 | the stored author id is the given object id, or null when none is given |
| FeedRoute.ResolveAuthorName | src/app/api/feed/route.ts:52-61 | the author name is the found user's non-empty username, else the supplied name, else "Anonymous", and is never empty |
| FeedRoute.FoundUsernameWins | src/app/api/feed/route.ts:54-57 | when the id names a stored user, that user's username wins over any supplied name |
| FeedRoute.FailedLookupFallsBack | src/app/api/feed/route.ts:52-60 | an unknown or malformed author id silently falls back to the supplied name or "Anonymous" |
| FeedRoute.AppendKeepsInvariant | src/app/api/feed/route.ts:63-67 | appending a valid post under the next id keeps every post valid and the ids distinct |
| FeedRoute.PostStore.Get | src/app/api/feed/route.ts:6-29 | GET reads the store unchanged and returns a newest-first run from the offset, at most 100 posts |
| FeedRoute.PostStore.Create | src/app/api/feed/route.ts:39-75 | content that is missing, not a string or only white space is a 400 "Content is required" and changes nothing; otherwise exactly one post is appended with trimmed content, the settled and trimmed author name, the author id or null, and the creation time, or the request is a 500 and nothing changes |
| UsersRoute.BuildFilter | src/app/api/users/route.ts:17-26 | the filter has a role exactly when a non-empty role is given, and excludes the given id as an object id or, failing the cast, as a string |
| UsersRoute.FilterFor | src/app/api/users/route.ts:17-26 | the filter has the role exactly when a non-empty role is given, and excludes a given `exclude` as an object id when it is one and as a string otherwise |
| UsersRoute.Matches | src/app/api/users/route.ts:28 | a user satisfies the filter exactly when it has the filtered role (if any) and is not the excluded object id (a string excludes no one) |
| UsersRoute.ToListing | src/app/api/users/route.ts:33-38 | the public entry of a user: id, username, role and profile image only |
| UsersRoute.Select | src/app/api/users/route.ts:28 | the selection holds exactly the stored users that satisfy the filter |
| UsersRoute.Project | src/app/api/users/route.ts:33-38 | each listed entry holds only id, username, role and profile image of its user |
| UsersRoute.SelectedSound | src/app/api/users/route.ts:18-31 | every listed user is stored and satisfies the filter, and the list is newest first |
| UsersRoute.SelectedIsNewestPrefix | src/app/api/users/route.ts:28-31 | the list is a prefix of all matching users sorted newest first, so it holds the newest matching ones |
| UsersRoute.SelectedSize | src/app/api/users/route.ts:14-31 | the list is bounded by the page size, 50 by default, and is cut short only by that bound |
| UsersRoute.Selected | src/app/api/users/route.ts:28-31 | the listed users: the matching ones, newest first, limited to the page size (50 by default) |
| UsersRoute.CastFails | src/app/api/users/route.ts:22-31 | the query throws exactly when the filter excludes by a string that is no object id |
| UsersRoute.GetAsWritten | src/app/api/users/route.ts:17-46 | as written, the handler answers 500 "Failed to fetch users" exactly when a non-empty `exclude` is no object id, and otherwise lists the filtered, newest-first, projected users |
| UsersRoute.MalformedExcludeFails | src/app/api/users/route.ts:19-31 | as written, `exclude=abc` is a 500 whatever the store holds: the fallback to a string compare never reaches a result |
| UsersRoute.SelectAgrees | src/app/api/users/route.ts:28 | filters that agree on every stored user select the same users |
| UsersRoute.MalformedExcludeExcludesNoOne | src/app/api/users/route.ts:20-25 | with the fallback as intended, a malformed `exclude` leaves out no one: the list is the one without `exclude` |
| UsersRoute.Get | src/app/api/users/route.ts:7-40 | with a role, every listed user has it; with an excluded object id, no listed user has it; a malformed `exclude` leaves out no one; at most 50 by default; whenever the handler as written answers a list, it is this list; the store is unchanged |

## Findings

| source | as written | input that shows it | evidently intended | confidence | as-written member | corrected member |
|---|---|---|---|---|---|---|
| src/app/api/feed/route.ts:12 | `Math.min(Number(limit), 100)` has no lower bound; the database reads a limit of 0 as "no limit" and `-n` as `n` | against 150 posts, `?limit=0` returns all 150; `?limit=-150` returns one batch of up to 150 | a page never holds more than 100 posts | medium (depends on the database driver's reading of `limit`); not executed | FeedRoute.FeedLimitEscapesCap | FeedRoute.CappedFeedHonoursCap |
| src/app/api/users/route.ts:20-25 | the fallback `{ $ne: exclude }` for a string that is no object id is cast to an object id again when `find` runs, which throws; the outer catch answers 500 | `?exclude=abc` answers 500 "Failed to fetch users" | a malformed `exclude` is compared as a string, which excludes no one | medium (depends on the database library casting query conditions by the schema, its default); not executed | UsersRoute.MalformedExcludeFails | UsersRoute.MalformedExcludeExcludesNoOne |
| middleware.ts:27-29 | the matcher lists exact paths, so the guard never runs on the pages below `/dashboard`, though its test is by prefix | `/dashboard/jobs` or `/dashboard/events` without a cookie is let through | every page below a protected route is guarded (matcher entries with `/:path*`) | medium (depends on the framework matching a matcher entry without a wildcard exactly); not executed | Middleware.DashboardSubpagesUnguarded | Middleware.CoveredHandleGuardsSubpages |

`FeedRoute.PostStore.Get` uses the corrected page size (`CappedFeedGet`). `FeedGet` keeps the handler as written. `UsersRoute.Get` uses the intended string fallback, and `UsersRoute.GetAsWritten` keeps the handler as written. `Middleware.CoveredHandle` is the guard with the covering matcher, and `Middleware.Handle` keeps the matcher as written.

## Left out

- Connecting to the database, `NextResponse`, HTTP status plumbing, `console.error` and `async`: responses are result datatypes.
- Database failures: apart from the failed cast of `exclude`, the two GET handlers cannot fail in the model, though the code answers 500 whenever a query throws.
- UserModel.Message: the enumeration's message leaves out the offending value that the database library puts in front of it, since `FieldError` does not carry the value.
- FeedRoute.PostStore.Get: serves the corrected page size of 1 to 100, so `?limit=0` and `?limit=-150` each return one post, where the handler as written returns every post or 150 (`FeedRoute.FeedGet` keeps the handler as written).
- A POST body that is not JSON, or is JSON `null`: `request.json()` or the destructuring throws and the handler answers 500 "Failed to create post". Any other non-object JSON value has no `content` and gets the 400, as `FeedRoute.PostBody` with an `Undefined` content does. `FeedRoute.PostBody` is an already-parsed value.
- UsersRoute.Get: follows the intended string fallback, so a malformed `exclude` lists every matching user; the handler as written answers 500 for that input, which `UsersRoute.GetAsWritten` models.
- Query.Limit: a negative limit `-n` returns exactly `min(n, length)` documents, whereas the database returns a single batch of at most `n`, which can hold fewer.
- `Number()` and `parseInt` on query strings, which can give NaN or fractions: parameters are `Option<int>`, with `None` for an absent or empty parameter.
- The email check of the form schemas comes from a library and is a parameter `isEmail`. String lengths are counted in characters, whereas the library counts UTF-16 code units.
- bcrypt's algorithm and salt rounds: only `compare(p, hash(p))` and the 60-character hash length are assumed.
- How object ids are generated and parsed: new ids come from a counter. Whether a query string is an object id is given by the caller as `Request.IdRef`.
- The `timestamps` option (`updatedAt`); `createdAt` is a `now` parameter.
- The order the database gives posts or users with equal `createdAt`: it is unspecified, and the model fixes one order.
- Non-string `authorName` values in a POST body: the author name is an optional string.
- Concurrent sign-ups racing past the email lookup: the store is sequential.
- Next.js matcher details (trailing slashes, locales, `_next` paths): a matcher entry is matched as the exact path.
- The form schemas are modelled on their own: the server actions do not parse their input with them.
- The follow/unfollow toggle (src/app/api/users/[id]/follow/route.ts) is not part of this model.
- The React pages, header and layout: rendering, local storage and styling only.
