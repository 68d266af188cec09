/**
 * The user directory endpoint: an optional role filter, an optional id to leave out,
 * a page size defaulting to 50, newest users first, and a public projection that
 * never carries the email or the password.
 */
module UsersRoute {
  import opened Wrappers
  import opened UserModel
  import opened Request
  import opened Query

  /** The `_id: { $ne: … }` condition: against an object id, or (when the text is no object id) against the raw string. */
  datatype IdCondition = NotObjectId(id: UserId) | NotString(raw: string)

  /** The query document the handler builds. */
  datatype UserFilter = UserFilter(role: Option<string>, id: Option<IdCondition>)

  /** One user as the endpoint returns it. */
  datatype Listing = Listing(id: UserId, username: string, role: Role, profileImage: string)

  const DefaultLimit: int := 50

  /** `u.username || ""`, `u.profileImage || ""` */
  function ToListing(u: User): Listing {
    Listing(u.id, u.username, u.role, u.profileImage)
  }

  function CreatedAt(u: User): int {
    u.createdAt
  }

  /**
   * Whether a stored user satisfies the filter. `NotString` is read as the fallback intends:
   * a string equals no object id, so it excludes no one. As written the query never runs with
   * it, because the cast of the filter throws (`CastFails`).
   */
  predicate Matches(f: UserFilter, u: User) {
    && (f.role.None? || RoleName(u.role) == f.role.value)
    && (f.id.None? || f.id.value.NotString? || f.id.value.id != u.id)
  }

  /** The filter the handler's query parameters describe. */
  function FilterFor(role: Option<string>, exclude: Option<IdRef>): UserFilter {
    UserFilter(
      if role.Some? && role.value != "" then Some(role.value) else None,
      if !IdGiven(exclude) then None
      else match exclude.value
        case ObjectId(id) => Some(NotObjectId(id))
        case Malformed(raw) => Some(NotString(raw)))
  }

  /** Builds the filter field by field, as the handler does. */
  method BuildFilter(role: Option<string>, exclude: Option<IdRef>) returns (filter: UserFilter)
    ensures filter == FilterFor(role, exclude)
    ensures filter.role.Some? <==> role.Some? && role.value != ""
    ensures filter.role.Some? ==> filter.role == role
  {
    filter := UserFilter(None, None);
    if role.Some? && role.value != "" {
      filter := filter.(role := role);
    }
    if IdGiven(exclude) {
      match exclude.value
      case ObjectId(id) =>
        filter := filter.(id := Some(NotObjectId(id)));
      case Malformed(raw) =>
        filter := filter.(id := Some(NotString(raw)));
    }
  }

  /** `find(filter)`: the stored users that satisfy the filter, in store order. */
  function Select(users: seq<User>, f: UserFilter): (r: seq<User>)
    ensures |r| <= |users|
    ensures forall u :: u in r <==> u in users && Matches(f, u)
  {
    if users == [] then []
    else
      assert users == [users[0]] + users[1..];
      (if Matches(f, users[0]) then [users[0]] else []) + Select(users[1..], f)
  }

  /** `limitParam ? parseInt(limitParam, 10) : 50` (an absent or empty parameter is `None`). */
  function ListLimit(requested: Option<int>): int {
    requested.GetOr(DefaultLimit)
  }

  /** The users the endpoint lists, before projection: filtered, newest first, limited. */
  function Selected(users: seq<User>, f: UserFilter, limit: Option<int>): seq<User> {
    Limit(SortNewestFirst(Select(users, f), CreatedAt), ListLimit(limit))
  }

  function Project(us: seq<User>): (r: seq<Listing>)
    ensures |r| == |us|
    ensures forall i | 0 <= i < |us| :: r[i] == ToListing(us[i])
  {
    seq(|us|, i requires 0 <= i < |us| => ToListing(us[i]))
  }

  /** Every listed user satisfies the filter, came from the store, and the list is newest first. */
  lemma SelectedSound(users: seq<User>, f: UserFilter, limit: Option<int>)
    ensures var s := Selected(users, f, limit);
      && (forall u | u in s :: u in users && Matches(f, u))
      && NewestFirst(s, CreatedAt)
  {
    var sorted := SortNewestFirst(Select(users, f), CreatedAt);
    var s := Selected(users, f, limit);
    forall u | u in s ensures u in users && Matches(f, u) {
      var i :| 0 <= i < |s| && s[i] == u;
      assert sorted[i] == u;
      assert u in multiset(sorted);
    }
    WindowNewestFirst(sorted, 0, ListLimit(limit), CreatedAt);
    assert Window(sorted, 0, ListLimit(limit)) == s;
  }

  /** The list is a prefix of all matching users sorted newest first: it holds the newest matching ones. */
  lemma SelectedIsNewestPrefix(users: seq<User>, f: UserFilter, limit: Option<int>)
    ensures Selected(users, f, limit) <= SortNewestFirst(Select(users, f), CreatedAt)
  {
  }

  /** The page size bounds the list, 50 by default; a shorter list holds every matching user. */
  lemma SelectedSize(users: seq<User>, f: UserFilter, limit: Option<int>)
    ensures var s := Selected(users, f, limit);
      && (LimitBound(ListLimit(limit)).Some? ==> |s| <= LimitBound(ListLimit(limit)).value)
      && (limit.None? ==> |s| <= DefaultLimit)
      && (|s| < |Select(users, f)| ==> LimitBound(ListLimit(limit)).Some? && |s| == LimitBound(ListLimit(limit)).value)
  {
  }

  datatype UsersResponse = Listed(payload: seq<Listing>) | ServerError(error: string)

  const FetchFailedMessage: string := "Failed to fetch users"

  /** The query casts every `_id` condition to an object id; a string that is none makes `find` throw. */
  predicate CastFails(f: UserFilter) {
    f.id.Some? && f.id.value.NotString?
  }

  /** The handler as written: the query throws on a malformed `exclude`, and the outer catch answers 500. */
  function GetAsWritten(users: seq<User>, role: Option<string>, exclude: Option<IdRef>, limit: Option<int>): (r: UsersResponse)
    ensures r.ServerError? <==> IdGiven(exclude) && exclude.value.Malformed?
    ensures r.ServerError? ==> r.error == FetchFailedMessage
    ensures r.Listed? ==> r.payload == Project(Selected(users, FilterFor(role, exclude), limit))
  {
    var filter := FilterFor(role, exclude);
    if CastFails(filter) then ServerError(FetchFailedMessage)
    else Listed(Project(Selected(users, filter, limit)))
  }

  /** As written, `exclude=abc` is a 500 whatever the store holds: the fallback to a string compare never rescues it. */
  lemma MalformedExcludeFails(users: seq<User>, role: Option<string>, raw: string, limit: Option<int>)
    requires raw != ""
    ensures GetAsWritten(users, role, Some(Malformed(raw)), limit) == ServerError(FetchFailedMessage)
  {
  }

  /** Filters that agree on every stored user select the same users. */
  lemma {:induction false} SelectAgrees(users: seq<User>, f: UserFilter, g: UserFilter)
    requires forall i | 0 <= i < |users| :: Matches(f, users[i]) == Matches(g, users[i])
    ensures Select(users, f) == Select(users, g)
  {
    if users != [] {
      SelectAgrees(users[1..], f, g);
    }
  }

  /** With the fallback as intended, a malformed `exclude` leaves out no one: the list is the one without it. */
  lemma MalformedExcludeExcludesNoOne(users: seq<User>, role: Option<string>, raw: string, limit: Option<int>)
    ensures Selected(users, FilterFor(role, Some(Malformed(raw))), limit) == Selected(users, FilterFor(role, None), limit)
  {
    SelectAgrees(users, FilterFor(role, Some(Malformed(raw))), FilterFor(role, None));
  }

  /** GET, with the string fallback as intended: builds the filter, selects and projects; reads the store and changes nothing. */
  method Get(users: seq<User>, role: Option<string>, exclude: Option<IdRef>, limit: Option<int>) returns (payload: seq<Listing>)
    ensures payload == Project(Selected(users, FilterFor(role, exclude), limit))
    ensures role.Some? && role.value != "" ==> forall i | 0 <= i < |payload| :: RoleName(payload[i].role) == role.value
    ensures exclude.Some? && exclude.value.ObjectId? ==> forall i | 0 <= i < |payload| :: payload[i].id != exclude.value.id
    ensures limit.None? ==> |payload| <= DefaultLimit
    ensures exclude.Some? && exclude.value.Malformed? ==> payload == Project(Selected(users, FilterFor(role, None), limit))
    ensures GetAsWritten(users, role, exclude, limit).Listed? ==> payload == GetAsWritten(users, role, exclude, limit).payload
  {
    var filter := BuildFilter(role, exclude);
    var users' := Selected(users, filter, limit);
    payload := Project(users');
    SelectedSize(users, filter, limit);
    forall i | 0 <= i < |payload| ensures Matches(filter, users'[i]) && payload[i] == ToListing(users'[i]) {
      SelectedSound(users, filter, limit);
      assert users'[i] in users';
    }
    if exclude.Some? && exclude.value.Malformed? {
      MalformedExcludeExcludesNoOne(users, role, exclude.value.raw, limit);
    }
  }
}
