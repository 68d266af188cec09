/**
 * The route guard that runs before the pages `/register`, `/dashboard`, `/login`
 * and `/signup`: it reads the `auth_token` cookie and either lets the request through
 * or redirects it, matching the pathname by prefix against two route lists.
 */
module Middleware {
  import opened Wrappers
  import opened JsString

  datatype Decision = Next | Redirect(location: string)

  const AuthCookie: string := "auth_token"
  const LoginPage: string := "/login"
  const DashboardPage: string := "/dashboard"

  /** Routes that require authentication. */
  const ProtectedRoutes: seq<string> := ["/dashboard", "/register"]
  /** Routes an authenticated user is sent away from. */
  const AuthRoutes: seq<string> := ["/login", "/signup", "/register"]
  /** The paths the framework runs the guard for. */
  const Matcher: seq<string> := ["/register", "/dashboard", "/login", "/signup"]

  /** The value of the `auth_token` cookie, if the request carries one. */
  function Token(cookies: map<string, string>): (t: Option<string>)
    ensures t.Some? <==> AuthCookie in cookies
    ensures t.Some? ==> t.value == cookies[AuthCookie]
  {
    if AuthCookie in cookies then Some(cookies[AuthCookie]) else None
  }

  /** JavaScript truthiness of the token: absent and the empty string are both falsy. */
  predicate Truthy(token: Option<string>) {
    token.Some? && token.value != ""
  }

  /** `routes.some((p) => pathname.startsWith(p))` */
  predicate SomePrefix(routes: seq<string>, pathname: string) {
    exists i | 0 <= i < |routes| :: StartsWith(pathname, routes[i])
  }

  /** The guard's decision for one request. */
  function Decide(token: Option<string>, pathname: string): (d: Decision)
    ensures d == Next || d == Redirect(LoginPage) || d == Redirect(DashboardPage)
    ensures d == Redirect(LoginPage) ==> !Truthy(token)
    ensures d == Redirect(DashboardPage) ==> Truthy(token)
  {
    var isTryingProtected := SomePrefix(ProtectedRoutes, pathname);
    if isTryingProtected && !Truthy(token) then Redirect(LoginPage)
    else if Truthy(token) && SomePrefix(AuthRoutes, pathname) then Redirect(DashboardPage)
    else Next
  }

  /** What the framework does for a request: the guard only runs on the matcher's paths. */
  function Handle(cookies: map<string, string>, pathname: string): (d: Decision)
    ensures pathname !in Matcher ==> d == Next
  {
    if pathname in Matcher then Decide(Token(cookies), pathname) else Next
  }

  /** Without a token, every path under a protected route goes to the login page. */
  lemma UnauthenticatedProtectedGoesToLogin(token: Option<string>, pathname: string)
    requires !Truthy(token)
    requires StartsWith(pathname, "/dashboard") || StartsWith(pathname, "/register")
    ensures Decide(token, pathname) == Redirect(LoginPage)
  {
    if StartsWith(pathname, "/dashboard") {
      assert StartsWith(pathname, ProtectedRoutes[0]);
    } else {
      assert StartsWith(pathname, ProtectedRoutes[1]);
    }
  }

  /** With a token, every path under an authentication route goes to the dashboard. */
  lemma AuthenticatedAuthRouteGoesToDashboard(token: Option<string>, pathname: string)
    requires Truthy(token)
    requires StartsWith(pathname, "/login") || StartsWith(pathname, "/signup") || StartsWith(pathname, "/register")
    ensures Decide(token, pathname) == Redirect(DashboardPage)
  {
    if StartsWith(pathname, "/login") {
      assert StartsWith(pathname, AuthRoutes[0]);
    } else if StartsWith(pathname, "/signup") {
      assert StartsWith(pathname, AuthRoutes[1]);
    } else {
      assert StartsWith(pathname, AuthRoutes[2]);
    }
  }

  /** `/register` is in both lists, so no request under it is ever let through. */
  lemma RegisterIsUnreachable(token: Option<string>, pathname: string)
    requires StartsWith(pathname, "/register")
    ensures Decide(token, pathname) != Next
    ensures Decide(token, pathname) == if Truthy(token) then Redirect(DashboardPage) else Redirect(LoginPage)
  {
    if Truthy(token) {
      AuthenticatedAuthRouteGoesToDashboard(token, pathname);
    } else {
      UnauthenticatedProtectedGoesToLogin(token, pathname);
    }
  }

  /** Neither list contains a prefix of `/login` or `/signup` that is protected. */
  lemma NotProtected(pathname: string)
    requires StartsWith(pathname, "/login") || StartsWith(pathname, "/signup")
    ensures !SomePrefix(ProtectedRoutes, pathname)
  {
    assert pathname[1] == 'l' || pathname[1] == 's';
    forall i | 0 <= i < |ProtectedRoutes| ensures !StartsWith(pathname, ProtectedRoutes[i]) {
      assert ProtectedRoutes[i][1] == 'd' || ProtectedRoutes[i][1] == 'r';
    }
  }

  /** Without a token the login and sign-up pages are reachable. */
  lemma UnauthenticatedAuthPagesPass(token: Option<string>, pathname: string)
    requires !Truthy(token)
    requires StartsWith(pathname, "/login") || StartsWith(pathname, "/signup")
    ensures Decide(token, pathname) == Next
  {
    NotProtected(pathname);
  }

  /** A path under `/dashboard` starts with none of the authentication routes. */
  lemma DashboardNotAuthRoute(pathname: string)
    requires StartsWith(pathname, "/dashboard")
    ensures !SomePrefix(AuthRoutes, pathname)
  {
    assert pathname[1] == 'd';
    forall i | 0 <= i < |AuthRoutes| ensures !StartsWith(pathname, AuthRoutes[i]) {
      assert AuthRoutes[i][1] != 'd';
    }
  }

  /** With a token, the dashboard and every page under it are reachable. */
  lemma AuthenticatedDashboardPasses(token: Option<string>, pathname: string)
    requires Truthy(token)
    requires StartsWith(pathname, "/dashboard")
    ensures Decide(token, pathname) == Next
  {
    DashboardNotAuthRoute(pathname);
  }

  /** The place a redirect sends the browser is let through, so no request loops. */
  lemma NoRedirectLoop(cookies: map<string, string>, pathname: string)
    requires Handle(cookies, pathname).Redirect?
    ensures Handle(cookies, Handle(cookies, pathname).location) == Next
  {
    var token := Token(cookies);
    assert LoginPage in Matcher && DashboardPage in Matcher;
    if Decide(token, pathname) == Redirect(LoginPage) {
      UnauthenticatedAuthPagesPass(token, LoginPage);
    } else {
      AuthenticatedDashboardPasses(token, DashboardPage);
    }
  }

  /**
   * The matcher lists exact paths, so the guard never runs below them: without a cookie the
   * jobs and events pages under `/dashboard` are let through, though the guard itself would
   * send them to the login page.
   */
  lemma DashboardSubpagesUnguarded()
    ensures Handle(map[], "/dashboard/jobs") == Next && Handle(map[], "/dashboard/events") == Next
    ensures Decide(Token(map[]), "/dashboard/jobs") == Redirect(LoginPage)
    ensures Decide(Token(map[]), "/dashboard/events") == Redirect(LoginPage)
  {
    UnauthenticatedProtectedGoesToLogin(None, "/dashboard/jobs");
    UnauthenticatedProtectedGoesToLogin(None, "/dashboard/events");
  }

  /** The paths a matcher with `/:path*` on each entry covers: a matcher path and everything below it. */
  predicate Covered(pathname: string) {
    pathname in Matcher || exists i | 0 <= i < |Matcher| :: StartsWith(pathname, Matcher[i] + "/")
  }

  /** What the framework does with the matcher covering the pages below each entry, as the prefix test intends. */
  function CoveredHandle(cookies: map<string, string>, pathname: string): (d: Decision)
    ensures !Covered(pathname) ==> d == Next
    ensures pathname in Matcher ==> d == Handle(cookies, pathname)
  {
    if Covered(pathname) then Decide(Token(cookies), pathname) else Next
  }

  /** With the covering matcher, every page below `/dashboard` or `/register` is guarded. */
  lemma CoveredHandleGuardsSubpages(cookies: map<string, string>, pathname: string)
    requires !Truthy(Token(cookies))
    requires StartsWith(pathname, "/dashboard/") || StartsWith(pathname, "/register/")
    ensures CoveredHandle(cookies, pathname) == Redirect(LoginPage)
  {
    if StartsWith(pathname, "/dashboard/") {
      assert StartsWith(pathname, Matcher[1] + "/");
      assert StartsWith(pathname, "/dashboard");
    } else {
      assert StartsWith(pathname, Matcher[0] + "/");
      assert StartsWith(pathname, "/register");
    }
    UnauthenticatedProtectedGoesToLogin(Token(cookies), pathname);
  }

  /** With the covering matcher too, the place a redirect sends the browser is let through. */
  lemma CoveredNoRedirectLoop(cookies: map<string, string>, pathname: string)
    requires CoveredHandle(cookies, pathname).Redirect?
    ensures CoveredHandle(cookies, CoveredHandle(cookies, pathname).location) == Next
  {
    var token := Token(cookies);
    assert LoginPage in Matcher && DashboardPage in Matcher;
    if Decide(token, pathname) == Redirect(LoginPage) {
      UnauthenticatedAuthPagesPass(token, LoginPage);
    } else {
      AuthenticatedDashboardPasses(token, DashboardPage);
    }
  }

  /** The guard matches by prefix: anything appended to a matcher path is decided like the path itself. */
  lemma PrefixMatching(token: Option<string>, route: string, suffix: string)
    requires route in Matcher
    ensures Decide(token, route + suffix) == Decide(token, route)
  {
    var p := route + suffix;
    assert StartsWith(p, route);
    if route == "/register" {
      RegisterIsUnreachable(token, p);
      RegisterIsUnreachable(token, route);
    } else if route == "/dashboard" {
      if Truthy(token) {
        AuthenticatedDashboardPasses(token, p);
        AuthenticatedDashboardPasses(token, route);
      } else {
        UnauthenticatedProtectedGoesToLogin(token, p);
        UnauthenticatedProtectedGoesToLogin(token, route);
      }
    } else {
      if Truthy(token) {
        AuthenticatedAuthRouteGoesToDashboard(token, p);
        AuthenticatedAuthRouteGoesToDashboard(token, route);
      } else {
        UnauthenticatedAuthPagesPass(token, p);
        UnauthenticatedAuthPagesPass(token, route);
      }
    }
  }

  /** An empty cookie value counts as no cookie at all. */
  lemma EmptyTokenIsUnauthenticated(pathname: string)
    ensures Decide(Some(""), pathname) == Decide(None, pathname)
  {
  }
}
