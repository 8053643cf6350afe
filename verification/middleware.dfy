/** The route gatekeeper that runs before every page request (src/middleware.tsx).
    It classifies the pathname by prefix and decides, from whether an
    `auth_token` cookie value is present, whether to redirect. */
module Middleware {
  import opened Js

  /** Paths that require a session: any path with one of these as a raw prefix. */
  const ProtectedRoutes: seq<string> := ["/dashboard", "/profile", "/settings", "/admin", "/invoices"]

  /** Paths a signed-in user is sent away from. */
  const AuthRoutes: seq<string> := ["/login", "/register"]

  /** Paths that need no check; matched exactly. */
  const PublicRoutes: seq<string> := ["/", "/about", "/contact", "/pricing"]

  /** `routes.some(route => pathname.startsWith(route))`. */
  function SomePrefix(routes: seq<string>, pathname: string): (b: bool)
    ensures b <==> exists i :: 0 <= i < |routes| && routes[i] <= pathname
  {
    if routes == [] then false
    else routes[0] <= pathname || SomePrefix(routes[1..], pathname)
  }

  /** `routes.some(route => pathname === route || (route === '/' && pathname === '/'))`. */
  function SomeEqual(routes: seq<string>, pathname: string): (b: bool)
    ensures b <==> pathname in routes
  {
    if routes == [] then false
    else pathname == routes[0] || (routes[0] == "/" && pathname == "/") || SomeEqual(routes[1..], pathname)
  }

  predicate IsProtectedRoute(pathname: string)
  {
    SomePrefix(ProtectedRoutes, pathname)
  }

  predicate IsAuthRoute(pathname: string)
  {
    SomePrefix(AuthRoutes, pathname)
  }

  predicate IsPublicRoute(pathname: string)
  {
    SomeEqual(PublicRoutes, pathname)
  }

  /** What the middleware answers: a redirect to `/login` that remembers the
      requested pathname in its `redirect` query parameter, a redirect to
      `/dashboard`, or `NextResponse.next()`. */
  datatype Decision = LoginRedirect(redirect: string) | DashboardRedirect | Next

  /** `middleware(request)`, given the pathname and the `auth_token` cookie
      value (absent when the request has no such cookie). */
  function Decide(pathname: string, token: Option<string>): (d: Decision)
    ensures d.LoginRedirect? <==> IsProtectedRoute(pathname) && !Truthy(token)
    ensures d.LoginRedirect? ==> d.redirect == pathname
    ensures d.DashboardRedirect? <==> IsAuthRoute(pathname) && Truthy(token)
    ensures d.Next? <==> !(IsProtectedRoute(pathname) && !Truthy(token)) && !(IsAuthRoute(pathname) && Truthy(token))
  {
    var isProtectedRoute := IsProtectedRoute(pathname);
    var isAuthRoute := IsAuthRoute(pathname);
    var _ := IsPublicRoute(pathname);
    if isProtectedRoute && !Truthy(token) then LoginRedirect(pathname)
    else if isAuthRoute && Truthy(token) then DashboardRedirect
    else Next
  }

  /** No path is both protected and an auth route: the second characters of
      the two lists' prefixes never agree. */
  lemma ProtectedAndAuthDisjoint(pathname: string)
    ensures !(IsProtectedRoute(pathname) && IsAuthRoute(pathname))
  {
    forall i, j | 0 <= i < |ProtectedRoutes| && 0 <= j < |AuthRoutes|
      ensures !(ProtectedRoutes[i] <= pathname && AuthRoutes[j] <= pathname)
    {
      assert ProtectedRoutes[i][1] != AuthRoutes[j][1];
      assert ProtectedRoutes[i] <= pathname ==> ProtectedRoutes[i][1] == pathname[1];
    }
  }

  /** Because the classes are disjoint, checking the auth-route rule first
      would decide the same way. */
  lemma CheckOrderIrrelevant(pathname: string, token: Option<string>)
    ensures Decide(pathname, token) ==
      (if IsAuthRoute(pathname) && Truthy(token) then DashboardRedirect
       else if IsProtectedRoute(pathname) && !Truthy(token) then LoginRedirect(pathname)
       else Next)
  {
    ProtectedAndAuthDisjoint(pathname);
  }

  /** The decision depends on whether a token is present, never on its value;
      an empty cookie value counts as no token. */
  lemma OnlyPresenceMatters(pathname: string, t1: Option<string>, t2: Option<string>)
    requires Truthy(t1) == Truthy(t2)
    ensures Decide(pathname, t1) == Decide(pathname, t2)
  {
  }

  /** A public path is neither protected nor an auth route, so it always continues. */
  lemma PublicRoutesContinue(pathname: string, token: Option<string>)
    requires IsPublicRoute(pathname)
    ensures Decide(pathname, token) == Next
  {
    forall i, j | 0 <= i < |ProtectedRoutes| && 0 <= j < |PublicRoutes|
      ensures !(ProtectedRoutes[i] <= PublicRoutes[j])
    {
      assert || |PublicRoutes[j]| < 2
        || ProtectedRoutes[i][1] != PublicRoutes[j][1]
        || ProtectedRoutes[i][2] != PublicRoutes[j][2]
        || ProtectedRoutes[i][3] != PublicRoutes[j][3];
    }
    forall i, j | 0 <= i < |AuthRoutes| && 0 <= j < |PublicRoutes|
      ensures !(AuthRoutes[i] <= PublicRoutes[j])
    {
      assert |PublicRoutes[j]| < 2 || AuthRoutes[i][1] != PublicRoutes[j][1];
    }
  }

  /** Prefix matching is raw: `/adminx` is protected because it starts with `/admin`. */
  lemma RawPrefixProtects(suffix: string)
    ensures IsProtectedRoute("/admin" + suffix)
    ensures Decide("/admin" + suffix, None) == LoginRedirect("/admin" + suffix)
  {
    assert ProtectedRoutes[3] <= "/admin" + suffix;
  }
}
