/**
 * The request guard of src/middleware.ts: a path is protected or an auth
 * route by raw prefix, a visitor without a session is sent from a protected
 * path to the login, a signed-in user is sent from an auth route to the
 * dashboard, and a failure anywhere lets the request through. The session
 * lookup is an input; cookies are not modelled.
 */
module Middleware {
  import Strings

  datatype Response = Next | Redirect(path: string)

  /** What the session lookup gave: a user or none, or an exception. */
  datatype Lookup = Session(hasUser: bool) | Threw

  predicate IsProtectedRoute(pathname: string) {
    Strings.StartsWith(pathname, "/dashboard") || Strings.StartsWith(pathname, "/onboarding") ||
    Strings.StartsWith(pathname, "/orcamentos")
  }

  predicate IsAuthRoute(pathname: string) {
    Strings.StartsWith(pathname, "/login") || Strings.StartsWith(pathname, "/register")
  }

  /** No path is both protected and an auth route: the prefixes part at their second
      character. */
  lemma RouteKindsDisjoint(pathname: string)
    ensures !(IsProtectedRoute(pathname) && IsAuthRoute(pathname))
  {
    Strings.StartsWithAt(pathname, "/dashboard", 1);
    Strings.StartsWithAt(pathname, "/onboarding", 1);
    Strings.StartsWithAt(pathname, "/orcamentos", 1);
    Strings.StartsWithAt(pathname, "/login", 1);
    Strings.StartsWithAt(pathname, "/register", 1);
  }

  /** `updateSession` once the user is known. */
  function UpdateSession(pathname: string, hasUser: bool): (r: Response)
    ensures r == Redirect("/login") <==> IsProtectedRoute(pathname) && !hasUser
    ensures r == Redirect("/dashboard") <==> IsAuthRoute(pathname) && hasUser
    ensures r.Next? <==> !(IsProtectedRoute(pathname) && !hasUser) && !(IsAuthRoute(pathname) && hasUser)
  {
    if IsProtectedRoute(pathname) && !hasUser then Redirect("/login")
    else if IsAuthRoute(pathname) && hasUser then Redirect("/dashboard")
    else Next
  }

  /** `middleware`: an exception while updating the session lets the request through. */
  function HandleRequest(pathname: string, lookup: Lookup): (r: Response)
    ensures lookup.Threw? ==> r.Next?
    ensures lookup.Session? ==> r == UpdateSession(pathname, lookup.hasUser)
  {
    match lookup
    case Threw => Next
    case Session(hasUser) => UpdateSession(pathname, hasUser)
  }

  /** A redirect never leads to another one: the login page lets a visitor without a
      session in, and the dashboard lets a user in. */
  lemma NoRedirectLoop(pathname: string, lookup: Lookup)
    ensures match HandleRequest(pathname, lookup)
            case Redirect(target) => HandleRequest(target, lookup).Next?
            case Next => true
  {
    assert Strings.StartsWith("/login", "/login");
    assert Strings.StartsWith("/dashboard", "/dashboard");
    RouteKindsDisjoint("/login");
    RouteKindsDisjoint("/dashboard");
  }

  /** The prefix test is not segment-aware, and the routes of the dashboard group do not
      carry the `/dashboard` prefix: `/dashboardx` is guarded and `/quotes` is not. */
  lemma PrefixExamples()
    ensures HandleRequest("/dashboardx", Session(false)) == Redirect("/login")
    ensures HandleRequest("/quotes", Session(false)) == Next
    ensures HandleRequest("/login/x", Session(true)) == Redirect("/dashboard")
  {
    assert "/dashboardx"[..10] == "/dashboard";
    assert "/login/x"[..6] == "/login";
    assert "/quotes"[1] == 'q';
    assert !Strings.StartsWith("/quotes", "/dashboard") by { assert "/quotes"[..7][1] == 'q'; }
  }
}
