/** The request middleware of src/middleware.ts: a prefix test against the
    list of public routes, then a check of the session cookie whose every
    outcome lets the request through. Whether the token verifies is a
    parameter. */
module Middleware {
  import opened Values
  import opened Strings

  const PublicRoutes: seq<string> := ["/api/auth", "/", "/home", "/courses/create"]

  /** `routes.some(route => path.startsWith(route))` */
  function SomePrefix(routes: seq<string>, path: string): (b: bool)
    ensures b <==> exists i :: 0 <= i < |routes| && StartsWith(path, routes[i])
  {
    if routes == [] then false
    else StartsWith(path, routes[0]) || SomePrefix(routes[1..], path)
  }

  predicate IsPublicRoute(path: string)
  {
    SomePrefix(PublicRoutes, path)
  }

  /** A path that starts with a longer prefix starts with its beginning too. */
  lemma {:induction false} PrefixOfPrefix(path: string, route: string, p: string)
    requires StartsWith(path, route) && StartsWith(route, p)
    ensures StartsWith(path, p)
  {
    assert path[..|p|] == path[..|route|][..|p|];
  }

  /** Because "/" is one of the public routes and every listed route begins
      with "/", a path is public exactly when it begins with "/". */
  lemma {:induction false} PublicIffRooted(path: string)
    ensures IsPublicRoute(path) <==> StartsWith(path, "/")
  {
    if IsPublicRoute(path) {
      var i :| 0 <= i < |PublicRoutes| && StartsWith(path, PublicRoutes[i]);
      assert StartsWith(PublicRoutes[i], "/");
      PrefixOfPrefix(path, PublicRoutes[i], "/");
    } else {
      assert !StartsWith(path, PublicRoutes[1]);
    }
  }

  /** What a middleware can answer: pass the request on, or send the
      visitor elsewhere. No branch of this middleware redirects any more;
      `Redirect` is kept so that `Decide`'s contract rules one out. */
  datatype Outcome = Next | Redirect(to: string)

  /** `middleware`: public paths pass; otherwise a missing token, a token
      that verifies and one that does not all pass as well. */
  function Decide(path: string, token: Option<string>, verifies: bool): (r: Outcome)
    ensures r == Next
  {
    if IsPublicRoute(path) then Next
    else if FalsyString(token) then Next
    else if verifies then Next
    else Next
  }
}
