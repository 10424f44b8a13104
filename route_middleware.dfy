/** The Next.js `middleware`: redirects decided by the path and by whether a `__session` cookie exists. */
module RouteMiddleware {

  datatype Response = Redirect(to: string) | Continue

  predicate StartsWith(s: string, prefix: string) {
    |prefix| <= |s| && s[..|prefix|] == prefix
  }

  /** `middleware(request)`; only the presence of the cookie is visible to it, never its value. */
  function Middleware(path: string, hasSession: bool): (r: Response)
    ensures r == Redirect("/login") <==> StartsWith(path, "/admin") && !hasSession
    ensures r == Redirect("/dashboard") <==> (path == "/login" || path == "/register") && hasSession
    ensures r.Redirect? ==> r.to == "/login" || r.to == "/dashboard"
  {
    if StartsWith(path, "/admin") && !hasSession then Redirect("/login")
    else if (path == "/login" || path == "/register") && hasSession then Redirect("/dashboard")
    else Continue
  }

  /** The prefix test also guards `/admin_dashboard` and any other path that begins with `/admin`. */
  lemma AdminPrefixGuarded(suffix: string)
    ensures Middleware("/admin" + suffix, false) == Redirect("/login")
    ensures Middleware("/admin" + suffix, true) == Continue
  {
    var path := "/admin" + suffix;
    assert path[..6] == "/admin";
    assert path[1] == 'a';
    assert path != "/login" && path != "/register";
  }
}
