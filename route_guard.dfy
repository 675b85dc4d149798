/** The admin route guard (src/middleware.ts): from the request path and
    whether a session exists it either lets the request through or
    redirects it. */
module RouteGuard {
  import opened Text

  datatype Decision = Pass | Redirect(target: string)

  predicate IsAdminRoute(path: string) { StartsWith(path, "/admin") }
  predicate IsDashboardRoute(path: string) { StartsWith(path, "/admin/dashboard") }
  predicate IsAuthRoute(path: string) {
    StartsWith(path, "/admin/login") || StartsWith(path, "/admin/signup")
  }

  function Decide(path: string, loggedIn: bool): (d: Decision)
    ensures d.Redirect? ==> d.target in {"/admin/login", "/admin/dashboard"}
  {
    if IsAdminRoute(path) then
      if IsDashboardRoute(path) then
        if !loggedIn then Redirect("/admin/login") else Pass
      else if IsAuthRoute(path) then
        if loggedIn then Redirect("/admin/dashboard") else Pass
      else if !loggedIn then Redirect("/admin/login")
      else Pass
    else Pass
  }

  /** A prefix of `path` that another prefix extends is a prefix of it too. */
  lemma LongerPrefix(path: string, short: string, long: string)
    requires StartsWith(long, short) && StartsWith(path, long)
    ensures StartsWith(path, short)
  {
    assert path[..|short|] == path[..|long|][..|short|];
  }

  /** The dashboard requires a session. */
  lemma DashboardNeedsSession(path: string, loggedIn: bool)
    requires IsDashboardRoute(path)
    ensures Decide(path, loggedIn) == if loggedIn then Pass else Redirect("/admin/login")
  {
    LongerPrefix(path, "/admin", "/admin/dashboard");
  }

  /** The login and signup pages send a signed-in user to the dashboard. */
  lemma AuthPagesOnlyWhenSignedOut(path: string, loggedIn: bool)
    requires IsAuthRoute(path)
    ensures Decide(path, loggedIn) == if loggedIn then Redirect("/admin/dashboard") else Pass
  {
    if StartsWith(path, "/admin/login") {
      LongerPrefix(path, "/admin", "/admin/login");
      assert path[7] == 'l';
    } else {
      LongerPrefix(path, "/admin", "/admin/signup");
      assert path[7] == 's';
    }
  }

  /** Every other admin page requires a session. */
  lemma OtherAdminPagesNeedSession(path: string, loggedIn: bool)
    requires IsAdminRoute(path) && !IsDashboardRoute(path) && !IsAuthRoute(path)
    ensures Decide(path, loggedIn) == if loggedIn then Pass else Redirect("/admin/login")
  {
  }

  /** Paths outside `/admin` are never redirected. */
  lemma PublicPathsPass(path: string, loggedIn: bool)
    requires !IsAdminRoute(path)
    ensures Decide(path, loggedIn) == Pass
  {
  }

  /** No redirect loop: where a request is redirected, the target itself is
      let through under the same session state. */
  lemma NoRedirectLoop(path: string, loggedIn: bool)
    requires Decide(path, loggedIn).Redirect?
    ensures Decide(Decide(path, loggedIn).target, loggedIn) == Pass
  {
    if loggedIn {
      DashboardNeedsSession("/admin/dashboard", loggedIn);
    } else {
      AuthPagesOnlyWhenSignedOut("/admin/login", loggedIn);
    }
  }
}
