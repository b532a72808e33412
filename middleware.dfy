/**
 * The admin route guard (`src/middleware.ts`): a pure decision from the request
 * path and the presence of the `mock_logged_in` cookie.
 */
module Middleware {
  import opened Text

  const AdminPrefix := "/admin"
  const LoginPath := "/admin/login"

  /** `NextResponse.next()` or `NextResponse.redirect(...)` to a path on the same site. */
  datatype Decision = Next | Redirect(to: string)

  /** `pathname.startsWith('/admin')`: a plain string prefix test. */
  predicate IsAdminPath(path: string)
  {
    AdminPrefix <= path
  }

  /**
   * `middleware`: an admin path other than the login page needs the session cookie
   * (`cookies.get` yields an object, truthy whatever its value, or `undefined`), and
   * the login page sends a signed-in visitor on to the dashboard.
   */
  function Guard(path: string, hasSession: bool): (d: Decision)
    ensures d.Redirect? ==> d.to == LoginPath || d.to == AdminPrefix
  {
    if IsAdminPath(path) && path != LoginPath && !hasSession then Redirect(LoginPath)
    else if path == LoginPath && hasSession then Redirect(AdminPrefix)
    else Next
  }

  /** `config.matcher` `/admin/:path*`: `/admin` itself or anything below `/admin/`. */
  predicate Matched(path: string)
  {
    path == AdminPrefix || "/admin/" <= path
  }

  /** Without the cookie every admin page but the login page sends the visitor to log in. */
  lemma UnsignedAdminGoesToLogin(path: string, hasSession: bool)
    ensures (Guard(path, hasSession) == Redirect(LoginPath)) <==>
      (IsAdminPath(path) && path != LoginPath && !hasSession)
  {
  }

  /** A signed-in visitor of the login page goes to the dashboard, and only then is there such a redirect. */
  lemma SignedLoginGoesToDashboard(path: string, hasSession: bool)
    ensures (Guard(path, hasSession) == Redirect(AdminPrefix)) <==> (path == LoginPath && hasSession)
  {
  }

  /** The request passes exactly for the login page without a session, a signed-in admin page, or a non-admin path. */
  lemma GuardPasses(path: string, hasSession: bool)
    ensures Guard(path, hasSession) == Next <==>
      || (path == LoginPath && !hasSession)
      || (IsAdminPath(path) && path != LoginPath && hasSession)
      || !IsAdminPath(path)
  {
    assert IsAdminPath(LoginPath);
  }

  /** No decision sends a path to itself, so the guard never loops on one page. */
  lemma NoSelfRedirect(path: string, hasSession: bool)
    ensures Guard(path, hasSession).Redirect? ==> Guard(path, hasSession).to != path
  {
  }

  /** Following a redirect with the same cookie state passes: the guard never chains two redirects. */
  lemma RedirectSettles(path: string, hasSession: bool)
    requires Guard(path, hasSession).Redirect?
    ensures Guard(Guard(path, hasSession).to, hasSession) == Next
  {
    assert IsAdminPath(LoginPath);
    assert IsAdminPath(AdminPrefix);
  }

  /** The prefix test is not a segment test: `/administrator` is treated as an admin page. */
  lemma AdministratorIsAdmin()
    ensures IsAdminPath("/administrator")
    ensures Guard("/administrator", false) == Redirect(LoginPath)
  {
    assert "/administrator" == AdminPrefix + "istrator";
  }

  /** Every path the matcher lets through is an admin path, and `/administrator` is not let through. */
  lemma MatchedPathsAreAdmin(path: string)
    ensures Matched(path) ==> IsAdminPath(path)
    ensures !Matched("/administrator")
  {
    if "/admin/" <= path {
      assert path[..6] == AdminPrefix;
    }
    assert "/administrator"[6] != "/admin/"[6];
  }
}
