/**
 * The request proxy in front of the admin area: a visitor without the admin cookie is sent to
 * the login page, and an admin who opens the login page is sent to the dashboard. Only requests
 * under /admin reach it.
 */
module Proxy {
  import opened Base
  import opened Text

  /** What the proxy answers: let the request through, or redirect it to a path of the same origin. */
  datatype Response = PassThrough | Redirect(path: string)

  const LoginPath: string := "/admin/login"
  const AdminPath: string := "/admin"

  /** Admin rights: the "admin" cookie holds exactly "true". */
  predicate IsAdmin(adminCookie: Option<string>) {
    adminCookie == Some("true")
  }

  /** The proxy's answer for a request it sees. */
  function ProxyResponse(adminCookie: Option<string>, pathname: string): (r: Response)
    ensures r == Redirect(LoginPath) <==>
              StartsWith(pathname, AdminPath) && pathname != LoginPath && !IsAdmin(adminCookie)
    ensures r == Redirect(AdminPath) <==> pathname == LoginPath && IsAdmin(adminCookie)
    ensures r.Redirect? ==> r.path == LoginPath || r.path == AdminPath
  {
    var isAdmin := IsAdmin(adminCookie);
    var isLoginPage := pathname == LoginPath;
    var isAdminPath := StartsWith(pathname, AdminPath);
    if isAdminPath && !isLoginPage && !isAdmin then Redirect(LoginPath)
    else if isLoginPage && isAdmin then Redirect(AdminPath)
    else PassThrough
  }

  /** The matcher "/admin/:path*": the admin root and every path below it. */
  predicate Intercepted(pathname: string) {
    pathname == AdminPath || StartsWith(pathname, AdminPath + "/")
  }

  /** What a request gets: the proxy's answer if the matcher sends it there, else it passes. */
  function Serve(adminCookie: Option<string>, pathname: string): (r: Response)
    ensures !Intercepted(pathname) ==> r == PassThrough
    ensures Intercepted(pathname) ==> r == ProxyResponse(adminCookie, pathname)
  {
    if Intercepted(pathname) then ProxyResponse(adminCookie, pathname) else PassThrough
  }

  lemma LoginIsIntercepted()
    ensures Intercepted(LoginPath) && Intercepted(AdminPath)
  {
    assert LoginPath[..7] == AdminPath + "/";
  }

  /**
   * The admin area is guarded: without the cookie every page of it but the login page redirects
   * to the login page; with it every page but the login page passes, and the login page redirects
   * to the dashboard.
   */
  lemma AdminAreaGuarded(adminCookie: Option<string>, pathname: string)
    requires Intercepted(pathname)
    ensures !IsAdmin(adminCookie) && pathname != LoginPath ==> Serve(adminCookie, pathname) == Redirect(LoginPath)
    ensures !IsAdmin(adminCookie) && pathname == LoginPath ==> Serve(adminCookie, pathname) == PassThrough
    ensures IsAdmin(adminCookie) && pathname != LoginPath ==> Serve(adminCookie, pathname) == PassThrough
    ensures IsAdmin(adminCookie) && pathname == LoginPath ==> Serve(adminCookie, pathname) == Redirect(AdminPath)
  {
    if pathname != AdminPath {
      assert pathname[..|AdminPath|] == (AdminPath + "/")[..|AdminPath|];
    }
  }

  /** A redirect settles in one step: its target passes for the same cookie, so there is no loop. */
  lemma RedirectSettles(adminCookie: Option<string>, pathname: string)
    ensures Serve(adminCookie, pathname).Redirect? ==> Serve(adminCookie, Serve(adminCookie, pathname).path) == PassThrough
  {
    LoginIsIntercepted();
    AdminAreaGuarded(adminCookie, LoginPath);
    AdminAreaGuarded(adminCookie, AdminPath);
  }

  /** The cookie check is exact: "True" or "1" grants nothing. */
  lemma CookieIsExact(pathname: string)
    requires Intercepted(pathname) && pathname != LoginPath
    ensures Serve(Some("True"), pathname) == Redirect(LoginPath)
    ensures Serve(Some("1"), pathname) == Redirect(LoginPath)
  {
    AdminAreaGuarded(Some("True"), pathname);
    AdminAreaGuarded(Some("1"), pathname);
  }
}
