/** The route gate of `middleware.ts`: a pure decision, from the request's
    path and its `isLoggedIn` cookie, between letting the request through
    and redirecting it to the login page. */
module RouteGate {
  import opened Wrappers
  import opened Text

  const AuthPrefix: string := "/auth"
  const DashboardPrefix: string := "/dashboard"
  const LoginPath: string := "/auth/login"

  /** `NextResponse.next()` or `NextResponse.redirect(location)`. */
  datatype Response = Pass | Redirect(location: string)

  /** `isLoggedIn` is truthy: the cookie is present and its value is not empty. */
  predicate LoggedIn(isLoggedIn: Option<string>) {
    isLoggedIn.Some? && isLoggedIn.value != ""
  }

  /** `middleware(req)`, with `req.nextUrl.pathname` and
      `req.cookies.get('isLoggedIn')?.value` as parameters. */
  function Middleware(pathname: string, isLoggedIn: Option<string>): (r: Response)
    ensures r.Redirect? ==> r.location == LoginPath
  {
    if StartsWith(pathname, AuthPrefix) then Pass
    else if !LoggedIn(isLoggedIn) && StartsWith(pathname, DashboardPrefix) then Redirect(LoginPath)
    else Pass
  }

  /** Every path under `/auth` passes, whatever the cookie. */
  lemma AuthPathsPass(pathname: string, isLoggedIn: Option<string>)
    requires StartsWith(pathname, AuthPrefix)
    ensures Middleware(pathname, isLoggedIn) == Pass
  {
  }

  /** No dashboard path is also an auth path. */
  lemma DashboardIsNotAuth(pathname: string)
    requires StartsWith(pathname, DashboardPrefix)
    ensures !StartsWith(pathname, AuthPrefix)
  {
    assert pathname[1] == DashboardPrefix[1] == 'd';
    assert AuthPrefix[1] == 'a';
  }

  /** A dashboard path is redirected to the login page exactly when the
      cookie is absent or empty. */
  lemma DashboardNeedsLogin(pathname: string, isLoggedIn: Option<string>)
    requires StartsWith(pathname, DashboardPrefix)
    ensures Middleware(pathname, isLoggedIn) == Redirect(LoginPath) <==> isLoggedIn == None || isLoggedIn == Some("")
    ensures Middleware(pathname, isLoggedIn) == Pass <==> LoggedIn(isLoggedIn)
  {
    DashboardIsNotAuth(pathname);
  }

  /** Any non-empty cookie value lets a request through, not only `true`. */
  lemma AnyValueLogsIn(pathname: string, value: string)
    requires value != ""
    ensures Middleware(pathname, Some(value)) == Pass
  {
  }

  /** Paths under neither prefix pass. */
  lemma OtherPathsPass(pathname: string, isLoggedIn: Option<string>)
    requires !StartsWith(pathname, AuthPrefix) && !StartsWith(pathname, DashboardPrefix)
    ensures Middleware(pathname, isLoggedIn) == Pass
  {
  }

  /** The login page passes the gate, so a redirected request is not
      redirected again. */
  lemma RedirectIsFinal(pathname: string, isLoggedIn: Option<string>, again: Option<string>)
    requires Middleware(pathname, isLoggedIn).Redirect?
    ensures Middleware(Middleware(pathname, isLoggedIn).location, again) == Pass
  {
    assert StartsWith(LoginPath, AuthPrefix);
  }
}
