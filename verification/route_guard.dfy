/**
 * The global route middleware (auth.global.ts): a signed-in user is kept off
 * the login page, everyone else is sent to it.
 */
module RouteGuard {
  import opened Base
  import AuthStore

  const LoginPage := "/auth/login"
  const Home := "/"

  /** The routes reachable without signing in. */
  const PublicRoutes := [LoginPage]

  datatype Decision = Proceed | Redirect(to: string)

  function Guard(store: AuthStore.State, path: string): (d: Decision)
    ensures d.Proceed? <==> (AuthStore.IsLoggedIn(store) <==> path !in PublicRoutes)
    ensures d.Redirect? && AuthStore.IsLoggedIn(store) ==> d.to == Home
    ensures d.Redirect? && !AuthStore.IsLoggedIn(store) ==> d.to == LoginPage
  {
    if AuthStore.IsLoggedIn(store) then
      if path in PublicRoutes then Redirect(Home) else Proceed
    else
      if path !in PublicRoutes then Redirect(LoginPage) else Proceed
  }

  /** A redirect is never redirected again: the guard cannot loop. */
  lemma NoRedirectLoop(store: AuthStore.State, path: string)
    requires Guard(store, path).Redirect?
    ensures Guard(store, Guard(store, path).to) == Proceed
  {
  }

  /**
   * `logout` navigates to "/login", which is not a public route, so the
   * guard sends the signed-out user on to "/auth/login".
   */
  lemma LogoutTargetIsRedirected(store: AuthStore.State)
    ensures Guard(AuthStore.Logout(store).state, AuthStore.Logout(store).navigatedTo.value) == Redirect(LoginPage)
  {
    assert AuthStore.LogoutTarget != LoginPage by {
      assert |AuthStore.LogoutTarget| != |LoginPage|;
    }
  }

  /** After a successful login with a token, the login page sends the user home. */
  lemma LoginLeavesLoginPage(store: AuthStore.State, resp: AuthStore.AuthResponse)
    requires resp.accessToken != ""
    ensures Guard(AuthStore.Login(store, Success(resp)).state, LoginPage) == Redirect(Home)
  {
  }
}
