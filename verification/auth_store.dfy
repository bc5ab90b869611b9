/**
 * The frontend's authentication store (`useAuthStore` in useAuthStore.ts):
 * the signed-in user and the two tokens. The network calls of `login` and
 * `refresh` are parameters: the reply, or the error the request threw.
 */
module AuthStore {
  import opened Base

  /** `IUser`. */
  datatype UserInfo = UserInfo(id: string, username: string, name: string, role: Option<string>, avatar: Option<string>)

  /** `IAuthResponse`, the body of a sign-in reply. */
  datatype AuthResponse = AuthResponse(accessToken: string, refreshToken: string, user: UserInfo)

  /** `IRefreshResponse`. */
  datatype RefreshResponse = RefreshResponse(accessToken: string, refreshToken: string)

  datatype State = State(user: Option<UserInfo>, accessToken: Option<string>, refreshToken: Option<string>)

  const Initial := State(None, None, None)

  /** Where `logout` navigates. */
  const LogoutTarget := "/login"

  /** `isLoggedIn`: `!!accessToken`, so neither null nor the empty string counts. */
  function IsLoggedIn(s: State): (b: bool)
    ensures b ==> s.accessToken.Some?
    ensures s.accessToken == Some("") ==> !b
    ensures s.accessToken.Some? && s.accessToken.value != "" ==> b
  {
    s.accessToken.Some? && s.accessToken.value != ""
  }

  /** What an action leaves behind: the state, where it navigated, and what it returned or threw. */
  datatype Done<T> = Done(state: State, navigatedTo: Option<string>, result: Result<T, string>)

  function SetTokens(s: State, access: string, refresh: string): (r: State)
    ensures r.user == s.user
    ensures r.accessToken == Some(access) && r.refreshToken == Some(refresh)
    ensures IsLoggedIn(r) <==> access != ""
  {
    s.(accessToken := Some(access), refreshToken := Some(refresh))
  }

  function SetUser(s: State, u: UserInfo): (r: State)
    ensures r.user == Some(u)
    ensures r.accessToken == s.accessToken && r.refreshToken == s.refreshToken
    ensures IsLoggedIn(r) == IsLoggedIn(s)
  {
    s.(user := Some(u))
  }

  /** `logout`: forgets everything and navigates to the login page. */
  function Logout(s: State): (r: Done<()>)
    ensures !IsLoggedIn(r.state)
    ensures r.state.user.None? && r.state.accessToken.None? && r.state.refreshToken.None?
    ensures r.navigatedTo == Some(LogoutTarget) && r.result.Success?
  {
    Done(Initial, Some(LogoutTarget), Success(()))
  }

  /** `login`: on a reply, stores both tokens and the user and returns the reply; otherwise rethrows. */
  function Login(s: State, reply: Result<AuthResponse, string>): (r: Done<AuthResponse>)
    ensures r.navigatedTo == None
    ensures r.result == reply
    ensures reply.Failure? ==> r.state == s
    ensures reply.Success? ==>
      && r.state.user == Some(reply.value.user)
      && r.state.accessToken == Some(reply.value.accessToken)
      && r.state.refreshToken == Some(reply.value.refreshToken)
      && (IsLoggedIn(r.state) <==> reply.value.accessToken != "")
  {
    match reply
    case Failure(e) => Done(s, None, Failure(e))
    case Success(data) => Done(SetUser(SetTokens(s, data.accessToken, data.refreshToken), data.user), None, Success(data))
  }

  /** Whether `refresh` issues a request at all: only with a non-empty refresh token. */
  predicate CanRefresh(s: State)
  {
    s.refreshToken.Some? && s.refreshToken.value != ""
  }

  /**
   * `refresh`: without a refresh token it does nothing; a reply rotates
   * both tokens; a failed request logs out and rethrows.
   */
  function Refresh(s: State, reply: Result<RefreshResponse, string>): (r: Done<()>)
    ensures !CanRefresh(s) ==> r == Done(s, None, Success(()))
    ensures CanRefresh(s) && reply.Success? ==>
      && r.state.user == s.user
      && r.state.accessToken == Some(reply.value.accessToken)
      && r.state.refreshToken == Some(reply.value.refreshToken)
      && r.navigatedTo == None && r.result.Success?
    ensures CanRefresh(s) && reply.Failure? ==>
      && r.state == Initial && r.navigatedTo == Some(LogoutTarget) && r.result == Failure(reply.error)
  {
    if !CanRefresh(s) then Done(s, None, Success(()))
    else match reply
      case Success(data) => Done(SetTokens(s, data.accessToken, data.refreshToken), None, Success(()))
      case Failure(e) => Done(Logout(s).state, Logout(s).navigatedTo, Failure(e))
  }

  /** Logging in and then out returns the store to its initial state, whatever it held before. */
  lemma LoginLogoutRoundTrip(s: State, resp: AuthResponse)
    ensures Logout(Login(s, Success(resp)).state).state == Initial
  {
  }

  /** Logout is idempotent. */
  lemma LogoutIdempotent(s: State)
    ensures Logout(Logout(s).state) == Logout(s)
  {
  }

  /** With no refresh token the network reply is never looked at. */
  lemma RefreshWithoutTokenIgnoresReply(s: State, a: Result<RefreshResponse, string>, b: Result<RefreshResponse, string>)
    requires !CanRefresh(s)
    ensures Refresh(s, a) == Refresh(s, b)
  {
  }

  /**
   * After a login, a successful refresh keeps the user and leaves the store
   * holding exactly the rotated pair.
   */
  lemma LoginThenRefresh(s: State, resp: AuthResponse, rot: RefreshResponse)
    requires resp.refreshToken != ""
    ensures var after := Login(s, Success(resp)).state;
      Refresh(after, Success(rot)).state == State(Some(resp.user), Some(rot.accessToken), Some(rot.refreshToken))
  {
  }
}
