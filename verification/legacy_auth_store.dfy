/**
 * The older `useAuthStore` in auth.ts: one token and a user with a numeric
 * id. It declares the same store id ("auth") as the store in
 * useAuthStore.ts but has no `isLoggedIn`, `login` or `refresh`.
 */
module LegacyAuthStore {
  import opened Base

  datatype User = User(id: int, email: string, name: string, avatar: Option<string>)

  datatype State = State(user: Option<User>, token: Option<string>)

  const Initial := State(None, None)

  function SetToken(s: State, t: string): (r: State)
    ensures r.token == Some(t) && r.user == s.user
  {
    s.(token := Some(t))
  }

  function SetUser(s: State, u: User): (r: State)
    ensures r.user == Some(u) && r.token == s.token
  {
    s.(user := Some(u))
  }

  /** `clearAuth`: forgets the user and the token. */
  function ClearAuth(s: State): (r: State)
    ensures r.user.None? && r.token.None?
  {
    Initial
  }

  /** `logout` only clears; the navigation in the source is commented out. */
  function Logout(s: State): (r: State)
    ensures r.user.None? && r.token.None?
  {
    ClearAuth(s)
  }

  /** Whatever was set, clearing undoes it; the setters commute. */
  lemma ClearUndoesSetters(s: State, t: string, u: User)
    ensures ClearAuth(SetUser(SetToken(s, t), u)) == ClearAuth(s) == Initial
    ensures SetUser(SetToken(s, t), u) == SetToken(SetUser(s, u), t)
  {
  }
}
