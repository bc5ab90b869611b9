/**
 * The sign-in page composable (`useAuthPage`): the form schema, the initial
 * form state, and the submit handler that logs in and raises a toast.
 */
module AuthPage {
  import opened Base
  import Strings
  import AuthStore
  import Dto
  import Codes
  import Http
  import Jwt
  import AuthHandler

  /** The form state: both fields start `undefined`. */
  datatype Form = Form(username: Option<string>, password: Option<string>)

  const InitialForm := Form(None, None)

  /** One schema complaint: the field and the message shown under it. */
  datatype Issue = Issue(field: string, message: string)

  const UsernameMissing := "Username kiritilmadi!"
  const UsernameShort := "Eng kamida 3 ta belgi bo'lishi kerak"
  const UsernameLong := "Eng ko'pi 50 ta belgi bo'lishi kerak"
  const PasswordMissing := "Password kiritilmadi!"
  const PasswordShort := "Eng kamida 6 ta belgi bo'lishi kerak"

  /** The schema's bounds, in the unit of the length function `len` it is applied with. */
  function UsernameIssue(u: Option<string>, len: string -> nat): (r: Option<Issue>)
    ensures r.Some? ==> r.value.field == "username"
    ensures r.None? <==> u.Some? && 3 <= len(u.value) <= 50
  {
    match u
    case None => Some(Issue("username", UsernameMissing))
    case Some(s) =>
      if len(s) < 3 then Some(Issue("username", UsernameShort))
      else if len(s) > 50 then Some(Issue("username", UsernameLong))
      else None
  }

  function PasswordIssue(p: Option<string>, len: string -> nat): (r: Option<Issue>)
    ensures r.Some? ==> r.value.field == "password"
    ensures r.None? <==> p.Some? && len(p.value) >= 6
  {
    match p
    case None => Some(Issue("password", PasswordMissing))
    case Some(s) => if len(s) < 6 then Some(Issue("password", PasswordShort)) else None
  }

  function Listed(i: Option<Issue>): seq<Issue>
  {
    if i.Some? then [i.value] else []
  }

  /** The zod schema as written: `.min`/`.max` count UTF-16 code units (JavaScript's `length`). */
  function SchemaIssues(f: Form): (issues: seq<Issue>)
    ensures issues == [] <==>
      && f.username.Some? && 3 <= Strings.Utf16Length(f.username.value) <= 50
      && f.password.Some? && Strings.Utf16Length(f.password.value) >= 6
    ensures |issues| <= 2
    ensures forall i :: 0 <= i < |issues| ==> issues[i].field in {"username", "password"}
    ensures forall i, j :: 0 <= i < j < |issues| ==> issues[i].field != issues[j].field
    ensures (exists i :: 0 <= i < |issues| && issues[i].field == "username") <==>
      !(f.username.Some? && 3 <= Strings.Utf16Length(f.username.value) <= 50)
    ensures (exists i :: 0 <= i < |issues| && issues[i].field == "password") <==>
      !(f.password.Some? && Strings.Utf16Length(f.password.value) >= 6)
  {
    var u := UsernameIssue(f.username, Strings.Utf16Length);
    var p := PasswordIssue(f.password, Strings.Utf16Length);
    ListedPair(u, p);
    Listed(u) + Listed(p)
  }

  /** The username's issue, if any, followed by the password's: one per field. */
  lemma ListedPair(u: Option<Issue>, p: Option<Issue>)
    requires u.Some? ==> u.value.field == "username"
    requires p.Some? ==> p.value.field == "password"
    ensures var issues := Listed(u) + Listed(p);
      && |issues| <= 2
      && (forall i :: 0 <= i < |issues| ==> issues[i].field in {"username", "password"})
      && (forall i, j :: 0 <= i < j < |issues| ==> issues[i].field != issues[j].field)
      && ((exists i :: 0 <= i < |issues| && issues[i].field == "username") <==> u.Some?)
      && ((exists i :: 0 <= i < |issues| && issues[i].field == "password") <==> p.Some?)
  {
    var issues := Listed(u) + Listed(p);
    if u.Some? {
      assert issues[0] == u.value;
    }
    if p.Some? {
      assert issues[|issues| - 1] == p.value;
    }
  }

  /** The untouched form is refused on both fields with the "missing" messages. */
  lemma InitialFormRefused()
    ensures SchemaIssues(InitialForm) == [Issue("username", UsernameMissing), Issue("password", PasswordMissing)]
  {
  }

  /** The schema as evidently intended: the same bounds counted in code points, as the backend counts. */
  function CodePointSchemaIssues(f: Form): (issues: seq<Issue>)
    ensures issues == [] <==>
      && f.username.Some? && 3 <= |f.username.value| <= 50
      && f.password.Some? && |f.password.value| >= 6
  {
    Listed(UsernameIssue(f.username, s => |s|)) + Listed(PasswordIssue(f.password, s => |s|))
  }

  /** The credentials a form submits. */
  function Request(f: Form): Dto.SignInRequest
    requires f.username.Some? && f.password.Some?
  {
    Dto.SignInRequest(f.username.value, f.password.value)
  }

  /** Every form the corrected schema passes also passes the backend's `validate` tags. */
  lemma CodePointSchemaImpliesBackendValid(f: Form)
    requires CodePointSchemaIssues(f) == []
    ensures Dto.Valid(Request(f))
  {
  }

  /**
   * The schema as written lets through a two-emoji username (UTF-16 length
   * 4) that the backend, counting two runes, refuses as too short.
   */
  lemma Utf16SchemaAdmitsBackendRejects()
    ensures var f := Form(Some("\U{1F600}\U{1F600}"), Some("secret"));
      && SchemaIssues(f) == []
      && CodePointSchemaIssues(f) != []
      && !Dto.Valid(Request(f))
  {
    var u := "\U{1F600}\U{1F600}";
    assert Strings.Utf16Length(u) == 4 by {
      assert u[1..][1..] == [];
    }
    assert Strings.Utf16Length("secret") == 6 by {
      assert "secret"[1..] == "ecret" && "ecret"[1..] == "cret" && "cret"[1..] == "ret";
      assert "ret"[1..] == "et" && "et"[1..] == "t" && "t"[1..] == "";
    }
  }

  /** Submitted to the sign-in endpoint, that form gets the invalid-request reply and no session. */
  lemma EmojiUsernameRefusedBySignIn(store: Jwt.Store, findByName: string -> Option<Http.User>,
                                     passwordMatches: (string, string) -> bool,
                                     userAgent: string, clientIP: string, env: Jwt.Issue)
    ensures var f := Form(Some("\U{1F600}\U{1F600}"), Some("secret"));
      var r := AuthHandler.SignIn(store, Some(Request(f)), findByName, passwordMatches, userAgent, clientIP, env);
      r.reply.Failed? && r.reply.code == Codes.InvalidRequest && r.store == store
  {
    Utf16SchemaAdmitsBackendRejects();
  }

  /** The written schema errs only on the minimums: its maximum and presence checks still imply the backend's. */
  lemma Utf16SchemaOnlyMissesMinimums(f: Form)
    requires SchemaIssues(f) == []
    ensures |f.username.value| <= 255 && f.username.value != "" && f.password.value != ""
    ensures |f.username.value| >= 3 && |f.password.value| >= 6 ==> Dto.Valid(Request(f))
  {
  }

  /** The toast `useAppToast` raises: its colour, title and description. */
  datatype Toast = Toast(color: string, title: string, description: string)

  const SignedIn := Toast("success", "Kirish muvaffaqiyatli amalga oshirildi", "")
  const SignInFailed := Toast("error", "Kirishda xatolik", "Username yoki password noto'g'ri")

  /** `onSubmit`: logs in through the store; it never throws, a failure becomes a toast. */
  function OnSubmit(s: AuthStore.State, reply: Result<AuthStore.AuthResponse, string>): (r: (AuthStore.State, Toast))
    ensures r.0 == AuthStore.Login(s, reply).state
    ensures r.1 == SignedIn <==> reply.Success?
    ensures r.1 == SignInFailed <==> reply.Failure?
    ensures reply.Failure? ==> r.0 == s
  {
    var done := AuthStore.Login(s, reply);
    (done.state, if done.result.Success? then SignedIn else SignInFailed)
  }
}
