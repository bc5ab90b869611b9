/**
 * The three authentication endpoints (`POST /auth/sign-in`, `/auth/refresh`,
 * `/auth/logout`). The user lookup and the bcrypt comparison are function
 * parameters; JSON binding is an `Option` (None when the body does not bind).
 */
module AuthHandler {
  import opened Base
  import opened Codes
  import opened Http
  import Strings
  import Validator
  import Dto
  import Jwt

  /** `dto.User`: the public view of the signed-in user. */
  datatype UserView = UserView(id: string, username: string, fullName: string, role: string)

  /** `dto.SignInResponse`. */
  datatype SignInResponse = SignInResponse(accessToken: string, refreshToken: string, user: UserView)

  /** `dto.RefreshTokenRequest`: the one field the refresh handler reads. */
  datatype RefreshRequest = RefreshRequest(refreshToken: string)

  /** The one text used for both an unknown user and a wrong password. */
  const BadCredentials := "username or password is incorrect"

  function View(u: User): UserView
  {
    UserView(u.id, u.username, u.fullName, u.role)
  }

  /**
   * `Handler.SignIn`. `findByName` is the repository lookup, `passwordMatches`
   * is `hasher.Verify(password, hash) == nil`.
   */
  function SignIn(store: Jwt.Store, body: Option<Dto.SignInRequest>,
                  findByName: string -> Option<User>, passwordMatches: (string, string) -> bool,
                  userAgent: string, clientIP: string, env: Jwt.Issue): (r: Handled<SignInResponse>)
    ensures body.None? ==> r == Handled(Failed(InvalidRequest, BindFailed), store)
    ensures body.Some? && !Dto.Valid(body.value) ==>
      r == Handled(Failed(InvalidRequest, Invalid(Validator.Struct(Dto.Check(body.value)))), store)
    ensures body.Some? && Dto.Valid(body.value)
      && (findByName(body.value.username).None?
          || !passwordMatches(body.value.password, findByName(body.value.username).value.passwordHash))
      ==> r == Handled(Failed(AuthInvalidCredentials, Said(BadCredentials)), store)
    ensures r.store != store || r.reply.Succeeded? ==>
      && body.Some? && Dto.Valid(body.value)
      && findByName(body.value.username).Some?
      && passwordMatches(body.value.password, findByName(body.value.username).value.passwordHash)
    ensures r.reply.Succeeded? <==>
      && body.Some? && Dto.Valid(body.value)
      && findByName(body.value.username).Some?
      && passwordMatches(body.value.password, findByName(body.value.username).value.passwordHash)
      && env.access.Signed? && !env.setFails
    ensures r.reply.Succeeded? ==>
      var u := findByName(body.value.username).value;
      && r.reply.data == Some(SignInResponse(env.access.token, env.refreshToken, View(u)))
      && r.store == Jwt.Generate(store, u.id, userAgent, clientIP, env).store
  {
    match body
    case None => Handled(Failed(InvalidRequest, BindFailed), store)
    case Some(req) =>
      var reported := Validator.Struct(Dto.Check(req));
      if !reported.NoError? then Handled(Failed(InvalidRequest, Invalid(reported)), store)
      else match findByName(req.username)
        case None => Handled(Failed(AuthInvalidCredentials, Said(BadCredentials)), store)
        case Some(u) =>
          if !passwordMatches(req.password, u.passwordHash) then
            Handled(Failed(AuthInvalidCredentials, Said(BadCredentials)), store)
          else
            var step := Jwt.Generate(store, u.id, userAgent, clientIP, env);
            match step.out
            case Failure(f) => Handled(Failed(InternalError, Wrapped(f)), step.store)
            case Success(pair) =>
              Handled(Succeeded(Some(SignInResponse(pair.access, pair.refresh, View(u)))), step.store)
  }

  /**
   * Sign-in does not reveal whether a username exists: an unknown user and a
   * known user with the wrong password get the same reply and leave the same store.
   */
  lemma CredentialFailuresIndistinguishable(store: Jwt.Store, req: Dto.SignInRequest,
                                            unknown: string -> Option<User>, known: string -> Option<User>,
                                            passwordMatches: (string, string) -> bool,
                                            userAgent: string, clientIP: string, env: Jwt.Issue)
    requires Dto.Valid(req)
    requires unknown(req.username).None?
    requires known(req.username).Some? && !passwordMatches(req.password, known(req.username).value.passwordHash)
    ensures SignIn(store, Some(req), unknown, passwordMatches, userAgent, clientIP, env)
         == SignIn(store, Some(req), known, passwordMatches, userAgent, clientIP, env)
  {
  }

  /**
   * `Handler.Refresh`. `check` is what the validator makes of the bound
   * body; `header` is the `Authorization` header ("" when absent).
   */
  function Refresh(store: Jwt.Store, body: Option<RefreshRequest>, check: Validator.Outcome,
                   header: string, codec: Jwt.Codec, userAgent: string, env: Jwt.Rotation): (r: Handled<Jwt.TokenPair>)
    ensures body.None? ==> r == Handled(Failed(InvalidRequest, BindFailed), store)
    ensures body.Some? && !check.Passed? ==>
      r == Handled(Failed(InvalidRequest, Invalid(Validator.Struct(check))), store)
    ensures body.Some? && check.Passed? && header == "" ==>
      r == Handled(Failed(AuthAccessTokenRequired, Said(HeaderRequired)), store)
    ensures body.Some? && check.Passed? && header != "" && BearerToken(header).None? ==>
      r == Handled(Failed(AuthTokenInvalid, Said(HeaderMalformed)), store)
    ensures (body.Some? && check.Passed? && BearerToken(header).Some?
             && codec.decodeUnverified(BearerToken(header).value).None?) ==>
      r == Handled(Failed(AuthTokenInvalid, DecodeFailed), store)
    ensures (body.Some? && check.Passed? && BearerToken(header).Some?
             && codec.decodeUnverified(BearerToken(header).value).Some?) ==>
      var c := codec.decodeUnverified(BearerToken(header).value).value;
      var step := Jwt.Refresh(store, c.userID, c.sessionID, body.value.refreshToken, userAgent, env);
      && r.store == step.store
      && (step.out.Failure? ==> r.reply == Failed(AuthTokenInvalid, Wrapped(step.out.error)))
      && (step.out.Success? ==> r.reply == Succeeded(Some(step.out.value)))
    ensures r.reply.Failed? ==> r.reply.code in {InvalidRequest, AuthAccessTokenRequired, AuthTokenInvalid}
  {
    match body
    case None => Handled(Failed(InvalidRequest, BindFailed), store)
    case Some(req) =>
      if !check.Passed? then Handled(Failed(InvalidRequest, Invalid(Validator.Struct(check))), store)
      else if header == "" then Handled(Failed(AuthAccessTokenRequired, Said(HeaderRequired)), store)
      else match BearerToken(header)
        case None => Handled(Failed(AuthTokenInvalid, Said(HeaderMalformed)), store)
        case Some(token) =>
          match codec.decodeUnverified(token)
          case None => Handled(Failed(AuthTokenInvalid, DecodeFailed), store)
          case Some(c) =>
            var step := Jwt.Refresh(store, c.userID, c.sessionID, req.refreshToken, userAgent, env);
            match step.out
            case Failure(f) => Handled(Failed(AuthTokenInvalid, Wrapped(f)), step.store)
            case Success(pair) => Handled(Succeeded(Some(pair)), step.store)
  }

  /**
   * The refresh endpoint does not need a valid access token: an expired or
   * forged one names the session just as well, so long as it decodes.
   */
  lemma RefreshIgnoresSignature(store: Jwt.Store, body: Option<RefreshRequest>, check: Validator.Outcome,
                                header: string, c1: Jwt.Codec, c2: Jwt.Codec, userAgent: string, env: Jwt.Rotation)
    requires c1.decodeUnverified == c2.decodeUnverified
    ensures Refresh(store, body, check, header, c1, userAgent, env) == Refresh(store, body, check, header, c2, userAgent, env)
  {
  }

  /**
   * A stolen refresh token presented a second time through the endpoint
   * destroys the session it belongs to, and the reply is the generic
   * invalid-token one.
   */
  lemma ReplayThroughEndpoint(store: Jwt.Store, req: RefreshRequest, header: string, codec: Jwt.Codec,
                              userAgent: string, env: Jwt.Rotation)
    requires BearerToken(header).Some? && codec.decodeUnverified(BearerToken(header).value).Some?
    requires var c := codec.decodeUnverified(BearerToken(header).value).value;
      var key := Jwt.SessionKey(c.userID, c.sessionID);
      key in store && store[key].Session? && store[key].data.refreshToken != req.refreshToken
    requires !env.getFails && !env.deleteFails
    ensures var c := codec.decodeUnverified(BearerToken(header).value).value;
      var r := Refresh(store, Some(req), Validator.Passed, header, codec, userAgent, env);
      && r.reply == Failed(AuthTokenInvalid, Wrapped(Jwt.Coded(SessionMismatch)))
      && r.store == store - {Jwt.SessionKey(c.userID, c.sessionID)}
  {
    assert header != "" by {
      EmptyHeaderHasNoToken();
    }
  }

  /**
   * `Handler.Logout`. Lenient by design: a missing header or an undecodable
   * token is a successful no-op; only a failed `DEL` is reported.
   */
  function Logout(store: Jwt.Store, header: string, codec: Jwt.Codec, deleteFails: bool): (r: Handled<()>)
    ensures r.reply.Succeeded? ==> r.reply.data == None
    ensures r.reply.Failed? <==>
      header != "" && codec.decodeUnverified(Strings.TrimPrefix(header, "Bearer ")).Some? && deleteFails
    ensures r.reply.Failed? ==> r.reply.code == InternalError && r.store == store
    ensures header == "" || codec.decodeUnverified(Strings.TrimPrefix(header, "Bearer ")).None? ==> r.store == store
    ensures header != "" && codec.decodeUnverified(Strings.TrimPrefix(header, "Bearer ")).Some? && !deleteFails ==>
      var c := codec.decodeUnverified(Strings.TrimPrefix(header, "Bearer ")).value;
      r.store == store - {Jwt.SessionKey(c.userID, c.sessionID)}
  {
    if header == "" then Handled(Succeeded(None), store)
    else
      match codec.decodeUnverified(Strings.TrimPrefix(header, "Bearer "))
      case None => Handled(Succeeded(None), store)
      case Some(c) =>
        var step := Jwt.Logout(store, c.userID, c.sessionID, deleteFails);
        match step.out
        case Failure(f) => Handled(Failed(InternalError, Wrapped(f)), store)
        case Success(_) => Handled(Succeeded(None), step.store)
  }

  /**
   * Logout accepts a non-empty token with or without the `Bearer ` prefix,
   * and revokes the same session either way.
   */
  lemma LogoutAcceptsBareToken(store: Jwt.Store, token: string, codec: Jwt.Codec, deleteFails: bool)
    requires token != "" && !Strings.HasPrefix(token, "Bearer ")
    ensures Logout(store, "Bearer " + token, codec, deleteFails) == Logout(store, token, codec, deleteFails)
  {
    var h := "Bearer " + token;
    assert Strings.HasPrefix(h, "Bearer ");
    assert Strings.TrimPrefix(h, "Bearer ") == token;
  }
}
