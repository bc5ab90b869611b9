/**
 * The two middlewares of the protected API group: the JWT middleware that
 * puts the caller's identity into the request context, and the Casbin
 * authorizer that decides on (user, tenant, path, verb).
 */
module Middleware {
  import opened Base
  import opened Codes
  import opened Http
  import Jwt
  import Response

  /** The request-context keys the JWT middleware sets and the authorizer reads. */
  const UserIDKey := "userID"
  const RoleKey := "userRole"
  const TenantKey := "tenantID"

  /** The context after a user has been admitted. */
  function Admit(context: map<string, string>, u: User): map<string, string>
  {
    context[UserIDKey := u.id][RoleKey := u.role][TenantKey := u.tenantID]
  }

  /**
   * `NewJWTMiddleware`, as written: the token is only decoded
   * (`ParseTokenUnverified`), never verified, and the session store is not
   * consulted; `getByID` is the user lookup.
   */
  function Authenticate(context: map<string, string>, header: string, codec: Jwt.Codec,
                        getByID: string -> Option<User>): (g: Gate)
    ensures header == "" ==> g == Abort(AuthAccessTokenRequired, Said(HeaderRequired))
    ensures header != "" && BearerToken(header).None? ==> g == Abort(AuthTokenInvalid, Said(HeaderMalformed))
    ensures g.Next? <==>
      && BearerToken(header).Some?
      && codec.decodeUnverified(BearerToken(header).value).Some?
      && getByID(codec.decodeUnverified(BearerToken(header).value).value.userID).Some?
    ensures g.Next? ==>
      var u := getByID(codec.decodeUnverified(BearerToken(header).value).value.userID).value;
      g.context == Admit(context, u)
    ensures g.Abort? && header != "" ==> g.code == AuthTokenInvalid
  {
    if header == "" then Abort(AuthAccessTokenRequired, Said(HeaderRequired))
    else match BearerToken(header)
      case None => Abort(AuthTokenInvalid, Said(HeaderMalformed))
      case Some(token) =>
        match codec.decodeUnverified(token)
        case None => Abort(AuthTokenInvalid, DecodeFailed)
        case Some(c) =>
          match getByID(c.userID)
          case None => Abort(AuthTokenInvalid, LookupFailed)
          case Some(u) => Next(Admit(context, u))
  }

  /**
   * The as-written middleware admits a token that fails verification (a
   * forged signature, an expired token, a revoked session, a blocked user)
   * as the user it names, so long as the token decodes and the user exists.
   */
  lemma UnverifiedTokenAdmitted(context: map<string, string>, store: Jwt.Store, token: string, codec: Jwt.Codec,
                                getByID: string -> Option<User>, b: bool, s: bool)
    requires ' ' !in token
    requires codec.decodeUnverified(token).Some? && getByID(codec.decodeUnverified(token).value.userID).Some?
    requires Jwt.ValidateAccessToken(store, codec, token, b, s).Failure?
    ensures Authenticate(context, "Bearer " + token, codec, getByID)
         == Next(Admit(context, getByID(codec.decodeUnverified(token).value.userID).value))
  {
    BearerTokenExact("Bearer " + token, token);
  }

  /** A concrete instance: a token whose signature does not check still gets user 42 in. */
  lemma ForgedTokenExample()
    ensures var codec := Jwt.Codec(t => Jwt.Malformed, t => Some(Jwt.AccessClaims("42", "s")));
      var u := User("42", "t1", "", "", "", "", "admin", true);
      && Jwt.ValidateAccessToken(map[], codec, "x", false, false) == Failure(Jwt.Coded(AuthTokenInvalid))
      && Authenticate(map[], "Bearer " + "x", codec, id => Some(u)) == Next(Admit(map[], u))
  {
    BearerTokenExact("Bearer " + "x", "x");
  }

  /** The abort code for a failed validation: the coded ones keep their code, the rest are internal. */
  function FaultCode(f: Jwt.Fault): Code
  {
    if f.Coded? then f.code else InternalError
  }

  /**
   * The middleware as evidently intended: the bearer token goes through
   * `ValidateAccessToken` (signature, expiry, block flag, live session)
   * before the user is looked up by the verified claims.
   */
  function AuthenticateVerified(context: map<string, string>, header: string, store: Jwt.Store, codec: Jwt.Codec,
                                blockCheckFails: bool, sessionCheckFails: bool,
                                getByID: string -> Option<User>): (g: Gate)
    ensures header == "" ==> g == Abort(AuthAccessTokenRequired, Said(HeaderRequired))
    ensures g.Next? <==>
      && BearerToken(header).Some?
      && Jwt.ValidateAccessToken(store, codec, BearerToken(header).value, blockCheckFails, sessionCheckFails).Success?
      && getByID(codec.verify(BearerToken(header).value).claims.userID).Some?
    ensures g.Next? ==>
      var c := codec.verify(BearerToken(header).value).claims;
      && Jwt.SessionKey(c.userID, c.sessionID) in store
      && Jwt.BlockKey(c.userID) !in store
      && g.context == Admit(context, getByID(c.userID).value)
  {
    if header == "" then Abort(AuthAccessTokenRequired, Said(HeaderRequired))
    else match BearerToken(header)
      case None => Abort(AuthTokenInvalid, Said(HeaderMalformed))
      case Some(token) =>
        match Jwt.ValidateAccessToken(store, codec, token, blockCheckFails, sessionCheckFails)
        case Failure(f) => Abort(FaultCode(f), Wrapped(f))
        case Success(c) =>
          match getByID(c.userID)
          case None => Abort(AuthTokenInvalid, LookupFailed)
          case Some(u) => Next(Admit(context, u))
  }

  /** The verified middleware closes the gap: after logout the session's tokens no longer get in. */
  lemma VerifiedGateHonoursLogout(context: map<string, string>, store: Jwt.Store, token: string, codec: Jwt.Codec,
                                  userID: string, sessionID: string, getByID: string -> Option<User>)
    requires ' ' !in token
    requires codec.verify(token) == Jwt.Verified(Jwt.AccessClaims(userID, sessionID))
    ensures var after := Jwt.Logout(store, userID, sessionID, false).store;
      !AuthenticateVerified(context, "Bearer " + token, after, codec, false, false, getByID).Next?
  {
    BearerTokenExact("Bearer " + token, token);
  }

  /** The result of `Enforcer.Enforce`. */
  datatype Enforced = Allowed | Refused | EnforceFailed

  const NotAuthenticated := "user not authenticated"
  const NoTenant := "tenant not found"
  const AuthorizationError := "authorization error"
  const PermissionDenied := "permission denied"

  /**
   * `Authorizer`: `enforce(sub, dom, obj, act)` with the user id, the tenant
   * id, the request path and the HTTP verb. Every refusal uses the same code.
   */
  function Authorize(context: map<string, string>, path: string, verb: string,
                     enforce: (string, string, string, string) -> Enforced): (g: Gate)
    ensures g.Next? <==>
      UserIDKey in context && TenantKey in context
      && enforce(context[UserIDKey], context[TenantKey], path, verb) == Allowed
    ensures g.Next? ==> g.context == context
    ensures g.Abort? ==> g.code == AuthAccessTokenRequired
    ensures UserIDKey !in context ==> g.cause == Said(NotAuthenticated)
    ensures UserIDKey in context && TenantKey !in context ==> g.cause == Said(NoTenant)
    ensures UserIDKey in context && TenantKey in context ==>
      && (enforce(context[UserIDKey], context[TenantKey], path, verb) == EnforceFailed ==> g.cause == Said(AuthorizationError))
      && (enforce(context[UserIDKey], context[TenantKey], path, verb) == Refused ==> g.cause == Said(PermissionDenied))
  {
    if UserIDKey !in context then Abort(AuthAccessTokenRequired, Said(NotAuthenticated))
    else if TenantKey !in context then Abort(AuthAccessTokenRequired, Said(NoTenant))
    else match enforce(context[UserIDKey], context[TenantKey], path, verb)
      case EnforceFailed => Abort(AuthAccessTokenRequired, Said(AuthorizationError))
      case Refused => Abort(AuthAccessTokenRequired, Said(PermissionDenied))
      case Allowed => Next(context)
  }

  /**
   * Behind either JWT middleware, the authorizer's decision is exactly the
   * policy's answer for the admitted user's id and tenant, whatever the
   * context held before.
   */
  lemma AdmittedDecision(context: map<string, string>, u: User, path: string, verb: string,
                           enforce: (string, string, string, string) -> Enforced)
    ensures Authorize(Admit(context, u), path, verb, enforce).Next? <==> enforce(u.id, u.tenantID, path, verb) == Allowed
  {
    var ctx := Admit(context, u);
    assert UserIDKey != RoleKey && UserIDKey != TenantKey && RoleKey != TenantKey;
    assert ctx[UserIDKey] == u.id && ctx[TenantKey] == u.tenantID;
  }

  /** An unauthenticated request never reaches the policy: without the identity keys the authorizer refuses. */
  lemma NoIdentityNoAccess(context: map<string, string>, path: string, verb: string,
                           enforce: (string, string, string, string) -> Enforced)
    requires UserIDKey !in context
    ensures Authorize(context, path, verb, enforce) == Abort(AuthAccessTokenRequired, Said(NotAuthenticated))
  {
  }

  /**
   * Because `AuthAccessTokenRequired` has no declared number, a refusal is
   * rendered as an HTTP 500 with the "Unknown error" message, logged, and
   * raised as an alert.
   */
  lemma RefusalRendersAsServerError(r: Response.Request, context: map<string, string>, path: string, verb: string,
                                    enforce: (string, string, string, string) -> Enforced, release: bool)
    requires Authorize(context, path, verb, enforce).Abort?
    ensures var g := Authorize(context, path, verb, enforce);
      var s := Response.Error<()>(r, g.code, Some(g.cause.text), release);
      && s.status == 500 && s.body.message == UnknownError && s.logged && s.alert.Some?
  {
  }
}
