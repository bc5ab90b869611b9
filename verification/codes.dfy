/**
 * Application status codes and their two lookup tables: the HTTP status a
 * code is answered with and the human-readable message it carries.
 *
 * The codes declared in the source file are the first ten constructors. The
 * last six are referenced by callers but never declared; they are modelled as
 * opaque tags distinct from every declared code, so both tables send them to
 * their `default` branch.
 */
module Codes {

  datatype Code =
    | Ok | InternalError | InvalidParams
    | UserNotFound | UserAlreadyExists | UserPasswordWrong | UserInactive
    | AuthTokenExpired | AuthTokenInvalid | AuthRequired
      // referenced but undeclared
    | InvalidRequest | AuthInvalidCredentials | AuthAccessTokenRequired
    | SessionRevoked | SessionMismatch | UserBlocked
  {
    predicate Declared()
    {
      !(InvalidRequest? || AuthInvalidCredentials? || AuthAccessTokenRequired?
        || SessionRevoked? || SessionMismatch? || UserBlocked?)
    }
  }

  /** The integer a declared code stands for (`int(code)`). */
  function Number(c: Code): (n: int)
    requires c.Declared()
    ensures c.Ok? <==> n == 200
    ensures 1000 <= n < 2000 <==> (c.UserNotFound? || c.UserAlreadyExists? || c.UserPasswordWrong? || c.UserInactive?)
    ensures 2000 <= n < 3000 <==> (c.AuthTokenExpired? || c.AuthTokenInvalid? || c.AuthRequired?)
  {
    match c
    case Ok => 200
    case InternalError => 500
    case InvalidParams => 400
    case UserNotFound => 1001
    case UserAlreadyExists => 1002
    case UserPasswordWrong => 1003
    case UserInactive => 1004
    case AuthTokenExpired => 2001
    case AuthTokenInvalid => 2002
    case AuthRequired => 2003
  }

  /** `Code.HTTPStatus`. */
  function HttpStatus(c: Code): (s: int)
    ensures s in {200, 400, 401, 404, 500}
    ensures s == 200 <==> c == Ok
    ensures s == 400 <==> c in {InvalidParams, UserAlreadyExists, UserPasswordWrong}
    ensures s == 404 <==> c == UserNotFound
    ensures s == 401 <==> c in {AuthTokenExpired, AuthTokenInvalid, AuthRequired}
  {
    match c
    case Ok => 200
    case InternalError => 500
    case InvalidParams | UserAlreadyExists | UserPasswordWrong => 400
    case UserNotFound => 404
    case AuthTokenExpired | AuthTokenInvalid | AuthRequired => 401
    case _ => 500
  }

  const UnknownError: string := "Unknown error"

  /** `Code.String`. */
  function Message(c: Code): (m: string)
    ensures m == UnknownError <==> !c.Declared()
  {
    match c
    case Ok => "Operation successful"
    case InternalError => "Internal server error"
    case InvalidParams => "Invalid parameters or input"
    case UserNotFound => "User not found"
    case UserAlreadyExists => "User already exists"
    case UserPasswordWrong => "Incorrect password"
    case UserInactive => "User account is inactive"
    case AuthTokenExpired => "Access token has expired"
    case AuthTokenInvalid => "Invalid access token"
    case AuthRequired => "Authorization is required"
    case _ => UnknownError
  }

  /** Declared codes are told apart by their message: the table is injective on them. */
  lemma MessagesDistinct(a: Code, b: Code)
    requires a.Declared() && b.Declared() && a != b
    ensures Message(a) != Message(b)
  {
  }

  /** Declared codes are told apart by their number as well. */
  lemma NumbersDistinct(a: Code, b: Code)
    requires a.Declared() && b.Declared() && a != b
    ensures Number(a) != Number(b)
  {
  }

  /**
   * Every undeclared code reads as a server failure: it gets status 500 and
   * the same message, so `SessionRevoked`, `SessionMismatch` and `UserBlocked`
   * cannot be told apart by their text.
   */
  lemma UndeclaredCollapse(a: Code, b: Code)
    requires !a.Declared() && !b.Declared()
    ensures HttpStatus(a) == 500 && HttpStatus(b) == 500
    ensures Message(a) == Message(b)
  {
  }
}
