/**
 * What the HTTP delivery layer shares: the user record it reads, the bearer
 * header rule, and the shape of a handler's or middleware's decision.
 */
module Http {
  import opened Base
  import opened Codes
  import Strings
  import Jwt
  import Validator

  /** `domain.User`, as the user-lookup service returns it. */
  datatype User = User(
    id: string,
    tenantID: string,
    fullName: string,
    username: string,
    passwordHash: string,
    phone: string,
    role: string,
    isActive: bool)

  /** The Go error handed to `response.Error`. */
  datatype Cause =
    | Said(text: string)                      // `errors.New` with a fixed text
    | BindFailed                              // `ShouldBindJSON` failed
    | Invalid(reported: Validator.Reported)   // what the validator reported
    | Wrapped(fault: Jwt.Fault)               // an error returned by the session manager
    | DecodeFailed                            // `ParseTokenUnverified` failed
    | LookupFailed                            // the user lookup failed

  /** How a handler ends: `response.Success(c, codes.Ok, data)` or `response.Error(c, log, code, cause)`. */
  datatype Reply<T> = Succeeded(data: Option<T>) | Failed(code: Code, cause: Cause)

  /** A handler's reply together with the session store it leaves behind. */
  datatype Handled<T> = Handled(reply: Reply<T>, store: Jwt.Store)

  /** How a middleware ends: `c.Next()` with the request context, or an abort. */
  datatype Gate = Next(context: map<string, string>) | Abort(code: Code, cause: Cause)

  /** The texts of the two header errors. */
  const HeaderRequired := "authorization header required"
  const HeaderMalformed := "invalid auth header format"

  /**
   * The header check shared by the refresh handler and the JWT middleware:
   * `strings.Split(header, " ")` must give exactly two parts, the first
   * exactly `Bearer`; the second is the token.
   */
  function BearerToken(header: string): (t: Option<string>)
    ensures t.Some? ==> header == "Bearer " + t.value && ' ' !in t.value
    ensures ' ' !in header ==> t.None?
  {
    var parts := Strings.Split(header, ' ');
    if |parts| == 2 && parts[0] == "Bearer" then
      assert Strings.Join(parts, " ") == parts[0] + " " + Strings.Join(parts[1..], " ");
      assert parts[1..] == [parts[1]];
      Some(parts[1])
    else None
  }

  /** The header is accepted exactly when it is `Bearer`, one space, and a token without spaces. */
  lemma BearerTokenExact(header: string, token: string)
    ensures BearerToken(header) == Some(token) <==> header == "Bearer " + token && ' ' !in token
  {
    var parts := Strings.Split(header, ' ');
    if BearerToken(header) == Some(token) {
      assert Strings.Join(parts, " ") == parts[0] + " " + Strings.Join(parts[1..], " ");
      assert parts[1..] == [token];
    }
    if header == "Bearer " + token && ' ' !in token {
      Strings.SplitAtFirst("Bearer", ' ', token);
      assert "Bearer" + [' '] + token == header;
      Strings.SplitWithoutSeparator(token, ' ');
    }
  }

  /** No header is accepted when empty. */
  lemma EmptyHeaderHasNoToken()
    ensures BearerToken("") == None
  {
  }
}
