/**
 * The JSON envelope every handler answers with, and the two builders
 * `Success` and `Error`. `Error` also logs the failure and, for server-side
 * failures, hands an alert to the notification side channel.
 */
module Response {
  import opened Base
  import opened Codes

  /** The parts of the gin request the builders read. */
  datatype Request = Request(context: map<string, string>, verb: string, path: string)

  /** `c.GetString("requestID")`: the empty string when the key was never set. */
  function RequestID(r: Request): (id: string)
    ensures "requestID" in r.context ==> id == r.context["requestID"]
    ensures "requestID" !in r.context ==> id == ""
  {
    if "requestID" in r.context then r.context["requestID"] else ""
  }

  /** The `Response` body; `code` is written to JSON as `int(code)`. */
  datatype Envelope<D> = Envelope(
    success: bool,
    code: Code,
    message: string,
    data: Option<D>,
    error: Option<string>,
    requestID: string)

  /** The alert text's fields: request id, status, verb, path and error. */
  datatype Alert = Alert(requestID: string, status: int, verb: string, path: string, error: string)

  /** One reply: HTTP status and body, plus whether an error was logged and which alert was sent. */
  datatype Sent<D> = Sent(status: int, body: Envelope<D>, logged: bool, alert: Option<Alert>)

  /** `response.Success`. */
  function Success<D>(r: Request, code: Code, data: Option<D>): (s: Sent<D>)
    ensures s.status == 200 && s.body.success
    ensures s.body.code == code && s.body.message == Message(code) && s.body.data == data
    ensures s.body.error == None && s.body.requestID == RequestID(r)
    ensures !s.logged && s.alert == None
  {
    Sent(200, Envelope(true, code, Message(code), data, None, RequestID(r)), false, None)
  }

  /**
   * `response.Error`. `err` is the Go error's text (None for a nil error) and
   * `release` is whether gin runs in release mode.
   */
  function Error<D>(r: Request, code: Code, err: Option<string>, release: bool): (s: Sent<D>)
    ensures s.status == HttpStatus(code) && !s.body.success
    ensures s.body.code == code && s.body.message == Message(code) && s.body.data == None
    ensures s.body.requestID == RequestID(r)
    ensures release ==> s.body.error == None
    ensures !release ==> s.body.error == err
    ensures s.logged <==> err.Some?
    ensures s.alert.Some? <==> err.Some? && HttpStatus(code) >= 500
    ensures s.alert.Some? ==> s.alert.value == Alert(RequestID(r), HttpStatus(code), r.verb, r.path, err.value)
  {
    var status := HttpStatus(code);
    var alert := if err.Some? && status >= 500 then Some(Alert(RequestID(r), status, r.verb, r.path, err.value)) else None;
    var shown := if release then None else err;
    Sent(status, Envelope(false, code, Message(code), None, shown, RequestID(r)), err.Some?, alert)
  }

  /**
   * For one request and code, a success and an error reply share the code,
   * message and request id. A client tells them apart only by `success`, the
   * status (when the code's status is not 200) and the data or error fields.
   * A success is never logged or alerted; an error with a cause at a 5xx
   * status is both.
   */
  lemma SuccessAndErrorDiffer<D>(r: Request, code: Code, data: Option<D>, err: Option<string>, release: bool)
    ensures var ok := Success(r, code, data);
            var bad := Error<D>(r, code, err, release);
      && ok.body.code == bad.body.code && ok.body.message == bad.body.message
      && ok.body.requestID == bad.body.requestID
      && ok.body.success && !bad.body.success
      && bad.body.data == None
      && (ok.status == bad.status <==> HttpStatus(code) == 200)
      && !ok.logged && ok.alert == None
      && (err.Some? && HttpStatus(code) >= 500 ==> bad.logged && bad.alert.Some?)
  {
  }

  /**
   * Which failures page someone: exactly those with an error whose code is
   * not one of the client-error or success classes, which includes every
   * undeclared code; every alert reports status 500.
   */
  lemma AlertClassification<D>(r: Request, code: Code, err: Option<string>, release: bool)
    ensures var s := Error<D>(r, code, err, release);
      s.alert.Some? <==> err.Some? && code !in {Ok, InvalidParams, UserAlreadyExists, UserPasswordWrong,
                                                UserNotFound, AuthTokenExpired, AuthTokenInvalid, AuthRequired}
    ensures var s := Error<D>(r, code, err, release);
      s.alert.Some? ==> s.alert.value.status == 500
  {
  }

  /** Release mode changes nothing but the `error` field. */
  lemma ReleaseOnlyRedacts<D>(r: Request, code: Code, err: Option<string>)
    ensures var dev := Error<D>(r, code, err, false);
            var rel := Error<D>(r, code, err, true);
      rel == dev.(body := dev.body.(error := None))
  {
  }

  /** An error built from the `Ok` code still goes out with HTTP 200, but never reports success. */
  lemma ErrorWithOkCode<D>(r: Request, err: Option<string>, release: bool)
    ensures var s := Error<D>(r, Ok, err, release);
      s.status == 200 && !s.body.success && s.alert == None
  {
  }
}
