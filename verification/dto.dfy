/**
 * The sign-in request body and the rules its `validate` tags impose, in the
 * order go-playground checks them: for each field the first failing tag is
 * reported and the remaining tags of that field are skipped.
 */
module Dto {
  import opened Base
  import Validator

  datatype SignInRequest = SignInRequest(username: string, password: string)

  /** `required`: a string field must not be the zero value. */
  predicate Required(s: string)
  {
    s != ""
  }

  /**
   * The whole tag list of both fields holds: username `required,min=3,max=255`,
   * password `required,min=6`. Lengths count code points, as go-playground
   * counts runes.
   */
  predicate Valid(r: SignInRequest)
  {
    && Required(r.username) && |r.username| >= 3 && |r.username| <= 255
    && Required(r.password) && |r.password| >= 6
  }

  /** The names the two fields are reported under: their json tags. */
  const UsernameField: string := "username"
  const PasswordField: string := "password"

  /** The validator's tag-name rule maps both json tags to themselves. */
  lemma FieldNamesFromTags()
    ensures Validator.TagName("username") == UsernameField
    ensures Validator.TagName("password") == PasswordField
  {
    assert ',' !in "username" && ',' !in "password";
  }

  /** The first failing tag of the username field, if any. */
  function UsernameError(u: string): (e: Option<Validator.FieldError>)
    ensures e.None? <==> 3 <= |u| <= 255
    ensures e.Some? ==> e.value.field == UsernameField
  {
    var name := UsernameField;
    if !Required(u) then Some(Validator.FieldError(name, "required", ""))
    else if |u| < 3 then Some(Validator.FieldError(name, "min", "3"))
    else if |u| > 255 then Some(Validator.FieldError(name, "max", "255"))
    else None
  }

  /** The first failing tag of the password field, if any. */
  function PasswordError(p: string): (e: Option<Validator.FieldError>)
    ensures e.None? <==> |p| >= 6
    ensures e.Some? ==> e.value.field == PasswordField
  {
    var name := PasswordField;
    if !Required(p) then Some(Validator.FieldError(name, "required", ""))
    else if |p| < 6 then Some(Validator.FieldError(name, "min", "6"))
    else None
  }

  function Listed(o: Option<Validator.FieldError>): seq<Validator.FieldError>
  {
    if o.Some? then [o.value] else []
  }

  /**
   * What go-playground's `Struct` reports for a sign-in request: each failing
   * field once, the username before the password, with the first tag it fails.
   */
  function Check(r: SignInRequest): (o: Validator.Outcome)
    ensures o.Passed? <==> Valid(r)
    ensures !o.OtherError?
    ensures o.FieldErrors? ==> 1 <= |o.errs| <= 2
    ensures o.FieldErrors? ==> forall i :: 0 <= i < |o.errs| ==> o.errs[i].field in {UsernameField, PasswordField}
    ensures o.FieldErrors? ==> forall i, j :: 0 <= i < j < |o.errs| ==> o.errs[i].field != o.errs[j].field
    ensures o.FieldErrors? ==>
      ((exists i :: 0 <= i < |o.errs| && o.errs[i].field == UsernameField) <==> !(3 <= |r.username| <= 255))
    ensures o.FieldErrors? ==>
      ((exists i :: 0 <= i < |o.errs| && o.errs[i].field == PasswordField) <==> |r.password| < 6)
    ensures o.FieldErrors? ==> forall i :: 0 <= i < |o.errs| && o.errs[i].field == UsernameField ==>
      && i == 0
      && (r.username == "" ==> o.errs[i].tag == "required" && o.errs[i].param == "")
      && (1 <= |r.username| < 3 ==> o.errs[i].tag == "min" && o.errs[i].param == "3")
      && (|r.username| > 255 ==> o.errs[i].tag == "max" && o.errs[i].param == "255")
    ensures o.FieldErrors? ==> forall i :: 0 <= i < |o.errs| && o.errs[i].field == PasswordField ==>
      && (r.password == "" ==> o.errs[i].tag == "required" && o.errs[i].param == "")
      && (1 <= |r.password| < 6 ==> o.errs[i].tag == "min" && o.errs[i].param == "6")
  {
    var u := UsernameError(r.username);
    var p := PasswordError(r.password);
    ListedPair(u, p);
    var errs := Listed(u) + Listed(p);
    if errs == [] then Validator.Passed else Validator.FieldErrors(errs)
  }

  /** The username's error, if any, then the password's: each field at most once, in that order. */
  lemma ListedPair(u: Option<Validator.FieldError>, p: Option<Validator.FieldError>)
    requires u.Some? ==> u.value.field == UsernameField
    requires p.Some? ==> p.value.field == PasswordField
    ensures var errs := Listed(u) + Listed(p);
      && |errs| <= 2
      && (forall i :: 0 <= i < |errs| ==> errs[i].field in {UsernameField, PasswordField})
      && (forall i, j :: 0 <= i < j < |errs| ==> errs[i].field != errs[j].field)
      && ((exists i :: 0 <= i < |errs| && errs[i].field == UsernameField) <==> u.Some?)
      && ((exists i :: 0 <= i < |errs| && errs[i].field == PasswordField) <==> p.Some?)
      && (forall i :: 0 <= i < |errs| && errs[i].field == UsernameField ==> i == 0 && errs[i] == u.value)
      && (forall i :: 0 <= i < |errs| && errs[i].field == PasswordField ==> errs[i] == p.value)
  {
    var errs := Listed(u) + Listed(p);
    if u.Some? {
      assert errs[0] == u.value;
    }
    if p.Some? {
      assert errs[|errs| - 1] == p.value;
    }
  }

  /** The tag list reduces to two length ranges: `required` adds nothing once a minimum is set. */
  lemma ValidIsLengthRanges(r: SignInRequest)
    ensures Valid(r) <==> 3 <= |r.username| <= 255 && |r.password| >= 6
  {
  }

  /** A username that is too short and an empty password produce exactly these two messages. */
  lemma ShortUsernameEmptyPassword(u: string)
    requires 1 <= |u| < 3
    ensures Validator.Struct(Check(SignInRequest(u, ""))) ==
      Validator.Messages([UsernameField + ": " + ("minimum length is " + "3"), PasswordField + ": " + "required field"])
  {
    var o := Check(SignInRequest(u, ""));
    assert o.errs == [Validator.FieldError(UsernameField, "min", "3"), Validator.FieldError(PasswordField, "required", "")];
    var r := Validator.Struct(o);
    assert |r.messages| == 2;
    assert r.messages[0] == Validator.Line(o.errs[0]);
    assert r.messages[1] == Validator.Line(o.errs[1]);
  }
}
