/**
 * The request validator: go-playground's outcome turned into one readable
 * message per failing field, and the json-tag naming rule the validator is
 * configured with.
 */
module Validator {
  import Strings

  /** One `validator.FieldError`: the (json) field name, the failing tag and its parameter. */
  datatype FieldError = FieldError(field: string, tag: string, param: string)

  /** What the underlying `Validate.Struct` call returns. */
  datatype Outcome = Passed | FieldErrors(errs: seq<FieldError>) | OtherError(text: string)

  /** What `CustomValidator.Struct` returns: nil, the package's `*Error`, or the foreign error untouched. */
  datatype Reported = NoError | Messages(messages: seq<string>) | Unchanged(text: string)

  const InvalidPrefix: string := "invalid value ("

  /** `formatMessage`: the text shown for one failing tag. */
  function FormatMessage(e: FieldError): (m: string)
    ensures e.tag == "required" ==> m == "required field"
    ensures e.tag == "email" ==> m == "invalid email format"
    ensures e.tag == "min" ==> m == "minimum length is " + e.param
    ensures e.tag == "max" ==> m == "maximum length is " + e.param
    ensures e.tag !in {"required", "email", "min", "max"} ==> m == InvalidPrefix + e.tag + ")"
  {
    match e.tag
    case "required" => "required field"
    case "email" => "invalid email format"
    case "min" => "minimum length is " + e.param
    case "max" => "maximum length is " + e.param
    case _ => InvalidPrefix + e.tag + ")"
  }

  /** The message of one field error: `"<field>: <formatMessage>"`. */
  function Line(e: FieldError): string
  {
    e.field + ": " + FormatMessage(e)
  }

  /** One message per field error, in the validator's order. */
  function Lines(errs: seq<FieldError>): (ms: seq<string>)
    ensures |ms| == |errs|
    ensures forall i :: 0 <= i < |errs| ==> ms[i] == Line(errs[i])
  {
    if |errs| == 0 then []
    else [Line(errs[0])] + Lines(errs[1..])
  }

  /** `CustomValidator.Struct`. */
  function Struct(o: Outcome): (r: Reported)
    ensures r.NoError? <==> o.Passed?
    ensures o.OtherError? ==> r == Unchanged(o.text)
    ensures o.FieldErrors? ==> r.Messages? && |r.messages| == |o.errs|
    ensures o.FieldErrors? ==> forall i :: 0 <= i < |o.errs| ==>
      r.messages[i] == o.errs[i].field + ": " + FormatMessage(o.errs[i])
  {
    match o
    case Passed => NoError
    case FieldErrors(errs) =>
      Messages(Lines(errs))
    case OtherError(t) => Unchanged(t)
  }

  const Bar: string := " | "

  /** `(*Error).Error`: the messages joined by `" | "`. */
  function ErrorText(messages: seq<string>): (t: string)
    ensures |messages| == 0 ==> t == ""
    ensures |messages| == 1 ==> t == messages[0]
    ensures |messages| >= 1 ==> Strings.HasPrefix(t, messages[0])
  {
    Strings.Join(messages, Bar)
  }

  /** One more message is appended after a `" | "`. */
  lemma {:induction false} ErrorTextSnoc(ms: seq<string>, m: string)
    requires |ms| >= 1
    ensures ErrorText(ms + [m]) == ErrorText(ms) + Bar + m
  {
    var q := ms + [m];
    assert q[0] == ms[0];
    if |ms| == 1 {
      assert q[1..] == [m];
      assert Strings.Join(q, Bar) == q[0] + Bar + Strings.Join([m], Bar);
    } else {
      assert q[1..] == ms[1..] + [m];
      ErrorTextSnoc(ms[1..], m);
    }
  }

  /** The text's length: the messages' lengths plus three characters per separator. */
  lemma {:induction false} ErrorTextLength(ms: seq<string>)
    requires |ms| >= 1
    ensures |ErrorText(ms)| == TotalLength(ms) + |Bar| * (|ms| - 1)
  {
    if |ms| > 1 {
      ErrorTextLength(ms[1..]);
    }
  }

  /**
   * The text of the validator's error grows by one `" | "`-separated line for
   * each further failing field.
   */
  lemma StructTextSnoc(errs: seq<FieldError>, e: FieldError)
    requires |errs| >= 1
    ensures var before := Struct(FieldErrors(errs));
            var after := Struct(FieldErrors(errs + [e]));
      ErrorText(after.messages) == ErrorText(before.messages) + Bar + e.field + ": " + FormatMessage(e)
  {
    var ms := Struct(FieldErrors(errs)).messages;
    var line := e.field + ": " + FormatMessage(e);
    assert Struct(FieldErrors(errs + [e])).messages == ms + [line];
    ErrorTextSnoc(ms, line);
  }

  function TotalLength(ms: seq<string>): nat
  {
    if |ms| == 0 then 0 else |ms[0]| + TotalLength(ms[1..])
  }

  /**
   * For a tag outside the four known ones, the tag can be read back out of
   * the message; for `min`/`max` the parameter can.
   */
  lemma MessageRecoversTag(e: FieldError)
    ensures var m := FormatMessage(e);
      && (e.tag !in {"required", "email", "min", "max"} ==> m[|InvalidPrefix|..|m| - 1] == e.tag)
      && (e.tag in {"min", "max"} ==> m[18..] == e.param)
  {
  }

  /** The characters of a line: the field name, then the colon. */
  lemma LineCharAt(e: FieldError, k: int)
    ensures 0 <= k < |e.field| ==> k < |Line(e)| && Line(e)[k] == e.field[k]
    ensures k == |e.field| ==> k < |Line(e)| && Line(e)[k] == ':'
  {
  }

  /** Two field errors give the same line only when they name the same field and format alike. */
  lemma LineSeparatesFields(a: FieldError, b: FieldError)
    requires ':' !in a.field && ':' !in b.field
    requires Line(a) == Line(b)
    ensures a.field == b.field && FormatMessage(a) == FormatMessage(b)
  {
    if |a.field| < |b.field| {
      LineCharAt(a, |a.field|);
      LineCharAt(b, |a.field|);
      assert false;
    } else if |b.field| < |a.field| {
      LineCharAt(a, |b.field|);
      LineCharAt(b, |b.field|);
      assert false;
    }
    assert a.field == Line(a)[..|a.field|];
    assert b.field == Line(b)[..|b.field|];
    assert FormatMessage(a) == Line(a)[|a.field| + 2..];
    assert FormatMessage(b) == Line(b)[|b.field| + 2..];
  }

  /** The text before the first `c` (all of `s` when there is none): `strings.SplitN(s, string(c), 2)[0]`. */
  function BeforeFirst(s: string, c: char): (r: string)
    ensures c !in r && Strings.HasPrefix(s, r)
    ensures c in s ==> |r| < |s| && s[|r|] == c
    ensures c !in s ==> r == s
  {
    if |s| == 0 || s[0] == c then ""
    else
      var rest := BeforeFirst(s[1..], c);
      assert s == [s[0]] + s[1..];
      [s[0]] + rest
  }

  /** The first piece of `SplitN(s, c, 2)` is the first piece of the full `Split`. */
  lemma {:induction false} BeforeFirstIsFirstPiece(s: string, c: char)
    ensures BeforeFirst(s, c) == Strings.Split(s, c)[0]
  {
    if |s| > 0 && s[0] != c {
      BeforeFirstIsFirstPiece(s[1..], c);
    }
  }

  /** The tag-name function registered with the validator: the json name, with `"-"` mapped to `""`. */
  function TagName(jsonTag: string): (name: string)
    ensures ',' !in name
    ensures name == "" || Strings.HasPrefix(jsonTag, name)
    ensures ',' !in jsonTag && jsonTag != "-" ==> name == jsonTag
    ensures Strings.HasPrefix(jsonTag, "-,") || jsonTag == "-" ==> name == ""
    ensures name != "" ==> Strings.HasPrefix(jsonTag, name) && (|name| == |jsonTag| || jsonTag[|name|] == ',')
    ensures ',' in jsonTag && !Strings.HasPrefix(jsonTag, "-,") ==>
      Strings.HasPrefix(jsonTag, name) && jsonTag[|name|] == ','
  {
    var first := BeforeFirst(jsonTag, ',');
    assert Strings.HasPrefix(jsonTag, "-,") ==> |first| == 1 && first == "-" by {
      if Strings.HasPrefix(jsonTag, "-,") {
        assert jsonTag[0] == '-' && jsonTag[1] == ',';
      }
    }
    if first == "-" then "" else first
  }
}
