/** The accumulating form validator of lib/validator.mjs. Each check either
    passes, leaving the result alone, or fails, clearing `success` and
    appending exactly one message. The messages are the library's own
    (Italian) texts. */
module Validation {
  import opened Wrappers
  import opened JsValues
  import Text

  /** The characters `String.prototype.trim` removes: white space and line
      terminators in the sense of ECMAScript. */
  predicate IsJsWhitespace(c: char) {
    c in {'\t', '\n', '\U{000B}', '\U{000C}', '\r', ' ', '\U{00A0}', '\U{1680}', '\U{2028}',
          '\U{2029}', '\U{202F}', '\U{205F}', '\U{3000}', '\U{FEFF}'}
    || ('\U{2000}' <= c <= '\U{200A}')
  }

  /** `s.trim()` */
  function Trim(s: string): (r: string)
    ensures |r| <= |s|
    ensures |r| > 0 ==> !IsJsWhitespace(r[0]) && !IsJsWhitespace(r[|r| - 1])
  {
    TrimEnd(TrimStart(s))
  }

  function TrimStart(s: string): (r: string)
    ensures |r| <= |s| && (|r| > 0 ==> !IsJsWhitespace(r[0]))
    ensures r == s[|s| - |r|..]
  {
    if |s| > 0 && IsJsWhitespace(s[0]) then TrimStart(s[1..]) else s
  }

  function TrimEnd(s: string): (r: string)
    ensures |r| <= |s| && (|r| > 0 ==> !IsJsWhitespace(r[|r| - 1]))
    ensures r == s[..|r|]
  {
    if |s| > 0 && IsJsWhitespace(s[|s| - 1]) then TrimEnd(s[..|s| - 1]) else s
  }

  /** A string trims to "" exactly when every character is white space. */
  lemma {:induction false} TrimEmpty(s: string)
    ensures Trim(s) == "" <==> forall i :: 0 <= i < |s| ==> IsJsWhitespace(s[i])
  {
    TrimStartEmpty(s);
    var t := TrimStart(s);
    if |t| > 0 {
      assert TrimEnd(t) != "" by { TrimEndKeepsFirst(t); }
    }
  }

  lemma {:induction false} TrimStartEmpty(s: string)
    ensures TrimStart(s) == "" <==> forall i :: 0 <= i < |s| ==> IsJsWhitespace(s[i])
  {
    if |s| > 0 && IsJsWhitespace(s[0]) {
      TrimStartEmpty(s[1..]);
      assert forall i :: 1 <= i < |s| ==> s[i] == s[1..][i - 1];
    }
  }

  /** Trimming the end of a string that starts with a non-space keeps that character. */
  lemma {:induction false} TrimEndKeepsFirst(s: string)
    requires |s| > 0 && !IsJsWhitespace(s[0])
    ensures |TrimEnd(s)| > 0
  {
    if IsJsWhitespace(s[|s| - 1]) {
      TrimEndKeepsFirst(s[..|s| - 1]);
    }
  }

  // ---------------------------------------------------------------------
  // The e-mail pattern ^[a-zA-Z0-9.!#$%&'*+/=?^_`{|}~-]+@[a-zA-Z0-9-]+(?:\.[a-zA-Z0-9-]+)*$

  predicate IsAlnum(c: char) {
    ('a' <= c <= 'z') || ('A' <= c <= 'Z') || ('0' <= c <= '9')
  }

  /** The punctuation the local part may hold besides letters and digits. */
  const LOCAL_SPECIALS := ".!#$%&'*+/=?^_`{|}~-"

  predicate IsLocalChar(c: char) {
    IsAlnum(c) || c in LOCAL_SPECIALS
  }

  predicate IsLabelChar(c: char) {
    IsAlnum(c) || c == '-'
  }

  /** The part after "@": non-empty labels separated by single dots. */
  predicate IsDomain(d: string) {
    var labels := Text.Split(d, '.');
    forall i :: 0 <= i < |labels| ==> |labels[i]| > 0 && forall k :: 0 <= k < |labels[i]| ==> IsLabelChar(labels[i][k])
  }

  /** A match of the pattern: a non-empty local part of allowed characters,
      one "@", and a domain. No allowed character is "@", so the "@" that
      splits a match is the first one. */
  predicate IsEmailAddress(s: string) {
    exists i :: 0 <= i < |s| && s[i] == '@' && 0 < i
      && (forall k :: 0 <= k < i ==> IsLocalChar(s[k]))
      && IsDomain(s[i + 1..])
  }

  // ---------------------------------------------------------------------
  // The checks, as the message each one appends

  function Required(fieldName: string): string { fieldName + " obbligatorio" }

  /** `validateRequiredString(value, fieldName)` */
  function RequiredStringCheck(value: JsValue, fieldName: string): (r: Option<string>)
    ensures r.Some? <==> IsNullish(value) || (value.Str? && Trim(value.s) == "")
    ensures !value.Str? ==> (r.Some? <==> IsNullish(value))
    ensures r.Some? ==> r.value == Required(fieldName)
  {
    var valued := !IsNullish(value);
    if !valued || (value.Str? && Trim(value.s) == "") then Some(Required(fieldName)) else None
  }

  /** The shape shared by `validateNumber`, `validateBoolean` and
      `validateEmail`: absent and required, or present and not of the kind. */
  function KindCheck(value: JsValue, required: bool, fieldName: string, isKind: bool, wrongKind: string): (r: Option<string>)
    ensures IsNullish(value) ==> (r.Some? <==> required)
    ensures IsNullish(value) && required ==> r == Some(Required(fieldName))
    ensures !IsNullish(value) ==> (r.None? <==> isKind)
    ensures !IsNullish(value) && !isKind ==> r == Some(fieldName + wrongKind)
  {
    var valued := !IsNullish(value);
    if !valued && required then Some(Required(fieldName))
    else if valued && !isKind then Some(fieldName + wrongKind)
    else None
  }

  /** A string fails `validateRequiredString` exactly when it is all white space. */
  lemma RequiredStringBlank(s: string, fieldName: string)
    ensures RequiredStringCheck(Str(s), fieldName).Some? <==> forall i :: 0 <= i < |s| ==> IsJsWhitespace(s[i])
  {
    TrimEmpty(s);
  }

  function NumberCheck(value: JsValue, required: bool, fieldName: string): Option<string> {
    KindCheck(value, required, fieldName, IsFiniteNumber(value), " deve esssere numerico")
  }

  function BooleanCheck(value: JsValue, required: bool, fieldName: string): Option<string> {
    KindCheck(value, required, fieldName, value.Bool?, " deve esssere un booleano")
  }

  function EmailCheck(value: JsValue, required: bool, fieldName: string): Option<string> {
    KindCheck(value, required, fieldName, value.Str? && IsEmailAddress(value.s), " non è una mail valida")
  }

  /** `customValidation(valid, errorMessage)` */
  function CustomCheck(valid: bool, errorMessage: string): (r: Option<string>)
    ensures r.Some? <==> !valid
    ensures r.Some? ==> r.value == errorMessage
  {
    if !valid then Some(errorMessage) else None
  }

  function Messages(check: Option<string>): (r: seq<string>)
    ensures |r| <= 1
  {
    match check
    case None => []
    case Some(m) => [m]
  }

  /** What `validate` returns. */
  datatype ValidationResult = ValidationResult(success: bool, message: Option<string>, subMessages: seq<string>)

  class Validator {
    var success: bool
    var message: Option<string>
    var subMessages: seq<string>

    /** `success` holds exactly while no check has failed. */
    ghost predicate Valid()
      reads this
    {
      success <==> subMessages == []
    }

    constructor ()
      ensures Valid() && success && subMessages == [] && message == None
    {
      success, message, subMessages := true, None, [];
    }

    /** Records the outcome of one check. */
    method Record(check: Option<string>)
      requires Valid()
      modifies this
      ensures Valid()
      ensures success == (old(success) && check.None?)
      ensures subMessages == old(subMessages) + Messages(check)
      ensures message == old(message)
    {
      if check.Some? {
        success := false;
        subMessages := subMessages + [check.value];
      }
    }

    method ValidateRequiredString(value: JsValue, fieldName: string)
      requires Valid()
      modifies this
      ensures Valid() && message == old(message)
      ensures success == (old(success) && RequiredStringCheck(value, fieldName).None?)
      ensures subMessages == old(subMessages) + Messages(RequiredStringCheck(value, fieldName))
    {
      Record(RequiredStringCheck(value, fieldName));
    }

    method ValidateNumber(value: JsValue, required: bool, fieldName: string)
      requires Valid()
      modifies this
      ensures Valid() && message == old(message)
      ensures success == (old(success) && NumberCheck(value, required, fieldName).None?)
      ensures subMessages == old(subMessages) + Messages(NumberCheck(value, required, fieldName))
    {
      Record(NumberCheck(value, required, fieldName));
    }

    method ValidateBoolean(value: JsValue, required: bool, fieldName: string)
      requires Valid()
      modifies this
      ensures Valid() && message == old(message)
      ensures success == (old(success) && BooleanCheck(value, required, fieldName).None?)
      ensures subMessages == old(subMessages) + Messages(BooleanCheck(value, required, fieldName))
    {
      Record(BooleanCheck(value, required, fieldName));
    }

    method ValidateEmail(value: JsValue, required: bool, fieldName: string)
      requires Valid()
      modifies this
      ensures Valid() && message == old(message)
      ensures success == (old(success) && EmailCheck(value, required, fieldName).None?)
      ensures subMessages == old(subMessages) + Messages(EmailCheck(value, required, fieldName))
    {
      Record(EmailCheck(value, required, fieldName));
    }

    method CustomValidation(valid: bool, errorMessage: string)
      requires Valid()
      modifies this
      ensures Valid() && message == old(message)
      ensures success == (old(success) && valid)
      ensures subMessages == old(subMessages) + Messages(CustomCheck(valid, errorMessage))
    {
      Record(CustomCheck(valid, errorMessage));
    }

    method Validate(successMessage: string, errorMessage: string) returns (r: ValidationResult)
      requires Valid()
      modifies this
      ensures Valid() && success == old(success) && subMessages == old(subMessages)
      ensures message == Some(if success then successMessage else errorMessage)
      ensures r == ValidationResult(success, message, subMessages)
    {
      if success {
        message := Some(successMessage);
      } else {
        message := Some(errorMessage);
      }
      r := ValidationResult(success, message, subMessages);
    }
  }

  /** The outcome of a run of checks from a fresh validator: success exactly
      when every check passed, and the failing checks' messages in order. */
  function Run(checks: seq<Option<string>>): (r: ValidationResult)
    ensures r.success <==> r.subMessages == []
    ensures r.success <==> forall i :: 0 <= i < |checks| ==> checks[i].None?
    ensures |r.subMessages| <= |checks|
  {
    if |checks| == 0 then ValidationResult(true, None, [])
    else
      var prefix := Run(checks[..|checks| - 1]);
      var last := checks[|checks| - 1];
      ValidationResult(prefix.success && last.None?, None, prefix.subMessages + Messages(last))
  }

  /** Recording a run of checks in a validator gives `Run`. */
  method RecordAll(v: Validator, checks: seq<Option<string>>)
    requires v.Valid() && v.success && v.subMessages == [] && v.message == None
    modifies v
    ensures v.Valid() && ValidationResult(v.success, v.message, v.subMessages) == Run(checks)
  {
    for i := 0 to |checks|
      invariant v.Valid() && ValidationResult(v.success, v.message, v.subMessages) == Run(checks[..i])
    {
      RunStep(checks, i);
      v.Record(checks[i]);
    }
    assert checks[..|checks|] == checks;
  }

  /** One more check extends `Run` by that check's outcome. */
  lemma RunStep(checks: seq<Option<string>>, i: nat)
    requires i < |checks|
    ensures var prefix := Run(checks[..i]);
      Run(checks[..i + 1]) == ValidationResult(prefix.success && checks[i].None?, None, prefix.subMessages + Messages(checks[i]))
  {
    assert checks[..i + 1][..i] == checks[..i];
  }

  /** "a.b@c-d.it" matches the address pattern. */
  lemma EmailAccepted()
    ensures IsEmailAddress("a.b@c-d.it")
  {
    DomainAccepted();
    LocalAccepted();
    EmailFromParts("a.b", "c-d.it");
    assert "a.b" + "@" + "c-d.it" == "a.b@c-d.it";
  }

  /** A non-empty local part of allowed characters, "@" and a domain make an address. */
  lemma EmailFromParts(local: string, domain: string)
    requires |local| > 0 && forall k :: 0 <= k < |local| ==> IsLocalChar(local[k])
    requires IsDomain(domain)
    ensures IsEmailAddress(local + "@" + domain)
  {
    var s := local + "@" + domain;
    assert s[|local| + 1..] == domain;
    assert forall k :: 0 <= k < |local| ==> s[k] == local[k];
    assert s[|local|] == '@';
  }

  lemma LocalAccepted()
    ensures forall k :: 0 <= k < |"a.b"| ==> IsLocalChar("a.b"[k])
  {
    assert LOCAL_SPECIALS[0] == '.';
  }

  lemma DomainAccepted()
    ensures IsDomain("c-d.it")
  {
    assert "c-d.it" == "c-d" + ['.'] + "it";
    Text.SplitAtFirstSeparator("c-d", '.', "it");
    Text.SplitWithoutSeparator("it", '.');
    assert Text.Split("c-d.it", '.') == ["c-d", "it"];
  }

  /** An address with an empty local part does not match. */
  lemma EmailRejected()
    ensures !IsEmailAddress("@c.it")
  {
    var s := "@c.it";
    assert forall i :: 0 < i < |s| ==> s[i] != '@';
  }
}
