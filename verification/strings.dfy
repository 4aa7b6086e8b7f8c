/** `Strings.validatePassword` of lib/strings.mjs. */
module Strings {
  import opened Wrappers

  const MIN_PASSWORD_LENGTH := 8

  predicate IsDigit(c: char) { '0' <= c <= '9' }
  predicate IsLower(c: char) { 'a' <= c <= 'z' }
  predicate IsUpper(c: char) { 'A' <= c <= 'Z' }

  /** `\W|_`: anything but an ASCII letter or digit; `\W` alone leaves out
      the underscore, which the alternative adds back. */
  predicate IsSpecial(c: char) { !IsDigit(c) && !IsLower(c) && !IsUpper(c) }

  /** The four character classes a password needs, as found so far. */
  datatype Classes = Classes(digit: bool, lower: bool, upper: bool, special: bool)

  /** One left-to-right scan recording which classes occur. */
  function Scan(s: string): (r: Classes)
    ensures r.digit <==> exists i :: 0 <= i < |s| && IsDigit(s[i])
    ensures r.lower <==> exists i :: 0 <= i < |s| && IsLower(s[i])
    ensures r.upper <==> exists i :: 0 <= i < |s| && IsUpper(s[i])
    ensures r.special <==> exists i :: 0 <= i < |s| && IsSpecial(s[i])
  {
    if |s| == 0 then Classes(false, false, false, false)
    else
      var rest := Scan(s[1..]);
      assert forall i :: 1 <= i < |s| ==> s[i] == s[1..][i - 1];
      Classes(rest.digit || IsDigit(s[0]), rest.lower || IsLower(s[0]),
              rest.upper || IsUpper(s[0]), rest.special || IsSpecial(s[0]))
  }

  /** `validatePassword(value)`; `None` is null or undefined. */
  function ValidatePassword(value: Option<string>): (r: bool)
    ensures value.None? || value == Some("") ==> !r
    ensures value.Some? && |value.value| < 8 ==> !r
    ensures value.Some? && |value.value| >= 8 ==>
      (r <==>
        (exists i :: 0 <= i < |value.value| && IsDigit(value.value[i])) &&
        (exists i :: 0 <= i < |value.value| && IsLower(value.value[i])) &&
        (exists i :: 0 <= i < |value.value| && IsUpper(value.value[i])) &&
        (exists i :: 0 <= i < |value.value| && IsSpecial(value.value[i])))
  {
    if value.None? || value.value == "" then false
    else if |value.value| < MIN_PASSWORD_LENGTH then false
    else
      var c := Scan(value.value);
      c.digit && c.lower && c.upper && c.special
  }

  /** An underscore is enough as the special character. */
  lemma UnderscoreIsSpecial()
    ensures ValidatePassword(Some("Passw0rd_"))
    ensures !ValidatePassword(Some("Passw0rdX"))
  {
    var good := "Passw0rd_";
    assert IsDigit(good[5]) && IsLower(good[1]) && IsUpper(good[0]) && IsSpecial(good[8]);
    var bad := "Passw0rdX";
    assert forall i :: 0 <= i < |bad| ==> !IsSpecial(bad[i]);
  }
}
