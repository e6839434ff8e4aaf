/**
 * The password rules shared by registration and the change-password form:
 * at least eight characters, with a lowercase letter, an uppercase letter,
 * a digit and one of the special characters `@$!%*?&`.
 */
module Passwords {

  predicate HasLowercase(v: string) {
    exists i :: 0 <= i < |v| && 'a' <= v[i] <= 'z'
  }

  predicate HasUppercase(v: string) {
    exists i :: 0 <= i < |v| && 'A' <= v[i] <= 'Z'
  }

  /** `\d` matches the ASCII digits only. */
  predicate HasNumber(v: string) {
    exists i :: 0 <= i < |v| && '0' <= v[i] <= '9'
  }

  predicate IsSpecial(c: char) {
    c in "@$!%*?&"
  }

  predicate HasSpecial(v: string) {
    exists i :: 0 <= i < |v| && IsSpecial(v[i])
  }

  predicate HasMinLen(v: string) {
    |v| >= 8
  }

  /** All five rules at once. */
  predicate PasswordOk(v: string) {
    HasLowercase(v) && HasUppercase(v) && HasNumber(v) && HasSpecial(v) && HasMinLen(v)
  }

  /** Every rule asks for something to be present, so adding characters never breaks one. */
  lemma PasswordOkExtends(v: string, w: string)
    requires PasswordOk(v)
    ensures PasswordOk(v + w)
  {
    var i :| 0 <= i < |v| && 'a' <= v[i] <= 'z';
    var j :| 0 <= j < |v| && 'A' <= v[j] <= 'Z';
    var k :| 0 <= k < |v| && '0' <= v[k] <= '9';
    var l :| 0 <= l < |v| && IsSpecial(v[l]);
    assert (v + w)[i] == v[i] && (v + w)[j] == v[j] && (v + w)[k] == v[k] && (v + w)[l] == v[l];
  }

  /** One password that meets every rule, and three that miss one each. */
  lemma PasswordExamples()
    ensures PasswordOk("Passw0rd!")
    ensures !PasswordOk("password1!")
    ensures !PasswordOk("Passw0rd")
    ensures !PasswordOk("Pa0!")
  {
    var p := "Passw0rd!";
    assert 'a' <= p[1] <= 'z' && 'A' <= p[0] <= 'Z' && '0' <= p[5] <= '9' && IsSpecial(p[8]);
    var q := "password1!";
    assert forall i :: 0 <= i < |q| ==> !('A' <= q[i] <= 'Z');
    var r := "Passw0rd";
    assert forall i :: 0 <= i < |r| ==> !IsSpecial(r[i]);
  }
}
