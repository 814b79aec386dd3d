/**
 * The three regular expressions of the contact form's rule table, each stated
 * as a predicate on the (already trimmed) field value. The expressions carry
 * no flags, so they are anchored, case-sensitive and match one character per
 * class; `\s` is the whitespace set of `JsText`.
 */
module Patterns {
  import opened JsText

  /**
   * One character of the class `[a-zA-ZÀ-ÿ\s'-]`: an ASCII letter, any code
   * point from U+00C0 to U+00FF (a range that also holds × and ÷),
   * whitespace, an apostrophe or a hyphen.
   */
  predicate IsNameChar(c: char) {
    ('a' <= c <= 'z') || ('A' <= c <= 'Z') || ('\U{00C0}' <= c <= '\U{00FF}')
    || IsJsWhitespace(c) || c == '\'' || c == '-'
  }

  /** `/^[a-zA-ZÀ-ÿ\s'-]+$/`: a non-empty run of name characters. */
  predicate NamePattern(s: string) {
    |s| > 0 && forall i :: 0 <= i < |s| ==> IsNameChar(s[i])
  }

  /** One character of the class `[^\s@]`. */
  predicate IsEmailChar(c: char) {
    !IsJsWhitespace(c) && c != '@'
  }

  /**
   * `/^[^\s@]+@[^\s@]+\.[^\s@]+$/`: the value splits as `a@b.c` where the
   * three parts are non-empty and free of whitespace and `@`; the middle part
   * may itself hold dots, so the dot is any one after the character that
   * follows the `@` and before the last character.
   */
  predicate EmailPattern(s: string) {
    exists at, dot ::
      && 0 < at && at + 1 < dot < |s| - 1 && s[at] == '@' && s[dot] == '.'
      && forall i :: 0 <= i < |s| && i != at ==> IsEmailChar(s[i])
  }

  /** One character of the class `[0-9\s\-\(\)]`. */
  predicate IsPhoneChar(c: char) {
    ('0' <= c <= '9') || IsJsWhitespace(c) || c == '-' || c == '(' || c == ')'
  }

  /**
   * `/^[\+]?[0-9\s\-\(\)]{10,}$/`: an optional leading plus sign, then at
   * least ten phone characters. A plus sign is not itself a phone character,
   * so a leading one can only be the optional sign.
   */
  predicate PhonePattern(s: string) {
    var body := if |s| > 0 && s[0] == '+' then s[1..] else s;
    |body| >= 10 && forall i :: 0 <= i < |body| ==> IsPhoneChar(body[i])
  }

  predicate EmailRun(s: string) {
    |s| > 0 && forall i :: 0 <= i < |s| ==> IsEmailChar(s[i])
  }

  /** Any `a@b.c` built from three non-empty runs of `[^\s@]` matches the email pattern. */
  lemma EmailFromParts(a: string, b: string, c: string)
    requires EmailRun(a) && EmailRun(b) && EmailRun(c)
    ensures EmailPattern(a + "@" + b + "." + c)
  {
    var s := a + "@" + b + "." + c;
    var at, dot := |a|, |a| + 1 + |b|;
    assert s[at] == '@' && s[dot] == '.';
    forall i | 0 <= i < |s| && i != at ensures IsEmailChar(s[i]) {
      if i < at { assert s[i] == a[i]; }
      else if i < dot { assert s[i] == b[i - at - 1]; }
      else if i > dot { assert s[i] == c[i - dot - 1]; }
    }
  }

  /**
   * Conversely, a matching value holds no whitespace and exactly one `@`,
   * which is neither its first nor its last character.
   */
  lemma EmailShape(s: string)
    requires EmailPattern(s)
    ensures forall i :: 0 <= i < |s| ==> !IsJsWhitespace(s[i])
    ensures exists at ::
              0 < at < |s| - 1 && s[at] == '@' && forall i :: 0 <= i < |s| && s[i] == '@' ==> i == at
  {
    var at, dot :| 0 < at && at + 1 < dot < |s| - 1 && s[at] == '@' && s[dot] == '.'
      && forall i :: 0 <= i < |s| && i != at ==> IsEmailChar(s[i]);
    assert forall i :: 0 <= i < |s| && s[i] == '@' ==> i == at;
  }
}
