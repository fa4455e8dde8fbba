/**
 * The string helpers the validations rely on: ActiveSupport's `String#blank?`,
 * ASCII case mapping as Ruby 1.9's `String#downcase`/`String#upcase` and the
 * database's `LOWER()` apply it, and Ruby's `String#*` used by the tests.
 */
module Text {

  /**
   * A character of the POSIX bracket class `[[:space:]]` on a Unicode string:
   * the White_Space property of Unicode 6.0, the character data Ruby 1.9.3's
   * regular expressions use (so U+180E is still white space).
   */
  predicate IsSpace(c: char) {
    || c == ' '
    || '\t' <= c <= '\r'
    || c == '\U{85}'
    || c == '\U{A0}'
    || c == '\U{1680}'
    || c == '\U{180E}'
    || '\U{2000}' <= c <= '\U{200A}'
    || c == '\U{2028}'
    || c == '\U{2029}'
    || c == '\U{202F}'
    || c == '\U{205F}'
    || c == '\U{3000}'
  }

  /** `String#blank?`: the string is empty or holds only white space. */
  predicate Blank(s: string) {
    forall i :: 0 <= i < |s| ==> IsSpace(s[i])
  }

  predicate IsUpper(c: char) { 'A' <= c <= 'Z' }

  predicate IsLower(c: char) { 'a' <= c <= 'z' }

  function DowncaseChar(c: char): char {
    if IsUpper(c) then (c as int + 32) as char else c
  }

  function UpcaseChar(c: char): char {
    if IsLower(c) then (c as int - 32) as char else c
  }

  /** Lower-cases ASCII letters and leaves every other character alone. */
  function Downcase(s: string): string {
    seq(|s|, i requires 0 <= i < |s| => DowncaseChar(s[i]))
  }

  /** Upper-cases ASCII letters and leaves every other character alone. */
  function Upcase(s: string): string {
    seq(|s|, i requires 0 <= i < |s| => UpcaseChar(s[i]))
  }

  /** Two strings are equal ignoring case exactly when their lower-case forms agree. */
  predicate EqualIgnoringCase(a: string, b: string) {
    Downcase(a) == Downcase(b)
  }

  /**
   * The two case maps change ASCII letters only: `Downcase` turns each
   * upper-case letter into the lower-case letter `UpcaseChar` maps back to
   * it, `Upcase` the reverse, and every other character stays as it is.
   */
  lemma CaseMapsAsciiLetters(s: string)
    ensures |Downcase(s)| == |s| && |Upcase(s)| == |s|
    ensures forall i :: 0 <= i < |s| ==>
      if IsUpper(s[i]) then IsLower(Downcase(s)[i]) && UpcaseChar(Downcase(s)[i]) == s[i]
      else Downcase(s)[i] == s[i]
    ensures forall i :: 0 <= i < |s| ==>
      if IsLower(s[i]) then IsUpper(Upcase(s)[i]) && DowncaseChar(Upcase(s)[i]) == s[i]
      else Upcase(s)[i] == s[i]
  {
  }

  /** Equality ignoring case compares the strings character by character. */
  lemma EqualIgnoringCaseCharwise(a: string, b: string)
    ensures EqualIgnoringCase(a, b) <==>
      |a| == |b| && forall i :: 0 <= i < |a| ==> DowncaseChar(a[i]) == DowncaseChar(b[i])
  {
    if EqualIgnoringCase(a, b) {
      forall i | 0 <= i < |a|
        ensures DowncaseChar(a[i]) == DowncaseChar(b[i])
      {
        assert Downcase(a)[i] == Downcase(b)[i];
      }
    }
  }

  /** Upper-casing a string never changes what it is equal to ignoring case. */
  lemma UpcaseKeepsCaseClass(s: string)
    ensures EqualIgnoringCase(Upcase(s), s)
  {
  }

  /** Ruby's `c * n` for a one-character string `c`. */
  function Repeat(c: char, n: nat): (r: string)
    ensures |r| == n
    ensures forall i :: 0 <= i < n ==> r[i] == c
  {
    if n == 0 then [] else [c] + Repeat(c, n - 1)
  }
}
