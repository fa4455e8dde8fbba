/**
 * The email format of the User model, the regular expression
 * `/\A[\w+\-.]+@[a-z\d\-.]+\.[a-z]+\z/i`.
 *
 * `Matches` reads the expression as the set of strings it accepts: a
 * non-empty local part, `@`, a non-empty domain prefix, `.`, a non-empty
 * letters-only suffix, and nothing before or after. `ValidEmail` decides the
 * same language without backtracking: no character class contains `@`, so
 * the `@` is the first one in the string, and the suffix contains no `.`, so
 * the `.` is the last one after the `@`. The contract of `ValidEmail` states
 * that the two agree on every string.
 */
module EmailFormat {
  import opened Wrappers
  import opened Text

  predicate IsAsciiLetter(c: char) {
    IsLower(c) || IsUpper(c)
  }

  predicate IsDigit(c: char) {
    '0' <= c <= '9'
  }

  /** `\w`: ASCII letters, digits and the underscore. */
  predicate IsWordChar(c: char) {
    IsAsciiLetter(c) || IsDigit(c) || c == '_'
  }

  /** `[\w+\-.]`, the class of the local part. */
  predicate IsLocalChar(c: char) {
    IsWordChar(c) || c == '+' || c == '-' || c == '.'
  }

  /** `[a-z\d\-.]` under the `i` flag, the class of the domain prefix. */
  predicate IsDomainChar(c: char) {
    IsAsciiLetter(c) || IsDigit(c) || c == '-' || c == '.'
  }

  /** `[a-z]` under the `i` flag, the class of the suffix after the last dot. */
  predicate IsSuffixChar(c: char) {
    IsAsciiLetter(c)
  }

  /** Every character of `s[lo..hi]` is in the local part's class. */
  predicate LocalSpan(s: string, lo: int, hi: int)
    requires 0 <= lo <= hi <= |s|
  {
    forall i :: lo <= i < hi ==> IsLocalChar(s[i])
  }

  /** Every character of `s[lo..hi]` is in the domain prefix's class. */
  predicate DomainSpan(s: string, lo: int, hi: int)
    requires 0 <= lo <= hi <= |s|
  {
    forall i :: lo <= i < hi ==> IsDomainChar(s[i])
  }

  /** Every character of `s[lo..hi]` is in the suffix's class. */
  predicate SuffixSpan(s: string, lo: int, hi: int)
    requires 0 <= lo <= hi <= |s|
  {
    forall i :: lo <= i < hi ==> IsSuffixChar(s[i])
  }

  /**
   * The expression matches `s` with its `@` at index `at` and its `\.` at
   * index `dot`: `s[..at]` is the local part, `s[at + 1..dot]` the domain
   * prefix and `s[dot + 1..]` the suffix; each `+` repetition is non-empty
   * and every character lies in its class.
   */
  ghost predicate MatchesAt(s: string, at: int, dot: int) {
    && 0 < at
    && at + 1 < dot
    && dot + 1 < |s|
    && LocalSpan(s, 0, at)
    && s[at] == '@'
    && DomainSpan(s, at + 1, dot)
    && s[dot] == '.'
    && SuffixSpan(s, dot + 1, |s|)
  }

  /** The whole of `s` is in the language of the expression (`\A` ... `\z`). */
  ghost predicate Matches(s: string) {
    exists at, dot :: MatchesAt(s, at, dot)
  }

  /** The index of the first occurrence of `c` in `s`. */
  function IndexOf(s: string, c: char): (r: Option<nat>)
    ensures r.Some? ==> r.value < |s| && s[r.value] == c && forall i :: 0 <= i < r.value ==> s[i] != c
    ensures r.None? ==> forall i :: 0 <= i < |s| ==> s[i] != c
  {
    if s == [] then None
    else if s[0] == c then Some(0)
    else
      match IndexOf(s[1..], c)
      case None => None
      case Some(k) => Some(k + 1)
  }

  /** The index of the last occurrence of `c` in `s`. */
  function LastIndexOf(s: string, c: char): (r: Option<nat>)
    ensures r.Some? ==> r.value < |s| && s[r.value] == c && forall i :: r.value < i < |s| ==> s[i] != c
    ensures r.None? ==> forall i :: 0 <= i < |s| ==> s[i] != c
  {
    if s == [] then None
    else if s[|s| - 1] == c then Some(|s| - 1)
    else LastIndexOf(s[..|s| - 1], c)
  }

  /**
   * A match puts its `@` at the only `@` of the string, so also the first,
   * and its `\.` at the last `.`.
   */
  lemma MatchAtFirstAtLastDot(s: string)
    ensures forall at, dot :: MatchesAt(s, at, dot) ==>
      && IndexOf(s, '@') == Some(at)
      && LastIndexOf(s, '.') == Some(dot)
      && (forall i :: 0 <= i < |s| && s[i] == '@' ==> i == at)
  {
  }

  /** Every match holds exactly one `@` and, before its last character, a `.`. */
  lemma MatchHasAtAndInnerDot(s: string)
    requires Matches(s)
    ensures '@' in s && multiset(s)['@'] == 1
    ensures |s| > 0 && '.' in s[..|s| - 1]
  {
    var at, dot :| MatchesAt(s, at, dot);
    assert s == s[..at] + [s[at]] + s[at + 1..];
    assert '@' !in s[..at] && '@' !in s[at + 1..];
    assert s[..|s| - 1][dot] == '.';
  }

  /**
   * The recogniser, which accepts exactly the strings the expression
   * matches: the `@` can only be the first `@` of the string and the `\.`
   * only its last `.`, so it checks the three parts between them.
   */
  function ValidEmail(s: string): (ok: bool)
    ensures ok <==> Matches(s)
  {
    MatchAtFirstAtLastDot(s);
    match (IndexOf(s, '@'), LastIndexOf(s, '.'))
    case (Some(at), Some(dot)) =>
      var ok :=
        && 0 < at
        && at + 1 < dot
        && dot + 1 < |s|
        && LocalSpan(s, 0, at)
        && DomainSpan(s, at + 1, dot)
        && SuffixSpan(s, dot + 1, |s|);
      assert ok ==> MatchesAt(s, at, dot);
      ok
    case _ => false
  }

  /** Each character class is closed under ASCII case: the `i` flag. */
  lemma ClassesIgnoreCase(a: char, b: char)
    requires DowncaseChar(a) == DowncaseChar(b)
    ensures IsLocalChar(a) <==> IsLocalChar(b)
    ensures IsDomainChar(a) <==> IsDomainChar(b)
    ensures IsSuffixChar(a) <==> IsSuffixChar(b)
    ensures a == '@' <==> b == '@'
    ensures a == '.' <==> b == '.'
  {
  }

  /** Whether an address matches depends only on its lower-case form. */
  lemma MatchesIgnoresCase(s: string, t: string)
    requires EqualIgnoringCase(s, t)
    ensures Matches(s) <==> Matches(t)
  {
    assert |s| == |Downcase(s)| == |Downcase(t)| == |t|;
    forall i | 0 <= i < |s|
      ensures DowncaseChar(s[i]) == DowncaseChar(t[i])
    {
      assert Downcase(s)[i] == Downcase(t)[i];
    }
    forall at, dot | MatchesAt(s, at, dot) || MatchesAt(t, at, dot)
      ensures MatchesAt(s, at, dot) && MatchesAt(t, at, dot)
    {
      forall i | 0 <= i < |s|
        ensures IsLocalChar(s[i]) <==> IsLocalChar(t[i])
        ensures IsDomainChar(s[i]) <==> IsDomainChar(t[i])
        ensures IsSuffixChar(s[i]) <==> IsSuffixChar(t[i])
        ensures s[i] == '@' <==> t[i] == '@'
        ensures s[i] == '.' <==> t[i] == '.'
      {
        ClassesIgnoreCase(s[i], t[i]);
      }
    }
  }
}
