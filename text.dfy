/**
 * The two string tests the contact form's validator is built from:
 * JavaScript's `String.prototype.trim` (a value is "missing" when its
 * trimmed form is empty) and the unanchored regular expression
 * `/\S+@\S+\.\S+/` used as the e-mail check.
 */
module Text {

  /** The ECMAScript WhiteSpace and LineTerminator characters: the set that
      both `trim` strips and `\s` matches (so `\S` is its complement). */
  const Whitespace: set<char> := {
    '\t', '\n', '\U{000B}', '\U{000C}', '\r', ' ', '\U{00A0}', '\U{1680}',
    '\U{2000}', '\U{2001}', '\U{2002}', '\U{2003}', '\U{2004}', '\U{2005}',
    '\U{2006}', '\U{2007}', '\U{2008}', '\U{2009}', '\U{200A}',
    '\U{2028}', '\U{2029}', '\U{202F}', '\U{205F}', '\U{3000}', '\U{FEFF}'
  }

  predicate IsWhitespace(c: char) {
    c in Whitespace
  }

  /** Every character is whitespace (the empty string included). */
  predicate IsBlank(s: string) {
    forall i :: 0 <= i < |s| ==> IsWhitespace(s[i])
  }

  /** No character is whitespace: every character matches `\S`. */
  predicate HasNoWhitespace(s: string) {
    forall i :: 0 <= i < |s| ==> !IsWhitespace(s[i])
  }

  /** The first index at or after `from` that holds no whitespace, or |s|. */
  function SkipLeading(s: string, from: nat): (n: nat)
    requires from <= |s|
    ensures from <= n <= |s|
    ensures forall i :: from <= i < n ==> IsWhitespace(s[i])
    ensures n < |s| ==> !IsWhitespace(s[n])
    decreases |s| - from
  {
    if from < |s| && IsWhitespace(s[from]) then SkipLeading(s, from + 1) else from
  }

  /** Going down from `hi` but not below `lo`, the index just past the last
      character that is not whitespace, or `lo`. */
  function SkipTrailing(s: string, lo: nat, hi: nat): (n: nat)
    requires lo <= hi <= |s|
    ensures lo <= n <= hi
    ensures forall i :: n <= i < hi ==> IsWhitespace(s[i])
    ensures n > lo ==> !IsWhitespace(s[n - 1])
    decreases hi
  {
    if hi > lo && IsWhitespace(s[hi - 1]) then SkipTrailing(s, lo, hi - 1) else hi
  }

  /** JavaScript's `s.trim()`: `s` without its leading and trailing
      whitespace. The validator's test `!s.trim()` holds exactly when `s`
      is empty or all whitespace. */
  function Trim(s: string): (r: string)
    ensures r == [] <==> IsBlank(s)
  {
    var a := SkipLeading(s, 0);
    var b := SkipTrailing(s, a, |s|);
    assert a < |s| ==> a < b;
    s[a..b]
  }

  /** Trim removes whitespace from the two ends and nothing else: what it
      returns stands in `s` between an all-whitespace prefix and an
      all-whitespace suffix, and neither begins nor ends with whitespace. */
  lemma TrimStripsOnlyOuterWhitespace(s: string)
    ensures Trim(s) == [] || (!IsWhitespace(Trim(s)[0]) && !IsWhitespace(Trim(s)[|Trim(s)| - 1]))
    ensures exists a :: 0 <= a <= |s| - |Trim(s)| && s[a..a + |Trim(s)|] == Trim(s) &&
                        IsBlank(s[..a]) && IsBlank(s[a + |Trim(s)|..])
  {
    var a := SkipLeading(s, 0);
    var b := SkipTrailing(s, a, |s|);
    var r := Trim(s);
    assert r == s[a..b];
    assert IsBlank(s[..a]);
    assert IsBlank(s[b..]);
    if r != [] {
      assert r[0] == s[a] && r[|r| - 1] == s[b - 1];
    }
  }

  /** `t` splits at `at` and `dot` as the pattern `\S+@\S+\.\S+` demands:
      a non-empty run of non-whitespace, an `@`, another non-empty run, a
      `.`, and a last non-empty run. (`\S` also matches `@` and `.`.) */
  predicate EmailShapedAt(t: string, at: int, dot: int) {
    && 0 < at && at + 1 < dot && dot + 1 < |t|
    && t[at] == '@' && t[dot] == '.'
    && HasNoWhitespace(t[..at])
    && HasNoWhitespace(t[at + 1..dot])
    && HasNoWhitespace(t[dot + 1..])
  }

  /** The whole of `t` matches `\S+@\S+\.\S+`. */
  ghost predicate IsEmailShaped(t: string) {
    exists at, dot :: EmailShapedAt(t, at, dot)
  }

  /** The unanchored regular expression succeeds: some substring of `s`
      matches the pattern as a whole. */
  ghost predicate ContainsEmailShape(s: string) {
    exists lo, hi :: 0 <= lo <= hi <= |s| && IsEmailShaped(s[lo..hi])
  }

  /** An `@` at `at` and a `.` at `dot`, with the character before the `@`,
      everything between the two and the character after the `.` all
      non-whitespace. */
  predicate EmailMarksAt(s: string, at: int, dot: int) {
    && 1 <= at < |s| && at + 2 <= dot < |s| - 1
    && s[at] == '@' && s[dot] == '.'
    && HasNoWhitespace(s[at - 1..dot + 2])
  }

  /** `/\S+@\S+\.\S+/.test(s)`, decided by looking for such an `@` and `.`. */
  function EmailTest(s: string): bool {
    exists at, dot | 1 <= at < |s| && at + 2 <= dot < |s| - 1 :: EmailMarksAt(s, at, dot)
  }

  /** EmailTest decides the unanchored match, in both directions. */
  lemma EmailTestMatchesPattern(s: string)
    ensures EmailTest(s) <==> ContainsEmailShape(s)
  {
    if EmailTest(s) {
      var at, dot :| 1 <= at < |s| && at + 2 <= dot < |s| - 1 && EmailMarksAt(s, at, dot);
      MarksGiveMatch(s, at, dot);
    }
    if ContainsEmailShape(s) {
      var lo, hi :| 0 <= lo <= hi <= |s| && IsEmailShaped(s[lo..hi]);
      var at, dot :| EmailShapedAt(s[lo..hi], at, dot);
      MatchGivesMarks(s, lo, hi, at, dot);
    }
  }

  /** The marks found by EmailTest delimit a matching substring. */
  lemma MarksGiveMatch(s: string, at: int, dot: int)
    requires EmailMarksAt(s, at, dot)
    ensures EmailShapedAt(s[at - 1..dot + 2], 1, dot - at + 1)
    ensures ContainsEmailShape(s)
  {
    var t := s[at - 1..dot + 2];
    var dot' := dot - at + 1;
    assert HasNoWhitespace(t[..1]);
    assert HasNoWhitespace(t[2..dot']);
    assert HasNoWhitespace(t[dot' + 1..]);
    assert EmailShapedAt(t, 1, dot');
  }

  /** A substring `s[lo..hi]` matching with its `@` at `at` and its `.` at
      `dot` gives EmailTest the marks `lo + at` and `lo + dot`. */
  lemma MatchGivesMarks(s: string, lo: int, hi: int, at: int, dot: int)
    requires 0 <= lo <= hi <= |s|
    requires EmailShapedAt(s[lo..hi], at, dot)
    ensures EmailMarksAt(s, lo + at, lo + dot)
    ensures EmailTest(s)
  {
    var t := s[lo..hi];
    forall i | lo + at - 1 <= i < lo + dot + 2
      ensures !IsWhitespace(s[i])
    {
      if i < lo + at {
        assert s[i] == t[..at][i - lo];
      } else if lo + at < i < lo + dot {
        assert s[i] == t[at + 1..dot][i - lo - at - 1];
      } else if i == lo + dot + 1 {
        assert s[i] == t[dot + 1..][0];
      }
    }
    assert EmailMarksAt(s, lo + at, lo + dot);
  }

  /** Examples: "abc" has no `@`; "a@b.c" matches as a whole; the match is
      unanchored, so surrounding words and spaces do not stop it. */
  lemma EmailTestExamples()
    ensures !EmailTest("abc")
    ensures EmailTest("a@b.c")
    ensures EmailTest(" x a@b.c ")
    ensures !EmailTest("a@b.")
    ensures !EmailTest("a @b.c")
  {
    assert EmailMarksAt(" x a@b.c ", 4, 6);
    assert EmailMarksAt("a@b.c", 1, 3);
    var w := "a @b.c";
    forall at, dot | 1 <= at < |w| && at + 2 <= dot < |w| - 1
      ensures !EmailMarksAt(w, at, dot)
    {
      if w[at] == '@' {
        assert at == 2 && w[at - 1..dot + 2][0] == ' ';
      }
    }
  }
}
