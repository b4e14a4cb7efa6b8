/** The e-mail check of the contact form: what the regular expression
    /^[^\s@]+@[^\s@]+\.[^\s@]+$/ accepts, and an equivalent description of
    those addresses that needs no choice of split points. */
module EmailPattern {

  /** JavaScript's `\s` (without the `u` flag): the WhiteSpace and
      LineTerminator code points of ECMAScript. */
  predicate IsJsWhitespace(c: char) {
    c == '\t' || c == '\n' || c == '\U{B}' || c == '\U{C}' || c == '\r' || c == ' '
    || c == '\U{A0}' || c == '\U{1680}' || ('\U{2000}' <= c <= '\U{200A}')
    || c == '\U{2028}' || c == '\U{2029}' || c == '\U{202F}' || c == '\U{205F}'
    || c == '\U{3000}' || c == '\U{FEFF}'
  }

  /** The character class `[^\s@]`. */
  predicate Plain(c: char) {
    !IsJsWhitespace(c) && c != '@'
  }

  /** `[^\s@]+`: one or more characters of that class. */
  predicate PlainRun(t: string) {
    |t| >= 1 && forall i :: 0 <= i < |t| ==> Plain(t[i])
  }

  /** The anchored pattern matches `s` with its '@' at index `a` and its
      literal '.' at index `b`. */
  predicate MatchesAt(s: string, a: int, b: int) {
    0 <= a < b < |s|
    && PlainRun(s[..a]) && s[a] == '@'
    && PlainRun(s[a + 1..b]) && s[b] == '.'
    && PlainRun(s[b + 1..])
  }

  /** `emailRegex.test(s)`: a backtracking matcher succeeds exactly when
      some choice of the two split points makes every piece match. */
  predicate MatchesEmailRegex(s: string) {
    exists a, b | 0 <= a < b < |s| :: MatchesAt(s, a, b)
  }

  /** Index of the first '@' in `s`, or |s| when there is none. */
  function FirstAt(s: string): (i: nat)
    ensures i <= |s|
    ensures i < |s| ==> s[i] == '@'
    ensures forall j :: 0 <= j < i ==> s[j] != '@'
  {
    if s == [] || s[0] == '@' then 0 else 1 + FirstAt(s[1..])
  }

  /** A domain with a '.' that has at least one character on each side. */
  predicate DotInside(d: string) {
    |d| >= 3 && '.' in d[1..|d| - 1]
  }

  /** The accepted shape, read off the address directly: a non-empty local
      part, a single '@', no whitespace anywhere, and a domain holding an
      inner '.'. */
  predicate EmailShape(s: string) {
    var a := FirstAt(s);
    1 <= a < |s|
    && '@' !in s[a + 1..]
    && (forall i :: 0 <= i < |s| ==> !IsJsWhitespace(s[i]))
    && DotInside(s[a + 1..])
  }

  /** A match at (a, b) pins the '@' to the first one and forces the shape. */
  lemma MatchGivesShape(s: string, a: int, b: int)
    requires MatchesAt(s, a, b)
    ensures EmailShape(s)
  {
  }

  /** The shape gives the split points a matcher finds. */
  lemma ShapeGivesMatch(s: string)
    requires EmailShape(s)
    ensures MatchesEmailRegex(s)
  {
    var a := FirstAt(s);
    var d := s[a + 1..];
    var inner := d[1..|d| - 1];
    var p :| 0 <= p < |inner| && inner[p] == '.';
    var b := a + 2 + p;
    assert s[b] == d[p + 1] == inner[p];
    assert forall k :: 0 <= k < |d| ==> d[k] == s[a + 1 + k];
    assert forall k :: a < k < |s| ==> s[k] != '@' by {
      forall k | a < k < |s| ensures s[k] != '@' {
        assert s[k] == d[k - a - 1];
      }
    }
    assert PlainRun(s[..a]) by {
      forall k | 0 <= k < a ensures Plain(s[..a][k]) { assert s[..a][k] == s[k]; }
    }
    var mid, tld := s[a + 1..b], s[b + 1..];
    assert PlainRun(mid) by {
      forall k | 0 <= k < |mid| ensures Plain(mid[k]) { assert mid[k] == s[a + 1 + k]; }
    }
    assert PlainRun(tld) by {
      forall k | 0 <= k < |tld| ensures Plain(tld[k]) { assert tld[k] == s[b + 1 + k]; }
    }
    assert MatchesAt(s, a, b);
  }

  /** The regular expression accepts exactly the addresses of that shape. */
  lemma EmailRegexShape(s: string)
    ensures MatchesEmailRegex(s) <==> EmailShape(s)
  {
    if MatchesEmailRegex(s) {
      var a, b :| 0 <= a < b < |s| && MatchesAt(s, a, b);
      MatchGivesShape(s, a, b);
    }
    if EmailShape(s) {
      ShapeGivesMatch(s);
    }
  }
}
