/** String primitives the Python source gets from `str`: substring tests,
    `str(int)` rendering, ASCII case folding and the `\s` character class. */
module Text {

  predicate StartsWith(s: string, prefix: string) {
    |prefix| <= |s| && s[..|prefix|] == prefix
  }

  predicate EndsWith(s: string, suffix: string) {
    |suffix| <= |s| && s[|s| - |suffix|..] == suffix
  }

  /** `t` occurs in `s` at index `k`. */
  predicate OccursAt(s: string, t: string, k: int) {
    0 <= k && k + |t| <= |s| && s[k..k + |t|] == t
  }

  /** Python's `t in s` on two strings. */
  predicate Contains(s: string, t: string) {
    exists k | 0 <= k <= |s| - |t| :: OccursAt(s, t, k)
  }

  lemma StartsWithConcat(s: string, t: string)
    ensures StartsWith(s + t, s)
  {
    assert (s + t)[..|s|] == s;
  }

  lemma EndsWithConcat(s: string, t: string)
    ensures EndsWith(s + t, t)
  {
    assert (s + t)[|s|..] == t;
  }

  /** Appending text keeps a prefix a prefix. */
  lemma StartsWithAppend(s: string, prefix: string, after: string)
    requires StartsWith(s, prefix)
    ensures StartsWith(s + after, prefix)
  {
    assert (s + after)[..|prefix|] == s[..|prefix|];
  }

  lemma OccursWhole(s: string)
    ensures OccursAt(s, s, 0)
  {
    assert s[0..|s|] == s;
  }

  /** Both parts of a concatenation occur in it, where they were put. */
  lemma OccursInConcat(s: string, t: string)
    ensures OccursAt(s + t, s, 0) && OccursAt(s + t, t, |s|)
  {
    assert (s + t)[0..|s|] == s;
    assert (s + t)[|s|..|s| + |t|] == t;
  }

  /** `t` occurs in `before + t + after` right after `before`. */
  lemma OccursBetween(before: string, t: string, after: string)
    ensures OccursAt(before + t + after, t, |before|)
  {
    assert (before + t + after)[|before|..|before| + |t|] == t;
  }

  /** Appending text keeps an occurrence where it was. */
  lemma OccursAtAppend(s: string, t: string, k: int, after: string)
    requires OccursAt(s, t, k)
    ensures OccursAt(s + after, t, k)
  {
    assert (s + after)[k..k + |t|] == s[k..k + |t|];
  }

  /** An occurrence in a prefix is an occurrence in the whole. */
  lemma OccursAtPrefix(s: string, prefix: string, t: string, k: int)
    requires StartsWith(s, prefix) && OccursAt(prefix, t, k)
    ensures OccursAt(s, t, k)
  {
    assert s[k..k + |t|] == s[..|prefix|][k..k + |t|];
  }

  /** A slice of an occurrence is the same slice of the occurring text. */
  lemma SliceOfOccurrence(s: string, u: string, k: int, i: int, j: int)
    requires OccursAt(s, u, k) && 0 <= i <= j <= |u|
    ensures s[k + i..k + j] == u[i..j]
  {
    forall n | 0 <= n < j - i
      ensures s[k + i..k + j][n] == u[i..j][n]
    {
      assert s[k..k + |u|][i + n] == u[i + n];
    }
  }

  /** Every character of an occurring string is a character of the text. */
  lemma ContainsHasChars(s: string, t: string, i: int)
    requires Contains(s, t) && 0 <= i < |t|
    ensures t[i] in s
  {
    var k :| 0 <= k <= |s| - |t| && OccursAt(s, t, k);
    assert s[k..k + |t|][i] == s[k + i];
  }

  // ---------------------------------------------------------------------
  // Decimal rendering, as Python's str() and f-strings render an int.

  predicate IsDigit(c: char) {
    '0' <= c <= '9'
  }

  function DigitChar(d: nat): (c: char)
    requires d < 10
    ensures IsDigit(c) && c as int - '0' as int == d
  {
    ('0' as int + d) as char
  }

  function NatToString(n: nat): string
    decreases n
  {
    if n < 10 then [DigitChar(n)] else NatToString(n / 10) + [DigitChar(n % 10)]
  }

  function IntToString(n: int): string {
    if n < 0 then "-" + NatToString(-n) else NatToString(n)
  }

  /** The value of a string of decimal digits, read most significant first. */
  function ParseDigits(s: string): int {
    if s == [] then 0 else 10 * ParseDigits(s[..|s| - 1]) + (s[|s| - 1] as int - '0' as int)
  }

  /** `NatToString` renders a non-empty digit string that reads back as the number. */
  lemma {:induction false} NatToStringRoundTrip(n: nat)
    ensures |NatToString(n)| > 0
    ensures forall i | 0 <= i < |NatToString(n)| :: IsDigit(NatToString(n)[i])
    ensures ParseDigits(NatToString(n)) == n
  {
    if n >= 10 {
      NatToStringRoundTrip(n / 10);
      var s := NatToString(n);
      assert s[..|s| - 1] == NatToString(n / 10);
    }
  }

  /** Distinct numbers render as distinct strings, so a URL determines its numeric id. */
  lemma IntToStringInjective(a: int, b: int)
    requires IntToString(a) == IntToString(b)
    ensures a == b
  {
    NatToStringRoundTrip(if a < 0 then -a else a);
    NatToStringRoundTrip(if b < 0 then -b else b);
    assert (a < 0) == (IntToString(a)[0] == '-');
    assert (b < 0) == (IntToString(b)[0] == '-');
    if a < 0 {
      assert NatToString(-a) == IntToString(a)[1..] == NatToString(-b);
    }
  }

  // ---------------------------------------------------------------------
  // Case folding and whitespace.

  /** Lower-cases the ASCII letters and leaves every other character alone. */
  function AsciiLower(c: char): (r: char)
    ensures 'A' <= c <= 'Z' ==> 'a' <= r <= 'z'
    ensures !('A' <= c <= 'Z') ==> r == c
  {
    if 'A' <= c <= 'Z' then (c as int + 32) as char else c
  }

  function LowerAscii(s: string): (r: string)
    ensures |r| == |s| && forall i | 0 <= i < |s| :: r[i] == AsciiLower(s[i])
  {
    seq(|s|, i requires 0 <= i < |s| => AsciiLower(s[i]))
  }

  /** Equality up to ASCII case. */
  predicate EqualsIgnoringCase(s: string, t: string) {
    |s| == |t| && forall i | 0 <= i < |s| :: AsciiLower(s[i]) == AsciiLower(t[i])
  }

  /** The characters Python's `str.isspace` (and so the regex class `\s` on a
      `str` pattern) accepts. */
  predicate IsSpace(c: char) {
    || '\t' <= c <= '\r' || '\U{1c}' <= c <= ' '
    || c == '\U{85}' || c == '\U{a0}' || c == '\U{1680}'
    || '\U{2000}' <= c <= '\U{200a}' || c == '\U{2028}' || c == '\U{2029}'
    || c == '\U{202f}' || c == '\U{205f}' || c == '\U{3000}'
  }

  predicate AllSpace(s: string) {
    forall i | 0 <= i < |s| :: IsSpace(s[i])
  }
}
