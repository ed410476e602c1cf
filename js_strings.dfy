/** The few JavaScript string operations the modelled code relies on:
    `startsWith`, `endsWith`, `trim`, `split` on single-character
    separators, `join`, and the decimal rendering of a non-negative
    integer inside a template literal. Strings are sequences of characters. */
module JsStrings {

  predicate StartsWith(s: string, prefix: string) {
    |prefix| <= |s| && s[..|prefix|] == prefix
  }

  predicate EndsWith(s: string, suffix: string) {
    |suffix| <= |s| && s[|s| - |suffix|..] == suffix
  }

  /** Line terminators of ECMAScript: the characters `.` in a regular
      expression does not match. */
  predicate IsLineTerminator(c: char) {
    c == '\n' || c == '\r' || c == '\U{2028}' || c == '\U{2029}'
  }

  /** White space and line terminators, the characters `String.prototype.trim` removes. */
  predicate IsJsWhitespace(c: char) {
    || IsLineTerminator(c)
    || c == '\t' || c == '\U{000B}' || c == '\U{000C}' || c == ' '
    || c == '\U{00A0}' || c == '\U{1680}' || ('\U{2000}' <= c <= '\U{200A}')
    || c == '\U{202F}' || c == '\U{205F}' || c == '\U{3000}' || c == '\U{FEFF}'
  }

  /** Number of white-space characters at the start of `s`. */
  function LeadingSpace(s: string): (k: nat)
    ensures k <= |s|
    ensures forall i | 0 <= i < k :: IsJsWhitespace(s[i])
    ensures k < |s| ==> !IsJsWhitespace(s[k])
  {
    if s == [] || !IsJsWhitespace(s[0]) then 0 else 1 + LeadingSpace(s[1..])
  }

  /** Number of white-space characters at the end of `s`. */
  function TrailingSpace(s: string): (k: nat)
    ensures k <= |s|
    ensures forall i | |s| - k <= i < |s| :: IsJsWhitespace(s[i])
    ensures k < |s| ==> !IsJsWhitespace(s[|s| - 1 - k])
  {
    if s == [] || !IsJsWhitespace(s[|s| - 1]) then 0 else 1 + TrailingSpace(s[..|s| - 1])
  }

  /** `s.trim()`: `s` without its leading and trailing white space. */
  function Trim(s: string): (t: string)
    ensures |t| <= |s|
    ensures t == [] || (!IsJsWhitespace(t[0]) && !IsJsWhitespace(t[|t| - 1]))
  {
    var rest := s[LeadingSpace(s)..];
    rest[..|rest| - TrailingSpace(rest)]
  }

  lemma TrimUnchanged(s: string)
    requires s == [] || (!IsJsWhitespace(s[0]) && !IsJsWhitespace(s[|s| - 1]))
    ensures Trim(s) == s
  {
  }

  /** Leading white space `a` followed by text `u` that does not start with
      white space: the leading run is exactly `a`. */
  lemma {:induction false} LeadingSpaceOf(a: string, u: string)
    requires forall i | 0 <= i < |a| :: IsJsWhitespace(a[i])
    requires u == [] || !IsJsWhitespace(u[0])
    ensures LeadingSpace(a + u) == |a|
  {
    if a != [] {
      assert (a + u)[1..] == a[1..] + u;
      LeadingSpaceOf(a[1..], u);
    }
  }

  /** Text `u` that does not end with white space followed by trailing white
      space `b`: the trailing run is exactly `b`. */
  lemma {:induction false} TrailingSpaceOf(u: string, b: string)
    requires forall i | 0 <= i < |b| :: IsJsWhitespace(b[i])
    requires u == [] || !IsJsWhitespace(u[|u| - 1])
    ensures TrailingSpace(u + b) == |b|
  {
    if b != [] {
      assert (u + b)[..|u + b| - 1] == u + b[..|b| - 1];
      TrailingSpaceOf(u, b[..|b| - 1]);
    }
  }

  /** `trim()` removes exactly the surrounding white space: text `t` that
      neither starts nor ends with white space, wrapped in white space `a`
      and `b`, trims to `t`. */
  lemma TrimStrips(a: string, t: string, b: string)
    requires forall i | 0 <= i < |a| :: IsJsWhitespace(a[i])
    requires forall i | 0 <= i < |b| :: IsJsWhitespace(b[i])
    requires t == [] || (!IsJsWhitespace(t[0]) && !IsJsWhitespace(t[|t| - 1]))
    ensures Trim(a + t + b) == t
  {
    if t == [] {
      assert a + t + b == (a + b) + [];
      assert forall i | 0 <= i < |a + b| :: IsJsWhitespace((a + b)[i]) by {
        forall i | 0 <= i < |a + b| ensures IsJsWhitespace((a + b)[i]) {
          if i >= |a| { assert (a + b)[i] == b[i - |a|]; }
        }
      }
      LeadingSpaceOf(a + b, []);
    } else {
      assert a + t + b == a + (t + b);
      LeadingSpaceOf(a, t + b);
      assert (a + (t + b))[|a|..] == t + b;
      TrailingSpaceOf(t, b);
      assert (t + b)[..|t + b| - |b|] == t;
    }
  }

  /** True when no character of `s` is one of `seps`. */
  predicate NoSep(s: string, seps: set<char>) {
    forall c | c in s :: c !in seps
  }

  /** `s.split(sep)` for a separator that matches exactly one character of
      `seps` (a one-character string, or a character class such as `/[\t ]/`):
      every separator ends one part, adjacent separators give empty parts,
      and the result is never empty. */
  function Split(s: string, seps: set<char>): (parts: seq<string>)
    ensures |parts| >= 1
    ensures forall i | 0 <= i < |parts| :: NoSep(parts[i], seps)
    decreases |s|
  {
    if s == [] then [""]
    else
      var rest := Split(s[1..], seps);
      if s[0] in seps then [""] + rest
      else [[s[0]] + rest[0]] + rest[1..]
  }

  /** `parts.join(sep)` for a one-character separator. */
  function Join(parts: seq<string>, sep: char): string {
    if parts == [] then ""
    else if |parts| == 1 then parts[0]
    else parts[0] + [sep] + Join(parts[1..], sep)
  }

  /** A string without separators is a single part. */
  lemma {:induction false} SplitNoSep(s: string, seps: set<char>)
    requires NoSep(s, seps)
    ensures Split(s, seps) == [s]
    decreases |s|
  {
    if s != [] {
      SplitNoSep(s[1..], seps);
      assert [s[0]] + s[1..] == s;
    }
  }

  /** The first separator ends the first part; the rest is split on its own. */
  lemma {:induction false} SplitAtFirst(a: string, c: char, b: string, seps: set<char>)
    requires NoSep(a, seps) && c in seps
    ensures Split(a + [c] + b, seps) == [a] + Split(b, seps)
    decreases |a|
  {
    if a == [] {
      assert a + [c] + b == [c] + b;
      assert ([c] + b)[1..] == b;
    } else {
      SplitAtFirst(a[1..], c, b, seps);
      assert (a + [c] + b)[1..] == a[1..] + [c] + b;
      assert [a[0]] + a[1..] == a;
    }
  }

  /** A string yields a second part exactly when it holds a separator. */
  lemma {:induction false} SplitHasSecondPart(s: string, seps: set<char>)
    ensures |Split(s, seps)| > 1 <==> !NoSep(s, seps)
    decreases |s|
  {
    if s != [] {
      SplitHasSecondPart(s[1..], seps);
      assert forall c | c in s[1..] :: c in s;
      assert forall c | c in s :: c == s[0] || c in s[1..];
    }
  }

  /** Joining the parts of a split restores the string. */
  lemma {:induction false} JoinSplit(s: string, sep: char)
    ensures Join(Split(s, {sep}), sep) == s
    decreases |s|
  {
    if s != [] {
      JoinSplit(s[1..], sep);
      var rest := Split(s[1..], {sep});
      if s[0] == sep {
        assert Join([""] + rest, sep) == "" + [sep] + Join(rest, sep);
      } else if |rest| == 1 {
        assert [s[0]] + s[1..] == s;
      } else {
        assert ([[s[0]] + rest[0]] + rest[1..])[1..] == rest[1..];
        assert [s[0]] + s[1..] == s;
      }
    }
  }

  /** Splitting a join of separator-free parts gives the parts back. */
  lemma {:induction false} SplitJoin(parts: seq<string>, sep: char)
    requires |parts| >= 1
    requires forall i | 0 <= i < |parts| :: NoSep(parts[i], {sep})
    ensures Split(Join(parts, sep), {sep}) == parts
    decreases |parts|
  {
    if |parts| == 1 {
      SplitNoSep(parts[0], {sep});
    } else {
      SplitJoin(parts[1..], sep);
      SplitAtFirst(parts[0], sep, Join(parts[1..], sep), {sep});
      assert [parts[0]] + parts[1..] == parts;
    }
  }

  function DigitChar(d: nat): (c: char)
    requires d < 10
    ensures '0' <= c <= '9'
  {
    "0123456789"[d]
  }

  predicate IsDigits(s: string) {
    forall i | 0 <= i < |s| :: '0' <= s[i] <= '9'
  }

  /** The decimal numeral JavaScript prints for a non-negative integer:
      non-empty, digits only, no leading zero except for 0 itself. */
  function NatToString(n: nat): (s: string)
    ensures |s| >= 1 && IsDigits(s)
    ensures s[0] == '0' ==> n == 0
  {
    if n < 10 then [DigitChar(n)] else NatToString(n / 10) + [DigitChar(n % 10)]
  }

  /** The value of a decimal numeral (the reading partner of NatToString). */
  function DecimalValue(s: string): nat
    requires IsDigits(s)
  {
    if s == [] then 0 else 10 * DecimalValue(s[..|s| - 1]) + (s[|s| - 1] as int - '0' as int)
  }

  lemma {:induction false} DecimalRoundTrip(n: nat)
    ensures DecimalValue(NatToString(n)) == n
  {
    if n >= 10 {
      DecimalRoundTrip(n / 10);
      var s := NatToString(n);
      assert s == NatToString(n / 10) + [DigitChar(n % 10)];
      assert s[..|s| - 1] == NatToString(n / 10);
    }
    var s := NatToString(n);
    assert s[|s| - 1] == "0123456789"[n % 10];
  }
}
