/** The few pieces of Go's `strings` and `fmt` packages that the engine relies
    on: ASCII case folding (`strings.EqualFold`), the byte-wise ordering of Go's
    `<` on strings, and decimal rendering of integers (`%d`). */
module Strings {

  /** Lower-cases an ASCII upper-case letter and leaves every other character alone. */
  function AsciiLower(c: char): (r: char)
    ensures 'A' <= c <= 'Z' ==> 'a' <= r <= 'z' && r as int == c as int + 32
    ensures !('A' <= c <= 'Z') ==> r == c
  {
    if 'A' <= c <= 'Z' then (c as int + 32) as char else c
  }

  /** The whole string lower-cased, character by character. */
  function Lower(s: string): (r: string)
    ensures |r| == |s|
    ensures forall i :: 0 <= i < |s| ==> r[i] == AsciiLower(s[i])
  {
    if s == [] then [] else [AsciiLower(s[0])] + Lower(s[1..])
  }

  /** `strings.EqualFold` restricted to ASCII case folding. */
  predicate EqualFold(a: string, b: string)
  {
    |a| == |b| && forall i :: 0 <= i < |a| ==> AsciiLower(a[i]) == AsciiLower(b[i])
  }

  /** Every string equals itself up to case. */
  lemma EqualFoldReflexive(a: string)
    ensures EqualFold(a, a)
  {
  }

  /** Two strings are equal up to case exactly when their lower-cased forms agree. */
  lemma EqualFoldIffSameLower(a: string, b: string)
    ensures EqualFold(a, b) <==> Lower(a) == Lower(b)
  {
    if EqualFold(a, b) {
      assert forall i :: 0 <= i < |a| ==> Lower(a)[i] == Lower(b)[i];
    }
    if Lower(a) == Lower(b) {
      forall i | 0 <= i < |a| ensures AsciiLower(a[i]) == AsciiLower(b[i]) {
        assert Lower(a)[i] == Lower(b)[i];
      }
    }
  }

  /** Go's `a < b` on strings: lexicographic, a proper prefix coming first.
      UTF-8 byte order agrees with code point order, so comparing characters
      gives the same answer as Go's byte comparison. */
  predicate LexLess(a: string, b: string)
  {
    if a == [] then b != []
    else if b == [] then false
    else if a[0] != b[0] then a[0] < b[0]
    else LexLess(a[1..], b[1..])
  }

  lemma {:induction false} LexLessIrreflexive(a: string)
    ensures !LexLess(a, a)
  {
    if a != [] {
      LexLessIrreflexive(a[1..]);
    }
  }

  lemma {:induction false} LexLessTransitive(a: string, b: string, c: string)
    requires LexLess(a, b) && LexLess(b, c)
    ensures LexLess(a, c)
  {
    if a != [] && b != [] && c != [] && a[0] == b[0] && b[0] == c[0] {
      LexLessTransitive(a[1..], b[1..], c[1..]);
    }
  }

  /** Any two distinct strings are ordered one way or the other. */
  lemma {:induction false} LexLessTotal(a: string, b: string)
    ensures a == b || LexLess(a, b) || LexLess(b, a)
  {
    if a != [] && b != [] && a[0] == b[0] {
      LexLessTotal(a[1..], b[1..]);
      if a[1..] == b[1..] {
        assert a == [a[0]] + a[1..] && b == [b[0]] + b[1..];
      }
    }
  }

  /** The decimal digit character for `d`. */
  function Digit(d: nat): (c: char)
    requires d < 10
    ensures '0' <= c <= '9' && c as int - '0' as int == d
  {
    ('0' as int + d) as char
  }

  predicate IsDigits(s: string)
  {
    forall i :: 0 <= i < |s| ==> '0' <= s[i] <= '9'
  }

  /** The value of a string of decimal digits. */
  function DecimalValue(s: string): nat
    requires IsDigits(s)
  {
    if s == [] then 0
    else DecimalValue(s[..|s| - 1]) * 10 + (s[|s| - 1] as int - '0' as int)
  }

  /** `fmt.Sprintf("%d", n)` for a non-negative `n`: no leading zeros. */
  function NatToString(n: nat): (s: string)
    ensures |s| >= 1 && IsDigits(s)
    ensures s[0] == '0' ==> n == 0
  {
    if n < 10 then [Digit(n)] else NatToString(n / 10) + [Digit(n % 10)]
  }

  /** Reading back a rendered number gives the number. */
  lemma {:induction false} NatToStringRoundTrip(n: nat)
    ensures DecimalValue(NatToString(n)) == n
  {
    var s := NatToString(n);
    if n >= 10 {
      NatToStringRoundTrip(n / 10);
      assert s[..|s| - 1] == NatToString(n / 10);
    }
  }

  /** `fmt.Sprintf("%d", i)` for any integer: a minus sign, then the digits of |i|. */
  function IntToString(i: int): (s: string)
    ensures |s| >= 1
    ensures i >= 0 ==> IsDigits(s) && DecimalValue(s) == i
    ensures i < 0 ==> s[0] == '-' && IsDigits(s[1..]) && DecimalValue(s[1..]) == -i
  {
    NatToStringRoundTrip(if i >= 0 then i else -i);
    if i >= 0 then NatToString(i) else "-" + NatToString(-i)
  }

  /** Rendering is injective: the text of an integer determines it. */
  lemma IntToStringInjective(i: int, j: int)
    requires IntToString(i) == IntToString(j)
    ensures i == j
  {
  }

  /** No rendered integer contains `stop` when `stop` is neither a digit nor a minus sign. */
  lemma IntToStringAvoids(i: int, stop: char)
    requires !('0' <= stop <= '9') && stop != '-'
    ensures forall k :: 0 <= k < |IntToString(i)| ==> IntToString(i)[k] != stop
  {
    var s := IntToString(i);
    if i < 0 {
      forall k | 0 < k < |s| ensures s[k] != stop {
        assert s[k] == s[1..][k - 1];
      }
    }
  }

  /** A field free of the `stop` character, followed by text that starts with
      `stop`, is recovered from the concatenation: the field and the rest both. */
  lemma FieldUnique(p: string, s1: string, q: string, s2: string, stop: char)
    requires forall k :: 0 <= k < |p| ==> p[k] != stop
    requires forall k :: 0 <= k < |q| ==> q[k] != stop
    requires |s1| > 0 && s1[0] == stop && |s2| > 0 && s2[0] == stop
    requires p + s1 == q + s2
    ensures p == q && s1 == s2
  {
    assert p == (p + s1)[..|p|] && q == (q + s2)[..|q|];
    assert s1 == (p + s1)[|p|..] && s2 == (q + s2)[|q|..];
  }

  /** Equal texts behind a common prefix are equal. */
  lemma DropPrefix(pre: string, x: string, y: string)
    requires pre + x == pre + y
    ensures x == y
  {
    assert x == (pre + x)[|pre|..];
    assert y == (pre + y)[|pre|..];
  }

  /** One step of reading a stop-terminated field back out of a text behind a
      fixed prefix. */
  lemma PeelField(pre: string, p: string, s1: string, q: string, s2: string, stop: char)
    requires forall k :: 0 <= k < |p| ==> p[k] != stop
    requires forall k :: 0 <= k < |q| ==> q[k] != stop
    requires |s1| > 0 && s1[0] == stop && |s2| > 0 && s2[0] == stop
    requires pre + (p + s1) == pre + (q + s2)
    ensures p == q && s1 == s2
  {
    DropPrefix(pre, p + s1, q + s2);
    FieldUnique(p, s1, q, s2, stop);
  }
}
