/** String helpers shared by the emitters: concatenation, `String.join`,
    `String.valueOf(int)`, and `String.replace` with a one-character target. */
module Text {

  /** The strings of `parts` one after another. */
  function Concat(parts: seq<string>): string
  {
    if parts == [] then "" else Concat(parts[..|parts| - 1]) + parts[|parts| - 1]
  }

  lemma AppendAssoc(a: string, b: string, c: string)
    ensures a + b + c == a + (b + c)
  {
  }

  lemma EmptyPrefix(a: string)
    ensures "" + a == a
  {
  }

  /** `String.join(sep, parts)`. */
  function Join(parts: seq<string>, sep: string): string
  {
    if |parts| == 0 then ""
    else if |parts| == 1 then parts[0]
    else Join(parts[..|parts| - 1], sep) + sep + parts[|parts| - 1]
  }

  predicate IsDigit(c: char) { '0' <= c <= '9' }

  predicate AllDigits(s: string) { forall i :: 0 <= i < |s| ==> IsDigit(s[i]) }

  function DigitValue(c: char): nat
    requires IsDigit(c)
  {
    (c as int) - ('0' as int)
  }

  function DigitChar(d: nat): (c: char)
    requires d < 10
    ensures IsDigit(c) && DigitValue(c) == d
  {
    ('0' as int + d) as char
  }

  /** `String.valueOf(n)` for a non-negative `n`: its decimal digits. */
  function Dec(n: nat): (s: string)
    ensures |s| > 0 && AllDigits(s)
  {
    if n < 10 then [DigitChar(n)] else Dec(n / 10) + [DigitChar(n % 10)]
  }

  /** The number a string of decimal digits denotes. */
  function DigitsValue(s: string): nat
    requires AllDigits(s)
  {
    if s == [] then 0 else 10 * DigitsValue(s[..|s| - 1]) + DigitValue(s[|s| - 1])
  }

  /** Reading back the digits of `Dec(n)` gives `n`. */
  lemma {:induction false} DecValue(n: nat)
    ensures DigitsValue(Dec(n)) == n
  {
    if n >= 10 {
      DecValue(n / 10);
      var s := Dec(n);
      assert s[..|s| - 1] == Dec(n / 10);
    }
  }

  /** `Dec` is injective. */
  lemma DecInjective(m: nat, n: nat)
    requires Dec(m) == Dec(n)
    ensures m == n
  {
    DecValue(m);
    DecValue(n);
  }

  /** The longest prefix of `s` made of digits. */
  function LeadingDigits(s: string): (d: string)
    ensures AllDigits(d) && d <= s
  {
    if s == [] || !IsDigit(s[0]) then "" else [s[0]] + LeadingDigits(s[1..])
  }

  /** Digits followed by a non-digit are read back exactly. */
  lemma {:induction false} LeadingDigitsOf(d: string, rest: string)
    requires AllDigits(d)
    requires rest == [] || !IsDigit(rest[0])
    ensures LeadingDigits(d + rest) == d
  {
    if d != [] {
      assert (d + rest)[1..] == d[1..] + rest;
      LeadingDigitsOf(d[1..], rest);
    }
  }

  /** `s.replace(String.valueOf(c), r)`: every `c` replaced by `r`. */
  function ReplaceChar(s: string, c: char, r: string): string
  {
    if s == [] then ""
    else ReplaceChar(s[..|s| - 1], c, r) + (if s[|s| - 1] == c then r else [s[|s| - 1]])
  }

  /** Replacing a character works piecewise on a concatenation. */
  lemma {:induction false} ReplaceCharAppend(a: string, b: string, c: char, r: string)
    ensures ReplaceChar(a + b, c, r) == ReplaceChar(a, c, r) + ReplaceChar(b, c, r)
  {
    if b != [] {
      var ab := a + b;
      assert ab[..|ab| - 1] == a + b[..|b| - 1];
      ReplaceCharAppend(a, b[..|b| - 1], c, r);
    } else {
      assert a + b == a;
    }
  }

  /** The text before the first `c` and the text after it (all of `s` and
      nothing when `c` does not occur). */
  function SplitAtFirst(s: string, c: char): (string, string)
  {
    if s == [] then ("", "")
    else if s[0] == c then ("", s[1..])
    else var (before, after) := SplitAtFirst(s[1..], c); ([s[0]] + before, after)
  }

  /** Splitting `a + [c] + b` at the first `c` gives back `a` and `b` when `c`
      does not occur in `a`. */
  lemma {:induction false} SplitAtFirstJoin(a: string, c: char, b: string)
    requires c !in a
    ensures SplitAtFirst(a + [c] + b, c) == (a, b)
  {
    if a != [] {
      var s := a + [c] + b;
      assert s[0] == a[0] && a[0] != c;
      assert s[1..] == a[1..] + [c] + b;
      SplitAtFirstJoin(a[1..], c, b);
      assert [a[0]] + a[1..] == a;
    }
  }
}
