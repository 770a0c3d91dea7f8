/** Strings as the runtime sees them: code-unit order, decimal numerals, and dotted paths. */
module Text {
  /** Lexicographic order by code unit. */
  predicate LexLess(s: string, t: string) {
    if t == "" then false
    else if s == "" then true
    else if s[0] != t[0] then s[0] < t[0]
    else LexLess(s[1..], t[1..])
  }

  /** Order is decided at the first position where two strings differ. */
  lemma {:induction false} LexAtFirstDifference(s: string, t: string, i: nat)
    requires i < |s| && i < |t| && s[..i] == t[..i] && s[i] < t[i]
    ensures LexLess(s, t)
    decreases i
  {
    if i > 0 {
      assert s[0] == s[..i][0] == t[..i][0] == t[0];
      assert s[1..][..i - 1] == s[..i][1..] == t[..i][1..] == t[1..][..i - 1];
      LexAtFirstDifference(s[1..], t[1..], i - 1);
    }
  }

  predicate IsDigit(c: char) { '0' <= c <= '9' }

  function Digit(d: nat): char
    requires d < 10
  {
    '0' + d as char
  }

  function HexDigit(n: nat): char
    requires n < 16
  {
    if n < 10 then '0' + n as char else 'a' + (n - 10) as char
  }

  /** `String(n)` for a natural number. */
  function Decimal(n: nat): (s: string)
    ensures |s| > 0 && forall i | 0 <= i < |s| :: IsDigit(s[i])
  {
    if n < 10 then [Digit(n)] else Decimal(n / 10) + [Digit(n % 10)]
  }

  function DigitsValue(s: string): nat
    requires forall i | 0 <= i < |s| :: IsDigit(s[i])
  {
    if s == "" then 0
    else
      assert IsDigit(s[|s| - 1]);
      10 * DigitsValue(s[..|s| - 1]) + (s[|s| - 1] - '0') as nat
  }

  lemma {:induction false} DecimalRoundTrip(n: nat)
    ensures DigitsValue(Decimal(n)) == n
  {
    if n < 10 {
      assert DigitsValue([Digit(n)][..0]) == 0;
    } else {
      DecimalRoundTrip(n / 10);
      assert (Decimal(n / 10) + [Digit(n % 10)])[..|Decimal(n / 10)|] == Decimal(n / 10);
    }
  }

  /** A separator that occurs in neither tail marks the same place in both strings. */
  lemma LastSeparatorIsUnique(a: string, x: string, b: string, y: string, c: char)
    requires c !in x && c !in y && a + [c] + x == b + [c] + y
    ensures a == b && x == y
  {
    var s := a + [c] + x;
    assert s[|a|] == c && s[|b|] == c;
    assert forall i | |a| < i < |s| :: s[i] == x[i - |a| - 1];
    assert forall i | |b| < i < |s| :: s[i] == y[i - |b| - 1];
    assert a == s[..|a|] && b == s[..|b|] && x == s[|a| + 1..] && y == s[|b| + 1..];
  }

  /** A separator that occurs in neither head marks the same place in both strings. */
  lemma FirstSeparatorIsUnique(a: string, x: string, b: string, y: string, c: char)
    requires c !in a && c !in b && a + [c] + x == b + [c] + y
    ensures a == b && x == y
  {
    var s := a + [c] + x;
    assert s[|a|] == c && s[|b|] == c;
    assert forall i | 0 <= i < |a| :: s[i] == a[i];
    assert forall i | 0 <= i < |b| :: s[i] == b[i];
    assert a == s[..|a|] && b == s[..|b|] && x == s[|a| + 1..] && y == s[|b| + 1..];
  }

  /** `s.split(".")`. */
  function SplitDots(s: string): (r: seq<string>)
    ensures |r| >= 1
    ensures JoinDots(r) == s && forall i | 0 <= i < |r| :: '.' !in r[i]
  {
    if s == "" then [""]
    else
      var rest := SplitDots(s[1..]);
      if s[0] == '.' then assert ([""] + rest)[1..] == rest; [""] + rest
      else
        assert ([[s[0]] + rest[0]] + rest[1..])[1..] == rest[1..];
        [[s[0]] + rest[0]] + rest[1..]
  }

  function JoinDots(parts: seq<string>): string
    requires |parts| >= 1
  {
    if |parts| == 1 then parts[0] else parts[0] + "." + JoinDots(parts[1..])
  }
}
