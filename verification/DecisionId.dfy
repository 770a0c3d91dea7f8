/** The decision id: a 32-bit hash of the decisive inputs, computed with wrapping machine arithmetic. */
module DecisionId {
  import opened Text

  const WORD: int := 0x1_0000_0000

  /** A number as a signed 32-bit word, and a word read without its sign. */
  function ToInt32(n: int): (r: int)
    ensures -WORD / 2 <= r < WORD / 2 && (r - n) % WORD == 0
  {
    var m := n % WORD;
    if m < WORD / 2 then m else m - WORD
  }

  function ToUint32(n: int): int { n % WORD }

  /** The hash on unbounded numbers: times 33, plus the next code unit. */
  function Djb2(s: string): nat {
    if s == "" then 5381 else 33 * Djb2(s[..|s| - 1]) + (s[|s| - 1] as int)
  }

  /** One turn of the wrapping loop agrees with the unbounded one, up to the word. */
  lemma TurnIsCongruent(hash: int, exact: int, c: int)
    requires ToUint32(hash) == ToUint32(exact)
    ensures ToUint32(ToInt32(ToInt32(hash * 32) + hash + c)) == ToUint32(33 * exact + c)
  {
    var shifted := ToInt32(hash * 32);
    var sum := shifted + hash + c;
    SameWord(shifted, hash * 32);
    SameWord(ToInt32(sum), sum);
    var a, b, d := (shifted - hash * 32) / WORD, (hash - exact) / WORD, (ToInt32(sum) - sum) / WORD;
    Multiple(shifted - hash * 32);
    Multiple(ToInt32(sum) - sum);
    assert (hash - exact) % WORD == 0 by { WordDifference(hash, exact); }
    Multiple(hash - exact);
    assert ToInt32(sum) - (33 * exact + c) == (d + a + 33 * b) * WORD;
    Shift(33 * exact + c, d + a + 33 * b);
  }

  lemma Multiple(n: int)
    requires n % WORD == 0
    ensures n == (n / WORD) * WORD
  {
  }

  lemma WordDifference(a: int, b: int)
    requires a % WORD == b % WORD
    ensures (a - b) % WORD == 0
  {
    Shift(0, a / WORD - b / WORD);
    assert a - b == (a / WORD - b / WORD) * WORD;
  }

  lemma SameWord(a: int, b: int)
    requires (a - b) % WORD == 0
    ensures a % WORD == b % WORD
  {
    Multiple(a - b);
    Shift(b, (a - b) / WORD);
  }

  lemma Shift(n: int, k: int)
    ensures (n + k * WORD) % WORD == n % WORD
  {
    var q, r := n / WORD, n % WORD;
    assert n + k * WORD == (q + k) * WORD + r;
  }

  /** The low `digits` hexadecimal digits. */
  function Hex(n: nat, digits: nat): (s: string)
    ensures |s| == digits
  {
    if digits == 0 then "" else Hex(n / 16, digits - 1) + [HexDigit(n % 16)]
  }

  function Unhex(s: string): nat
    requires forall i | 0 <= i < |s| :: s[i] in "0123456789abcdef"
  {
    if s == "" then 0 else 16 * Unhex(s[..|s| - 1]) + DigitValue(s[|s| - 1])
  }

  function DigitValue(c: char): nat
    requires c in "0123456789abcdef"
  {
    if c <= '9' then (c as int) - 48 else (c as int) - 87
  }

  function Pow16(k: nat): nat { if k == 0 then 1 else 16 * Pow16(k - 1) }

  /** Eight digits hold a word: distinct words have distinct texts. */
  lemma {:induction false} HexRoundTrip(n: nat, digits: nat)
    requires n < Pow16(digits)
    ensures forall i | 0 <= i < digits :: Hex(n, digits)[i] in "0123456789abcdef"
    ensures Unhex(Hex(n, digits)) == n
  {
    if digits > 0 {
      HexRoundTrip(n / 16, digits - 1);
      var s := Hex(n, digits);
      assert s[..|s| - 1] == Hex(n / 16, digits - 1);
    }
  }

  /** `deriveDecisionId`: the wrapping loop computes the unbounded hash modulo one word. */
  method DeriveDecisionId(seed: string) returns (id: string)
    ensures id == "dec_" + Hex(Djb2(seed) % WORD, 8)
  {
    var hash := 5381;
    for i := 0 to |seed|
      invariant ToUint32(hash) == ToUint32(Djb2(seed[..i]))
    {
      assert seed[..i + 1][..i] == seed[..i];
      TurnIsCongruent(hash, Djb2(seed[..i]), seed[i] as int);
      hash := ToInt32(ToInt32(hash * 32) + hash + (seed[i] as int));
    }
    assert seed[..|seed|] == seed;
    id := "dec_" + Hex(ToUint32(hash), 8);
  }

  /** Ids are eight hexadecimal digits, and equal only for equal hashes. */
  lemma IdsAreHashes(a: string, b: string)
    ensures |"dec_" + Hex(Djb2(a) % WORD, 8)| == 12
    ensures "dec_" + Hex(Djb2(a) % WORD, 8) == "dec_" + Hex(Djb2(b) % WORD, 8) <==> Djb2(a) % WORD == Djb2(b) % WORD
  {
    var x, y := Djb2(a) % WORD, Djb2(b) % WORD;
    assert Pow16(8) == WORD by { assert Pow16(4) == 0x1_0000; }
    HexRoundTrip(x, 8);
    HexRoundTrip(y, 8);
    assert ("dec_" + Hex(x, 8))[4..] == Hex(x, 8) && ("dec_" + Hex(y, 8))[4..] == Hex(y, 8);
  }

  function Pow33(k: nat): nat { if k == 0 then 1 else 33 * Pow33(k - 1) }

  /** Each code unit weighs 33 to the power of the number of units behind it. */
  function Weighed(s: string): nat { if s == "" then 0 else (s[0] as int) * Pow33(|s| - 1) + Weighed(s[1..]) }

  lemma {:induction false} WeighedSnoc(s: string, c: char)
    ensures Weighed(s + [c]) == 33 * Weighed(s) + (c as int)
  {
    if s == "" {
      assert ("" + [c])[1..] == "" && ("" + [c])[0] == c;
      assert Pow33(0) == 1;
    } else {
      assert (s + [c])[0] == s[0] && (s + [c])[1..] == s[1..] + [c];
      WeighedSnoc(s[1..], c);
      assert Pow33(|s|) == 33 * Pow33(|s| - 1);
      Times33(s[0] as int, Pow33(|s| - 1), Weighed(s[1..]), c as int);
    }
  }

  lemma Times33(a: nat, p: nat, w: nat, c: nat)
    ensures a * (33 * p) + (33 * w + c) == 33 * (a * p + w) + c
  {
  }

  /** The hash in closed form: a polynomial in 33 over the code units, started at 5381. */
  lemma {:induction false} HashIsPolynomial(s: string)
    ensures Djb2(s) == 5381 * Pow33(|s|) + Weighed(s)
  {
    if s != "" {
      var n := |s| - 1;
      HashIsPolynomial(s[..n]);
      WeighedSnoc(s[..n], s[n]);
      assert s[..n] + [s[n]] == s;
      Times33(5381, Pow33(n), Weighed(s[..n]), s[n] as int);
    }
  }
}
