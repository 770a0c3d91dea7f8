/**
 * UUID version 7 (section 5.7 of RFC 9562): a 48-bit millisecond timestamp stamped over random
 * bytes, in place, and written out in the usual 8-4-4-4-12 hexadecimal form.
 */
module Uuid {
  import opened Common
  import opened Text

  newtype byte = x: int | 0 <= x < 256

  const TIME_LIMIT: int := 0x1_0000_0000_0000

  /** `(b & 0x0f) | 0x70`: the high half becomes 7, the low half stays. */
  function WithVersion(b: byte): byte { b % 16 + 0x70 }

  /** `(b & 0x3f) | 0x80`: the two high bits become 10, the other six stay. */
  function WithVariant(b: byte): byte { b % 64 + 0x80 }

  /** The two stamps are the bit masks of the source, on every byte. */
  lemma StampsAreMasks(x: bv8)
    ensures ((x & 0x0f) | 0x70) as int == WithVersion(x as byte) as int
    ensures ((x & 0x3f) | 0x80) as int == WithVariant(x as byte) as int
  {
    assert (x & 0x0f) as int == x as int % 16;
    assert (x & 0x0f) | 0x70 == (x & 0x0f) + 0x70;
    assert (x & 0x3f) as int == x as int % 64;
    assert (x & 0x3f) | 0x80 == (x & 0x3f) + 0x80;
  }

  /** The last `k` bytes of `n`, most significant first. */
  function BigEndian(n: nat, k: nat): (s: seq<byte>)
    ensures |s| == k
  {
    if k == 0 then [] else BigEndian(n / 256, k - 1) + [(n % 256) as byte]
  }

  /** The sixteen bytes after stamping time, version and variant over random ones. */
  function Stamped(random: seq<byte>, now: nat): (s: seq<byte>)
    requires |random| == 16
    ensures |s| == 16
  {
    BigEndian(now, 6) + [WithVersion(random[6]), random[7], WithVariant(random[8])] + random[9..]
  }

  function High(b: byte): char { HexDigit(b as int / 16) }

  function Low(b: byte): char { HexDigit(b as int % 16) }

  /** `toString("hex")`. */
  function Hex(bytes: seq<byte>): (s: string)
    ensures |s| == 2 * |bytes|
  {
    if bytes == [] then ""
    else Hex(bytes[..|bytes| - 1]) + [High(bytes[|bytes| - 1]), Low(bytes[|bytes| - 1])]
  }

  function Dashed(hex: string): (s: string)
    requires |hex| == 32
    ensures |s| == 36
  {
    hex[..8] + "-" + hex[8..12] + "-" + hex[12..16] + "-" + hex[16..20] + "-" + hex[20..]
  }

  function Id(random: seq<byte>, now: nat): string
    requires |random| == 16
  {
    Dashed(Hex(Stamped(random, now)))
  }

  /** `writeUIntBE(value, 0, 6)`: refuses a value that does not fit, else fills bytes 5 down to 0. */
  method WriteTime(bytes: array<byte>, value: int) returns (fits: bool)
    requires bytes.Length == 16
    modifies bytes
    ensures fits <==> 0 <= value < TIME_LIMIT
    ensures fits ==> bytes[..] == BigEndian(value, 6) + old(bytes[6..])
    ensures !fits ==> bytes[..] == old(bytes[..])
  {
    if !(0 <= value < TIME_LIMIT) {
      return false;
    }
    var rest: nat := value;
    var i := 6;
    while i > 0
      invariant 0 <= i <= 6 && rest >= 0
      invariant BigEndian(value, 6) == BigEndian(rest, i) + bytes[i..6]
      invariant bytes[6..] == old(bytes[6..])
    {
      i := i - 1;
      ghost var tail := bytes[i + 1..6];
      bytes[i] := (rest % 256) as byte;
      assert bytes[i..6] == [(rest % 256) as byte] + tail;
      rest := rest / 256;
    }
    assert bytes[..] == bytes[0..6] + bytes[6..];
    return true;
  }

  /** `generate`, given the random bytes; nothing when the clock does not fit in 48 bits. */
  method Generate(bytes: array<byte>, now: int) returns (id: Option<string>)
    requires bytes.Length == 16
    modifies bytes
    ensures id == if 0 <= now < TIME_LIMIT then Some(Id(old(bytes[..]), now)) else None
  {
    var fits := WriteTime(bytes, now);
    if !fits {
      return None;
    }
    bytes[6] := WithVersion(bytes[6]);
    bytes[8] := WithVariant(bytes[8]);
    assert bytes[..] == Stamped(old(bytes[..]), now);
    return Some(Dashed(Hex(bytes[..])));
  }

  // ---------------------------------------------------------------------------
  // Order and layout
  // ---------------------------------------------------------------------------

  function Pow256(k: nat): nat { if k == 0 then 1 else 256 * Pow256(k - 1) }

  lemma {:induction false} HexAt(bytes: seq<byte>, i: nat)
    requires i < |bytes|
    ensures Hex(bytes)[2 * i] == High(bytes[i]) && Hex(bytes)[2 * i + 1] == Low(bytes[i])
  {
    if i < |bytes| - 1 { HexAt(bytes[..|bytes| - 1], i); }
  }

  lemma {:induction false} HexAppend(a: seq<byte>, b: seq<byte>)
    ensures Hex(a + b) == Hex(a) + Hex(b)
  {
    if b == [] {
      assert a + b == a;
    } else {
      assert (a + b)[..|a + b| - 1] == a + b[..|b| - 1];
      HexAppend(a, b[..|b| - 1]);
    }
  }

  lemma HexLast(a: seq<byte>, x: byte)
    ensures Hex(a + [x]) == Hex(a) + [High(x), Low(x)]
  {
    assert (a + [x])[..|a|] == a;
  }

  /** Hexadecimal keeps the order of a byte: the first digit that differs is smaller in the smaller byte. */
  lemma NibbleOrder(x: byte, y: byte)
    requires x < y
    ensures High(x) < High(y) || (High(x) == High(y) && Low(x) < Low(y))
  {
    assert x as int / 16 < y as int / 16 || (x as int / 16 == y as int / 16 && x as int % 16 < y as int % 16);
  }

  lemma ByteSplit(n: nat, m: nat, p: nat)
    requires n < m < 256 * p
    ensures m / 256 < p
    ensures n / 256 < m / 256 || (n / 256 == m / 256 && n % 256 < m % 256)
  {
  }

  /** Two byte strings with equal heads first differ, in hexadecimal, inside their unequal last bytes. */
  lemma DifferInLastByte(a: seq<byte>, x: byte, y: byte) returns (i: nat)
    requires x < y
    ensures i < 2 * |a| + 2
    ensures var s, t := Hex(a + [x]), Hex(a + [y]); (s[..i] == t[..i] && s[i] < t[i])
  {
    HexLast(a, x);
    HexLast(a, y);
    NibbleOrder(x, y);
    i := if High(x) < High(y) then 2 * |a| else 2 * |a| + 1;
  }

  lemma DifferEarlier(a: seq<byte>, b: seq<byte>, x: byte, y: byte, i: nat)
    requires |a| == |b| && i < 2 * |a| && Hex(a)[..i] == Hex(b)[..i] && Hex(a)[i] < Hex(b)[i]
    ensures var s, t := Hex(a + [x]), Hex(b + [y]); (s[..i] == t[..i] && s[i] < t[i])
  {
    HexLast(a, x);
    HexLast(b, y);
    assert (Hex(a) + [High(x), Low(x)])[..i] == Hex(a)[..i];
    assert (Hex(b) + [High(y), Low(y)])[..i] == Hex(b)[..i];
  }

  /** The hexadecimal forms of two timestamps first differ where the earlier one has the smaller digit. */
  lemma {:induction false} FirstDifference(n: nat, m: nat, k: nat) returns (i: nat)
    requires n < m < Pow256(k)
    ensures i < 2 * k
    ensures var a, b := Hex(BigEndian(n, k)), Hex(BigEndian(m, k)); (a[..i] == b[..i] && a[i] < b[i])
  {
    ByteSplit(n, m, Pow256(k - 1));
    if n / 256 < m / 256 {
      i := FirstDifference(n / 256, m / 256, k - 1);
      DifferEarlier(BigEndian(n / 256, k - 1), BigEndian(m / 256, k - 1), (n % 256) as byte, (m % 256) as byte, i);
    } else {
      i := DifferInLastByte(BigEndian(n / 256, k - 1), (n % 256) as byte, (m % 256) as byte);
    }
  }

  lemma IdPrefix(random: seq<byte>, now: nat)
    requires |random| == 16
    ensures var t, id := Hex(BigEndian(now, 6)), Id(random, now);
            id[..8] == t[..8] && id[8] == '-' && id[9..13] == t[8..]
  {
    var s := Stamped(random, now);
    assert s == BigEndian(now, 6) + s[6..];
    HexAppend(BigEndian(now, 6), s[6..]);
    var hex, t := Hex(s), Hex(BigEndian(now, 6));
    assert hex[..8] == t[..8] && hex[8..12] == t[8..];
  }

  lemma SixBytes()
    ensures Pow256(6) == TIME_LIMIT
  {
    assert Pow256(3) == 0x100_0000;
    assert Pow256(5) == 256 * (256 * Pow256(3));
  }

  /** Where position `i` of a timestamp's hexadecimal form ends up in the id. */
  function Shifted(i: nat): nat { if i < 8 then i else i + 1 }

  lemma PrefixInId(h1: string, h2: string, a: string, b: string, i: nat)
    requires |h1| == |h2| == 12 && |a| == |b| == 36 && i < 12
    requires a[..8] == h1[..8] && a[8] == '-' && a[9..13] == h1[8..]
    requires b[..8] == h2[..8] && b[8] == '-' && b[9..13] == h2[8..]
    requires h1[..i] == h2[..i]
    ensures a[..Shifted(i)] == b[..Shifted(i)] && a[Shifted(i)] == h1[i] && b[Shifted(i)] == h2[i]
  {
    assert forall k | 0 <= k < 8 ::
      a[k] == a[..8][k] == h1[..8][k] == h1[k]
      && b[k] == b[..8][k] == h2[..8][k] == h2[k];
    assert forall k | 8 <= k < 12 :: a[k + 1] == a[9..13][k - 8] == h1[8..][k - 8] == h1[k];
    assert forall k | 8 <= k < 12 :: b[k + 1] == b[9..13][k - 8] == h2[8..][k - 8] == h2[k];
    assert forall k | 0 <= k < i :: h1[k] == h1[..i][k] == h2[..i][k] == h2[k];
    forall k | 0 <= k < Shifted(i) ensures a[k] == b[k] {
      if k > 8 {
        assert a[(k - 1) + 1] == h1[k - 1] && b[(k - 1) + 1] == h2[k - 1];
      }
    }
  }

  /** Whatever the random bits, an earlier millisecond gives a lexicographically smaller id. */
  lemma IdsFollowTime(r1: seq<byte>, t1: nat, r2: seq<byte>, t2: nat)
    requires |r1| == |r2| == 16 && t1 < t2 < TIME_LIMIT
    ensures LexLess(Id(r1, t1), Id(r2, t2))
  {
    SixBytes();
    var i := FirstDifference(t1, t2, 6);
    IdPrefix(r1, t1);
    IdPrefix(r2, t2);
    PrefixInId(Hex(BigEndian(t1, 6)), Hex(BigEndian(t2, 6)), Id(r1, t1), Id(r2, t2), i);
    LexAtFirstDifference(Id(r1, t1), Id(r2, t2), Shifted(i));
  }

  function HexDigitValue(c: char): nat {
    if '0' <= c <= '9' then (c - '0') as nat else if 'a' <= c <= 'f' then (c - 'a') as nat + 10 else 0
  }

  function HexValue(s: string): nat {
    if s == "" then 0 else 16 * HexValue(s[..|s| - 1]) + HexDigitValue(s[|s| - 1])
  }

  lemma {:induction false} HexValueOfBytes(n: nat, k: nat)
    requires n < Pow256(k)
    ensures HexValue(Hex(BigEndian(n, k))) == n
  {
    if k > 0 {
      var head, x := BigEndian(n / 256, k - 1), (n % 256) as byte;
      HexValueOfBytes(n / 256, k - 1);
      HexLast(head, x);
      HexValueLast(Hex(head), x);
    }
  }

  lemma HexValueLast(s: string, x: byte)
    ensures HexValue(s + [High(x), Low(x)]) == 256 * HexValue(s) + x as int
  {
    assert HexDigitValue(High(x)) == x as int / 16 && HexDigitValue(Low(x)) == x as int % 16;
    var t := s + [High(x), Low(x)];
    assert t[..|t| - 1] == s + [High(x)] && (s + [High(x)])[..|s|] == s;
  }

  /** The timestamp an id carries. */
  function TimeOf(id: string): nat
    requires |id| == 36
  {
    HexValue(id[..8] + id[9..13])
  }

  /** The millisecond an id was made in can be read back from its text. */
  lemma TimeIsRecoverable(random: seq<byte>, now: nat)
    requires |random| == 16 && now < TIME_LIMIT
    ensures TimeOf(Id(random, now)) == now
  {
    SixBytes();
    IdPrefix(random, now);
    HexValueOfBytes(now, 6);
    var t := Hex(BigEndian(now, 6));
    assert t[..8] + t[8..] == t;
  }

  /** The version digit is 7, the variant bits are 10, and every other random bit survives. */
  lemma VersionAndVariant(random: seq<byte>, now: nat)
    requires |random| == 16
    ensures Id(random, now)[14] == '7' && Id(random, now)[19] in "89ab"
    ensures var s := Stamped(random, now);
            && s[6] % 16 == random[6] % 16 && s[7] == random[7] && s[8] / 64 == 2 && s[8] % 64 == random[8] % 64
            && s[9..] == random[9..]
  {
    var s := Stamped(random, now);
    HexAt(s, 6);
    HexAt(s, 8);
    assert Id(random, now)[14] == Hex(s)[12] && Id(random, now)[19] == Hex(s)[16];
    var n := s[8] as int / 16;
    assert 8 <= n <= 11;
    assert High(s[8]) == "89ab"[n - 8];
  }

  /** Where digit `d` of the sixteen bytes stands in the text. */
  function PlaceOf(d: nat): nat
    requires d < 32
  {
    d + (if d >= 8 then 1 else 0) + (if d >= 12 then 1 else 0) + (if d >= 16 then 1 else 0) + (if d >= 20 then 1 else 0)
  }

  lemma DigitInId(hex: string, d: nat)
    requires |hex| == 32 && d < 32
    ensures Dashed(hex)[PlaceOf(d)] == hex[d]
  {
  }

  /** The byte that the text shows at position `k`. */
  function Shown(id: string, k: nat): int
    requires |id| == 36 && k < 16
  {
    16 * HexDigitValue(id[PlaceOf(2 * k)]) + HexDigitValue(id[PlaceOf(2 * k + 1)])
  }

  lemma ShownIsStamped(random: seq<byte>, now: nat, k: nat)
    requires |random| == 16 && k < 16
    ensures Shown(Id(random, now), k) == Stamped(random, now)[k] as int
  {
    var s := Stamped(random, now);
    HexAt(s, k);
    DigitInId(Hex(s), 2 * k);
    DigitInId(Hex(s), 2 * k + 1);
    var x := s[k];
    assert HexDigitValue(High(x)) == x as int / 16 && HexDigitValue(Low(x)) == x as int % 16;
  }

  /**
   * The text has its dashes in the usual places, and every random byte can be read back from it but for the stamped
   * bits.
   */
  lemma RandomIsRecoverable(random: seq<byte>, now: nat)
    requires |random| == 16
    ensures var id := Id(random, now);
            && id[8] == id[13] == id[18] == id[23] == '-'
            && Shown(id, 6) == 0x70 + random[6] as int % 16 && Shown(id, 7) == random[7] as int
            && Shown(id, 8) == 0x80 + random[8] as int % 64
            && forall k: nat | 9 <= k < 16 :: Shown(id, k) == random[k] as int
  {
    forall k: nat | k < 16 ensures Shown(Id(random, now), k) == Stamped(random, now)[k] as int {
      ShownIsStamped(random, now, k);
    }
    var s := Stamped(random, now);
    assert s[9..] == random[9..];
    forall k: nat | 9 <= k < 16 ensures s[k] == random[k] { assert s[k] == s[9..][k - 9]; }
  }
}
