/** Bytes, powers, hexadecimal text and big-endian values. */
module Bytes {
  import opened Wrappers

  type Byte = b: int | 0 <= b < 256

  /** A UUID as its 16 raw bytes (what `UUID()` draws at random). */
  type Uuid = u: seq<Byte> | |u| == 16 witness seq(16, _ => 0)

  function Pow(base: nat, n: nat): (r: nat)
    ensures base >= 1 ==> r >= 1
  {
    if n == 0 then 1 else base * Pow(base, n - 1)
  }

  lemma MulAssoc(x: int, y: int, z: int)
    ensures x * (y * z) == (x * y) * z
  {
  }

  lemma {:induction false} PowAdd(base: nat, m: nat, n: nat)
    ensures Pow(base, m + n) == Pow(base, m) * Pow(base, n)
  {
    if m == 0 {
      assert Pow(base, m) == 1;
    } else {
      PowAdd(base, m - 1, n);
      var a := Pow(base, m - 1);
      var c := Pow(base, n);
      assert Pow(base, m - 1 + n) == a * c;
      assert Pow(base, m + n) == base * (a * c);
      assert Pow(base, m) == base * a;
      MulAssoc(base, a, c);
    }
  }

  lemma MulSign(x: int, d: int)
    requires d > 0
    ensures x >= 1 ==> x * d >= d
    ensures x <= -1 ==> x * d <= -d
  {
  }

  /** Euclidean division is determined by its quotient-remainder equation. */
  lemma DivUnique(b: int, d: int, a: int, r: int)
    requires d > 0 && 0 <= r < d && b == a * d + r
    ensures b / d == a && b % d == r
  {
    var q := b / d;
    var s := b % d;
    assert (a - q) * d == s - r;
    MulSign(a - q, d);
  }

  /** Halving the quotient is dividing by twice the divisor. */
  lemma DivHalf(b: nat, p: nat)
    requires p > 0
    ensures b / (2 * p) == (b / p) / 2
  {
    var q := b / p;
    var r := b % p;
    assert b == q * p + r;
    assert q == 2 * (q / 2) + q % 2;
    assert b == (q / 2) * (2 * p) + ((q % 2) * p + r);
    DivUnique(b, 2 * p, q / 2, (q % 2) * p + r);
  }

  /** Bitwise or of two naturals, bit by bit from the least significant. */
  function BitOr(a: nat, b: nat): nat
    decreases a + b
  {
    if a == 0 then b
    else if b == 0 then a
    else 2 * BitOr(a / 2, b / 2) + (if a % 2 == 1 || b % 2 == 1 then 1 else 0)
  }

  /** Or-ing a value into low bits that are clear is addition. */
  lemma {:induction false} BitOrDisjoint(k: nat, m: nat, b: nat)
    requires b < Pow(2, m)
    ensures BitOr(k * Pow(2, m), b) == k * Pow(2, m) + b
  {
    if m > 0 && k * Pow(2, m) != 0 && b != 0 {
      assert k * Pow(2, m) == 2 * (k * Pow(2, m - 1));
      BitOrDisjoint(k, m - 1, b / 2);
    }
  }

  // ---------------------------------------------------------------------------
  // Hexadecimal text

  /** The hexadecimal digit of `d`, lower- or upper-case. */
  function HexDigit(d: nat, upper: bool): (c: char)
    requires d < 16
  {
    if d < 10 then ('0' as int + d) as char
    else ((if upper then 'A' else 'a') as int + d - 10) as char
  }

  /** The value of a hexadecimal digit of either case, if `c` is one. */
  function HexValue(c: char): (r: Option<nat>)
    ensures r.Some? ==> r.value < 16
  {
    if '0' <= c <= '9' then Some(c as int - '0' as int)
    else if 'a' <= c <= 'f' then Some(c as int - 'a' as int + 10)
    else if 'A' <= c <= 'F' then Some(c as int - 'A' as int + 10)
    else None
  }

  lemma HexValueOfDigit(d: nat, upper: bool)
    requires d < 16
    ensures HexValue(HexDigit(d, upper)) == Some(d)
  {
  }

  /** Two digits per byte, most significant nibble first. */
  function HexBytes(bs: seq<Byte>, upper: bool): (s: string)
    ensures |s| == 2 * |bs|
  {
    if bs == [] then ""
    else [HexDigit(bs[0] / 16, upper), HexDigit(bs[0] % 16, upper)] + HexBytes(bs[1..], upper)
  }

  /** Reads pairs of hexadecimal digits back into bytes. */
  function HexDecode(s: string): Option<seq<Byte>>
    decreases |s|
  {
    if s == [] then Some([])
    else if |s| == 1 then None
    else
      match (HexValue(s[0]), HexValue(s[1]), HexDecode(s[2..]))
      case (Some(hi), Some(lo), Some(rest)) => Some([hi * 16 + lo] + rest)
      case _ => None
  }

  lemma {:induction false} HexBytesAt(bs: seq<Byte>, upper: bool, i: nat)
    requires i < |bs|
    ensures HexBytes(bs, upper)[2 * i] == HexDigit(bs[i] / 16, upper)
    ensures HexBytes(bs, upper)[2 * i + 1] == HexDigit(bs[i] % 16, upper)
  {
    if i > 0 {
      HexBytesAt(bs[1..], upper, i - 1);
    }
  }

  /** Hexadecimal text decodes back to the bytes it was made from. */
  lemma {:induction false} HexRoundTrip(bs: seq<Byte>, upper: bool)
    ensures HexDecode(HexBytes(bs, upper)) == Some(bs)
  {
    if bs != [] {
      var s := HexBytes(bs, upper);
      HexRoundTrip(bs[1..], upper);
      HexValueOfDigit(bs[0] / 16, upper);
      HexValueOfDigit(bs[0] % 16, upper);
      assert s[2..] == HexBytes(bs[1..], upper);
      assert [bs[0]] + bs[1..] == bs;
    }
  }

  predicate IsLowerHexDigit(c: char) {
    '0' <= c <= '9' || 'a' <= c <= 'f'
  }

  /** Every character of lower-case hexadecimal text is one of 0-9a-f. */
  lemma {:induction false} HexBytesLower(bs: seq<Byte>)
    ensures forall k :: 0 <= k < |HexBytes(bs, false)| ==> IsLowerHexDigit(HexBytes(bs, false)[k])
  {
    if bs != [] {
      HexBytesLower(bs[1..]);
      var s := HexBytes(bs, false);
      assert s == [HexDigit(bs[0] / 16, false), HexDigit(bs[0] % 16, false)] + HexBytes(bs[1..], false);
    }
  }

  // ---------------------------------------------------------------------------
  // Big-endian values

  /** The unsigned integer the bytes spell, most significant byte first. */
  function BigEndian(bs: seq<Byte>): nat
  {
    if bs == [] then 0 else BigEndian(bs[..|bs| - 1]) * 256 + bs[|bs| - 1]
  }

  /** A byte string of length n spells a value below 256^n. */
  lemma {:induction false} BigEndianBound(bs: seq<Byte>)
    ensures BigEndian(bs) < Pow(256, |bs|)
  {
    if bs != [] {
      BigEndianBound(bs[..|bs| - 1]);
      var p := Pow(256, |bs| - 1);
      assert BigEndian(bs[..|bs| - 1]) <= p - 1;
      assert BigEndian(bs) <= (p - 1) * 256 + 255;
    }
  }

  lemma ShiftDistributes(a: int, w: int, b: int, x: int)
    ensures (a * w + b) * 256 + x == a * (256 * w) + (b * 256 + x)
  {
  }

  /** Splitting a byte string: the front is shifted left by the back's length. */
  lemma {:induction false} BigEndianConcat(p: seq<Byte>, q: seq<Byte>)
    ensures BigEndian(p + q) == BigEndian(p) * Pow(256, |q|) + BigEndian(q)
    decreases |q|
  {
    if q == [] {
      assert p + q == p;
    } else {
      var q' := q[..|q| - 1];
      assert (p + q)[..|p + q| - 1] == p + q';
      BigEndianConcat(p, q');
      var a, w, b, x := BigEndian(p), Pow(256, |q'|), BigEndian(q'), q[|q| - 1];
      assert BigEndian(p + q) == (a * w + b) * 256 + x;
      assert Pow(256, |q|) == 256 * w;
      ShiftDistributes(a, w, b, x);
      assert BigEndian(q) == b * 256 + x;
    }
  }
}
