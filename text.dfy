/** The string operations the transaction id is built with: `lowercased()`,
    `replacingOccurrences(of:with:)` with an empty replacement, and
    `padding(toLength:withPad:startingAt:)` with a one-character pad. */
module Text {
  import opened Bytes

  /** ASCII lower-casing, the only letters the id ever holds. */
  function LowerChar(c: char): char {
    if 'A' <= c <= 'Z' then (c as int - 'A' as int + 'a' as int) as char else c
  }

  function Lower(s: string): (t: string)
    ensures |t| == |s| && forall i :: 0 <= i < |s| ==> t[i] == LowerChar(s[i])
  {
    seq(|s|, i requires 0 <= i < |s| => LowerChar(s[i]))
  }

  /** Every occurrence of `c` removed, the rest in order (`RemoveConcat` and
      `RemoveAbsent` carry the order). */
  function Remove(s: string, c: char): (t: string)
    ensures |t| <= |s|
    ensures forall i :: 0 <= i < |t| ==> t[i] != c
  {
    if s == [] then "" else (if s[0] == c then "" else [s[0]]) + Remove(s[1..], c)
  }

  /** Cut to n characters, or filled up to n with the pad character. */
  function PadTo(s: string, n: nat, pad: char): (t: string)
    ensures |t| == n
    ensures forall i :: 0 <= i < n ==> t[i] == if i < |s| then s[i] else pad
  {
    if |s| >= n then s[..n] else s + seq(n - |s|, _ => pad)
  }

  lemma {:induction false} RemoveConcat(s: string, t: string, c: char)
    ensures Remove(s + t, c) == Remove(s, c) + Remove(t, c)
  {
    if s == [] {
      assert s + t == t;
    } else {
      assert (s + t)[1..] == s[1..] + t;
      RemoveConcat(s[1..], t, c);
    }
  }

  /** Removing a character that does not occur changes nothing. */
  lemma {:induction false} RemoveAbsent(s: string, c: char)
    requires forall i :: 0 <= i < |s| ==> s[i] != c
    ensures Remove(s, c) == s
  {
    if s != [] {
      RemoveAbsent(s[1..], c);
      assert [s[0]] + s[1..] == s;
    }
  }

  lemma {:induction false} HexBytesConcat(a: seq<Byte>, b: seq<Byte>, upper: bool)
    ensures HexBytes(a + b, upper) == HexBytes(a, upper) + HexBytes(b, upper)
  {
    if a == [] {
      assert a + b == b;
    } else {
      assert (a + b)[1..] == a[1..] + b;
      HexBytesConcat(a[1..], b, upper);
    }
  }

  /** Hexadecimal text holds no dash. */
  lemma HexBytesNoDash(bs: seq<Byte>, upper: bool)
    ensures forall i :: 0 <= i < |HexBytes(bs, upper)| ==> HexBytes(bs, upper)[i] != '-'
  {
    forall i | 0 <= i < |HexBytes(bs, upper)| ensures HexBytes(bs, upper)[i] != '-' {
      HexBytesAt(bs, upper, i / 2);
    }
  }

  lemma LowerHexDigit(d: nat)
    requires d < 16
    ensures LowerChar(HexDigit(d, true)) == HexDigit(d, false)
  {
  }

  /** Lower-casing upper-case hexadecimal text gives the lower-case text. */
  lemma HexBytesLowered(bs: seq<Byte>)
    ensures Lower(HexBytes(bs, true)) == HexBytes(bs, false)
  {
    var up, low := HexBytes(bs, true), HexBytes(bs, false);
    forall j | 0 <= j < |bs|
      ensures Lower(up)[2 * j] == low[2 * j] && Lower(up)[2 * j + 1] == low[2 * j + 1]
    {
      HexBytesAt(bs, true, j);
      HexBytesAt(bs, false, j);
      LowerHexDigit(bs[j] / 16);
      LowerHexDigit(bs[j] % 16);
    }
    forall i | 0 <= i < |up| ensures Lower(up)[i] == low[i] {
      var j := i / 2;
      assert i == 2 * j || i == 2 * j + 1;
    }
  }
}
