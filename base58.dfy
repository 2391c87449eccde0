/** `base58Encode` (CryptoService.swift): digits in the Bitcoin Base58
    alphabet, one '1' per leading zero byte.

    As written, the bytes are folded into a `UInt64` with `<<`, which drops
    the bits shifted out, so the digit loop sees the input read big-endian
    modulo 2^64: only the last 8 bytes count. `EncodeAsWritten` is that
    encoder; `EncodeFull` is the big-integer encoder Base58 intends, with a
    decoder that undoes it. */
module Base58 {
  import opened Wrappers
  import opened Bytes

  // ---------------------------------------------------------------------------
  // The alphabet: no 0, O, I or l

  /** Digit d of the alphabet, by the runs of consecutive characters. */
  function Digit(d: nat): char
    requires d < 58
  {
    if d < 9 then ('1' as int + d) as char
    else if d < 17 then ('A' as int + d - 9) as char
    else if d < 22 then ('J' as int + d - 17) as char
    else if d < 33 then ('P' as int + d - 22) as char
    else if d < 44 then ('a' as int + d - 33) as char
    else ('m' as int + d - 44) as char
  }

  /** "123456789ABCDEFGHJKLMNPQRSTUVWXYZabcdefghijkmnopqrstuvwxyz", by runs. */
  const Alphabet: string := "123456789" + "ABCDEFGH" + "JKLMN" + "PQRSTUVWXYZ" + "abcdefghijk" + "mnopqrstuvwxyz"

  lemma AlphabetDigits()
    ensures |Alphabet| == 58
    ensures forall d :: 0 <= d < 58 ==> Alphabet[d] == Digit(d)
  {
    var s := seq(58, d requires 0 <= d < 58 => Digit(d));
    assert s[..9] == "123456789";
    assert s[9..17] == "ABCDEFGH";
    assert s[17..22] == "JKLMN";
    assert s[22..33] == "PQRSTUVWXYZ";
    assert s[33..44] == "abcdefghijk";
    assert s[44..] == "mnopqrstuvwxyz";
    assert s == s[..9] + s[9..17] + s[17..22] + s[22..33] + s[33..44] + s[44..];
  }

  lemma AlphabetLength()
    ensures |Alphabet| == 58
  {
  }

  /** The alphabet is strictly increasing, so no character appears twice. */
  lemma AlphabetIncreasing()
    ensures forall i, j :: 0 <= i < j < 58 ==> Alphabet[i] < Alphabet[j]
  {
    AlphabetDigits();
  }

  /** The position of a character in the alphabet. */
  function DigitValue(c: char): (r: Option<nat>)
    ensures r.Some? ==> r.value < 58
  {
    if '1' <= c <= '9' then Some(c as int - '1' as int)
    else if 'A' <= c <= 'H' then Some(c as int - 'A' as int + 9)
    else if 'J' <= c <= 'N' then Some(c as int - 'J' as int + 17)
    else if 'P' <= c <= 'Z' then Some(c as int - 'P' as int + 22)
    else if 'a' <= c <= 'k' then Some(c as int - 'a' as int + 33)
    else if 'm' <= c <= 'z' then Some(c as int - 'm' as int + 44)
    else None
  }

  lemma DigitValueDigit(d: nat)
    requires d < 58
    ensures DigitValue(Digit(d)) == Some(d)
  {
  }

  lemma DigitOfValue(c: char)
    requires DigitValue(c).Some?
    ensures Digit(DigitValue(c).value) == c
  {
  }

  /** DigitValue finds every alphabet character, and only those. */
  lemma DigitValueOf(c: char)
    ensures DigitValue(c).Some? <==> c in Alphabet
    ensures DigitValue(c).Some? ==> Alphabet[DigitValue(c).value] == c
    ensures forall d :: 0 <= d < 58 && Alphabet[d] == c ==> DigitValue(c) == Some(d)
  {
    AlphabetDigits();
    if DigitValue(c).Some? {
      DigitOfValue(c);
    }
    forall d | 0 <= d < 58 && Alphabet[d] == c
      ensures DigitValue(c) == Some(d)
    {
      DigitValueDigit(d);
    }
  }

  // ---------------------------------------------------------------------------
  // The number the digit loop starts from

  const TwoTo64: nat := 0x1_0000_0000_0000_0000

  /** `data.reduce(0) { $0 << 8 | UInt64($1) }`, with `<< 8` on a `UInt64`
      dropping the top byte. */
  function Fold64(data: seq<Byte>): (r: nat)
    ensures r < TwoTo64
  {
    if data == [] then 0
    else
      var f := Fold64(data[..|data| - 1]);
      FoldStep(f, data[|data| - 1]);
      BitOr((f * 256) % TwoTo64, data[|data| - 1])
  }

  const TwoTo56: nat := 0x100_0000_0000_0000

  /** `f << 8` on a `UInt64` keeps the low 56 bits of f, shifted up a byte. */
  lemma ShiftByte(f: nat)
    ensures (f * 256) % TwoTo64 == (f % TwoTo56) * 256
  {
    DivUnique(f * 256, TwoTo64, f / TwoTo56, (f % TwoTo56) * 256);
  }

  /** The low 56 bits of e are those of e modulo 2^64, since 2^56 divides 2^64. */
  lemma LowBits(e: nat)
    ensures (e % TwoTo64) % TwoTo56 == e % TwoTo56
  {
    var f := e % TwoTo64;
    DivUnique(e, TwoTo56, (e / TwoTo64) * 256 + f / TwoTo56, f % TwoTo56);
  }

  /** e * 256 + b modulo 2^64 is (e mod 2^56) * 256 + b. */
  lemma AppendByte(e: nat, b: Byte)
    ensures (e * 256 + b) % TwoTo64 == (e % TwoTo56) * 256 + b
  {
    DivUnique(e * 256 + b, TwoTo64, e / TwoTo56, (e % TwoTo56) * 256 + b);
  }

  /** One step of the fold: shifting up a byte and or-ing the next byte in
      keeps the low 56 bits, shifted, plus the byte. */
  lemma FoldStep(f: nat, b: Byte)
    ensures BitOr((f * 256) % TwoTo64, b) == (f % TwoTo56) * 256 + b
  {
    ShiftByte(f);
    var low := f % TwoTo56;
    assert Pow(2, 8) == 256;
    BitOrDisjoint(low, 8, b);
  }

  /** The fold is the big-endian value of the bytes modulo 2^64. */
  lemma {:induction false} Fold64Value(data: seq<Byte>)
    ensures Fold64(data) == BigEndian(data) % TwoTo64
  {
    if data != [] {
      var p := data[..|data| - 1];
      var b := data[|data| - 1];
      var e := BigEndian(p);
      Fold64Value(p);
      FoldStep(Fold64(p), b);
      LowBits(e);
      AppendByte(e, b);
    }
  }

  lemma Pow256Eight()
    ensures Pow(256, 8) == TwoTo64
  {
  }

  /** Of an input of 8 bytes or more, only the last 8 reach the digit loop. */
  lemma Fold64LastEight(data: seq<Byte>)
    requires |data| >= 8
    ensures Fold64(data) == BigEndian(data[|data| - 8..])
  {
    var p := data[..|data| - 8];
    var q := data[|data| - 8..];
    assert data == p + q;
    BigEndianConcat(p, q);
    BigEndianBound(q);
    Pow256Eight();
    Fold64Value(data);
    DivUnique(BigEndian(data), TwoTo64, BigEndian(p), BigEndian(q));
  }

  /** An input of at most 8 bytes is folded exactly. */
  lemma Fold64Short(data: seq<Byte>)
    requires |data| <= 8
    ensures Fold64(data) == BigEndian(data)
  {
    BigEndianBound(data);
    PowAdd(256, |data|, 8 - |data|);
    Pow256Eight();
    Fold64Value(data);
    DivUnique(BigEndian(data), TwoTo64, 0, BigEndian(data));
  }

  // ---------------------------------------------------------------------------
  // Digits and leading ones

  /** The base-58 digits of n, most significant first, none for 0. */
  function Digits58(n: nat): (s: string)
    ensures |s| == 0 <==> n == 0
  {
    AlphabetLength();
    if n == 0 then "" else Digits58(n / 58) + [Alphabet[n % 58]]
  }

  /** The value of a string of alphabet characters read in base 58, None if a
      character is outside the alphabet. */
  function Value58(s: string): Option<nat> {
    if s == [] then Some(0)
    else match (Value58(s[..|s| - 1]), DigitValue(s[|s| - 1]))
      case (Some(v), Some(d)) => Some(v * 58 + d)
      case _ => None
  }

  /** Reading one more character: the value so far times 58 plus its digit. */
  lemma Value58Snoc(s: string, c: char)
    ensures Value58(s + [c]) == match (Value58(s), DigitValue(c))
      case (Some(v), Some(d)) => Some(v * 58 + d)
      case _ => None
  {
    assert (s + [c])[..|s + [c]| - 1] == s;
  }

  lemma AlphabetValue(d: nat)
    requires d < 58
    ensures DigitValue(Alphabet[d]) == Some(d)
  {
    AlphabetDigits();
    DigitValueDigit(d);
  }

  lemma {:induction false} Value58Digits(n: nat)
    ensures Value58(Digits58(n)) == Some(n)
  {
    if n > 0 {
      var d := n % 58;
      var c := Alphabet[d];
      Value58Digits(n / 58);
      assert Digits58(n) == Digits58(n / 58) + [c];
      Value58Snoc(Digits58(n / 58), c);
      AlphabetValue(d);
      assert n == (n / 58) * 58 + d;
    }
  }

  /** Every digit is an alphabet character. */
  lemma {:induction false} DigitsInAlphabet(n: nat)
    ensures forall i :: 0 <= i < |Digits58(n)| ==> Digits58(n)[i] in Alphabet
  {
    if n > 0 {
      AlphabetLength();
      DigitsInAlphabet(n / 58);
    }
  }

  /** The most significant digit of a positive number is not zero, so the
      digits never start with '1'. */
  lemma {:induction false} DigitsNoLeadingOne(n: nat)
    requires n > 0
    ensures Digits58(n)[0] != '1'
  {
    AlphabetDigits();
    if n / 58 > 0 {
      DigitsNoLeadingOne(n / 58);
    } else {
      assert Digits58(n) == [Alphabet[n % 58]];
    }
  }

  /** Below 58^k there are at most k digits. */
  lemma {:induction false} DigitsLength(n: nat, k: nat)
    requires n < Pow(58, k)
    ensures |Digits58(n)| <= k
  {
    if n > 0 {
      assert k > 0;
      DivUnique(Pow(58, k), 58, Pow(58, k - 1), 0);
      DigitsLength(n / 58, k - 1);
    }
  }

  /** A 64-bit value has at most 11 digits. */
  lemma DigitsLength64(n: nat)
    requires n < TwoTo64
    ensures |Digits58(n)| <= 11
  {
    assert Pow(58, 11) == 24986644000165537792;
    DigitsLength(n, 11);
  }

  function Ones(k: nat): (s: string)
    ensures |s| == k && forall i :: 0 <= i < k ==> s[i] == '1'
  {
    seq(k, _ => '1')
  }

  function Zeros(k: nat): (s: seq<Byte>)
    ensures |s| == k && forall i :: 0 <= i < k ==> s[i] == 0
  {
    seq(k, _ => 0)
  }

  /** The number of zero bytes before the first nonzero one. */
  function LeadingZeroCount(data: seq<Byte>): (k: nat)
    ensures k <= |data|
  {
    if data == [] || data[0] != 0 then 0 else 1 + LeadingZeroCount(data[1..])
  }

  /** The number of '1's before the first other character. */
  function LeadingOnes(s: string): (k: nat)
    ensures k <= |s|
  {
    if s == [] || s[0] != '1' then 0 else 1 + LeadingOnes(s[1..])
  }

  lemma {:induction false} LeadingZeroSplit(data: seq<Byte>)
    ensures data == Zeros(LeadingZeroCount(data)) + data[LeadingZeroCount(data)..]
    ensures LeadingZeroCount(data) < |data| ==> data[LeadingZeroCount(data)] != 0
  {
    var k := LeadingZeroCount(data);
    if data != [] && data[0] == 0 {
      var rest := data[1..];
      LeadingZeroSplit(rest);
      assert k == 1 + LeadingZeroCount(rest);
      assert data[k..] == rest[k - 1..];
      assert Zeros(k) == [0] + Zeros(k - 1);
      assert data == [data[0]] + rest;
    } else {
      assert Zeros(k) + data[k..] == data;
    }
  }

  lemma {:induction false} LeadingOnesOf(k: nat, t: string)
    requires t == [] || t[0] != '1'
    ensures LeadingOnes(Ones(k) + t) == k
  {
    if k > 0 {
      assert (Ones(k) + t)[1..] == Ones(k - 1) + t;
      LeadingOnesOf(k - 1, t);
    } else {
      assert Ones(k) + t == t;
    }
  }

  // ---------------------------------------------------------------------------
  // The encoder as written

  /** What `base58Encode` returns: a '1' for each leading zero byte, then the
      digits of the 64-bit fold. */
  function EncodeAsWritten(data: seq<Byte>): string {
    Ones(LeadingZeroCount(data)) + Digits58(Fold64(data))
  }

  /** Prepending the character of the last digit keeps the digit loop's
      invariant. */
  lemma DigitStep(num: nat, encoded: string, target: string)
    requires num > 0 && Digits58(num) + encoded == target
    ensures Digits58(num / 58) + ([Alphabet[num % 58]] + encoded) == target
  {
    AlphabetLength();
    assert Digits58(num) == Digits58(num / 58) + [Alphabet[num % 58]];
  }

  /** The digit loop of `base58Encode`: while num is positive, the character
      of `num % 58` is prepended and num divided by 58. */
  method DigitLoop(n: nat) returns (encoded: string)
    ensures encoded == Digits58(n)
  {
    AlphabetLength();
    var num := n;
    encoded := "";
    while num > 0
      invariant Digits58(num) + encoded == Digits58(n)
      decreases num
    {
      var remainder := num % 58;
      DigitStep(num, encoded, Digits58(n));
      num := num / 58;
      encoded := [Alphabet[remainder]] + encoded;
    }
  }

  /** One more leading zero byte: one more '1'. */
  lemma OneStep(data: seq<Byte>, i: nat, digits: string)
    requires i < |data| && data[i] == 0
    requires LeadingZeroCount(data) == i + LeadingZeroCount(data[i..])
    ensures LeadingZeroCount(data) == i + 1 + LeadingZeroCount(data[i + 1..])
    ensures "1" + (Ones(i) + digits) == Ones(i + 1) + digits
  {
    assert data[i..][1..] == data[i + 1..];
    assert "1" + Ones(i) == Ones(i + 1);
  }

  /** The leading-zero loop of `base58Encode`: a '1' prepended per zero
      byte until the first nonzero one. */
  method PrependOnes(data: seq<Byte>, digits: string) returns (encoded: string)
    ensures encoded == Ones(LeadingZeroCount(data)) + digits
  {
    encoded := digits;
    var i := 0;
    while i < |data|
      invariant i <= |data|
      invariant LeadingZeroCount(data) == i + LeadingZeroCount(data[i..])
      invariant encoded == Ones(i) + digits
    {
      if data[i] == 0 {
        OneStep(data, i, digits);
        encoded := "1" + encoded;
        i := i + 1;
      } else {
        break;
      }
    }
  }

  /** `base58Encode`: the digit loop over the 64-bit fold, then the leading
      '1's. */
  method Base58Encode(data: seq<Byte>) returns (encoded: string)
    ensures encoded == EncodeAsWritten(data)
  {
    var digits := DigitLoop(Fold64(data));
    encoded := PrependOnes(data, digits);
  }

  lemma OneInAlphabet()
    ensures '1' in Alphabet
  {
    assert Alphabet[0] == '1';
  }

  /** The output uses only the 58-character alphabet. */
  lemma EncodeAsWrittenAlphabet(data: seq<Byte>)
    ensures forall i :: 0 <= i < |EncodeAsWritten(data)| ==> EncodeAsWritten(data)[i] in Alphabet
  {
    var digits := Digits58(Fold64(data));
    var k := LeadingZeroCount(data);
    DigitsInAlphabet(Fold64(data));
    OneInAlphabet();
    var s := Ones(k) + digits;
    forall i | 0 <= i < |s| ensures s[i] in Alphabet {
      if i >= k {
        assert s[i] == digits[i - k];
      } else {
        assert s[i] == '1';
      }
    }
  }

  /** The count of leading '1's is the count of leading zero bytes. */
  lemma EncodeAsWrittenLeadingOnes(data: seq<Byte>)
    ensures LeadingOnes(EncodeAsWritten(data)) == LeadingZeroCount(data)
  {
    if Fold64(data) > 0 {
      DigitsNoLeadingOne(Fold64(data));
    }
    LeadingOnesOf(LeadingZeroCount(data), Digits58(Fold64(data)));
  }

  /** The digit part is empty exactly when the last 8 bytes are all zero, and
      holds at most 11 digits. */
  lemma EncodeAsWrittenDigits(data: seq<Byte>)
    ensures EncodeAsWritten(data)[LeadingZeroCount(data)..] == Digits58(Fold64(data))
    ensures |EncodeAsWritten(data)| <= LeadingZeroCount(data) + 11
    ensures |EncodeAsWritten(data)| == LeadingZeroCount(data) <==> Fold64(data) == 0
  {
    Fold64Value(data);
    DigitsLength64(Fold64(data));
  }

  /** Inputs with as many leading zero bytes and the same last 8 bytes encode
      alike, whatever comes before those 8 bytes. */
  lemma EncodeAsWrittenLastEight(d1: seq<Byte>, d2: seq<Byte>)
    requires |d1| >= 8 && |d2| >= 8
    requires LeadingZeroCount(d1) == LeadingZeroCount(d2)
    requires d1[|d1| - 8..] == d2[|d2| - 8..]
    ensures EncodeAsWritten(d1) == EncodeAsWritten(d2)
  {
    Fold64LastEight(d1);
    Fold64LastEight(d2);
  }

  /** Two different 9-byte inputs, neither with a leading zero, that both
      encode to the empty string. */
  lemma EncodeAsWrittenCollides()
    ensures EncodeAsWritten([1, 0, 0, 0, 0, 0, 0, 0, 0]) == ""
    ensures EncodeAsWritten([2, 0, 0, 0, 0, 0, 0, 0, 0]) == ""
  {
    var d1: seq<Byte> := [1, 0, 0, 0, 0, 0, 0, 0, 0];
    var d2: seq<Byte> := [2, 0, 0, 0, 0, 0, 0, 0, 0];
    Fold64LastEight(d1);
    Fold64LastEight(d2);
    assert d1[1..] == Zeros(8) && d2[1..] == Zeros(8);
    assert BigEndian(Zeros(8)) == 0 by { BigEndianZeros(8); }
  }

  lemma {:induction false} BigEndianZeros(k: nat)
    ensures BigEndian(Zeros(k)) == 0
  {
    if k > 0 {
      assert Zeros(k)[..k - 1] == Zeros(k - 1);
      BigEndianZeros(k - 1);
    }
  }

  // ---------------------------------------------------------------------------
  // The encoder Base58 intends, and its decoder

  /** Every byte taken into account: a '1' per leading zero byte, then the
      digits of the whole big-endian value. */
  function EncodeFull(data: seq<Byte>): string {
    Ones(LeadingZeroCount(data)) + Digits58(BigEndian(data))
  }

  /** The shortest big-endian bytes of n, none for 0. */
  function ToBytes(n: nat): seq<Byte> {
    if n == 0 then [] else ToBytes(n / 256) + [n % 256]
  }

  /** Leading '1's become zero bytes, the rest is read in base 58. */
  function Decode(s: string): Option<seq<Byte>> {
    var k := LeadingOnes(s);
    match Value58(s[k..])
    case None => None
    case Some(v) => Some(Zeros(k) + ToBytes(v))
  }

  lemma {:induction false} BigEndianPositive(bs: seq<Byte>)
    requires bs != [] && bs[0] != 0
    ensures BigEndian(bs) > 0
  {
    if |bs| > 1 {
      BigEndianPositive(bs[..|bs| - 1]);
    }
  }

  /** Bytes without a leading zero are the shortest form of their value. */
  lemma {:induction false} ToBytesBigEndian(bs: seq<Byte>)
    requires bs == [] || bs[0] != 0
    ensures ToBytes(BigEndian(bs)) == bs
  {
    if bs != [] {
      var init := bs[..|bs| - 1];
      var last := bs[|bs| - 1];
      BigEndianPositive(bs);
      if init != [] {
        ToBytesBigEndian(init);
      }
      DivUnique(BigEndian(bs), 256, BigEndian(init), last);
      assert init + [last] == bs;
    }
  }

  /** Leading zero bytes do not change the value. */
  lemma ZerosPrefixValue(k: nat, bs: seq<Byte>)
    ensures BigEndian(Zeros(k) + bs) == BigEndian(bs)
  {
    BigEndianConcat(Zeros(k), bs);
    BigEndianZeros(k);
  }

  /** Decoding undoes the full encoder, so it loses nothing. */
  lemma DecodeEncodeFull(data: seq<Byte>)
    ensures Decode(EncodeFull(data)) == Some(data)
  {
    var k := LeadingZeroCount(data);
    var rest := data[k..];
    var n := BigEndian(data);
    LeadingZeroSplit(data);
    ZerosPrefixValue(k, rest);
    if n > 0 {
      DigitsNoLeadingOne(n);
    }
    LeadingOnesOf(k, Digits58(n));
    var s := EncodeFull(data);
    assert s[k..] == Digits58(n);
    Value58Digits(n);
    ToBytesBigEndian(rest);
  }

  /** Different inputs have different full encodings. */
  lemma EncodeFullInjective(d1: seq<Byte>, d2: seq<Byte>)
    requires EncodeFull(d1) == EncodeFull(d2)
    ensures d1 == d2
  {
    DecodeEncodeFull(d1);
    DecodeEncodeFull(d2);
  }

  /** Up to 8 bytes the two encoders agree. */
  lemma EncodersAgreeShort(data: seq<Byte>)
    requires |data| <= 8
    ensures EncodeAsWritten(data) == EncodeFull(data)
  {
    Fold64Short(data);
  }

  /** The fold as intended, on an unbounded integer: `num * 256 + byte` for
      each byte. */
  method FoldFull(data: seq<Byte>) returns (num: nat)
    ensures num == BigEndian(data)
  {
    num := 0;
    var i := 0;
    while i < |data|
      invariant i <= |data|
      invariant num == BigEndian(data[..i])
    {
      assert data[..i + 1][..i] == data[..i];
      num := num * 256 + data[i];
      i := i + 1;
    }
    assert data[..i] == data;
  }

  /** The corrected `base58Encode`: the same two loops over the whole
      value. */
  method Base58EncodeFull(data: seq<Byte>) returns (encoded: string)
    ensures encoded == EncodeFull(data)
  {
    var num := FoldFull(data);
    var digits := DigitLoop(num);
    encoded := PrependOnes(data, digits);
  }
}
