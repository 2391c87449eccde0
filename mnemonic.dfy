/** Mnemonic phrases (CryptoService.swift, "Mnemonic Generation (BIP39)"):
    the word-count check, the packing of entropy and checksum bits into 11-bit
    word indices, following the section "Generating the mnemonic" of BIP-39,
    and the generator that draws the entropy. */
module Mnemonic {
  import opened Wrappers
  import opened Bytes
  import opened Errors
  import opened Primitives

  // ---------------------------------------------------------------------------
  // Phrase text: `components(separatedBy: " ")` and `joined(separator: " ")`

  /** The pieces between single spaces; doubled, leading or trailing spaces
      give empty pieces and the empty string is one empty piece. */
  function Split(s: string): (pieces: seq<string>)
    ensures |pieces| >= 1
  {
    if s == [] then [""]
    else
      var rest := Split(s[1..]);
      if s[0] == ' ' then [""] + rest else [[s[0]] + rest[0]] + rest[1..]
  }

  function CountSpaces(s: string): nat {
    if s == [] then 0 else (if s[0] == ' ' then 1 else 0) + CountSpaces(s[1..])
  }

  /** Splitting yields one piece more than there are spaces. */
  lemma {:induction false} SplitCount(s: string)
    ensures |Split(s)| == CountSpaces(s) + 1
  {
    if s != [] {
      SplitCount(s[1..]);
    }
  }

  /** `validateMnemonic`: accepts exactly the phrases with 11 or 23 single
      spaces; neither the words nor the checksum are looked at. */
  function ValidateMnemonic(mnemonic: string): (ok: bool)
    ensures ok <==> CountSpaces(mnemonic) == 11 || CountSpaces(mnemonic) == 23
  {
    SplitCount(mnemonic);
    var words := Split(mnemonic);
    |words| == 12 || |words| == 24
  }

  function Join(words: seq<string>): string {
    if |words| == 0 then ""
    else if |words| == 1 then words[0]
    else words[0] + " " + Join(words[1..])
  }

  predicate NoSpace(w: string) {
    forall k :: 0 <= k < |w| ==> w[k] != ' '
  }

  lemma {:induction false} SplitWord(w: string)
    requires NoSpace(w)
    ensures Split(w) == [w]
  {
    if w != [] {
      SplitWord(w[1..]);
      assert [w[0]] + w[1..] == w;
    }
  }

  lemma {:induction false} SplitWordThenSpace(w: string, t: string)
    requires NoSpace(w)
    ensures Split(w + " " + t) == [w] + Split(t)
  {
    if w == [] {
      assert w + " " + t == [' '] + t;
    } else {
      SplitWordThenSpace(w[1..], t);
      assert (w + " " + t)[1..] == w[1..] + " " + t;
      assert [w[0]] + w[1..] == w;
    }
  }

  /** Splitting a joined phrase gives its words back, as long as no word holds
      a space. */
  lemma {:induction false} SplitJoin(words: seq<string>)
    requires |words| >= 1
    requires forall i :: 0 <= i < |words| ==> NoSpace(words[i])
    ensures Split(Join(words)) == words
  {
    if |words| == 1 {
      SplitWord(words[0]);
    } else {
      SplitJoin(words[1..]);
      SplitWordThenSpace(words[0], Join(words[1..]));
      assert [words[0]] + words[1..] == words;
    }
  }

  // ---------------------------------------------------------------------------
  // Bits

  /** `(0..<8).reversed().map { (byte >> $0) & 1 == 1 }`: most significant bit
      first. */
  function ByteBits(b: Byte): (bits: seq<bool>)
    ensures |bits| == 8
  {
    seq(8, i requires 0 <= i < 8 => (b / Pow(2, 7 - i)) % 2 == 1)
  }

  /** `flatMap` of ByteBits over the bytes. */
  function BytesBits(bs: seq<Byte>): (bits: seq<bool>)
    ensures |bits| == 8 * |bs|
  {
    if bs == [] then [] else ByteBits(bs[0]) + BytesBits(bs[1..])
  }

  /** The unsigned value of a bit string read most significant bit first. */
  function BitsValue(bits: seq<bool>): nat {
    if bits == [] then 0
    else 2 * BitsValue(bits[..|bits| - 1]) + (if bits[|bits| - 1] then 1 else 0)
  }

  lemma {:induction false} BitsValueBound(bits: seq<bool>)
    ensures BitsValue(bits) < Pow(2, |bits|)
  {
    if bits != [] {
      BitsValueBound(bits[..|bits| - 1]);
    }
  }

  /** Taking in bit i of a byte doubles the value read so far and adds the
      bit. */
  lemma ByteBitStep(b: Byte, i: nat)
    requires i < 8
    ensures b / Pow(2, 7 - i) == 2 * (b / Pow(2, 8 - i)) + (if ByteBits(b)[i] then 1 else 0)
  {
    var p := Pow(2, 7 - i);
    assert Pow(2, 8 - i) == 2 * p;
    DivHalf(b, p);
    var q := b / p;
    assert q == 2 * (q / 2) + q % 2;
  }

  /** The first i bits of a byte read as the byte's top i bits. */
  lemma {:induction false} ByteBitsPrefix(b: Byte, i: nat)
    requires i <= 8
    ensures BitsValue(ByteBits(b)[..i]) == b / Pow(2, 8 - i)
  {
    if i == 0 {
      ByteBitsNone(b);
    } else {
      ByteBitsPrefix(b, i - 1);
      ByteBitsPrefixStep(b, i);
    }
  }

  lemma ByteBitsNone(b: Byte)
    ensures BitsValue(ByteBits(b)[..0]) == b / Pow(2, 8)
  {
    assert Pow(2, 8) == 256;
    assert ByteBits(b)[..0] == [];
  }

  lemma ByteBitsPrefixStep(b: Byte, i: nat)
    requires 0 < i <= 8
    requires BitsValue(ByteBits(b)[..i - 1]) == b / Pow(2, 9 - i)
    ensures BitsValue(ByteBits(b)[..i]) == b / Pow(2, 8 - i)
  {
    var bits := ByteBits(b);
    var bit := if bits[i - 1] then 1 else 0;
    assert bits[..i][..i - 1] == bits[..i - 1];
    assert bits[..i][i - 1] == bits[i - 1];
    assert BitsValue(bits[..i]) == 2 * BitsValue(bits[..i - 1]) + bit;
    ByteBitStep(b, i - 1);
  }

  /** The bits of a byte spell the byte back. */
  lemma ByteBitsValue(b: Byte)
    ensures BitsValue(ByteBits(b)) == b
  {
    ByteBitsPrefix(b, 8);
    assert ByteBits(b)[..8] == ByteBits(b);
  }

  /** Bit 8i+k of the packed string is bit k of byte i. */
  lemma {:induction false} BytesBitsAt(bs: seq<Byte>, i: nat, k: nat)
    requires i < |bs| && k < 8
    ensures BytesBits(bs)[8 * i + k] == ByteBits(bs[i])[k]
  {
    if i > 0 {
      BytesBitsAt(bs[1..], i - 1, k);
    }
  }

  /** `Sequence.prefix(k)`: at most the first k elements. */
  function Prefix<T>(s: seq<T>, k: nat): (p: seq<T>)
    ensures |p| == if k < |s| then k else |s|
    ensures forall i :: 0 <= i < |p| ==> p[i] == s[i]
  {
    if k < |s| then s[..k] else s
  }

  /** `entropy.count / 4` leading bits of SHA-256 of the entropy. */
  function ChecksumBits(entropy: seq<Byte>, sha: Sha256): (c: seq<bool>)
    ensures |c| == if |entropy| / 4 < 256 then |entropy| / 4 else 256
    ensures forall j :: 0 <= j < |c| ==> c[j] == BytesBits(sha(entropy))[j]
  {
    Prefix(BytesBits(sha(entropy)), |entropy| / 4)
  }

  /** What `bits` holds before the word loop: the entropy, then the checksum. */
  function EntropyBits(entropy: seq<Byte>, sha: Sha256): seq<bool> {
    BytesBits(entropy) + ChecksumBits(entropy, sha)
  }

  /** The packed bits are the entropy's bits, most significant bit of each byte
      first, followed by the first |entropy|/4 bits of the hash (all 256 of them
      when the entropy is longer than 1024 bytes). */
  lemma EntropyBitsLayout(entropy: seq<Byte>, sha: Sha256)
    ensures |EntropyBits(entropy, sha)| == 8 * |entropy| + (if |entropy| / 4 < 256 then |entropy| / 4 else 256)
    ensures forall i, k :: 0 <= i < |entropy| && 0 <= k < 8 ==>
      EntropyBits(entropy, sha)[8 * i + k] == ByteBits(entropy[i])[k]
    ensures forall j :: 0 <= j < |ChecksumBits(entropy, sha)| ==>
      EntropyBits(entropy, sha)[8 * |entropy| + j] == BytesBits(sha(entropy))[j]
  {
    forall i, k | 0 <= i < |entropy| && 0 <= k < 8
      ensures EntropyBits(entropy, sha)[8 * i + k] == ByteBits(entropy[i])[k]
    {
      BytesBitsAt(entropy, i, k);
    }
  }

  // ---------------------------------------------------------------------------
  // Words

  const ChunkSize := 11

  function Min(a: int, b: int): int {
    if a < b then a else b
  }

  /** `bits[i..<min(i + 11, bits.count)]` */
  function ChunkAt(bits: seq<bool>, i: nat): seq<bool>
    requires i < |bits|
  {
    bits[i..Min(i + ChunkSize, |bits|)]
  }

  /** The words the stride loop appends from offset i on: one per chunk, the
      chunk's value indexing the list, skipped if it is out of range. */
  function WordsFrom(bits: seq<bool>, i: nat, wordList: WordList): (r: seq<string>)
    ensures forall k :: 0 <= k < |r| ==> r[k] in wordList
    ensures i < |bits| ==> |r| <= (|bits| - i - 1) / ChunkSize + 1
    ensures i >= |bits| ==> r == []
    decreases |bits| - i
  {
    if i >= |bits| then []
    else
      var index := BitsValue(ChunkAt(bits, i));
      (if index < |wordList| then [wordList[index]] else []) + WordsFrom(bits, i + ChunkSize, wordList)
  }

  /** The phrase `entropyToMnemonic` returns. */
  function MnemonicOf(entropy: seq<Byte>, sha: Sha256, wordList: WordList): string {
    Join(WordsFrom(EntropyBits(entropy, sha), 0, wordList))
  }

  /** The value of the q-th full 11-bit chunk. */
  function WordIndexAt(bits: seq<bool>, q: nat): nat
    requires ChunkSize * q + ChunkSize <= |bits|
  {
    BitsValue(bits[ChunkSize * q..ChunkSize * q + ChunkSize])
  }

  /** When the bits fill whole chunks, every chunk is a full 11 bits, its value
      is below 2048, so no chunk is skipped and word k is the list entry the
      k-th chunk names. */
  lemma {:induction false} WordsFromFull(bits: seq<bool>, t: nat, wordList: WordList)
    requires |bits| % ChunkSize == 0 && ChunkSize * t <= |bits|
    ensures |WordsFrom(bits, ChunkSize * t, wordList)| == |bits| / ChunkSize - t
    ensures forall q :: t <= q < |bits| / ChunkSize ==>
      WordIndexAt(bits, q) < 2048 &&
      WordsFrom(bits, ChunkSize * t, wordList)[q - t] == wordList[WordIndexAt(bits, q)]
    decreases |bits| - ChunkSize * t
  {
    if ChunkSize * t < |bits| {
      var i := ChunkSize * t;
      assert Min(i + ChunkSize, |bits|) == i + ChunkSize;
      var chunk := ChunkAt(bits, i);
      BitsValueBound(chunk);
      assert Pow(2, 11) == 2048;
      assert i + ChunkSize == ChunkSize * (t + 1);
      WordsFromFull(bits, t + 1, wordList);
      var rest := WordsFrom(bits, ChunkSize * (t + 1), wordList);
      assert bits[ChunkSize * t..ChunkSize * t + ChunkSize] == chunk;
      assert WordsFrom(bits, i, wordList) == [wordList[WordIndexAt(bits, t)]] + rest;
    }
  }

  /** For 16 or 32 bytes of entropy the packed bits are 132 or 264 long, split
      into exactly 12 or 24 full 11-bit chunks, and the phrase is those chunks'
      words joined by single spaces. */
  lemma MnemonicShape(entropy: seq<Byte>, sha: Sha256, wordList: WordList)
    requires |entropy| == 16 || |entropy| == 32
    ensures var bits := EntropyBits(entropy, sha);
      var words := WordsFrom(bits, 0, wordList);
      && |bits| == (if |entropy| == 16 then 132 else 264)
      && |words| == (if |entropy| == 16 then 12 else 24)
      && (forall k :: 0 <= k < |words| ==> WordIndexAt(bits, k) < 2048 && words[k] == wordList[WordIndexAt(bits, k)])
      && MnemonicOf(entropy, sha, wordList) == Join(words)
  {
    var bits := EntropyBits(entropy, sha);
    EntropyBitsLayout(entropy, sha);
    assert ChunkSize * 0 == 0;
    WordsFromFull(bits, 0, wordList);
  }

  /** With a list whose words hold no space, a phrase from 16 or 32 bytes of
      entropy passes `validateMnemonic`, with 12 or 24 words. */
  lemma MnemonicValidates(entropy: seq<Byte>, sha: Sha256, wordList: WordList)
    requires |entropy| == 16 || |entropy| == 32
    requires forall i :: 0 <= i < |wordList| ==> NoSpace(wordList[i])
    ensures |Split(MnemonicOf(entropy, sha, wordList))| == |entropy| * 3 / 4
    ensures ValidateMnemonic(MnemonicOf(entropy, sha, wordList))
  {
    MnemonicShape(entropy, sha, wordList);
    var words := WordsFrom(EntropyBits(entropy, sha), 0, wordList);
    forall i | 0 <= i < |words| ensures NoSpace(words[i]) {
      assert words[i] == wordList[WordIndexAt(EntropyBits(entropy, sha), i)];
    }
    SplitJoin(words);
    SplitCount(MnemonicOf(entropy, sha, wordList));
  }

  // ---------------------------------------------------------------------------
  // The generator

  /** Shifting in bit j of the chunk: the value of the first j+1 bits, scaled
      to the chunk's width, is the value of the first j bits scaled likewise
      plus the bit's own weight. */
  lemma ChunkStep(chunk: seq<bool>, j: nat)
    requires j < |chunk|
    ensures BitsValue(chunk[..j + 1]) * Pow(2, |chunk| - 1 - j)
      == BitsValue(chunk[..j]) * Pow(2, |chunk| - j) + (if chunk[j] then Pow(2, |chunk| - 1 - j) else 0)
  {
    var m := |chunk| - 1 - j;
    var v := BitsValue(chunk[..j]);
    var bit := if chunk[j] then 1 else 0;
    assert chunk[..j + 1][..j] == chunk[..j];
    assert BitsValue(chunk[..j + 1]) == 2 * v + bit;
    assert Pow(2, m + 1) == 2 * Pow(2, m);
    assert (2 * v + bit) * Pow(2, m) == v * (2 * Pow(2, m)) + bit * Pow(2, m);
  }

  /** The inner loop of `entropyToMnemonic`: for each set bit j of the chunk,
      `index |= 1 << (chunk.count - 1 - j)`. */
  method ChunkIndex(chunk: seq<bool>) returns (index: nat)
    ensures index == BitsValue(chunk)
  {
    index := 0;
    for j := 0 to |chunk|
      invariant index == BitsValue(chunk[..j]) * Pow(2, |chunk| - j)
    {
      var m := |chunk| - 1 - j;
      ChunkStep(chunk, j);
      if chunk[j] {
        BitOrDisjoint(BitsValue(chunk[..j]), m + 1, Pow(2, m));
        index := BitOr(index, Pow(2, m));
      }
    }
    assert chunk[..|chunk|] == chunk;
  }

  /** One step of the stride loop. */
  lemma WordsFromStep(bits: seq<bool>, i: nat, wordList: WordList)
    requires i < |bits|
    ensures WordsFrom(bits, i, wordList)
      == (if BitsValue(ChunkAt(bits, i)) < |wordList| then [wordList[BitsValue(ChunkAt(bits, i))]] else [])
         + WordsFrom(bits, i + ChunkSize, wordList)
  {
  }

  /** Packing: the entropy's bits, then the first |entropy|/4 bits of its
      hash. */
  method PackBits(entropy: seq<Byte>, sha: Sha256) returns (bits: seq<bool>)
    ensures bits == EntropyBits(entropy, sha)
  {
    bits := BytesBits(entropy);
    var hash := sha(entropy);
    var checksumBits := |entropy| / 4;
    var checksum := BytesBits(hash);
    bits := bits + Prefix(checksum, checksumBits);
  }

  /** Appending the words of chunk i keeps the loop's invariant. */
  lemma WordsFromAppend(bits: seq<bool>, i: nat, wordList: WordList, words: seq<string>, added: seq<string>)
    requires i < |bits|
    requires added == (if BitsValue(ChunkAt(bits, i)) < |wordList| then [wordList[BitsValue(ChunkAt(bits, i))]] else [])
    ensures (words + added) + WordsFrom(bits, i + ChunkSize, wordList) == words + WordsFrom(bits, i, wordList)
  {
    WordsFromStep(bits, i, wordList);
    assert (words + added) + WordsFrom(bits, i + ChunkSize, wordList) == words + (added + WordsFrom(bits, i + ChunkSize, wordList));
  }

  /** The stride loop: one word per chunk of 11 bits (the last chunk may be
      shorter), a value outside the list skipped. */
  method ChunkWords(bits: seq<bool>, wordList: WordList) returns (words: seq<string>)
    ensures words == WordsFrom(bits, 0, wordList)
  {
    words := [];
    var i := 0;
    while i < |bits|
      invariant words + WordsFrom(bits, i, wordList) == WordsFrom(bits, 0, wordList)
      decreases |bits| - i
    {
      var end := Min(i + ChunkSize, |bits|);
      var chunk := bits[i..end];
      var index := ChunkIndex(chunk);
      var added: seq<string> := if index < |wordList| then [wordList[index]] else [];
      WordsFromAppend(bits, i, wordList, words, added);
      words := words + added;
      i := i + ChunkSize;
    }
    assert words + [] == words;
  }

  /** `entropyToMnemonic`: packs the entropy and checksum bits, reads them 11
      at a time, and joins the words the chunks' values index. */
  method EntropyToMnemonic(entropy: seq<Byte>, sha: Sha256, wordList: WordList) returns (phrase: string)
    ensures phrase == MnemonicOf(entropy, sha, wordList)
  {
    var bits := PackBits(entropy, sha);
    var words := ChunkWords(bits, wordList);
    phrase := Join(words);
  }

  /** The default strength of `generateMnemonic`. */
  const DefaultStrength := 128

  /** `generateMnemonic`: `random` is what the system random source produced
      for the strength/8 bytes requested (the model takes a buffer of any
      length), or None when it reported failure. A strength below zero traps
      in the source (a negative byte count). */
  method GenerateMnemonic(strength: int, random: Option<seq<Byte>>, sha: Sha256, wordList: WordList)
    returns (r: Result<string, CryptoError>)
    requires strength >= 0
    ensures random.None? ==> r == Failure(RandomGenerationFailed)
    ensures random.Some? ==> r == Success(MnemonicOf(random.value, sha, wordList))
    ensures random.Some? && |random.value| == strength / 8 && (strength == 128 || strength == 256)
      && (forall i :: 0 <= i < |wordList| ==> NoSpace(wordList[i]))
      ==> ValidateMnemonic(r.value) && |Split(r.value)| == strength * 3 / 32
  {
    if random.None? {
      return Failure(RandomGenerationFailed);
    }
    var entropy := random.value;
    var phrase := EntropyToMnemonic(entropy, sha, wordList);
    if |entropy| == strength / 8 && (strength == 128 || strength == 256) && (forall i :: 0 <= i < |wordList| ==> NoSpace(wordList[i])) {
      MnemonicValidates(entropy, sha, wordList);
    }
    r := Success(phrase);
  }
}
