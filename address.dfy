/** `publicKeyToAddress` (CryptoService.swift, "Address Generation"): a
    Base58Check-style address. The 20-byte hash is the first 20 bytes of
    SHA-256 of the key (not RIPEMD-160), and the text comes from the
    `base58Encode` of the source, so only the payload's last 8 bytes shape
    it. */
module Address {
  import opened Bytes
  import opened Primitives
  import opened Base58

  const TestnetVersion: Byte := 0x6F
  const MainnetVersion: Byte := 0x00

  function VersionByte(testnet: bool): Byte {
    if testnet then TestnetVersion else MainnetVersion
  }

  /** The 4-byte checksum of the first 21 payload bytes. */
  function Checksum(versioned: seq<Byte>, sha: Sha256): (c: seq<Byte>)
    ensures |c| == 4
  {
    sha(sha(versioned))[..4]
  }

  /** A 25-byte payload whose last 4 bytes are the checksum of the others. */
  predicate ChecksumValid(payload: seq<Byte>, sha: Sha256) {
    |payload| == 25 && payload[21..] == Checksum(payload[..21], sha)
  }

  /** The bytes `publicKeyToAddress` encodes. */
  function AddressPayload(publicKey: seq<Byte>, testnet: bool, sha: Sha256): seq<Byte> {
    var versioned := [VersionByte(testnet)] + sha(publicKey)[..20];
    versioned + Checksum(versioned, sha)
  }

  /** The payload is 25 bytes: the version (0x6F on testnet, 0x00 on mainnet),
      SHA-256 of the key cut to 20 bytes, then a valid checksum. */
  lemma PayloadLayout(publicKey: seq<Byte>, testnet: bool, sha: Sha256)
    ensures var p := AddressPayload(publicKey, testnet, sha);
      && |p| == 25
      && p[0] == (if testnet then 0x6F else 0x00)
      && p[1..21] == sha(publicKey)[..20]
      && ChecksumValid(p, sha)
  {
    var versioned := [VersionByte(testnet)] + sha(publicKey)[..20];
    var p := AddressPayload(publicKey, testnet, sha);
    assert p[..21] == versioned;
    assert p[1..21] == versioned[1..];
  }

  /** The bytes `publicKeyToAddress` builds: the version byte, the hash cut
      to 20 bytes, then the first 4 bytes of the double hash. */
  method BuildPayload(publicKey: seq<Byte>, testnet: bool, sha: Sha256) returns (addressData: seq<Byte>)
    ensures addressData == AddressPayload(publicKey, testnet, sha)
  {
    var sha256Hash := sha(publicKey);
    var ripemd160Hash := sha256Hash[..20];
    addressData := [VersionByte(testnet)];
    addressData := addressData + ripemd160Hash;
    var checksum := sha(sha(addressData));
    addressData := addressData + checksum[..4];
  }

  /** `publicKeyToAddress`, as written: the payload through the 64-bit
      `base58Encode`. */
  method PublicKeyToAddress(publicKey: seq<Byte>, testnet: bool, sha: Sha256) returns (address: string)
    ensures address == EncodeAsWritten(AddressPayload(publicKey, testnet, sha))
  {
    var addressData := BuildPayload(publicKey, testnet, sha);
    address := Base58Encode(addressData);
  }

  /** A testnet address has no leading '1', at most 11 characters, all from
      the alphabet; it is the base-58 form of the payload's last 8 bytes (the
      hash's last 4 bytes and the checksum). */
  lemma TestnetAddressShape(publicKey: seq<Byte>, sha: Sha256)
    ensures var p := AddressPayload(publicKey, true, sha);
      var a := EncodeAsWritten(p);
      && LeadingOnes(a) == 0
      && |a| <= 11
      && (forall i :: 0 <= i < |a| ==> a[i] in Alphabet)
      && a == Digits58(BigEndian(p[17..]))
  {
    var p := AddressPayload(publicKey, true, sha);
    PayloadLayout(publicKey, true, sha);
    assert LeadingZeroCount(p) == 0;
    EncodeAsWrittenLeadingOnes(p);
    EncodeAsWrittenDigits(p);
    EncodeAsWrittenAlphabet(p);
    Fold64LastEight(p);
  }

  /** A mainnet address starts with '1', for the zero version byte. */
  lemma MainnetAddressLeadingOne(publicKey: seq<Byte>, sha: Sha256)
    ensures var a := EncodeAsWritten(AddressPayload(publicKey, false, sha));
      |a| >= 1 && a[0] == '1'
  {
    var p := AddressPayload(publicKey, false, sha);
    PayloadLayout(publicKey, false, sha);
    assert LeadingZeroCount(p) >= 1;
  }

  /** Two testnet keys whose payloads agree in their last 8 bytes get the
      same address, whatever their first 16 hash bytes. */
  lemma TestnetAddressOnlyTail(pk1: seq<Byte>, pk2: seq<Byte>, sha: Sha256)
    requires AddressPayload(pk1, true, sha)[17..] == AddressPayload(pk2, true, sha)[17..]
    ensures EncodeAsWritten(AddressPayload(pk1, true, sha)) == EncodeAsWritten(AddressPayload(pk2, true, sha))
  {
    var p1 := AddressPayload(pk1, true, sha);
    var p2 := AddressPayload(pk2, true, sha);
    PayloadLayout(pk1, true, sha);
    PayloadLayout(pk2, true, sha);
    assert LeadingZeroCount(p1) == 0 && LeadingZeroCount(p2) == 0;
    EncodeAsWrittenLastEight(p1, p2);
  }

  // ---------------------------------------------------------------------------
  // With the full encoder

  /** The address the full Base58 encoder gives for the same payload. */
  function FullAddress(publicKey: seq<Byte>, testnet: bool, sha: Sha256): string {
    EncodeFull(AddressPayload(publicKey, testnet, sha))
  }

  /** A full address decodes back to its 25-byte payload, whose version and
      checksum check out and whose hash bytes are those of the key. */
  lemma FullAddressDecodes(publicKey: seq<Byte>, testnet: bool, sha: Sha256)
    ensures var d := Decode(FullAddress(publicKey, testnet, sha));
      && d.Some?
      && ChecksumValid(d.value, sha)
      && d.value[0] == VersionByte(testnet)
      && d.value[1..21] == sha(publicKey)[..20]
  {
    DecodeEncodeFull(AddressPayload(publicKey, testnet, sha));
    PayloadLayout(publicKey, testnet, sha);
  }

  /** Keys whose truncated hashes differ get different full addresses. */
  lemma FullAddressDistinct(pk1: seq<Byte>, pk2: seq<Byte>, testnet: bool, sha: Sha256)
    requires sha(pk1)[..20] != sha(pk2)[..20]
    ensures FullAddress(pk1, testnet, sha) != FullAddress(pk2, testnet, sha)
  {
    PayloadLayout(pk1, testnet, sha);
    PayloadLayout(pk2, testnet, sha);
    if FullAddress(pk1, testnet, sha) == FullAddress(pk2, testnet, sha) {
      EncodeFullInjective(AddressPayload(pk1, testnet, sha), AddressPayload(pk2, testnet, sha));
    }
  }

  /** The corrected counterpart of `publicKeyToAddress`; the coordinator
      uses the as-written one. */
  method PublicKeyToFullAddress(publicKey: seq<Byte>, testnet: bool, sha: Sha256) returns (address: string)
    ensures address == FullAddress(publicKey, testnet, sha)
  {
    var addressData := BuildPayload(publicKey, testnet, sha);
    address := Base58EncodeFull(addressData);
  }
}
