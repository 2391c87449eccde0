/** Key derivation (CryptoService.swift, "Key Derivation"): the seed drawn
    from a phrase with PBKDF2, and the simplified private and public keys,
    which are plain SHA-256 digests rather than BIP-32 and secp256k1. */
module KeyDerivation {
  import opened Wrappers
  import opened Bytes
  import opened Errors
  import opened Primitives
  import Utf8

  /** The path `createWallet` derives with, m/84'/1'/0'/0/0 (BIP-84
      testnet, first receiving address); only its bytes enter the digest.
      Written in three pieces so that the verifier evaluates its encoding
      piece by piece. */
  const DerivationPath := "m/84'" + "/1'/0'" + "/0/0"

  /** The UTF-8 bytes of the path, all ASCII. */
  const DerivationPathBytes: seq<Byte> := [0x6D, 0x2F, 0x38, 0x34, 0x27] + [0x2F, 0x31, 0x27, 0x2F, 0x30, 0x27] + [0x2F, 0x30, 0x2F, 0x30]

  lemma PurposeUtf8()
    ensures Utf8.Encode("m/84'") == [0x6D, 0x2F, 0x38, 0x34, 0x27]
  {
    Utf8.EncodeAscii("m/84'");
  }

  lemma AccountUtf8()
    ensures Utf8.Encode("/1'/0'") == [0x2F, 0x31, 0x27, 0x2F, 0x30, 0x27]
  {
    Utf8.EncodeAscii("/1'/0'");
  }

  lemma AddressIndexUtf8()
    ensures Utf8.Encode("/0/0") == [0x2F, 0x30, 0x2F, 0x30]
  {
    Utf8.EncodeAscii("/0/0");
  }

  lemma DerivationPathUtf8()
    ensures Utf8.Encode(DerivationPath) == DerivationPathBytes
  {
    Utf8.EncodeConcat("m/84'" + "/1'/0'", "/0/0");
    Utf8.EncodeConcat("m/84'", "/1'/0'");
    PurposeUtf8();
    AccountUtf8();
    AddressIndexUtf8();
  }

  const SeedIterations := 2048
  const SeedLength := 64

  /** The salt of `mnemonicToSeed`: "mnemonic" followed by the passphrase. */
  function SeedSalt(passphrase: string): (salt: seq<Byte>)
    ensures salt == Utf8.Encode("mnemonic") + Utf8.Encode(passphrase)
  {
    Utf8.EncodeConcat("mnemonic", passphrase);
    Utf8.Encode("mnemonic" + passphrase)
  }

  /** `mnemonicToSeed`: PBKDF2 over the phrase's UTF-8 bytes with 2048
      iterations for 64 bytes; a failure of the primitive is
      `keyDerivationFailed`. */
  function MnemonicToSeed(mnemonic: string, passphrase: string, pbkdf2: Pbkdf2): (r: Result<seq<Byte>, CryptoError>)
    ensures r.Success? ==> |r.value| == SeedLength
    ensures r.Failure? <==> pbkdf2(Utf8.Encode(mnemonic), SeedSalt(passphrase), SeedIterations, SeedLength).None?
    ensures r.Failure? ==> r.error == KeyDerivationFailed
  {
    match pbkdf2(Utf8.Encode(mnemonic), SeedSalt(passphrase), SeedIterations, SeedLength)
    case None => Failure(KeyDerivationFailed)
    case Some(key) => Success(key)
  }

  /** Different passphrases give PBKDF2 different salts. */
  lemma SaltInjective(p: string, q: string)
    requires SeedSalt(p) == SeedSalt(q)
    ensures p == q
  {
    var prefix := Utf8.Encode("mnemonic");
    assert SeedSalt(p)[|prefix|..] == Utf8.Encode(p);
    assert SeedSalt(q)[|prefix|..] == Utf8.Encode(q);
    Utf8.EncodeInjective(p, q);
  }

  /** `derivePrivateKey`: SHA-256 of the seed followed by the path's bytes. */
  function DerivePrivateKey(seed: seq<Byte>, path: string, sha: Sha256): Digest {
    sha(seed + Utf8.Encode(path))
  }

  /** `derivePublicKey`: SHA-256 of the private key. */
  function DerivePublicKey(privateKey: seq<Byte>, sha: Sha256): Digest {
    sha(privateKey)
  }

  /** `signTransaction`: SHA-256 of the data followed by the key. */
  function SignTransaction(txData: seq<Byte>, privateKey: seq<Byte>, sha: Sha256): Digest {
    sha(txData + privateKey)
  }

  ghost predicate HasCollision(sha: Sha256) {
    exists m1, m2 :: m1 != m2 && sha(m1) == sha(m2)
  }

  /** From one seed, two paths yield the same private key only through a
      SHA-256 collision: the digest inputs differ whenever the paths do. */
  lemma DistinctPathsNeedCollision(seed: seq<Byte>, path1: string, path2: string, sha: Sha256)
    requires path1 != path2
    requires DerivePrivateKey(seed, path1, sha) == DerivePrivateKey(seed, path2, sha)
    ensures HasCollision(sha)
  {
    var m1 := seed + Utf8.Encode(path1);
    var m2 := seed + Utf8.Encode(path2);
    assert m1[|seed|..] == Utf8.Encode(path1) && m2[|seed|..] == Utf8.Encode(path2);
    if m1 == m2 {
      Utf8.EncodeInjective(path1, path2);
    }
    assert m1 != m2 && sha(m1) == sha(m2);
  }

  /** Two seeds of the same length yield the same private key on one path
      only through a collision. */
  lemma DistinctSeedsNeedCollision(seed1: seq<Byte>, seed2: seq<Byte>, path: string, sha: Sha256)
    requires |seed1| == |seed2| && seed1 != seed2
    requires DerivePrivateKey(seed1, path, sha) == DerivePrivateKey(seed2, path, sha)
    ensures HasCollision(sha)
  {
    var m1 := seed1 + Utf8.Encode(path);
    var m2 := seed2 + Utf8.Encode(path);
    assert m1[..|seed1|] == seed1 && m2[..|seed2|] == seed2;
    assert m1 != m2 && sha(m1) == sha(m2);
  }

  /** Two private keys share a public key only through a collision. */
  lemma DistinctKeysNeedCollision(key1: seq<Byte>, key2: seq<Byte>, sha: Sha256)
    requires key1 != key2
    requires DerivePublicKey(key1, sha) == DerivePublicKey(key2, sha)
    ensures HasCollision(sha)
  {
    assert key1 != key2 && sha(key1) == sha(key2);
  }

  /** Under one key, two different messages share a signature only through
      a collision. */
  lemma DistinctMessagesNeedCollision(data1: seq<Byte>, data2: seq<Byte>, privateKey: seq<Byte>, sha: Sha256)
    requires data1 != data2
    requires SignTransaction(data1, privateKey, sha) == SignTransaction(data2, privateKey, sha)
    ensures HasCollision(sha)
  {
    var m1 := data1 + privateKey;
    var m2 := data2 + privateKey;
    if |data1| == |data2| {
      assert m1[..|data1|] == data1 && m2[..|data1|] == data2;
    } else {
      assert |m1| != |m2|;
    }
    assert m1 != m2 && sha(m1) == sha(m2);
  }

  /** One message signed under two keys of the same length gives the same
      signature only through a collision. */
  lemma DistinctSignersNeedCollision(txData: seq<Byte>, key1: seq<Byte>, key2: seq<Byte>, sha: Sha256)
    requires |key1| == |key2| && key1 != key2
    requires SignTransaction(txData, key1, sha) == SignTransaction(txData, key2, sha)
    ensures HasCollision(sha)
  {
    var m1 := txData + key1;
    var m2 := txData + key2;
    assert m1[|txData|..] == key1 && m2[|txData|..] == key2;
    assert m1 != m2 && sha(m1) == sha(m2);
  }
}
