/** The cryptographic primitives and fixed data the key pipeline relies on,
    taken as parameters with only the shape the code depends on: SHA-256 gives
    32 bytes, PBKDF2 fills the requested number of bytes or reports failure,
    the English word list has 2048 entries. Nothing about their security is
    claimed. */
module Primitives {
  import opened Wrappers
  import opened Bytes

  type Digest = d: seq<Byte> | |d| == 32 witness seq(32, _ => 0)

  /** `SHA256.hash(data:)` */
  type Sha256 = seq<Byte> -> Digest

  /** `CCKeyDerivationPBKDF` with HMAC-SHA512 as the pseudo-random function,
      applied to (password, salt, iterations, key length). It writes into a
      buffer of the key length, so a success has exactly that many bytes. */
  type Pbkdf2 = f: (seq<Byte>, seq<Byte>, nat, nat) -> Option<seq<Byte>>
    | forall p, s, i, n :: f(p, s, i, n).Some? ==> |f(p, s, i, n).value| == n
    witness (p: seq<Byte>, s: seq<Byte>, i: nat, n: nat) => None

  /** `BIP39WordList.english` */
  type WordList = w: seq<string> | |w| == 2048 witness seq(2048, _ => "")
}
