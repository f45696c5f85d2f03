/** The cryptographic primitives, left uninterpreted: each constant below has a type and no value, so
    every theorem of this project holds for every choice of them. Injectivity is never assumed; where a
    property needs it, it is assumed of one finite set of byte strings (`CollisionFree`). */
module Crypto {
  import opened Basics

  type Hash = s: Bytes | |s| == 32 witness seq(32, _ => 0)
  type Bytes64 = s: Bytes | |s| == 64 witness seq(64, _ => 0)

  function Zeros(n: nat): (h: Bytes)
    ensures |h| == n && forall i | 0 <= i < n :: h[i] == 0
  {
    seq(n, _ => 0)
  }

  const ZERO_HASH: Hash := Zeros(32)

  /** The outcomes of checking an ECDSA signature; `MalformedKey` is the library refusing the public key. */
  datatype SignatureCheck = Good | Bad | MalformedKey

  const sha256d: Bytes -> Hash
  const scrypt: (Bytes, Bytes) -> Hash
  const blake2: Bytes -> Hash
  const ecdsaVerify: (Bytes64, Bytes64, Bytes) -> SignatureCheck
  const ecdsaSign: (Bytes, Bytes, nat) -> Bytes64

  function Sha256d(b: Bytes): Hash {
    sha256d(b)
  }

  function Scrypt(password: Bytes, salt: Bytes): Hash {
    scrypt(password, salt)
  }

  function Blake2(b: Bytes): Hash {
    blake2(b)
  }

  /** Verify `signature` on `message` under `publicKey`. */
  function EcdsaVerify(publicKey: Bytes64, signature: Bytes64, message: Bytes): SignatureCheck {
    ecdsaVerify(publicKey, signature, message)
  }

  /** Sign `message`; the library draws randomness for each signature, here the argument `salt`. */
  function EcdsaSign(privateKey: Bytes, message: Bytes, salt: nat): Bytes64 {
    ecdsaSign(privateKey, message, salt)
  }

  /** No two different strings of `strings` have the same double SHA-256. */
  ghost predicate CollisionFree(strings: set<Bytes>) {
    forall x, y | x in strings && y in strings && Sha256d(x) == Sha256d(y) :: x == y
  }

  /** The private key signs for the public key: the only thing assumed of ECDSA, and only of a wallet's own keys. */
  ghost predicate SignsFor(publicKey: Bytes64, privateKey: Bytes) {
    forall message, salt ::
      EcdsaVerify(publicKey, EcdsaSign(privateKey, message, salt), message) == Good
  }
}
