/** The cryptographic primitives, as a parameter of everything else. The library calls SM3, HMAC-SM3,
    SM4-GCM, SM2, X25519 and X.509 code that is not part of this model; what the proofs use of them is
    exactly `Lawful`, and every theorem holds for all primitives that are lawful. */
module Crypto {
  import opened Prelude

  /** An SM3 output. */
  type Digest = s: Bytes | |s| == 32 witness Zeros(32)

  datatype Crypto = Crypto(
    hash: Bytes -> Digest,
    hmac: (Bytes, Bytes) -> Digest,
    seal: (Bytes, Bytes, Bytes, Bytes) -> Bytes,
    open: (Bytes, Bytes, Bytes, Bytes) -> Option<Bytes>,
    sm2Share: Bytes -> Bytes,
    sm2Agree: (Bytes, Bytes) -> Option<Bytes>,
    x25519Share: Bytes -> Bytes,
    x25519Agree: (Bytes, Bytes) -> Option<Bytes>,
    publicKey: Bytes -> Bytes,
    sign: (Bytes, Bytes, Bytes) -> Bytes,
    verify: (Bytes, Bytes, Bytes) -> bool,
    certificateKey: Bytes -> Option<Bytes>)

  /** Arguments are (key, data) for HMAC, (key, nonce, additional data, text) for the AEAD,
      (own private key, peer share) for key agreement, (private key, message, randomness) for signing and
      (public key, message, signature) for verification. */
  ghost predicate Lawful(cr: Crypto) {
    && (forall k, n, ad, p :: |cr.seal(k, n, ad, p)| == |p| + 16)
    && (forall k, n, ad, p {:trigger cr.seal(k, n, ad, p)} :: cr.open(k, n, ad, cr.seal(k, n, ad, p)) == Some(p))
    && (forall a :: |cr.sm2Share(a)| == 65)
    && (forall a, b {:trigger cr.sm2Agree(a, cr.sm2Share(b))} ::
          cr.sm2Agree(a, cr.sm2Share(b)) == cr.sm2Agree(b, cr.sm2Share(a)))
    && (forall a, s :: cr.sm2Agree(a, s).Some? ==> |cr.sm2Agree(a, s).value| == 32)
    && (forall a :: |cr.x25519Share(a)| == 32)
    && (forall a, b {:trigger cr.x25519Agree(a, cr.x25519Share(b))} ::
          cr.x25519Agree(a, cr.x25519Share(b)) == cr.x25519Agree(b, cr.x25519Share(a)))
    && (forall a, s :: cr.x25519Agree(a, s).Some? ==> |cr.x25519Agree(a, s).value| == 32)
    && (forall k, m, r :: |cr.sign(k, m, r)| <= 72)
    && (forall k, m, r {:trigger cr.sign(k, m, r)} :: cr.verify(cr.publicKey(k), m, cr.sign(k, m, r)))
  }

  /** A toy instance: no security, but every law holds, so the theorems are not about nothing. */
  function Toy(): Crypto {
    Crypto(
      _ => Zeros(32),
      (_, _) => Zeros(32),
      (_, _, _, p: Bytes) => p + Zeros(16),
      (_, _, _, c: Bytes) => if |c| < 16 then None else Some(c[..|c| - 16]),
      _ => Zeros(65),
      (_, _) => Some(Zeros(32)),
      _ => Zeros(32),
      (_, _) => Some(Zeros(32)),
      (k: Bytes) => k,
      (_, _, _) => [],
      (_, _, _) => true,
      (raw: Bytes) => Some(raw))
  }

  lemma ToyIsLawful()
    ensures Lawful(Toy())
  {
    forall k: Bytes, n: Bytes, ad: Bytes, p: Bytes
      ensures Toy().open(k, n, ad, Toy().seal(k, n, ad, p)) == Some(p)
    {
      assert (p + Zeros(16))[..|p + Zeros(16)| - 16] == p;
    }
  }
}
