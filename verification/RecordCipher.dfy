/** cipher.go: SM4GCMMode, the record protection of TLS 1.3. */
module RecordCipher {
  import opened Prelude
  import opened Crypto

  const CHANGE_CIPHER_SPEC: byte := 20
  const ALERT: byte := 21
  const HANDSHAKE: byte := 22
  const APPLICATION_DATA: byte := 23

  function Pow2(n: nat): (p: nat)
    ensures p >= 1
  {
    if n == 0 then 1 else 2 * Pow2(n - 1)
  }

  /** Exclusive or of the low bits, one bit at a time. */
  function XorBits(bits: nat, a: nat, b: nat): (x: nat)
    ensures x < Pow2(bits)
  {
    if bits == 0 then 0 else 2 * XorBits(bits - 1, a / 2, b / 2) + (a % 2 + b % 2) % 2
  }

  function Xor(a: byte, b: byte): byte {
    assert Pow2(8) == 2 * (2 * (2 * (2 * (2 * (2 * (2 * (2 * Pow2(0))))))));
    XorBits(8, a, b)
  }

  /** NewSM4GCMMode refuses any other length. */
  type Iv = s: Bytes | |s| == 12 witness Zeros(12)

  /** The IV with its last eight bytes combined with the big-endian sequence number. */
  function Nonce(iv: Iv, seqNo: nat): (n: Bytes)
    ensures |n| == 12
  {
    iv[..4] + seq(8, i requires 0 <= i < 8 => Xor(iv[4 + i], U64(seqNo)[i]))
  }

  /** Additional data: the outer type, version 0x0303 and the low 16 bits of the ciphertext length. */
  function AdditionalData(length: nat): Bytes { [APPLICATION_DATA, 3, 3] + U16(length) }

  lemma {:induction false} XorCancel(bits: nat, a: nat, b: nat, c: nat)
    requires b < Pow2(bits) && c < Pow2(bits) && XorBits(bits, a, b) == XorBits(bits, a, c)
    ensures b == c
  {
    if bits > 0 {
      XorCancel(bits - 1, a / 2, b / 2, c / 2);
    }
  }

  function XorBit(a: nat, b: nat): nat { (a % 2 + b % 2) % 2 }

  lemma XorFour(bits: nat, a: nat, b: nat)
    requires bits >= 4
    ensures XorBits(bits, a, b) ==
      XorBit(a, b) + 2 * XorBit(a / 2, b / 2) + 4 * XorBit(a / 4, b / 4) + 8 * XorBit(a / 8, b / 8)
      + 16 * XorBits(bits - 4, a / 16, b / 16)
  {
    hide XorBits, XorBit;
    XorTurn(bits, a, b);
    XorTurn(bits - 1, a / 2, b / 2);
    Halves(a);
    Halves(b);
    XorTurn(bits - 2, a / 4, b / 4);
    XorTurn(bits - 3, a / 8, b / 8);
  }

  /** Exclusive or, bit for bit. */
  lemma XorIsBitwise(a: byte, b: byte)
    ensures Xor(a, b) as int ==
      XorBit(a, b) + 2 * XorBit(a / 2, b / 2) + 4 * XorBit(a / 4, b / 4) + 8 * XorBit(a / 8, b / 8)
      + 16 * XorBit(a / 16, b / 16) + 32 * XorBit(a / 32, b / 32) + 64 * XorBit(a / 64, b / 64)
      + 128 * XorBit(a / 128, b / 128)
  {
    hide XorBit;
    XorFour(8, a, b);
    XorFour(4, a / 16, b / 16);
    Sixteenths(a);
    Sixteenths(b);
  }

  lemma Halves(a: nat)
    ensures a / 2 / 2 == a / 4 && a / 4 / 2 == a / 8 && a / 8 / 2 == a / 16
  {
  }

  lemma Sixteenths(a: nat)
    ensures a / 16 / 2 == a / 32 && a / 16 / 4 == a / 64 && a / 16 / 8 == a / 128
  {
  }

  lemma XorTurn(bits: nat, a: nat, b: nat)
    requires bits > 0
    ensures XorBits(bits, a, b) == 2 * XorBits(bits - 1, a / 2, b / 2) + XorBit(a, b)
  {
  }

  lemma {:induction false} XorBitsZero(bits: nat, b: nat)
    requires b < Pow2(bits)
    ensures XorBits(bits, 0, b) == b && XorBits(bits, b, 0) == b
  {
    if bits > 0 {
      XorBitsZero(bits - 1, b / 2);
    }
  }

  lemma {:induction false} XorBitsTwice(bits: nat, a: nat, b: nat)
    requires a < Pow2(bits)
    ensures XorBits(bits, XorBits(bits, a, b), b) == a
  {
    if bits > 0 {
      var y, bit := XorBits(bits - 1, a / 2, b / 2), (a % 2 + b % 2) % 2;
      var x := XorBits(bits, a, b);
      assert x / 2 == y && x % 2 == bit;
      assert XorBits(bits, x, b) == 2 * XorBits(bits - 1, y, b / 2) + (bit + b % 2) % 2;
      XorBitsTwice(bits - 1, a / 2, b / 2);
      BitTwice(a % 2, b % 2);
    }
  }

  lemma BitTwice(a: nat, b: nat)
    requires a < 2 && b < 2
    ensures ((a + b) % 2 + b) % 2 == a
  {
  }

  /** Combining with zero changes nothing, and combining twice undoes it. */
  lemma XorUndoes(a: byte, b: byte)
    ensures Xor(0, b) == b && Xor(a, 0) == a && Xor(Xor(a, b), b) == a
  {
    assert Pow2(8) == 2 * (2 * (2 * (2 * (2 * (2 * (2 * (2 * Pow2(0))))))));
    XorBitsZero(8, b);
    XorBitsZero(8, a);
    XorBitsTwice(8, a, b);
  }

  /** The sequence number, most significant byte first, in the last eight bytes; under a zero IV the nonce shows it. */
  lemma NonceShowsNumber(iv: Iv, n: u64)
    ensures var s := Nonce(Zeros(12), n);
      && s[..4] == [0, 0, 0, 0]
      && n == ReadU64(s[4..])
      && Nonce(iv, n)[..4] == iv[..4]
      && forall i :: 4 <= i < 12 ==> Xor(Nonce(iv, n)[i], iv[i]) == s[i]
  {
    hide Xor;
    var s := Nonce(Zeros(12), n);
    forall i | 4 <= i < 12 ensures s[i] == U64(n)[i - 4] && Xor(Nonce(iv, n)[i], iv[i]) == s[i] {
      XorUndoes(0, U64(n)[i - 4]);
      XorCommutes(iv[i], U64(n)[i - 4]);
      XorUndoes(U64(n)[i - 4], iv[i]);
    }
    U64Value(n);
    assert s[4..] == U64(n);
  }

  /** Eight bytes as a number, most significant byte first. */
  function ReadU64(s: Bytes): nat
    requires |s| == 8
  {
    s[0] as int * 0x100_0000_0000_0000 + s[1] as int * 0x1_0000_0000_0000 + s[2] as int * 0x100_0000_0000
    + s[3] as int * 0x1_0000_0000 + s[4] as int * 0x100_0000 + s[5] as int * 0x1_0000 + s[6] as int * 0x100
    + s[7] as int
  }

  lemma XorCommutes(a: byte, b: byte)
    ensures Xor(a, b) == Xor(b, a)
  {
    XorIsBitwise(a, b);
    XorIsBitwise(b, a);
  }

  lemma U64Value(n: u64)
    ensures ReadU64(U64(n)) == n
  {
    var high, low := n / 0x1_0000_0000, n % 0x1_0000_0000;
    U32Value(high);
    U32Value(low);
  }

  lemma U32Value(n: u32)
    ensures var s := U32(n); n == s[0] as int * 0x100_0000 + s[1] as int * 0x1_0000 + s[2] as int * 0x100 + s[3] as int
  {
  }

  /** Section 5.3 of RFC 8446 needs every record under a key to have its own nonce: different sequence numbers
      give different nonces under any IV. */
  lemma NonceInjective(iv: Iv, m: u64, n: u64)
    requires Nonce(iv, m) == Nonce(iv, n)
    ensures m == n
  {
    forall i | 0 <= i < 8 ensures U64(m)[i] == U64(n)[i] {
      assert Nonce(iv, m)[4 + i] == Nonce(iv, n)[4 + i];
      XorCancel(8, iv[4 + i], U64(m)[i], U64(n)[i]);
    }
    assert U64(m) == U64(n);
    U64Injective(m, n);
  }

  /** Which keys of the schedule a cipher was built from. */
  datatype Epoch = HandshakeKeys | ApplicationKeys

  /** The value of an SM4GCMMode. */
  datatype Cipher = Cipher(epoch: Epoch, key: Bytes, iv: Iv, writeSeq: u64, readSeq: u64)

  class SM4GCMMode {
    const crypto: Crypto
    const key: Bytes
    const fixedIV: Iv
    var writeSeq: u64
    var readSeq: u64
    /** Not in the source: names the keys for the proofs. */
    ghost const epoch: Epoch

    ghost function Value(): Cipher
      reads this
    {
      Cipher(epoch, key, fixedIV, writeSeq, readSeq)
    }

    constructor (crypto: Crypto, ghost epoch: Epoch, key: Bytes, iv: Iv)
      ensures Value() == Cipher(epoch, key, iv, 0, 0) && this.crypto == crypto
    {
      this.crypto, this.epoch, this.key, this.fixedIV := crypto, epoch, key, iv;
      writeSeq, readSeq := 0, 0;
    }

    method XorNonce(seqNo: u64) returns (out: Bytes)
      ensures out == Nonce(fixedIV, seqNo)
    {
      var nonce := new byte[12](i requires 0 <= i < 12 reads this => fixedIV[i]);
      var seqBytes := U64(seqNo);
      for i := 0 to 8
        invariant forall k :: 4 <= k < 4 + i ==> nonce[k] == Xor(fixedIV[k], seqBytes[k - 4])
        invariant forall k :: 0 <= k < 4 || 4 + i <= k < 12 ==> nonce[k] == fixedIV[k]
      {
        nonce[12 - 8 + i] := Xor(nonce[12 - 8 + i], seqBytes[i]);
      }
      out := nonce[..];
      assert forall k :: 4 <= k < 12 ==> out[k] == Nonce(fixedIV, seqNo)[k];
    }

    /** Seals the content and its type under the next write sequence number. */
    method Encrypt(typ: byte, data: Bytes) returns (ciphertext: Bytes)
      modifies this`writeSeq
      ensures ciphertext == SealRecord(crypto, old(Value()), typ, data)
      ensures Value() == AfterSeal(old(Value()))
    {
      var inner := data + [typ];
      var nonce := XorNonce(writeSeq);
      var ad: Bytes := [APPLICATION_DATA, 3, 3];
      ad := ad + U16(|inner| + 16);
      ciphertext := crypto.seal(key, nonce, ad, inner);
      writeSeq := (writeSeq + 1) % TWO64;
    }

    /** Opens under the next read sequence number, which a failed opening does not use up. */
    method Decrypt(data: Bytes) returns (plaintext: Option<Bytes>)
      modifies this`readSeq
      ensures plaintext == OpenRecord(crypto, old(Value()), data)
      ensures Value() == if plaintext.Some? then AfterOpen(old(Value())) else old(Value())
    {
      var nonce := XorNonce(readSeq);
      var ad: Bytes := [APPLICATION_DATA, 3, 3];
      ad := ad + U16(|data|);
      plaintext := crypto.open(key, nonce, ad, data);
      if plaintext.Some? {
        readSeq := (readSeq + 1) % TWO64;
      }
    }
  }

  function SealRecord(cr: Crypto, k: Cipher, typ: byte, data: Bytes): Bytes
  {
    cr.seal(k.key, Nonce(k.iv, k.writeSeq), AdditionalData(|data| + 17), data + [typ])
  }

  function OpenRecord(cr: Crypto, k: Cipher, data: Bytes): Option<Bytes>
  {
    cr.open(k.key, Nonce(k.iv, k.readSeq), AdditionalData(|data|), data)
  }

  /** Section 5.2 of RFC 8446: the content and its type are sealed under the nonce of the write counter, over the header
      that the record will have, with the length of what comes out. */
  lemma SealedOverHeader(cr: Crypto, k: Cipher, typ: byte, data: Bytes)
    requires |data| < 65519
    ensures var n := |data| + 1 + 16;
      SealRecord(cr, k, typ, data) ==
      cr.seal(k.key, Nonce(k.iv, k.writeSeq), [23, 3, 3, n / 256, n % 256], data + [typ])
  {
    hide Nonce;
    var n := |data| + 17;
    assert [APPLICATION_DATA, 3, 3] + U16(n) == [23, 3, 3, n / 256, n % 256];
  }

  lemma OpensOverHeader(cr: Crypto, k: Cipher, data: Bytes)
    requires |data| < 0x1_0000
    ensures OpenRecord(cr, k, data) ==
      cr.open(k.key, Nonce(k.iv, k.readSeq), [23, 3, 3, |data| / 256, |data| % 256], data)
  {
    hide Nonce;
    assert [APPLICATION_DATA, 3, 3] + U16(|data|) == [23, 3, 3, |data| / 256, |data| % 256];
  }

  function AfterSeal(k: Cipher): Cipher { k.(writeSeq := (k.writeSeq + 1) % TWO64) }

  function AfterOpen(k: Cipher): Cipher { k.(readSeq := (k.readSeq + 1) % TWO64) }
}
