/** tls13.go: HKDF over HMAC-SM3 and the TLS 1.3 key schedule. */
module KeySchedule {
  import opened Prelude
  import opened Crypto

  const HASH_SIZE: nat := 32

  function Ascii(s: string): (b: Bytes)
    requires forall i :: 0 <= i < |s| ==> s[i] < 128 as char
    ensures |b| == |s|
  {
    seq(|s|, i requires 0 <= i < |s| => s[i] as int)
  }

  // ----- HKDF -----

  function Extract(cr: Crypto, secret: Bytes, salt: Bytes): Bytes { cr.hmac(salt, secret) }

  /** T(i) of section 2.3 of RFC 5869; the counter is one byte. */
  function T(cr: Crypto, secret: Bytes, info: Bytes, i: nat): (t: Bytes)
    ensures |t| == if i == 0 then 0 else HASH_SIZE
  {
    if i == 0 then [] else cr.hmac(secret, T(cr, secret, info, i - 1) + info + [i % 0x100])
  }

  function TBlocks(cr: Crypto, secret: Bytes, info: Bytes, n: nat): (t: Bytes)
    ensures |t| == n * HASH_SIZE
  {
    if n == 0 then [] else TBlocks(cr, secret, info, n - 1) + T(cr, secret, info, n)
  }

  function BlockCount(keyLen: nat): (n: nat)
    ensures keyLen <= n * HASH_SIZE < keyLen + HASH_SIZE
  {
    (keyLen + HASH_SIZE - 1) / HASH_SIZE
  }

  function Expand(cr: Crypto, secret: Bytes, info: Bytes, keyLen: nat): (out: Bytes)
    ensures |out| == keyLen
  {
    TBlocks(cr, secret, info, BlockCount(keyLen))[..keyLen]
  }

  lemma {:induction false} TBlocksPrefix(cr: Crypto, secret: Bytes, info: Bytes, m: nat, n: nat)
    requires m <= n
    ensures TBlocks(cr, secret, info, m) <= TBlocks(cr, secret, info, n)
  {
    if m < n {
      TBlocksPrefix(cr, secret, info, m, n - 1);
    }
  }

  /** A shorter output is a prefix of a longer one with the same secret and info. */
  lemma ExpandPrefix(cr: Crypto, secret: Bytes, info: Bytes, short: nat, long: nat)
    requires short <= long
    ensures Expand(cr, secret, info, short) == Expand(cr, secret, info, long)[..short]
  {
    TBlocksPrefix(cr, secret, info, BlockCount(short), BlockCount(long));
  }

  /** SM3HKDFExpand. The previous block is read back out of the output buffer. */
  method HkdfExpand(cr: Crypto, secret: Bytes, info: Bytes, keyLen: nat) returns (out: Bytes)
    ensures out == Expand(cr, secret, info, keyLen)
  {
    var h := HASH_SIZE;
    var n := (keyLen + h - 1) / h;
    var result: Bytes := [];
    for i := 1 to n + 1
      invariant |result| == (i - 1) * h && result == TBlocks(cr, secret, info, i - 1)
      invariant i > 1 ==> result[(i - 2) * h..(i - 1) * h] == T(cr, secret, info, i - 1)
    {
      var input: Bytes := [];
      if i > 1 {
        input := input + result[(i - 2) * h..(i - 1) * h];
      }
      input := input + info;
      input := input + [i % 0x100];
      assert input == T(cr, secret, info, i - 1) + info + [i % 0x100];
      var block := cr.hmac(secret, input);
      ghost var before := result;
      result := result + block;
      assert result[(i - 1) * h..i * h] == block;
    }
    out := result[..keyLen];
  }

  // ----- HKDF-Expand-Label -----

  /** The HkdfLabel structure of section 7.1 of RFC 8446. */
  function HkdfLabel(keyLen: nat, labelText: Bytes, context: Bytes): Bytes
    requires |labelText| <= 249 && |context| <= 255
  {
    U16(keyLen) + [6 + |labelText|] + Ascii("tls13 ") + labelText + [|context|] + context
  }

  /** No two (length, label, context) triples are encoded alike, so no two uses of one secret with different
      labels feed HMAC the same info. */
  lemma HkdfLabelInjective(n1: u16, l1: Bytes, c1: Bytes, n2: u16, l2: Bytes, c2: Bytes)
    requires |l1| <= 249 && |c1| <= 255 && |l2| <= 249 && |c2| <= 255
    requires HkdfLabel(n1, l1, c1) == HkdfLabel(n2, l2, c2)
    ensures n1 == n2 && l1 == l2 && c1 == c2
  {
    var a, b := HkdfLabel(n1, l1, c1), HkdfLabel(n2, l2, c2);
    assert a[..2] == U16(n1) && b[..2] == U16(n2);
    U16RoundTrip(n1);
    U16RoundTrip(n2);
    assert a[2] == 6 + |l1| && b[2] == 6 + |l2|;
    assert a[9..9 + |l1|] == l1 && b[9..9 + |l2|] == l2;
    assert a[10 + |l1|..] == c1 && b[10 + |l2|..] == c2;
  }

  function ExpandLabel(cr: Crypto, secret: Bytes, labelText: Bytes, context: Bytes, keyLen: nat): (out: Bytes)
    requires |labelText| <= 249 && |context| <= 255
    ensures |out| == keyLen
  {
    Expand(cr, secret, HkdfLabel(keyLen, labelText, context), keyLen)
  }

  /** SM3HKDFExpandLabel, which panics on an over-long label or context. */
  method HkdfExpandLabel(cr: Crypto, secret: Bytes, labelText: Bytes, context: Bytes, keyLen: nat)
    returns (r: Result<Bytes>)
    ensures r ==
      if |labelText| <= 249 && |context| <= 255 then Success(ExpandLabel(cr, secret, labelText, context, keyLen))
      else Failure(Panic)
  {
    var fullLabelLen := 6 + |labelText|;
    if fullLabelLen > 255 || |context| > 255 {
      return Failure(Panic);
    }
    var info: Bytes := U16(keyLen);
    info := info + [fullLabelLen];
    info := info + Ascii("tls13 ");
    info := info + labelText;
    info := info + [|context|];
    info := info + context;
    var out := HkdfExpand(cr, secret, info, keyLen);
    r := Success(out);
  }

  // ----- key schedule -----

  function DeriveSecret(cr: Crypto, secret: Bytes, labelText: Bytes, digest: Digest): (out: Bytes)
    requires |labelText| <= 249
    ensures |out| == HASH_SIZE
  {
    ExpandLabel(cr, secret, labelText, digest, HASH_SIZE)
  }

  function EarlySecret(cr: Crypto, psk: Bytes): Bytes {
    Extract(cr, if psk == [] then Zeros(HASH_SIZE) else psk, Zeros(HASH_SIZE))
  }

  function HandshakeSecret(cr: Crypto, early: Bytes, shared: Bytes): Bytes {
    Extract(cr, shared, DeriveSecret(cr, early, Ascii("derived"), cr.hash([])))
  }

  function MasterSecret(cr: Crypto, handshake: Bytes): Bytes {
    Extract(cr, Zeros(HASH_SIZE), DeriveSecret(cr, handshake, Ascii("derived"), cr.hash([])))
  }

  /** A traffic secret with the key and IV expanded from it. */
  datatype Traffic = Traffic(secret: Bytes, key: Bytes, iv: Bytes)

  const NO_TRAFFIC: Traffic := Traffic([], [], [])

  function TrafficFrom(cr: Crypto, secret: Bytes, keyLen: nat, ivLen: nat): (t: Traffic)
    ensures t.secret == secret && |t.key| == keyLen && |t.iv| == ivLen
  {
    Traffic(secret, ExpandLabel(cr, secret, Ascii("key"), [], keyLen), ExpandLabel(cr, secret, Ascii("iv"), [], ivLen))
  }

  function FinishedKey(cr: Crypto, baseKey: Bytes): Bytes { ExpandLabel(cr, baseKey, Ascii("finished"), [], HASH_SIZE) }

  /** verify_data of a Finished message, from the traffic secret of its sender. */
  function VerifyData(cr: Crypto, trafficSecret: Bytes, transcript: Bytes): (v: Bytes)
    ensures |v| == HASH_SIZE
  {
    cr.hmac(FinishedKey(cr, trafficSecret), cr.hash(transcript))
  }

  datatype KeyMaterial = KeyMaterial(
    clientPrivateShare: Option<Bytes>,
    clientX25519Key: Option<Bytes>,
    serverPublicShare: Bytes,
    sharedSecret: Bytes,
    clientHandshake: Traffic,
    serverHandshake: Traffic,
    clientApp: Traffic,
    serverApp: Traffic,
    masterSecret: Bytes,
    resumptionSecret: Bytes)

  const NO_KEYS: KeyMaterial :=
    KeyMaterial(None, None, [], [], NO_TRAFFIC, NO_TRAFFIC, NO_TRAFFIC, NO_TRAFFIC, [], [])

  function AppTraffic(cr: Crypto, master: Bytes, labelText: Bytes, digest: Digest, keyLen: nat,
          ivLen: nat): (t: Traffic)
    requires |labelText| <= 249
    ensures |t.key| == keyLen && |t.iv| == ivLen
  {
    TrafficFrom(cr, DeriveSecret(cr, master, labelText, digest), keyLen, ivLen)
  }

  /** DeriveAllKeys as the handshake calls it: no Finished hash yet, so no application keys. The schedule starts
      from the empty PSK and takes the resumption secret over the empty transcript, whatever was resumed. */
  function AllKeys(cr: Crypto, shared: Bytes, helloDigest: Digest, keyLen: nat, ivLen: nat): (km: KeyMaterial)
    ensures |km.clientHandshake.key| == |km.serverHandshake.key| == keyLen
    ensures |km.clientHandshake.iv| == |km.serverHandshake.iv| == ivLen
  {
    var handshake := HandshakeSecret(cr, EarlySecret(cr, []), shared);
    var master := MasterSecret(cr, handshake);
    KeyMaterial(
      None, None, [], [],
      TrafficFrom(cr, DeriveSecret(cr, handshake, Ascii("c hs traffic"), helloDigest), keyLen, ivLen),
      TrafficFrom(cr, DeriveSecret(cr, handshake, Ascii("s hs traffic"), helloDigest), keyLen, ivLen),
      NO_TRAFFIC, NO_TRAFFIC,
      master, ResumptionSecret(cr, master))
  }

  /** DeriveAllKeys in full: the fields are filled one after the other, those of the application only when there is a
      Finished hash. */
  method DeriveAllKeys(cr: Crypto, shared: Bytes, helloDigest: Digest, finished: Option<Digest>, keyLen: nat,
          ivLen: nat) returns (km: KeyMaterial)
    ensures var all := AllKeys(cr, shared, helloDigest, keyLen, ivLen);
      km == match finished
        case None => all
        case Some(digest) =>
          all.(clientApp := AppTraffic(cr, all.masterSecret, Ascii("c ap traffic"), digest, keyLen, ivLen),
               serverApp := AppTraffic(cr, all.masterSecret, Ascii("s ap traffic"), digest, keyLen, ivLen))
  {
    hide EarlySecret, HandshakeSecret, MasterSecret, DeriveSecret, ExpandLabel, ResumptionSecret, Ascii;
    km := NO_KEYS;
    var early := EarlySecret(cr, []);
    var handshake := HandshakeSecret(cr, early, shared);
    var clientSecret := DeriveSecret(cr, handshake, Ascii("c hs traffic"), helloDigest);
    var serverSecret := DeriveSecret(cr, handshake, Ascii("s hs traffic"), helloDigest);
    km := km.(clientHandshake := TrafficFrom(cr, clientSecret, keyLen, ivLen));
    km := km.(serverHandshake := TrafficFrom(cr, serverSecret, keyLen, ivLen));
    km := km.(masterSecret := MasterSecret(cr, handshake));
    km := km.(resumptionSecret := ResumptionSecret(cr, km.masterSecret));
    if finished.Some? {
      var clientApp := DeriveSecret(cr, km.masterSecret, Ascii("c ap traffic"), finished.value);
      var serverApp := DeriveSecret(cr, km.masterSecret, Ascii("s ap traffic"), finished.value);
      km := km.(clientApp := TrafficFrom(cr, clientApp, keyLen, ivLen));
      km := km.(serverApp := TrafficFrom(cr, serverApp, keyLen, ivLen));
    }
  }

  function ResumptionSecret(cr: Crypto, master: Bytes): Bytes {
    ExpandLabel(cr, master, Ascii("res master"), cr.hash([]), HASH_SIZE)
  }

  /** The labels of the schedule, and that of the binder key. */
  const LABELS: seq<Bytes> := [
    Ascii("derived"), Ascii("c hs traffic"), Ascii("s hs traffic"), Ascii("c ap traffic"), Ascii("s ap traffic"),
    Ascii("key"), Ascii("iv"), Ascii("finished"), Ascii("res master"), Ascii("resumption"), Ascii("res binder")
  ]

  /** Uses of the schedule with different labels never expand the same info, whatever lengths and contexts they have. */
  lemma LabelsSeparate(i: nat, j: nat, n1: u16, c1: Bytes, n2: u16, c2: Bytes)
    requires i < |LABELS| && j < |LABELS| && i != j && |c1| <= 255 && |c2| <= 255
    ensures |LABELS[i]| <= 249 && |LABELS[j]| <= 249 && HkdfLabel(n1, LABELS[i], c1) != HkdfLabel(n2, LABELS[j], c2)
  {
    LabelsDiffer(i, j);
    if HkdfLabel(n1, LABELS[i], c1) == HkdfLabel(n2, LABELS[j], c2) {
      HkdfLabelInjective(n1, LABELS[i], c1, n2, LABELS[j], c2);
    }
  }

  lemma LabelsDiffer(i: nat, j: nat)
    requires i < |LABELS| && j < |LABELS| && i != j
    ensures LABELS[i] != LABELS[j] && |LABELS[i]| <= 12 && |LABELS[j]| <= 12
  {
    // Where lengths are equal the labels differ in one of these places.
    assert LABELS[1][0] == 99 && LABELS[1][2] == 104 && LABELS[2][0] == 115 && LABELS[2][2] == 104;
    assert LABELS[3][0] == 99 && LABELS[3][2] == 97 && LABELS[4][0] == 115 && LABELS[4][2] == 97;
    assert LABELS[8][3] == 32 && LABELS[8][4] == 109 && LABELS[9][3] == 117;
    assert LABELS[10][3] == 32 && LABELS[10][4] == 98;
  }

  function ResumptionPSK(cr: Crypto, resumptionSecret: Bytes, nonce: Bytes): Bytes
    requires |nonce| <= 255
  {
    ExpandLabel(cr, resumptionSecret, Ascii("resumption"), nonce, HASH_SIZE)
  }
}
