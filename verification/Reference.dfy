/** The key schedule once more, written out in HMAC, hash and the bytes of sections 4.4.4, 4.6.1 and 7.1 of RFC 8446,
    and proved to be what the functions of the library's schedule compute. */
module Reference {
  import opened Prelude
  import opened Crypto
  import opened KeySchedule
  import opened Tickets
  import opened Offer
  import opened Steps

  // HkdfLabel: two bytes of length, the length of the label, "tls13 " and the label, the length of the context.
  const DERIVED: Bytes := [0, 32, 13, 116, 108, 115, 49, 51, 32, 100, 101, 114, 105, 118, 101, 100, 32]
  const C_HS: Bytes :=
    [0, 32, 18, 116, 108, 115, 49, 51, 32, 99, 32, 104, 115, 32, 116, 114, 97, 102, 102, 105, 99, 32]
  const S_HS: Bytes :=
    [0, 32, 18, 116, 108, 115, 49, 51, 32, 115, 32, 104, 115, 32, 116, 114, 97, 102, 102, 105, 99, 32]
  const C_AP: Bytes :=
    [0, 32, 18, 116, 108, 115, 49, 51, 32, 99, 32, 97, 112, 32, 116, 114, 97, 102, 102, 105, 99, 32]
  const S_AP: Bytes :=
    [0, 32, 18, 116, 108, 115, 49, 51, 32, 115, 32, 97, 112, 32, 116, 114, 97, 102, 102, 105, 99, 32]
  const KEY: Bytes := [0, 16, 9, 116, 108, 115, 49, 51, 32, 107, 101, 121, 0]
  const IV: Bytes := [0, 12, 8, 116, 108, 115, 49, 51, 32, 105, 118, 0]
  const FINISHED_LABEL: Bytes :=
    [0, 32, 14, 116, 108, 115, 49, 51, 32, 102, 105, 110, 105, 115, 104, 101, 100, 0]
  const RES_MASTER: Bytes :=
    [0, 32, 16, 116, 108, 115, 49, 51, 32, 114, 101, 115, 32, 109, 97, 115, 116, 101, 114, 32]
  const RES_BINDER: Bytes :=
    [0, 32, 16, 116, 108, 115, 49, 51, 32, 114, 101, 115, 32, 98, 105, 110, 100, 101, 114, 0]
  const RESUMPTION: Bytes :=
    [0, 32, 16, 116, 108, 115, 49, 51, 32, 114, 101, 115, 117, 109, 112, 116, 105, 111, 110]

  /** Up to one hash of output is the front of a single HMAC. */
  lemma OneBlock(cr: Crypto, secret: Bytes, labelText: Bytes, context: Bytes, n: nat)
    requires |labelText| <= 249 && |context| <= 255 && 0 < n <= 32
    ensures ExpandLabel(cr, secret, labelText, context, n) ==
      cr.hmac(secret, HkdfLabel(n, labelText, context) + [1])[..n]
  {
    hide HkdfLabel;
    var info := HkdfLabel(n, labelText, context);
    assert TBlocks(cr, secret, info, 1) == TBlocks(cr, secret, info, 0) + T(cr, secret, info, 1);
    assert T(cr, secret, info, 0) == [];
    assert [] + info + [1] == info + [1];
    assert [] + T(cr, secret, info, 1) == T(cr, secret, info, 1);
  }

  lemma LabelSplits(n: u16, labelText: Bytes, context: Bytes)
    requires |labelText| <= 249 && |context| <= 255
    ensures HkdfLabel(n, labelText, context) ==
      [n / 0x100, n % 0x100, 6 + |labelText|, 116, 108, 115, 49, 51, 32] + labelText + [|context|] + context
  {
    assert Ascii("tls13 ") == [116, 108, 115, 49, 51, 32];
  }

  lemma TrafficTexts()
    ensures Ascii("c hs traffic") == [99, 32, 104, 115, 32, 116, 114, 97, 102, 102, 105, 99]
    ensures Ascii("s hs traffic") == [115, 32, 104, 115, 32, 116, 114, 97, 102, 102, 105, 99]
    ensures Ascii("c ap traffic") == [99, 32, 97, 112, 32, 116, 114, 97, 102, 102, 105, 99]
    ensures Ascii("s ap traffic") == [115, 32, 97, 112, 32, 116, 114, 97, 102, 102, 105, 99]
  {
  }

  lemma OtherTexts()
    ensures Ascii("derived") == [100, 101, 114, 105, 118, 101, 100]
    ensures Ascii("key") == [107, 101, 121]
    ensures Ascii("iv") == [105, 118]
    ensures Ascii("finished") == [102, 105, 110, 105, 115, 104, 101, 100]
    ensures Ascii("res master") == [114, 101, 115, 32, 109, 97, 115, 116, 101, 114]
    ensures Ascii("res binder") == [114, 101, 115, 32, 98, 105, 110, 100, 101, 114]
    ensures Ascii("resumption") == [114, 101, 115, 117, 109, 112, 116, 105, 111, 110]
  {
  }

  /** Labels over a digest. */
  lemma HandshakeLabels(digest: Digest)
    ensures HkdfLabel(32, Ascii("c hs traffic"), digest) == C_HS + digest
    ensures HkdfLabel(32, Ascii("s hs traffic"), digest) == S_HS + digest
  {
    hide HkdfLabel, Ascii;
    TrafficTexts();
    OtherTexts();
    LabelSplits(32, Ascii("c hs traffic"), digest);
    LabelSplits(32, Ascii("s hs traffic"), digest);
  }

  lemma ApplicationLabels(digest: Digest)
    ensures HkdfLabel(32, Ascii("c ap traffic"), digest) == C_AP + digest
    ensures HkdfLabel(32, Ascii("s ap traffic"), digest) == S_AP + digest
  {
    hide HkdfLabel, Ascii;
    TrafficTexts();
    OtherTexts();
    LabelSplits(32, Ascii("c ap traffic"), digest);
    LabelSplits(32, Ascii("s ap traffic"), digest);
  }

  lemma SecretLabels(digest: Digest)
    ensures HkdfLabel(32, Ascii("derived"), digest) == DERIVED + digest
    ensures HkdfLabel(32, Ascii("res master"), digest) == RES_MASTER + digest
  {
    hide HkdfLabel, Ascii;
    TrafficTexts();
    OtherTexts();
    LabelSplits(32, Ascii("derived"), digest);
    LabelSplits(32, Ascii("res master"), digest);
  }

  /** Labels over nothing, and over a ticket's nonce. */
  lemma KeyLabels()
    ensures HkdfLabel(16, Ascii("key"), []) == KEY
    ensures HkdfLabel(12, Ascii("iv"), []) == IV
    ensures HkdfLabel(32, Ascii("finished"), []) == FINISHED_LABEL
  {
    hide HkdfLabel, Ascii;
    TrafficTexts();
    OtherTexts();
    LabelSplits(16, Ascii("key"), []);
    LabelSplits(12, Ascii("iv"), []);
    LabelSplits(32, Ascii("finished"), []);
  }

  lemma TicketLabels(nonce: Bytes)
    requires |nonce| <= 255
    ensures HkdfLabel(32, Ascii("res binder"), []) == RES_BINDER
    ensures HkdfLabel(32, Ascii("resumption"), nonce) == RESUMPTION + [|nonce|] + nonce
  {
    hide HkdfLabel, Ascii;
    TrafficTexts();
    OtherTexts();
    LabelSplits(32, Ascii("res binder"), []);
    LabelSplits(32, Ascii("resumption"), nonce);
  }

  /** A traffic secret with the key and IV that section 7.3 of RFC 8446 expands from it. */
  ghost predicate TrafficIs(cr: Crypto, t: Traffic, secret: Bytes) {
    t.secret == secret && t.key == cr.hmac(secret, KEY + [1])[..16] && t.iv == cr.hmac(secret, IV + [1])[..12]
  }

  lemma TrafficWrittenOut(cr: Crypto, secret: Bytes)
    ensures TrafficIs(cr, TrafficFrom(cr, secret, 16, 12), secret)
  {
    hide ExpandLabel, HkdfLabel, Ascii;
    KeyLabels();
    OneBlock(cr, secret, Ascii("key"), [], 16);
    OneBlock(cr, secret, Ascii("iv"), [], 12);
  }

  lemma WholeDigest(d: Digest)
    ensures d[..32] == d
  {
  }

  lemma DerivedWrittenOut(cr: Crypto, secret: Bytes)
    ensures DeriveSecret(cr, secret, Ascii("derived"), cr.hash([])) == cr.hmac(secret, DERIVED + cr.hash([]) + [1])
  {
    hide ExpandLabel, HkdfLabel, Ascii;
    SecretLabels(cr.hash([]));
    OneBlock(cr, secret, Ascii("derived"), cr.hash([]), 32);
    WholeDigest(cr.hmac(secret, DERIVED + cr.hash([]) + [1]));
  }

  /** The secrets down to the master secret: extracts of zeros, of the shared secret and of zeros, each salted with what
      is derived from the one before. */
  lemma SecretsWrittenOut(cr: Crypto, shared: Bytes)
    ensures var d := DERIVED + cr.hash([]) + [1];
      var handshake := cr.hmac(cr.hmac(cr.hmac(Zeros(32), Zeros(32)), d), shared);
      && HandshakeSecret(cr, EarlySecret(cr, []), shared) == handshake
      && MasterSecret(cr, handshake) == cr.hmac(cr.hmac(handshake, d), Zeros(32))
  {
    hide DeriveSecret, Ascii;
    var d := DERIVED + cr.hash([]) + [1];
    DerivedWrittenOut(cr, EarlySecret(cr, []));
    DerivedWrittenOut(cr, cr.hmac(cr.hmac(cr.hmac(Zeros(32), Zeros(32)), d), shared));
  }

  lemma HandshakeTraffic(cr: Crypto, secret: Bytes, digest: Digest)
    ensures TrafficIs(cr, TrafficFrom(cr, DeriveSecret(cr, secret, Ascii("c hs traffic"), digest), 16, 12),
                      cr.hmac(secret, C_HS + digest + [1]))
    ensures TrafficIs(cr, TrafficFrom(cr, DeriveSecret(cr, secret, Ascii("s hs traffic"), digest), 16, 12),
                      cr.hmac(secret, S_HS + digest + [1]))
  {
    hide ExpandLabel, HkdfLabel, Ascii, TrafficFrom, TrafficIs;
    HandshakeLabels(digest);
    OneBlock(cr, secret, Ascii("c hs traffic"), digest, 32);
    OneBlock(cr, secret, Ascii("s hs traffic"), digest, 32);
    WholeDigest(cr.hmac(secret, C_HS + digest + [1]));
    WholeDigest(cr.hmac(secret, S_HS + digest + [1]));
    TrafficWrittenOut(cr, cr.hmac(secret, C_HS + digest + [1]));
    TrafficWrittenOut(cr, cr.hmac(secret, S_HS + digest + [1]));
  }

  lemma ResumptionWrittenOut(cr: Crypto, master: Bytes)
    ensures ResumptionSecret(cr, master) == cr.hmac(master, RES_MASTER + cr.hash([]) + [1])
  {
    hide ExpandLabel, HkdfLabel, Ascii;
    SecretLabels(cr.hash([]));
    OneBlock(cr, master, Ascii("res master"), cr.hash([]), 32);
    WholeDigest(cr.hmac(master, RES_MASTER + cr.hash([]) + [1]));
  }

  /** Everything the handshake derives, for every shared secret and transcript hash. */
  lemma ScheduleWrittenOut(cr: Crypto, shared: Bytes, digest: Digest)
    ensures var km := AllKeys(cr, shared, digest, 16, 12);
      var d := DERIVED + cr.hash([]) + [1];
      var handshake := cr.hmac(cr.hmac(cr.hmac(Zeros(32), Zeros(32)), d), shared);
      var master := cr.hmac(cr.hmac(handshake, d), Zeros(32));
      && TrafficIs(cr, km.clientHandshake, cr.hmac(handshake, C_HS + digest + [1]))
      && TrafficIs(cr, km.serverHandshake, cr.hmac(handshake, S_HS + digest + [1]))
      && km.masterSecret == master
      && km.resumptionSecret == cr.hmac(master, RES_MASTER + cr.hash([]) + [1])
  {
    hide EarlySecret, HandshakeSecret, MasterSecret, TrafficFrom, DeriveSecret, ResumptionSecret, Ascii, TrafficIs;
    SecretsWrittenOut(cr, shared);
    var d := DERIVED + cr.hash([]) + [1];
    var handshake := cr.hmac(cr.hmac(cr.hmac(Zeros(32), Zeros(32)), d), shared);
    HandshakeTraffic(cr, handshake, digest);
    ResumptionWrittenOut(cr, MasterSecret(cr, handshake));
  }

  lemma AppTrafficWrittenOut(cr: Crypto, master: Bytes, digest: Digest)
    ensures TrafficIs(cr, AppTraffic(cr, master, Ascii("c ap traffic"), digest, 16, 12),
                      cr.hmac(master, C_AP + digest + [1]))
    ensures TrafficIs(cr, AppTraffic(cr, master, Ascii("s ap traffic"), digest, 16, 12),
                      cr.hmac(master, S_AP + digest + [1]))
  {
    hide ExpandLabel, HkdfLabel, Ascii, TrafficFrom, TrafficIs;
    ApplicationLabels(digest);
    OneBlock(cr, master, Ascii("c ap traffic"), digest, 32);
    OneBlock(cr, master, Ascii("s ap traffic"), digest, 32);
    WholeDigest(cr.hmac(master, C_AP + digest + [1]));
    WholeDigest(cr.hmac(master, S_AP + digest + [1]));
    TrafficWrittenOut(cr, cr.hmac(master, C_AP + digest + [1]));
    TrafficWrittenOut(cr, cr.hmac(master, S_AP + digest + [1]));
  }

  /** The application keys of both directions, from the master secret and the hash through the server's Finished. */
  lemma ApplicationWrittenOut(cr: Crypto, hs: HandshakeState)
    requires hs.suite.Some? && hs.suite.value.keyLen == 16 && hs.suite.value.ivLen == 12
    ensures var digest := if hs.serverFinishedHash.Some? then hs.serverFinishedHash.value else cr.hash(hs.transcript);
      && TrafficIs(cr, ClientAppTraffic(cr, hs), cr.hmac(hs.keys.masterSecret, C_AP + digest + [1]))
      && TrafficIs(cr, ServerAppTraffic(cr, hs), cr.hmac(hs.keys.masterSecret, S_AP + digest + [1]))
  {
    hide AppTraffic, Ascii, TrafficIs;
    AppTrafficWrittenOut(cr, hs.keys.masterSecret, FinishedHash(cr, hs));
  }

  /** verify_data: an HMAC over the transcript hash, keyed from the sender's traffic secret. */
  lemma FinishedWrittenOut(cr: Crypto, secret: Bytes, transcript: Bytes)
    ensures VerifyData(cr, secret, transcript) ==
      cr.hmac(cr.hmac(secret, FINISHED_LABEL + [1]), cr.hash(transcript))
  {
    hide ExpandLabel, HkdfLabel, Ascii;
    FinishedKeyWrittenOut(cr, secret);
  }

  lemma FinishedKeyWrittenOut(cr: Crypto, secret: Bytes)
    ensures FinishedKey(cr, secret) == cr.hmac(secret, FINISHED_LABEL + [1])
  {
    hide ExpandLabel, HkdfLabel, Ascii;
    KeyLabels();
    OneBlock(cr, secret, Ascii("finished"), [], 32);
    WholeDigest(cr.hmac(secret, FINISHED_LABEL + [1]));
  }

  /** The binder, from the PSK of the ticket. */
  lemma BinderWrittenOut(cr: Crypto, psk: Bytes, hello: Bytes)
    requires psk != []
    ensures Binder(cr, psk, hello) ==
      cr.hmac(cr.hmac(cr.hmac(cr.hmac(Zeros(32), psk), RES_BINDER + [1]), FINISHED_LABEL + [1]), cr.hash(hello))
  {
    hide ExpandLabel, HkdfLabel, Ascii, FinishedKey;
    var early := cr.hmac(Zeros(32), psk);
    TicketLabels([]);
    OneBlock(cr, early, Ascii("res binder"), [], 32);
    WholeDigest(cr.hmac(early, RES_BINDER + [1]));
    FinishedKeyWrittenOut(cr, cr.hmac(early, RES_BINDER + [1]));
  }

  /** A ticket as it is received: its PSK comes from the resumption secret and its nonce. */
  lemma TicketPskWrittenOut(cr: Crypto, secret: Bytes, t: Ticket, at: nat)
    requires |t.nonce| <= 255 && secret != []
    ensures Receive(cr, secret, t, at) ==
      Ticket(t.lifetime, t.ageAdd, t.nonce, t.ticket,
             cr.hmac(secret, RESUMPTION + [|t.nonce|] + t.nonce + [1]), at)
  {
    hide ExpandLabel, HkdfLabel, Ascii;
    TicketLabels(t.nonce);
    OneBlock(cr, secret, Ascii("resumption"), t.nonce, 32);
    WholeDigest(cr.hmac(secret, RESUMPTION + [|t.nonce|] + t.nonce + [1]));
  }
}
