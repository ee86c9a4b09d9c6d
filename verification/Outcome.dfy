/** What a handshake between two ends of this library comes to, written out in the primitives and the numbers of
    RFC 8446: the messages in order, what each proof covers, what each key is derived from and under which key each
    record goes. */
module Outcome {
  import opened Prelude
  import opened Crypto
  import opened Extensions
  import opened HandshakeMessages
  import opened Certificates
  import opened KeySchedule
  import opened Suites
  import opened Records
  import opened Offer
  import opened Steps
  import opened Runs
  import opened Reference
  import opened Channels
  import opened Script
  import opened Greeting
  import opened Pairs
  import opened Joint
  import opened Agreement
  import opened Acceptance

  /** The messages of a handshake; those that need a request for a client certificate count only if there is one. */
  datatype Messages = Messages(
    hello: Bytes,
    answer: Bytes,
    extensions: Bytes,
    request: Bytes,
    certificate: Bytes,
    verify: Bytes,
    finished: Bytes,
    clientCertificate: Bytes,
    clientVerify: Bytes,
    clientFinished: Bytes)

  function Optional(asks: bool, message: Bytes): Bytes { if asks then message else [] }

  function ThroughCertificate(m: Messages, asks: bool): Bytes {
    m.hello + m.answer + m.extensions + Optional(asks, m.request) + m.certificate
  }

  function ThroughFinished(m: Messages, asks: bool): Bytes {
    ThroughCertificate(m, asks) + m.verify + m.finished
  }

  function ThroughClientVerify(m: Messages, asks: bool): Bytes {
    ThroughFinished(m, asks) + Optional(asks, m.clientCertificate) + Optional(asks, m.clientVerify)
  }

  function All(m: Messages, asks: bool): Bytes { ThroughClientVerify(m, asks) + m.clientFinished }

  /** Every secret, key and IV from the shared secret and the two transcript hashes: handshake keys over the two hellos,
      application keys over everything through the server's Finished. */
  ghost predicate KeysAre(cr: Crypto, km: KeyMaterial, m: Messages, asks: bool) {
    var d := DERIVED + cr.hash([]) + [1];
    var handshake := cr.hmac(cr.hmac(cr.hmac(Zeros(32), Zeros(32)), d), km.sharedSecret);
    var master := cr.hmac(cr.hmac(handshake, d), Zeros(32));
    var atHellos, atFinished := cr.hash(m.hello + m.answer), cr.hash(ThroughFinished(m, asks));
    && TrafficIs(cr, km.clientHandshake, cr.hmac(handshake, C_HS + atHellos + [1]))
    && TrafficIs(cr, km.serverHandshake, cr.hmac(handshake, S_HS + atHellos + [1]))
    && TrafficIs(cr, km.clientApp, cr.hmac(master, C_AP + atFinished + [1]))
    && TrafficIs(cr, km.serverApp, cr.hmac(master, S_AP + atFinished + [1]))
    && km.masterSecret == master
    && km.resumptionSecret == cr.hmac(master, RES_MASTER + cr.hash([]) + [1])
  }

  /** A CertificateVerify signed with the key of this end over a transcript. */
  ghost predicate Signed(e: Env, byClient: bool, transcript: Bytes, message: Bytes) {
    && e.config.localKey.Some?
    && var content := SignedContent(SignatureContext(byClient), e.crypto.hash(transcript));
      message == CertificateVerifyBytes(CertificateVerify(0x0708,
        e.crypto.sign(e.config.localKey.value, content, e.rnd.signing)))
  }

  /** A Finished under a traffic secret over a transcript. */
  ghost predicate Confirmed(cr: Crypto, secret: Bytes, transcript: Bytes, message: Bytes) {
    message == [20, 0, 0, 32] + cr.hmac(cr.hmac(secret, FINISHED_LABEL + [1]), cr.hash(transcript))
  }

  /** What each proof covers: everything before it. */
  ghost predicate ProofsAre(x: Ctx, km: KeyMaterial, m: Messages, asks: bool) {
    var cr := x.se.crypto;
    && Signed(x.se, false, ThroughCertificate(m, asks), m.verify)
    && Confirmed(cr, km.serverHandshake.secret, ThroughCertificate(m, asks) + m.verify, m.finished)
    && (asks ==> Signed(x.ce, true, ThroughFinished(m, asks) + m.clientCertificate, m.clientVerify))
    && Confirmed(cr, km.clientHandshake.secret, ThroughClientVerify(m, asks), m.clientFinished)
  }

  /** The other messages, whose bytes are laid out in `Wire`. */
  ghost predicate MessagesAre(x: Ctx, hs: HandshakeState, m: Messages, asks: bool) {
    && m.hello == HelloBytes(x.ce.crypto,
         Hello(x.ce.rnd.clientRandom, x.ce.rnd.sessionID, x.ce.config.serverName, x.ce.config.nextProtos,
               Tagged(41, x.ce.crypto.sm2Share(x.ce.rnd.sm2Key(0)))),
         x.clientTickets.cache, x.ce.clock(x.clientTickets.ticks))
    && hs.suite.Some?
    && m.answer == ServerHelloBytes(ServerHelloOf(x.se, hs, Tagged(41, x.se.crypto.sm2Share(x.se.rnd.sm2Key(0)))))
    && m.extensions ==
       EncryptedExtensionsBytes(if hs.negotiatedProto != [] then [Alpn([hs.negotiatedProto])] else [])
    && m.request == CertificateRequestBytes([0x0708])
    && x.se.config.localCert.Some? && m.certificate == CertificateBytes(x.se.config.localCert.value, [])
    && (asks ==>
          x.ce.config.localCert.Some? && m.clientCertificate == CertificateBytes(x.ce.config.localCert.value, []))
  }

  /** An end's certificate as the other holds it: the chain that was sent, its first entry and the key in that. */
  ghost predicate Holds(cr: Crypto, held: Option<Certificate>, sent: Certificate) {
    var chain := SentChain(sent);
    held == Some(if chain == [] then Certificate([], [], None)
                 else Certificate(chain[0], chain, cr.certificateKey(chain[0])))
  }

  /** Records one after the other: the handshake messages under one key from number 0 on, then the application's data
      under the other from number 0 on, each with its header as additional data. */
  ghost predicate SealedInOrder(seals: seq<Use>, hk: Traffic, hs: seq<Bytes>, ak: Traffic, app: seq<Bytes>)
    requires |hk.iv| == 12 && |ak.iv| == 12
  {
    && |seals| == |hs| + |app|
    && (forall i :: 0 <= i < |hs| ==>
          seals[i] == Use(RecordCipher.HandshakeKeys, hk.key, hk.iv, i % 0x1_0000_0000_0000_0000, HeaderFor(hs[i])))
    && (forall i :: 0 <= i < |app| ==>
          seals[|hs| + i] ==
          Use(RecordCipher.ApplicationKeys, ak.key, ak.iv, i % 0x1_0000_0000_0000_0000, HeaderFor(app[i])))
  }

  /** The header over a payload with its type byte and tag. */
  function HeaderFor(payload: Bytes): Bytes {
    var n := |payload| + 1 + 16;
    [23, 3, 3, n / 256 % 256, n % 256]
  }

  function FromServer(m: Messages, asks: bool): seq<Bytes> {
    [m.extensions] + (if asks then [m.request] else []) + [m.certificate, m.verify, m.finished]
  }

  function FromClient(m: Messages, asks: bool): seq<Bytes> {
    (if asks then [m.clientCertificate, m.clientVerify] else []) + [m.clientFinished]
  }

  /** The handshake fields of two ends that have gone through these messages. */
  ghost predicate WrittenOut(x: Ctx, c: HandshakeState, s: HandshakeState, m: Messages) {
    var asks := x.se.config.requireClientCert || x.se.config.hasClientCAs;
    && c.transcript == s.transcript == All(m, asks)
    && MessagesAre(x, c, m, asks) && ProofsAre(x, c.keys, m, asks)
    && KeysAre(x.se.crypto, c.keys, m, asks) && s.keys == c.keys
    && x.se.crypto.sm2Agree(x.se.rnd.sm2Key(0), x.ce.crypto.sm2Share(x.ce.rnd.sm2Key(0))) ==
       Some(c.keys.sharedSecret)
    && Holds(x.se.crypto, c.peerCert, x.se.config.localCert.value)
    && (if asks then Holds(x.se.crypto, s.peerCert, x.ce.config.localCert.value) else s.peerCert == None)
    && c.negotiatedProto == if x.se.config.nextProtos != [] && x.ce.config.nextProtos != [] then
         SelectAlpn(x.se.config.nextProtos, x.ce.config.nextProtos)
       else []
  }

  /** The records of two ends that have gone through these messages: the server's after its hello and the client's after
      the server's flight under their handshake keys, all data under the application keys, numbered from zero. */
  ghost predicate RecordsOf(x: Ctx, p: Pair, m: Messages) {
    var asks, km := x.se.config.requireClientCert || x.se.config.hasClientCAs, p.c.hs.keys;
    && p.c.hs.transcript == All(m, asks)
    && |km.serverHandshake.iv| == |km.serverApp.iv| == |km.clientHandshake.iv| == |km.clientApp.iv| == 12
    && SealedInOrder(p.s.rec.seals, km.serverHandshake, FromServer(m, asks), km.serverApp, p.sWritten)
    && SealedInOrder(p.c.rec.seals, km.clientHandshake, FromClient(m, asks), km.clientApp, p.cWritten)
  }

  // ----- when there is something to agree on -----

  /** The part of the condition for completion that is about the hellos: the server allows one of the two suites that
      the client offers, and its SM2 agreement takes the client's share. */
  lemma AgreeableExactly(x: Ctx)
    ensures var own := if x.se.config.cipherSuites != [] then x.se.config.cipherSuites else [0xC6, 0x1306];
      Agreeable(x) <==>
      && (0xC6 in own || 0x1306 in own)
      && x.se.crypto.sm2Agree(x.se.rnd.sm2Key(0), x.ce.crypto.sm2Share(x.ce.rnd.sm2Key(0))).Some?
  {
    hide SelectFrom, SuiteByID, Normalize, SameSuite;
    var own := ServerSuites(x.se.config);
    SelectFromCorrect(own, OFFERED_SUITES, OFFERED_GROUPS, [SM2SM3]);
    forall i | 0 <= i < |own| ensures Common(own[i], OFFERED_SUITES) <==> own[i] == 0xC6 || own[i] == 0x1306 {
      OfferedExactly(own[i]);
    }
  }

  lemma OfferedExactly(id: u16)
    ensures Common(id, OFFERED_SUITES) <==> id == 0xC6 || id == 0x1306
  {
    hide SuiteByID, Normalize, SameSuite;
    var offered := OFFERED_SUITES;
    assert offered == [0xC6, 0x1306, 0xFF];
    NormalNumbers(id);
    SameIsNormal(offered[0], id);
    SameIsNormal(offered[1], id);
    SameIsNormal(offered[2], id);
    if KnownSuite(id) {
      SameAsOffered(id);
    }
  }

  lemma SameAsOffered(id: u16)
    requires KnownSuite(id)
    ensures SameSuite(0xC6, id) || SameSuite(0x1306, id) || SameSuite(0xFF, id) <==> id == 0xC6 || id == 0x1306
  {
  }

  // ----- the switch of keys, against any peer -----

  /** A cipher under the key and IV of a traffic secret, at number 0. */
  ghost predicate InstalledFor(cr: Crypto, cipher: Option<RecordCipher.Cipher>, epoch: RecordCipher.Epoch,
          secret: Bytes) {
    cipher == Some(RecordCipher.Cipher(epoch, cr.hmac(secret, KEY + [1])[..16], cr.hmac(secret, IV + [1])[..12], 0, 0))
  }

  /** What a client does on the server's Finished: it notes the hash through it and reads on under the server's
      application key, before it has sent anything of its own. */
  lemma SwitchesOnFinished(e: Env, c: ConnState)
    requires ClientReady(CReadFinished, c) && c.hs.keys.masterSecret != []
    requires c.hs.suite.value.keyLen == 16 && c.hs.suite.value.ivLen == 12
    ensures var (pc', c') := ClientStep(e, CReadFinished, c); var digest := e.crypto.hash(c'.hs.transcript);
      !pc'.CFailed? ==>
      && pc' == (if c.hs.certRequested then CSendCertificate else CSendFinished)
      && c'.hs.serverFinishedHash == Some(digest)
      && InstalledFor(e.crypto, c'.rec.inCipher, RecordCipher.ApplicationKeys,
                      e.crypto.hmac(c.hs.keys.masterSecret, S_AP + digest + [1]))
      && c'.rec.outCipher == c.rec.outCipher && c'.rec.complete == c.rec.complete
  {
    hide ReadMessage, ParseFinished, VerifyData, ServerAppTraffic, ClientAppTraffic;
    var s := ReadFinished(e, c);
    if s.result.Success? {
      ApplicationWrittenOut(e.crypto, s.state.hs);
      MessageKeepsCipher(e, c);
    }
  }

  lemma MessageKeepsCipher(e: Env, c: ConnState)
    ensures var r := ReadMessage(e, c).state.rec; r.outCipher == c.rec.outCipher && r.complete == c.rec.complete
  {
    MessageKeepsSending(e.crypto, c.rec);
  }

  lemma {:induction false} MessageKeepsSending(cr: Crypto, r: RecordState)
    ensures var r' := ReadHandshakeMsg(cr, r).state; r'.outCipher == r.outCipher && r'.complete == r.complete
    decreases |r.inbound|
  {
    hide HandshakeContent, Unwrap;
    if !HasMessage(r.handshakeBuf) {
      var s := ReadRecord(cr, r);
      if s.result.Success? {
        if s.result.value.typ == 20 {
          MessageKeepsSending(cr, s.state);
        } else if HandshakeContent(s.result.value).Success? {
          var content := HandshakeContent(s.result.value).value;
          MessageKeepsSending(cr, s.state.(handshakeBuf := s.state.handshakeBuf + content));
        }
      }
    }
  }

  /** The end of either handshake: both directions under the application keys, crosswise, from number 0 on. */
  lemma CompletesUnder(e: Env, c: ConnState)
    requires c.hs.suite.Some? && c.hs.suite.value.keyLen == 16 && c.hs.suite.value.ivLen == 12
    requires c.hs.keys.masterSecret != [] && c.hs.serverFinishedHash.Some?
    ensures var r, digest := Complete(e, c).rec, c.hs.serverFinishedHash.value;
      var byClient := e.crypto.hmac(c.hs.keys.masterSecret, C_AP + digest + [1]);
      var byServer := e.crypto.hmac(c.hs.keys.masterSecret, S_AP + digest + [1]);
      var (own, peer) := if c.rec.isClient then (byClient, byServer) else (byServer, byClient);
      && r.complete
      && InstalledFor(e.crypto, r.inCipher, RecordCipher.ApplicationKeys, peer)
      && InstalledFor(e.crypto, r.outCipher, RecordCipher.ApplicationKeys, own)
  {
    hide ServerAppTraffic, ClientAppTraffic;
    ApplicationWrittenOut(e.crypto, c.hs);
  }

  // ----- the script written out -----

  function MessagesOf(x: Ctx): Messages {
    Messages(Msg(x, 0), Msg(x, 1), Msg(x, 2), Msg(x, 3), Msg(x, 4), Msg(x, 5), Msg(x, 6), Msg(x, 7), Msg(x, 8),
      Msg(x, 9))
  }

  predicate AsksFor(x: Ctx) { x.se.config.requireClientCert || x.se.config.hasClientCAs }

  lemma TranscriptStep(x: Ctx, p: nat)
    requires p < AT_END
    ensures Transcript(x, 0) == []
    ensures Transcript(x, p + 1) ==
      if !AsksFor(x) && (p == 3 || p == 7 || p == 8) then Transcript(x, p) else Transcript(x, p) + Msg(x, p)
  {
    hide Msg;
  }

  lemma TranscriptsWrittenOut(x: Ctx)
    ensures var m, asks := MessagesOf(x), AsksFor(x);
      && Transcript(x, 2) == m.hello + m.answer
      && Transcript(x, 5) == ThroughCertificate(m, asks)
      && Transcript(x, 6) == ThroughCertificate(m, asks) + m.verify
      && Transcript(x, 7) == ThroughFinished(m, asks)
      && (asks ==> Transcript(x, 8) == ThroughFinished(m, asks) + m.clientCertificate)
      && Transcript(x, 9) == ThroughClientVerify(m, asks)
      && Transcript(x, 10) == All(m, asks)
  {
    hide Msg, Transcript;
    TranscriptStep(x, 0);
    TranscriptStep(x, 1);
    TranscriptStep(x, 2);
    TranscriptStep(x, 3);
    TranscriptStep(x, 4);
    TranscriptStep(x, 5);
    TranscriptStep(x, 6);
    TranscriptStep(x, 7);
    TranscriptStep(x, 8);
    TranscriptStep(x, 9);
    assert [] + Msg(x, 0) == Msg(x, 0);
    var m := MessagesOf(x);
    assert m.hello + m.answer + m.extensions + [] == m.hello + m.answer + m.extensions;
    assert ThroughFinished(m, false) + [] + [] == ThroughFinished(m, false);
  }

  lemma ServerFlight(x: Ctx)
    ensures ServerMsgs(x, AT_END) == FromServer(MessagesOf(x), AsksFor(x))
  {
    hide Msg;
    assert ServerMsgs(x, 2) == [] && ServerMsgs(x, 3) == [Msg(x, 2)];
    assert ServerMsgs(x, 4) == [Msg(x, 2)] + (if AsksFor(x) then [Msg(x, 3)] else []);
    assert ServerMsgs(x, 5) == ServerMsgs(x, 4) + [Msg(x, 4)];
    assert ServerMsgs(x, 6) == ServerMsgs(x, 5) + [Msg(x, 5)];
    assert ServerMsgs(x, 7) == ServerMsgs(x, 6) + [Msg(x, 6)];
    assert ServerMsgs(x, 10) == ServerMsgs(x, 9) == ServerMsgs(x, 8) == ServerMsgs(x, 7);
  }

  lemma ClientFlight(x: Ctx)
    ensures ClientMsgs(x, AT_END) == FromClient(MessagesOf(x), AsksFor(x))
  {
    hide Msg;
    assert ClientMsgs(x, 7) == [];
    assert ClientMsgs(x, 8) == if AsksFor(x) then [Msg(x, 7)] else [];
    assert ClientMsgs(x, 9) == if AsksFor(x) then [Msg(x, 7), Msg(x, 8)] else [];
    assert ClientMsgs(x, 10) == ClientMsgs(x, 9) + [Msg(x, 9)];
  }

  lemma UsesAre(hk: Traffic, hs: seq<Bytes>, ak: Traffic, app: seq<Bytes>)
    requires |hk.iv| == 12 && |ak.iv| == 12
    ensures SealedInOrder(AllUses(hk, hs, ak, app), hk, hs, ak, app)
  {
    hide Uses, HeaderFor;
    UsesHeaders(RecordCipher.HandshakeKeys, hk, hs);
    UsesHeaders(RecordCipher.ApplicationKeys, ak, app);
  }

  lemma UsesHeaders(epoch: RecordCipher.Epoch, t: Traffic, msgs: seq<Bytes>)
    requires |t.iv| == 12
    ensures forall i :: 0 <= i < |msgs| ==>
      Uses(epoch, t, msgs)[i] == Use(epoch, t.key, t.iv, i % 0x1_0000_0000_0000_0000, HeaderFor(msgs[i]))
  {
    hide HeaderFor, RecordCipher.AdditionalData;
    forall i | 0 <= i < |msgs|
      ensures Uses(epoch, t, msgs)[i] == Use(epoch, t.key, t.iv, i % 0x1_0000_0000_0000_0000, HeaderFor(msgs[i]))
    {
      HeaderIsData(msgs[i]);
    }
  }

  lemma HeaderIsData(payload: Bytes)
    ensures RecordCipher.AdditionalData(|payload| + 17) == HeaderFor(payload)
  {
  }

  /** The keys at the end of the script. */
  lemma FinalKeysAre(x: Ctx)
    requires AgreedSecret(x).Some?
    ensures KeysAre(x.se.crypto, FinalKeys(x), MessagesOf(x), AsksFor(x))
    ensures x.se.crypto.sm2Agree(x.se.rnd.sm2Key(0), x.ce.crypto.sm2Share(x.ce.rnd.sm2Key(0))) ==
      Some(FinalKeys(x).sharedSecret)
  {
    hide Transcript, AllKeys, AppTraffic, TrafficIs, MessagesOf, ThroughFinished, ClientHelloIn, ServerHelloIn, Ascii;
    var cr, secret := x.se.crypto, AgreedSecret(x).value;
    TranscriptsWrittenOut(x);
    HelloTranscripts(x);
    var digest := cr.hash(Transcript(x, 2));
    ScheduleWrittenOut(cr, secret, digest);
    AppKeysAre(x);
  }

  lemma AppKeysAre(x: Ctx)
    ensures var cr, master, digest := x.se.crypto, Keys(x).masterSecret, x.se.crypto.hash(Transcript(x, 7));
      && TrafficIs(cr, ClientApp(x), cr.hmac(master, C_AP + digest + [1]))
      && TrafficIs(cr, ServerApp(x), cr.hmac(master, S_AP + digest + [1]))
  {
    hide Transcript, Keys, TrafficFrom, TrafficIs, DeriveSecret, Ascii;
    AppTrafficWrittenOut(x.se.crypto, Keys(x).masterSecret, FinishedDigest(x));
  }

  lemma ProofsFollow(x: Ctx)
    requires x.se.config.localKey.Some? && (AsksFor(x) ==> x.ce.config.localKey.Some?) && x.ce.crypto == x.se.crypto
    ensures ProofsAre(x, FinalKeys(x), MessagesOf(x), AsksFor(x))
  {
    hide Transcript, Keys, ServerApp, ClientApp, ThroughCertificate, ThroughFinished, ThroughClientVerify, VerifyData,
      SignedContent, CertificateVerifyBytes, SignatureContext, ClientHelloIn, ServerHelloIn, CertificateIn,
      FinishedBytes;
    var cr, km := x.se.crypto, Keys(x);
    TranscriptsWrittenOut(x);
    ConfirmedBy(cr, km.serverHandshake.secret, Transcript(x, 6));
    ConfirmedBy(cr, km.clientHandshake.secret, Transcript(x, 9));
  }

  lemma ConfirmedBy(cr: Crypto, secret: Bytes, transcript: Bytes)
    ensures Confirmed(cr, secret, transcript, FinishedBytes(VerifyData(cr, secret, transcript)))
  {
    hide VerifyData;
    FinishedWrittenOut(cr, secret, transcript);
    assert [20] + U24(32) == [20, 0, 0, 32];
  }

  lemma MessagesFollow(x: Ctx)
    requires AgreedSuite(x).Some? && x.se.config.localCert.Some? && (AsksFor(x) ==> x.ce.config.localCert.Some?)
    requires x.ce.crypto == x.se.crypto
    ensures MessagesAre(x, ClientHs(x, AT_END), MessagesOf(x), AsksFor(x))
    ensures ClientHs(x, AT_END).negotiatedProto ==
      if x.se.config.nextProtos != [] && x.ce.config.nextProtos != [] then
        SelectAlpn(x.se.config.nextProtos, x.ce.config.nextProtos)
      else []
  {
    hide Transcript, Keys, ServerApp, ClientApp, FinishedDigest, AgreedSuite, HelloBytes, ServerHelloBytes, SelectAlpn,
      EncryptedExtensionsBytes, CertificateRequestBytes, CertificateBytes, ServerHelloExtensions, VerifyIn, VerifyData;
  }

  lemma PeersFollow(x: Ctx)
    requires x.se.config.localCert.Some? && (AsksFor(x) ==> x.ce.config.localCert.Some?)
    requires x.ce.crypto == x.se.crypto
    ensures Holds(x.se.crypto, ClientHs(x, AT_END).peerCert, x.se.config.localCert.value)
    ensures if AsksFor(x) then Holds(x.se.crypto, ServerHs(x, AT_END).peerCert, x.ce.config.localCert.value)
      else ServerHs(x, AT_END).peerCert == None
  {
    hide Transcript, Keys, ServerApp, ClientApp, FinishedDigest, AgreedSuite, Proto, SentChain;
  }

  lemma Reached(x: Ctx, p: Pair, w: View)
    requires Inv(x, p, w) && w.cp == AT_END == w.sp
    ensures AgreedSuite(x).Some? && AgreedSecret(x).Some?
    ensures x.se.config.localCert.Some? && x.se.config.localKey.Some?
    ensures AsksFor(x) ==> x.ce.config.localCert.Some? && x.ce.config.localKey.Some?
  {
    hide ClientIs, ServerIs, ClientStopped, ServerStopped, AgreedSuite, AgreedSecret;
  }

  /** A complete handshake, written out. The transcript of both ends is the messages in order, with those for a client
      certificate exactly if the server asks for one; the shared secret is the SM2 agreement of the two shares; every
      key is the one that RFC 8446 derives from it and from the hashes through the ServerHello and through the server's
      Finished; each proof covers everything before it; each end holds the other's certificate chain; and each record is
      sealed under the key and number due to it. */
  lemma HandshakeWrittenOut(x: Ctx, events: seq<Event>) returns (m: Messages)
    requires Sound(x) && Fitting(events)
    requires After(x, events).c.rec.complete && After(x, events).s.rec.complete
    ensures WrittenOut(x, After(x, events).c.hs, After(x, events).s.hs, m) && RecordsOf(x, After(x, events), m)
  {
    hide *;
    var w := RunKeepsInv(x, events);
    var p := After(x, events);
    m := MessagesOf(x);
    EndsWrittenOut(x, p, w);
    EndsSeal(x, p, w);
  }

  lemma EndsWrittenOut(x: Ctx, p: Pair, w: View)
    requires Sound(x) && Inv(x, p, w) && p.c.rec.complete && p.s.rec.complete
    ensures WrittenOut(x, p.c.hs, p.s.hs, MessagesOf(x))
  {
    hide Inv, ClientHs, ServerHs, MessagesAre, ProofsAre, KeysAre, Holds, All, MessagesOf, AgreedSuite, AgreedSecret,
      FinalKeys, ClientHelloIn, CertificateIn, Lawful, SelectAlpn, Transcript;
    BothAtEnd(x, p, w);
    Reached(x, p, w);
    FinishedEnds(x, p, w);
    TranscriptsWrittenOut(x);
    MessagesFollow(x);
    ProofsFollow(x);
    FinalKeysAre(x);
    PeersFollow(x);
    EndFields(x);
  }

  lemma EndFields(x: Ctx)
    ensures var c, s := ClientHs(x, AT_END), ServerHs(x, AT_END);
      c.transcript == s.transcript == Transcript(x, 10) && c.keys == s.keys == FinalKeys(x)
  {
    hide Transcript, Keys, ServerApp, ClientApp, FinishedDigest, AgreedSuite, Proto, FinalKeys, PeerOf;
  }

  lemma EndsSeal(x: Ctx, p: Pair, w: View)
    requires Sound(x) && Inv(x, p, w) && p.c.rec.complete && p.s.rec.complete
    ensures RecordsOf(x, p, MessagesOf(x))
  {
    hide Inv, ClientHs, ServerHs, All, MessagesOf, ClientHelloIn, CertificateIn, Lawful, Transcript, ClientRec,
      ServerRec, SealedInOrder, FromServer, FromClient, Keys, ServerApp, ClientApp, AllUses, ServerMsgs, ClientMsgs;
    FinishedEnds(x, p, w);
    TranscriptsWrittenOut(x);
    EndFields(x);
    ServerFlight(x);
    ClientFlight(x);
    LogsAre(x, AT_END, p.c.rec.inbound, p.c.rec.appReadBuf, p.cWritten, p.sWritten[..w.cRead]);
    LogsAre(x, AT_END, p.s.rec.inbound, p.s.rec.appReadBuf, p.sWritten, p.cWritten[..w.sRead]);
    UsesAre(Keys(x).serverHandshake, ServerMsgs(x, AT_END), ServerApp(x), p.sWritten);
    UsesAre(Keys(x).clientHandshake, ClientMsgs(x, AT_END), ClientApp(x), p.cWritten);
  }
}
