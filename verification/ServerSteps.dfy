/** One step of the server from each position of the script: it reaches the next position, sending the message that the
    script says or taking it off its input, or it fails for a reason that lies in the configurations. */
module ServerSteps {
  import opened Prelude
  import opened Crypto
  import opened Extensions
  import opened HandshakeMessages
  import opened Certificates
  import opened KeySchedule
  import opened Suites
  import opened RecordCipher
  import opened Records
  import opened Offer
  import opened Steps
  import opened Runs
  import opened Retry
  import opened Fragmentation
  import opened Channels
  import opened Script
  import opened Greeting

  // ----- ClientHello -----

  lemma SharePreferred(share: KeyShareEntry)
    requires share.tag == CURVE_SM2
    ensures PreferredShare([share]) == Some(share)
  {
  }

  lemma Negotiates(x: Ctx, c: ConnState)
    requires c.hs == ServerHs(x, 1).(suite := None, negotiatedProto := [], clientShare := None)
    ensures var s := Negotiate(x.se, c, OfferOf(ClientHelloOf(x)));
      if AgreedSuite(x) == None then
        s.result.Failure? && s.state.rec == c.rec && s.state.hs.transcript == c.hs.transcript
      else s == Step(c.(hs := ServerHs(x, 1)), OK)
  {
    hide Select, ServerSuites, SelectAlpn, Transcript, Msg, Keys, FirstShare, PreferredShare;
    SharePreferred(ClientShareOf(x));
  }

  lemma HelloMove(x: Ctx, v: Tail)
    ensures ServerMove(x, 0, v) == GotoS(ReadClientHello(x.se, ServerState(x, 0, v)), SReadHello, SSendHello)
  {
    hide ServerState, SendEncryptedExtensions, SendCertificateRequest, SendCertificate, SendCertificateVerify,
      AgreedSuite, ReadClientHello, SendServerHello, SendFinished, ServerStartReceiving, ReadClientCertificate,
      ReadCertificateVerify, ReadFinished, Complete;
  }

  lemma TakesHello(x: Ctx, v: Tail, rest: Bytes)
    requires Sound(x) && Quiet(v) && v.inbound == FirstFlight(x.ce, x.clientTickets) + rest
    ensures var c := ServerState(x, 0, v.(inbound := rest));
      ReadClientHello(x.se, ServerState(x, 0, v)) ==
      Negotiate(x.se, c.(hs := ServerHs(x, 1).(suite := None, negotiatedProto := [], clientShare := None)),
        OfferOf(ClientHelloOf(x)))
  {
    hide Negotiate, ReadOffer, ParseClientHello, ReadRecord, RecordBytes, AgreedSuite, Keys, Lawful, AllExtensions,
      BaseExtensions, HelloBytes, ClientMsgs, ServerMsgs, Uses, ServerApp, ClientApp, ServerHelloIn;
    var c := ServerState(x, 0, v);
    ReadsPlainRecord(x.se.crypto, c.rec, HANDSHAKE, VERSION_TLS10, ClientHelloIn(x), rest);
    ClientHelloParses(x);
  }

  lemma HelloOutcome(x: Ctx, v: Tail)
    requires Quiet(v)
    ensures var c := ServerState(x, 0,
      v).(hs := ServerHs(x, 1).(suite := None, negotiatedProto := [], clientShare := None));
      var s := Negotiate(x.se, c, OfferOf(ClientHelloOf(x)));
      if AgreedSuite(x) == None
      then s.result.Failure? && s.state.rec == ServerRec(x, 0, v.inbound, [], [], [])
        && s.state.hs.transcript == Transcript(x, 1)
      else s == Step(ServerState(x, 1, v), OK)
  {
    hide Negotiate, AgreedSuite, Keys, Transcript, Proto, ClientMsgs, ServerMsgs, Uses, ServerApp, ClientApp, OfferOf;
    var c := ServerState(x, 0, v).(hs := ServerHs(x, 1).(suite := None, negotiatedProto := [], clientShare := None));
    Negotiates(x, c);
    NoMsgsYet(x, 0);
    NoMsgsYet(x, 1);
  }

  lemma ServerReadsHello(x: Ctx, v: Tail, rest: Bytes)
    requires Sound(x) && Quiet(v) && v.inbound == FirstFlight(x.ce, x.clientTickets) + rest
    ensures AgreedSuite(x) == None ==> var (pc', s') := ServerMove(x, 0, v);
      pc'.SFailed? && s'.rec == ServerRec(x, 0, rest, [], [], []) && s'.hs.transcript == Transcript(x, 1)
    ensures AgreedSuite(x).Some? ==> ServerMove(x, 0, v) == (SSendHello, ServerState(x, 1, v.(inbound := rest)))
  {
    hide ServerMove, Negotiate, ReadClientHello, ServerState, ServerHs, ServerRec, FirstFlight, AgreedSuite, Sound,
      Transcript, OfferOf;
    HelloMove(x, v);
    TakesHello(x, v, rest);
    HelloOutcome(x, v.(inbound := rest));
  }

  // ----- ServerHello -----

  lemma SecretWidth(x: Ctx)
    requires Lawful(x.se.crypto)
    ensures AgreedSecret(x).Some? ==> |AgreedSecret(x).value| == 32
  {
  }

  /** Deriving from the agreed secret and both hellos gives the keys of the script, on either side. */
  lemma DerivesKeys(x: Ctx, hs: HandshakeState)
    requires Lawful(x.se.crypto) && Agreeable(x)
    requires hs.transcript == Transcript(x, 2) && hs.suite == AgreedSuite(x)
      && hs.keys.sharedSecret == AgreedSecret(x).value
    ensures DeriveHandshakeKeys(x.se.crypto, hs) == hs.(keys := Keys(x))
  {
    hide Lawful, AgreedSecret, AgreedSuite, AllKeys, Transcript, ClientHelloIn, ServerHelloIn;
    SecretWidth(x);
    AgreedSuiteWidth(x);
    HelloTranscripts(x);
  }

  lemma PlainHello(x: Ctx, v: Tail)
    requires Quiet(v)
    ensures WriteRecord(x.se.crypto, ServerState(x, 1, v).rec, HANDSHAKE, ServerHelloIn(x)) ==
            ServerState(x, 1, v).rec.(outbound := RecordBytes(HANDSHAKE, RECORD_VERSION, ServerHelloIn(x)))
  {
    hide Keys, RecordBytes, ServerHelloIn, SealRecord;
    assert [] + RecordBytes(HANDSHAKE, RECORD_VERSION, ServerHelloIn(x)) ==
      RecordBytes(HANDSHAKE, RECORD_VERSION, ServerHelloIn(x));
  }

  lemma HelloRec(x: Ctx, v: Tail, outbound: Bytes)
    requires Quiet(v)
    ensures var r := ServerRec(x, 1, v.inbound, [], [], []).(outbound := outbound);
      Install(r.(serverEncrypted := true),
        Cipher(HandshakeKeys, Keys(x).serverHandshake.key, Keys(x).serverHandshake.iv, 0, 0)) ==
      ServerRec(x, 2, v.inbound, [], [], []).(outbound := outbound)
  {
    hide Keys, ServerApp, ClientApp;
  }

  lemma SendsServerHello(x: Ctx, v: Tail)
    requires Sound(x) && Quiet(v) && AgreedSuite(x).Some?
    ensures AgreedSecret(x) == None ==>
      SendServerHello(x.se, ServerState(x, 1, v)).result.Failure? &&
      SendServerHello(x.se, ServerState(x, 1, v)).state ==
        ServerState(x, 1, v).(hs := ServerHs(x, 1).(serverRandom := x.se.rnd.serverRandom))
    ensures AgreedSecret(x).Some? ==>
      SendServerHello(x.se, ServerState(x, 1, v)) ==
      Step(WithOutput(ServerState(x, 2, v), RecordBytes(HANDSHAKE, RECORD_VERSION, ServerHelloIn(x))), OK)
  {
    hide Lawful, AgreedSuite, AgreedSecret, Keys, DeriveHandshakeKeys, RecordBytes, ServerHelloBytes, Msg,
      ServerHelloExtensions, Proto, WriteRecord, ServerRec, ServerMsgs, ClientMsgs, Transcript, Install;
    PlainHello(x, v);
    HelloRec(x, v, RecordBytes(HANDSHAKE, RECORD_VERSION, ServerHelloIn(x)));
    SecretMeans(x);
    if AgreedSecret(x).Some? {
      var hs := ServerHs(x, 1).(serverRandom := x.se.rnd.serverRandom, transcript := Transcript(x, 2),
        keys := NO_KEYS.(clientPrivateShare := Some(x.se.rnd.sm2Key(0)), sharedSecret := AgreedSecret(x).value,
          serverPublicShare := ServerShareOf(x).data));
      DerivesKeys(x, hs);
      HelloGrows(x);
      assert ServerHs(x, 2) == hs.(keys := Keys(x));
    }
  }

  lemma SecretMeans(x: Ctx)
    ensures ServerSecret(x.se, ClientShareOf(x)) == Agreed(AgreedSecret(x))
  {
  }

  lemma HelloGrows(x: Ctx)
    ensures Transcript(x, 2) == Transcript(x, 1) + ServerHelloIn(x)
  {
    hide ServerHelloIn;
  }

  lemma ServerSendsHello(x: Ctx, v: Tail)
    requires Sound(x) && Quiet(v) && AgreedSuite(x).Some?
    ensures AgreedSecret(x) == None ==> var (pc', s') := ServerMove(x, 1, v);
      pc'.SFailed? && s'.rec == ServerRec(x, 1, v.inbound, [], [], []) && s'.hs.transcript == Transcript(x, 1)
    ensures AgreedSecret(x).Some? ==>
      ServerMove(x, 1, v) ==
      (SSendExtensions, WithOutput(ServerState(x, 2, v), RecordBytes(HANDSHAKE, RECORD_VERSION, ServerHelloIn(x))))
  {
    hide Sound, SendServerHello, AgreedSecret, AgreedSuite, Keys, ServerHs, ServerRec, RecordBytes, Transcript;
    SendsServerHello(x, v);
    ServerHsTranscript(x, 1);
  }

  lemma ServerHsTranscript(x: Ctx, p: nat)
    requires 0 < p <= AT_END
    ensures ServerHs(x, p).transcript == Transcript(x, p)
  {
    hide AgreedSuite, Keys, Transcript, Proto, FinalKeys;
  }

  // ----- the server's encrypted messages -----

  function ServerOutput(x: Ctx, p: nat): Bytes
    requires p < AT_END
  {
    SealedBytes(x.se.crypto, SealerAt(HandshakeKeys, Keys(x).serverHandshake, |ServerMsgs(x, p)|), HANDSHAKE, Msg(x, p))
  }

  lemma SealsMessage(x: Ctx, p: nat, v: Tail)
    requires Position(x, p) && AT_EXTENSIONS <= p <= AT_FINISHED && Quiet(v)
    ensures var r := ServerRec(x, p, v.inbound, [], [], []);
      WriteRecord(x.se.crypto, r, HANDSHAKE, Msg(x, p)) ==
      r.(outbound := ServerOutput(x, p),
         outCipher := Some(SealerAt(HandshakeKeys, Keys(x).serverHandshake, |ServerMsgs(x, Next(x, p))|)),
         seals := Uses(HandshakeKeys, Keys(x).serverHandshake, ServerMsgs(x, Next(x, p))))
  {
    hide Keys, Msg, SealRecord, RecordBytes, AdditionalData, ServerApp, ClientApp, ServerMsgs, ClientMsgs, Uses;
    Advances(x, p);
    CountsOn(HandshakeKeys, Keys(x).serverHandshake, |ServerMsgs(x, p)|);
    UsesSnoc(HandshakeKeys, Keys(x).serverHandshake, ServerMsgs(x, p), Msg(x, p));
    assert [] + ServerOutput(x, p) == ServerOutput(x, p);
  }

  /** Appending the message of a position to the transcript and sealing it is the way to the next position. */
  lemma SendsMessage(x: Ctx, p: nat, v: Tail)
    requires Position(x, p) && AT_EXTENSIONS <= p <= AT_VERIFY && Quiet(v)
    ensures SendMessage(x.se, ServerState(x, p, v), Msg(x, p)) ==
      WithOutput(ServerState(x, Next(x, p), v), ServerOutput(x, p))
  {
    hide Keys, Msg, WriteRecord, ServerOutput, ServerApp, ClientApp, ServerMsgs, ClientMsgs, Uses, Transcript,
      AgreedSuite, Proto;
    SealsMessage(x, p, v);
    Advances(x, p);
    NoMsgsYet(x, p);
    NoMsgsYet(x, Next(x, p));
  }

  lemma ServerFacts(x: Ctx, p: nat, v: Tail)
    requires AT_EXTENSIONS <= p <= AT_END
    ensures var c := ServerState(x, p, v);
      && !c.rec.isClient && c.hs.negotiatedProto == Proto(x) && c.hs.clientSigSchemes == [SM2SM3]
      && c.hs.certReqContext == []
      && c.hs.transcript == Transcript(x, p)
      && (p < AT_END ==> c.hs.keys == Keys(x)) && c.hs.suite == AgreedSuite(x)
  {
    hide AgreedSuite, Keys, Transcript, Proto, FinalKeys, ServerMsgs, ClientMsgs, AllUses, ServerApp, ClientApp;
  }

  /** Which function a position's step is. */
  lemma SendingMove(x: Ctx, p: nat, v: Tail)
    requires AT_EXTENSIONS <= p <= AT_VERIFY && AgreedSuite(x).Some?
    ensures var c := ServerState(x, p, v);
      ServerMove(x, p, v) == match p
        case 2 => GotoS(SendEncryptedExtensions(x.se, c), SSendExtensions,
          if Asks(x) then SSendRequest else SSendCertificate)
        case 3 => GotoS(SendCertificateRequest(x.se, c), SSendRequest, SSendCertificate)
        case 4 => GotoS(SendCertificate(x.se, c), SSendCertificate, SSendVerify)
        case _ => GotoS(SendCertificateVerify(x.se, c), SSendVerify, SSendFinished)
  {
    hide ServerState, SendEncryptedExtensions, SendCertificateRequest, SendCertificate, SendCertificateVerify,
      AgreedSuite, ReadClientHello, SendServerHello, SendFinished, ServerStartReceiving, ReadClientCertificate,
      ReadCertificateVerify, ReadFinished, Complete;
  }

  lemma ServerSendsExtensions(x: Ctx, v: Tail)
    requires Quiet(v) && AgreedSuite(x).Some?
    ensures ServerMove(x, 2, v) ==
      (ServerPcAt(Next(x, 2)), WithOutput(ServerState(x, Next(x, 2), v), ServerOutput(x, 2)))
  {
    hide ServerMove, SendMessage, ServerState, ServerOutput, EncryptedExtensionsBytes, Alpn, AgreedSuite, Proto;
    SendsMessage(x, 2, v);
    ServerFacts(x, 2, v);
    SendingMove(x, 2, v);
  }

  lemma ServerSendsRequest(x: Ctx, v: Tail)
    requires Quiet(v) && AgreedSuite(x).Some? && Asks(x)
    ensures ServerMove(x, 3, v) == (ServerPcAt(4), WithOutput(ServerState(x, 4, v), ServerOutput(x, 3)))
  {
    hide ServerMove, SendMessage, ServerState, ServerOutput, CertificateRequestBytes, AgreedSuite;
    SendsMessage(x, 3, v);
    ServerFacts(x, 3, v);
    SendingMove(x, 3, v);
  }

  lemma ServerSendsCertificate(x: Ctx, v: Tail)
    requires Quiet(v) && AgreedSuite(x).Some?
    ensures x.se.config.localCert.Some? ==>
      ServerMove(x, 4, v) == (ServerPcAt(5), WithOutput(ServerState(x, 5, v), ServerOutput(x, 4)))
    ensures x.se.config.localCert == None ==>
      ServerMove(x, 4, v) == (SFailed(SSendCertificate, CertificateMissing), ServerState(x, 4, v))
  {
    hide ServerMove, SendMessage, ServerState, ServerOutput, CertificateBytes, AgreedSuite;
    SendsMessage(x, 4, v);
    ServerFacts(x, 4, v);
    SendingMove(x, 4, v);
  }

  lemma ServerSendsVerify(x: Ctx, v: Tail)
    requires Quiet(v) && AgreedSuite(x).Some?
    ensures x.se.config.localKey.Some? ==>
      ServerMove(x, 5, v) == (ServerPcAt(6), WithOutput(ServerState(x, 6, v), ServerOutput(x, 5)))
    ensures x.se.config.localKey == None ==>
      ServerMove(x, 5, v) == (SFailed(SSendVerify, PrivateKeyMissing), ServerState(x, 5, v))
  {
    hide ServerMove, SendMessage, ServerState, ServerOutput, CertificateVerifyBytes, SignedContent, SignatureContext,
      AgreedSuite, Transcript, Proto;
    SendsMessage(x, 5, v);
    ServerFacts(x, 5, v);
    SendingMove(x, 5, v);
  }

  // ----- the server's Finished -----

  lemma SendsFinished(x: Ctx, v: Tail)
    requires Quiet(v)
    ensures SendFinished(x.se, ServerState(x, 6, v)) ==
      Step(ServerState(x, 6, v).(
             hs := ServerHs(x, 6).(transcript := Transcript(x, 7), serverFinishedHash := Some(FinishedDigest(x))),
             rec := WriteRecord(x.se.crypto, ServerState(x, 6, v).rec, HANDSHAKE, Msg(x, 6))), OK)
  {
    hide Keys, VerifyData, FinishedBytes, WriteRecord, ServerApp, ClientApp, ServerMsgs, ClientMsgs, Uses, AgreedSuite,
      Proto, Transcript;
    FinishedGrows(x);
  }

  lemma FinishedGrows(x: Ctx)
    ensures Transcript(x, 7) == Transcript(x, 6) + Msg(x, 6)
  {
    hide Msg;
  }

  lemma StartsReceiving(x: Ctx, v: Tail)
    requires Quiet(v)
    ensures var p := Next(x, 6);
      var c := ServerState(x, 6,
        v).(hs := ServerHs(x, 6).(transcript := Transcript(x, 7), serverFinishedHash := Some(FinishedDigest(x))),
                                     rec := WriteRecord(x.se.crypto, ServerState(x, 6, v).rec, HANDSHAKE, Msg(x, 6)));
      ServerStartReceiving(c) == Step(WithOutput(ServerState(x, p, v), ServerOutput(x, 6)), OK)
  {
    hide Keys, WriteRecord, ServerOutput, ServerApp, ClientApp, ServerMsgs, ClientMsgs, Uses, AgreedSuite, Proto,
      Transcript, Msg;
    SealsMessage(x, 6, v);
    Advances(x, 6);
    FinishedGrows(x);
    NoMsgsYet(x, 6);
    NoMsgsYet(x, Next(x, 6));
  }

  lemma FinishedMove(x: Ctx, v: Tail)
    requires AgreedSuite(x).Some?
    ensures var s := SendFinished(x.se, ServerState(x, 6, v));
      s.result.Success? ==>
        ServerMove(x, 6, v) ==
          GotoS(ServerStartReceiving(s.state), SSendFinished, if Asks(x) then SReadCertificate else SReadFinished)
  {
    hide ServerState, SendEncryptedExtensions, SendCertificateRequest, SendCertificate, SendCertificateVerify,
      AgreedSuite, ReadClientHello, SendServerHello, SendFinished, ServerStartReceiving, ReadClientCertificate,
      ReadCertificateVerify, ReadFinished, Complete;
  }

  lemma ServerSendsFinished(x: Ctx, v: Tail)
    requires Quiet(v) && AgreedSuite(x).Some?
    ensures ServerMove(x, 6, v) ==
      (ServerPcAt(Next(x, 6)), WithOutput(ServerState(x, Next(x, 6), v), ServerOutput(x, 6)))
  {
    hide ServerMove, SendFinished, ServerStartReceiving, ServerState, ServerHs, ServerOutput, AgreedSuite, WriteRecord,
      Transcript, Msg, FinishedDigest, WithOutput;
    SendsFinished(x, v);
    StartsReceiving(x, v);
    FinishedMove(x, v);
  }

  // ----- the client's messages -----

  function ClientOutput(x: Ctx, p: nat): Bytes
    requires p < AT_END
  {
    SealedBytes(x.se.crypto, SealerAt(HandshakeKeys, Keys(x).clientHandshake, |ClientMsgs(x, p)|), HANDSHAKE, Msg(x, p))
  }

  /** The record layer after the message of position p has been taken off the input. */
  function ServerReadRec(x: Ctx, p: nat, rest: Bytes): RecordState
    requires p < AT_END && Position(x, p)
  {
    ServerRec(x, p, rest, [], [], []).(
      inCipher := Some(OpenerAt(HandshakeKeys, Keys(x).clientHandshake, |ClientMsgs(x, Next(x, p))|)),
      opens := Uses(HandshakeKeys, Keys(x).clientHandshake, ClientMsgs(x, Next(x, p))))
  }

  lemma ServerReceives(x: Ctx, p: nat, v: Tail, rest: Bytes)
    requires Sound(x) && Position(x, p) && AT_CLIENT_CERTIFICATE <= p < AT_END && Quiet(v) && Available(x, p)
    requires v.inbound == ClientOutput(x, p) + rest
    ensures ReadHandshakeMsg(x.se.crypto, ServerState(x, p, v).rec) ==
      Step(ServerReadRec(x, p, rest), Success(Msg(x, p)))
  {
    hide Lawful, Keys, Msg, SealedBytes, ReadHandshakeMsg, AdditionalData, ServerApp, ClientApp, ServerMsgs, ClientMsgs,
      Uses, ClientHelloIn, CertificateIn, Aligned;
    var t, n := Keys(x).clientHandshake, |ClientMsgs(x, p)|;
    MsgWhole(x, p);
    CountsOn(HandshakeKeys, t, n);
    ReadsSentMessage(x.se.crypto, ServerState(x, p, v).rec, SealerAt(HandshakeKeys, t, n), Msg(x, p), rest);
    Advances(x, p);
    UsesSnoc(HandshakeKeys, t, ClientMsgs(x, p), Msg(x, p));
  }

  lemma ReadRecIsNext(x: Ctx, p: nat, rest: Bytes)
    requires Asks(x) && (p == AT_CLIENT_CERTIFICATE || p == AT_CLIENT_VERIFY)
    ensures ServerReadRec(x, p, rest) == ServerRec(x, p + 1, rest, [], [], [])
  {
    hide Keys, Msg, ServerApp, ClientApp, ServerMsgs, ClientMsgs, Uses;
    Advances(x, p);
  }

  lemma ReadingMove(x: Ctx, p: nat, v: Tail)
    requires AT_CLIENT_CERTIFICATE <= p < AT_END && AgreedSuite(x).Some?
    ensures var c := ServerState(x, p, v);
      ServerMove(x, p, v) == match p
        case 7 => GotoS(ReadClientCertificate(x.se, c), SReadCertificate, SReadVerify)
        case 8 => GotoS(ReadCertificateVerify(x.se, c), SReadVerify, SReadFinished)
        case _ =>
          var s := ReadFinished(x.se, c);
          if s.result.Failure? then (SFailed(SReadFinished, s.result.error), s.state)
          else (SDone, Complete(x.se, s.state))
  {
    hide ServerState, SendEncryptedExtensions, SendCertificateRequest, SendCertificate, SendCertificateVerify,
      AgreedSuite, ReadClientHello, SendServerHello, SendFinished, ServerStartReceiving, ReadClientCertificate,
      ReadCertificateVerify, ReadFinished, Complete;
  }

  lemma ServerHsNext(x: Ctx, p: nat)
    requires Asks(x) && (p == AT_CLIENT_CERTIFICATE || p == AT_CLIENT_VERIFY)
    ensures ServerHs(x, p + 1) == ServerHs(x, p).(transcript := Transcript(x, p) + Msg(x, p), peerCert := PeerOf(x.ce))
  {
    hide AgreedSuite, Keys, Transcript, Proto, FinalKeys, PeerOf, Msg;
    Advances(x, p);
  }

  lemma ServerReadsCertificate(x: Ctx, v: Tail, rest: Bytes)
    requires Sound(x) && Asks(x) && Quiet(v) && AgreedSuite(x).Some? && x.ce.config.localCert.Some?
    requires v.inbound == ClientOutput(x, 7) + rest
    ensures ServerAccepts(x) ==> ServerMove(x, 7, v) == (SReadVerify, ServerState(x, 8, v.(inbound := rest)))
    ensures !ServerAccepts(x) ==> var (pc', s') := ServerMove(x, 7, v);
      pc'.SFailed? && s'.rec == ServerRec(x, 8, rest, [], [], []) && s'.hs.transcript == Transcript(x, 7)
  {
    hide ServerMove, Lawful, ReadHandshakeMsg, ParseCertificate, ServerHs, ServerRec, ServerReadRec, Transcript,
      ClientHelloIn, ClientOutput, AgreedSuite, CertificateIn, FromChain, SentChain;
    ServerReceives(x, 7, v, rest);
    ReadRecIsNext(x, 7, rest);
    CertificateWhole(x.ce);
    CertificateParses(x.ce);
    ServerHsNext(x, 7);
    ServerHsTranscript(x, 7);
    ReadingMove(x, 7, v);
  }

  lemma ServerReadsVerify(x: Ctx, v: Tail, rest: Bytes)
    requires Sound(x) && Asks(x) && Quiet(v) && AgreedSuite(x).Some? && x.ce.config.localCert.Some?
      && x.ce.config.localKey.Some?
    requires v.inbound == ClientOutput(x, 8) + rest
    ensures SignatureHolds(x.se, x.ce, true, Transcript(x, 8)) ==>
      ServerMove(x, 8, v) == (SReadFinished, ServerState(x, 9, v.(inbound := rest)))
    ensures !SignatureHolds(x.se, x.ce, true, Transcript(x, 8)) ==> var (pc', s') := ServerMove(x, 8, v);
      pc'.SFailed? && s'.rec == ServerRec(x, 9, rest, [], [], []) && s'.hs.transcript == Transcript(x, 8)
  {
    hide ServerMove, Lawful, ReadHandshakeMsg, ParseCertificateVerify, SignedContent, SignatureContext, ServerRec,
      ServerReadRec, Transcript, ClientHelloIn, ClientOutput, AgreedSuite, CertificateIn, FromChain, SentChain,
      VerifyIn, Keys, Proto;
    ServerReceives(x, 8, v, rest);
    ReadRecIsNext(x, 8, rest);
    VerifyParses(x.ce, true, Transcript(x, 8));
    ServerHsNext(x, 8);
    ServerFacts(x, 8, v);
    ReadingMove(x, 8, v);
  }

  // ----- the client's Finished -----

  lemma FinishedParses(verifyData: Bytes)
    ensures ParseFinished(FinishedBytes(verifyData)) == Success(verifyData)
  {
    assert Message(FINISHED, verifyData)[4..] == verifyData;
  }

  lemma MasterIsThere(x: Ctx)
    ensures Keys(x).masterSecret != []
  {
    hide DeriveSecret, HandshakeSecret, TrafficFrom, ResumptionSecret, AgreedSecret, ClientHelloIn, ServerHelloIn;
  }

  /** Deriving the application keys at the end gives the keys of the script, on either side. */
  lemma DerivesAppKeys(x: Ctx, hs: HandshakeState)
    requires hs.suite == AgreedSuite(x) && AgreedSuite(x).Some?
    requires hs.keys.masterSecret == Keys(x).masterSecret && hs.serverFinishedHash == Some(FinishedDigest(x))
    ensures ServerAppTraffic(x.se.crypto, hs) == ServerApp(x) && ClientAppTraffic(x.se.crypto, hs) == ClientApp(x)
  {
    hide AgreedSuite, Keys, AppTraffic, FinishedDigest, Ascii;
    AgreedSuiteWidth(x);
  }

  /** The server once it has accepted the client's Finished, before it changes keys. */
  function ServerVerified(x: Ctx, v: Tail): ConnState {
    ServerState(x, 9, v).(
      hs := ServerHs(x, 9).(transcript := Transcript(x, 10)),
      rec := ServerReadRec(x, 9, v.inbound).(inCipher := Some(OpenerAt(HandshakeKeys, Keys(x).clientHandshake, 0))))
  }

  lemma ServerAcceptsFinished(x: Ctx, v: Tail, rest: Bytes)
    requires Sound(x) && Quiet(v) && AgreedSuite(x).Some?
    requires v.inbound == ClientOutput(x, 9) + rest
    ensures ReadFinished(x.se, ServerState(x, 9, v)) == Step(ServerVerified(x, v.(inbound := rest)), OK)
  {
    hide Lawful, ReadHandshakeMsg, ParseFinished, VerifyData, FinishedBytes, Transcript, ClientHelloIn, ClientOutput,
      AgreedSuite, CertificateIn, Keys, Proto, ServerMsgs, ClientMsgs, Uses, ServerApp, ClientApp;
    ServerReceives(x, 9, v, rest);
    FinishedParses(VerifyData(x.ce.crypto, Keys(x).clientHandshake.secret, Transcript(x, 9)));
    Advances(x, 9);
  }

  lemma ServerFinalKeys(x: Ctx, v: Tail)
    requires AgreedSuite(x).Some?
    ensures var c := ServerVerified(x, v);
      FinalSwitch(x.se, c) == c.(
        hs := c.hs.(keys := FinalKeys(x)),
        rec := Install(c.rec.(inCipher := Some(OpenerAt(ApplicationKeys, ClientApp(x), 0))),
        SealerAt(ApplicationKeys, ServerApp(x), 0)))
  {
    hide AgreedSuite, Keys, AppTraffic, FinishedDigest, ServerAppTraffic, ClientAppTraffic, ServerApp, ClientApp,
      Transcript, Proto, ServerMsgs, ClientMsgs, Uses;
    MasterIsThere(x);
    DerivesAppKeys(x, ServerVerified(x, v).hs);
  }

  lemma ServerCompletes(x: Ctx, v: Tail)
    requires AgreedSuite(x).Some? && Quiet(v)
    ensures Complete(x.se, ServerVerified(x, v)) == ServerState(x, 10, v)
  {
    hide AgreedSuite, Keys, FinishedDigest, ServerApp, ClientApp, Transcript, FinalSwitch, ServerMsgs, ClientMsgs, Uses,
      Proto;
    ServerFinalKeys(x, v);
    Advances(x, 9);
  }

  lemma ServerReadsFinished(x: Ctx, v: Tail, rest: Bytes)
    requires Sound(x) && Quiet(v) && AgreedSuite(x).Some?
    requires v.inbound == ClientOutput(x, 9) + rest
    ensures ServerMove(x, 9, v) == (SDone, ServerState(x, 10, v.(inbound := rest)))
  {
    hide Sound, ServerMove, ReadFinished, ServerState, ServerVerified, AgreedSuite, Complete, ClientOutput;
    ServerAcceptsFinished(x, v, rest);
    ServerCompletes(x, v.(inbound := rest));
    ReadingMove(x, 9, v);
  }

  /** With nothing on its input a server that reads waits. */
  lemma ServerPausesAt(x: Ctx, p: nat, v: Tail)
    requires Quiet(v) && v.inbound == []
      && (p == AT_CLIENT_HELLO || (AT_CLIENT_CERTIFICATE <= p < AT_END && AgreedSuite(x).Some?))
    ensures ServerMove(x, p, v).0.SFailed? && ServerMove(x, p, v).0.error == Eof
  {
    hide ServerMove, ServerHs, ReadRecord, ReadHandshakeMsg, ReadSkippingCcs, Keys, ServerMsgs, ClientMsgs, Uses,
      ServerApp, ClientApp, AgreedSuite;
    ReadsNothing(x.se.crypto, ServerState(x, p, v).rec);
    if p == AT_CLIENT_HELLO {
      HelloMove(x, v);
    } else {
      ReadingMove(x, p, v);
    }
  }
}
