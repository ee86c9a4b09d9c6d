/** One step of the client from each position of the script, as `ServerSteps` does for the server. */
module ClientSteps {
  import opened Prelude
  import opened Crypto
  import opened Extensions
  import opened HandshakeMessages
  import opened Certificates
  import opened KeySchedule
  import opened Suites
  import opened RecordCipher
  import opened Records
  import opened Offer
  import opened Steps
  import opened Runs
  import opened Retry
  import opened Fragmentation
  import opened Channels
  import opened Script
  import opened Greeting
  import opened ServerSteps

  // ----- ClientHello -----

  lemma SendsClientHello(x: Ctx, v: Tail)
    requires Quiet(v) && v.tickets == x.clientTickets
    ensures SendClientHello(x.ce, ClientState(x, 0, v), CURVE_SM2) ==
      Step(WithOutput(ClientState(x, 1, v.(tickets := v.tickets.(ticks := v.tickets.ticks + 1))),
        FirstFlight(x.ce, x.clientTickets)), OK)
  {
    hide HelloBytes, RecordBytes, SealRecord, Keys, ServerHelloIn, ServerApp, ClientApp, AgreedSuite, Uses;
    assert [] + ClientHelloIn(x) == ClientHelloIn(x)
      && [] + FirstFlight(x.ce, x.clientTickets) == FirstFlight(x.ce, x.clientTickets);
    HelloTranscripts(x);
    NoMsgsYet(x, 0);
    NoMsgsYet(x, 1);
    assert HelloOf(x.ce, ClientHs(x, 0).(clientSuites := CLIENT_SUITES), ClientShareOf(x)) ==
      HelloFor(x.ce, CURVE_SM2, 0);
  }

  lemma EarlyMove(x: Ctx, p: nat, v: Tail)
    requires p <= AT_SERVER_HELLO
    ensures var c := ClientState(x, p, v);
      ClientMove(x, p, v) == match p
        case 0 => Goto(SendClientHello(x.ce, c, CURVE_SM2), CSendHello, CReadHello)
        case _ =>
          var s := ReadServerHello(x.ce, c);
          if s.result == Failure(HelloRetry) && s.state.hs.helloRetry then (CRetryHello, s.state)
          else Goto(s, CReadHello, CReadExtensions)
  {
    hide ClientState, SendClientHello, ReadServerHello, ReadEncryptedExtensions, ReadServerCertificate,
      ReadCertificateVerify, ReadFinished, EarlySwitch, PrepareClientCertificate, SendCertificate,
      SendCertificateVerify, SendFinished, Complete, WriteRecord;
  }

  lemma ClientSendsHello(x: Ctx, v: Tail)
    requires Quiet(v) && v.tickets == x.clientTickets
    ensures ClientMove(x, 0, v) ==
      (CReadHello, WithOutput(ClientState(x, 1, v.(tickets := v.tickets.(ticks := v.tickets.ticks + 1))),
        FirstFlight(x.ce, x.clientTickets)))
  {
    hide ClientMove, ClientState, SendClientHello, FirstFlight;
    SendsClientHello(x, v);
    EarlyMove(x, 0, v);
  }

  // ----- ServerHello -----

  lemma {:induction false} ServerHelloFitsIn(x: Ctx)
    requires Lawful(x.se.crypto) && x.ce.crypto == x.se.crypto
    ensures ServerHelloFits(ServerHelloMessage(x)) && 0 < |ServerHelloIn(x)| < 0x1_0000
      && ServerHelloIn(x)[0] == SERVER_HELLO
  {
    hide Lawful, U16, U24, ServerShareOf, SuiteIn;
    ShareSize(x);
    var es := ServerHelloExtensions(ServerShareOf(x));
    assert es[1..][1..] == [];
    assert |EntriesBytes(es)| == |EntryBytes(es[0])| + |EntryBytes(es[1])| + |EntriesBytes(es[1..][1..])|;
  }

  lemma ServerHelloParses(x: Ctx)
    requires Lawful(x.se.crypto) && x.ce.crypto == x.se.crypto
    ensures ParseServerHello(ServerHelloIn(x)) == Success(ServerHelloMessage(x))
  {
    hide Lawful, ServerHelloBytes, ParseServerHello, SuiteIn;
    ServerHelloFitsIn(x);
    ServerHelloRoundTrip(ServerHelloMessage(x));
  }

  lemma SuiteIsOffered(x: Ctx)
    requires AgreedSuite(x).Some?
    ensures ChosenSuite(CLIENT_SUITES, SuiteIn(x).id) == Success(AgreedSuite(x).value)
  {
    hide Suites.SelectFrom, ServerSuites;
    AgreedSuiteWidth(x);
    SelectedIsOffered(OFFERED_SUITES, ServerSuites(x.se.config), OFFERED_GROUPS, [SM2SM3]);
    var id := SuiteIn(x).id;
    var j :| 0 <= j < |OFFERED_SUITES| && Normalize(OFFERED_SUITES[j]) == Normalize(id);
    assert j < 2;
    assert Normalize(CLIENT_SUITES[j]) == Normalize(id);
  }

  lemma FindsInHello(share: KeyShareEntry)
    ensures var es := ServerHelloExtensions(share);
      && Find(es, EXT_SUPPORTED_VERSIONS) == Some([3, 4]) && Find(es, EXT_PRE_SHARED_KEY) == None
      && (0 < |share.data| ==> Find(es, EXT_KEY_SHARE) == Some(KeyShareServer(share).data))
  {
    hide EntryBytes;
    var es := ServerHelloExtensions(share);
    assert es[1..][0] == KeyShareServer(share) && es[1..][1..] == [];
    assert Find(es[1..], EXT_PRE_SHARED_KEY) == Find(es[1..][1..], EXT_PRE_SHARED_KEY) == None;
  }

  lemma HelloExtensionsRead(x: Ctx)
    requires Lawful(x.se.crypto) && x.ce.crypto == x.se.crypto
    ensures var es := ServerHelloExtensions(ServerShareOf(x));
      && ServerShare(es) == Success(Some(ServerShareOf(x))) && CheckVersion(es) == OK
      && Find(es, EXT_PRE_SHARED_KEY) == None
  {
    hide Lawful, ServerHelloExtensions, ParseKeyShareServer, KeyShareServer, Find, ServerShareOf;
    ShareSize(x);
    FindsInHello(ServerShareOf(x));
    KeyShareServerRoundTrip(ServerShareOf(x));
    VersionNumber();
  }

  lemma VersionNumber()
    ensures ReadU16([3, 4]) == VERSION_TLS13
  {
  }

  /** Both ends compute the same secret. */
  lemma ClientComputesSecret(x: Ctx, keys: KeyMaterial)
    requires Lawful(x.se.crypto) && x.ce.crypto == x.se.crypto && AgreedSecret(x).Some?
    requires keys.clientPrivateShare == Some(x.ce.rnd.sm2Key(0))
    ensures ClientSecret(x.ce.crypto, keys, ServerShareOf(x)) == Success(AgreedSecret(x).value)
  {
    assert x.se.crypto.sm2Agree(x.ce.rnd.sm2Key(0), x.se.crypto.sm2Share(x.se.rnd.sm2Key(0))) ==
           x.se.crypto.sm2Agree(x.se.rnd.sm2Key(0), x.se.crypto.sm2Share(x.ce.rnd.sm2Key(0)));
  }

  /** The client's state when all of the ServerHello is accepted but the keys are not yet derived. */
  function ClientGreeted(x: Ctx, v: Tail): ConnState {
    var keys := NO_KEYS.(clientPrivateShare := Some(x.ce.rnd.sm2Key(0)), serverPublicShare := ServerShareOf(x).data,
                         sharedSecret := if AgreedSecret(x).Some? then AgreedSecret(x).value else []);
    ClientState(x, 1, v).(hs := ClientHs(x, 1).(transcript := Transcript(x, 2), serverRandom := x.se.rnd.serverRandom,
                                                suite := AgreedSuite(x), keys := keys))
  }

  lemma AcceptsHello(x: Ctx, v: Tail)
    requires Sound(x) && Agreeable(x)
    ensures var c := ClientState(x, 1, v);
      AcceptServerHello(x.ce, Append(c, ServerHelloIn(x)), ServerHelloMessage(x)) ==
        StartReceiving(x.ce, ClientGreeted(x, v))
  {
    hide Lawful, StartReceiving, ServerShare, CheckVersion, ClientSecret, ChosenSuite, Find, AgreedSuite, AgreedSecret,
      Keys, ServerHelloIn, ClientRec, ServerHelloExtensions, Transcript;
    SuiteIsOffered(x);
    HelloExtensionsRead(x);
    var keys := NO_KEYS.(clientPrivateShare := Some(x.ce.rnd.sm2Key(0)), serverPublicShare := ServerShareOf(x).data);
    ClientComputesSecret(x, keys);
    HelloGrows(x);
  }

  lemma StartsReading(x: Ctx, v: Tail)
    requires Sound(x) && Agreeable(x) && Quiet(v)
    ensures StartReceiving(x.ce, ClientGreeted(x, v)) == Step(ClientState(x, 2, v), OK)
  {
    hide Lawful, DeriveHandshakeKeys, AgreedSuite, AgreedSecret, Keys, ServerHelloIn, ClientHelloIn, Transcript, Uses,
      ServerApp, ClientApp, CertificateIn;
    DerivesKeys(x, ClientGreeted(x, v).hs);
    NoMsgsYet(x, 1);
    NoMsgsYet(x, 2);
  }

  lemma TakesServerHello(x: Ctx, v: Tail, rest: Bytes)
    requires Sound(x) && Agreeable(x) && Quiet(v)
    requires v.inbound == RecordBytes(HANDSHAKE, RECORD_VERSION, ServerHelloIn(x)) + rest
    ensures ReadServerHello(x.ce, ClientState(x, 1, v)) ==
      AcceptServerHello(x.ce, Append(ClientState(x, 1, v.(inbound := rest)), ServerHelloIn(x)), ServerHelloMessage(x))
  {
    hide Lawful, RecordBytes, ReadSkippingCcs, ReadRecord, ParseServerHello, AcceptServerHello, AgreedSuite, Keys,
      ClientHelloIn, ServerHelloIn, Transcript, Uses, ServerApp, ClientApp, ClientMsgs, ServerMsgs, CertificateIn,
      ServerHelloExtensions, SuiteIn;
    ServerHelloFitsIn(x);
    ServerHelloParses(x);
    ReadsPlainRecord(x.ce.crypto, ClientState(x, 1, v).rec, HANDSHAKE, RECORD_VERSION, ServerHelloIn(x), rest);
  }

  lemma ClientReadsHello(x: Ctx, v: Tail, rest: Bytes)
    requires Sound(x) && Agreeable(x) && Quiet(v)
    requires v.inbound == RecordBytes(HANDSHAKE, RECORD_VERSION, ServerHelloIn(x)) + rest
    ensures ClientMove(x, 1, v) == (CReadExtensions, ClientState(x, 2, v.(inbound := rest)))
  {
    hide ClientMove, ReadServerHello, AcceptServerHello, StartReceiving, ClientState, ClientGreeted, RecordBytes,
      ServerHelloIn, AgreedSuite, ServerHelloMessage, Sound, Agreeable;
    TakesServerHello(x, v, rest);
    AcceptsHello(x, v.(inbound := rest));
    StartsReading(x, v.(inbound := rest));
    EarlyMove(x, 1, v);
  }

  // ----- the server's encrypted messages -----

  /** The record layer after the message of position p has been taken off the input. */
  function ClientReadRec(x: Ctx, p: nat, rest: Bytes): RecordState
    requires p < AT_END && Position(x, p)
  {
    ClientRec(x, p, rest, [], [], []).(
      inCipher := Some(OpenerAt(HandshakeKeys, Keys(x).serverHandshake, |ServerMsgs(x, Next(x, p))|)),
      opens := Uses(HandshakeKeys, Keys(x).serverHandshake, ServerMsgs(x, Next(x, p))))
  }

  lemma ClientReading(x: Ctx, p: nat, inbound: Bytes, rest: Bytes)
    requires Position(x, p) && AT_EXTENSIONS <= p <= AT_FINISHED && |Msg(x, p)| <= MAX_PLAINTEXT
    ensures var r := ClientRec(x, p, inbound, [], [], []);
      && Receiving(r) && !r.complete && r.handshakeBuf == [] && r.inbound == inbound
      && r.inCipher == Some(OpenerAt(HandshakeKeys, Keys(x).serverHandshake, |ServerMsgs(x, p)|))
      && Opened(r.(inbound := rest), |Msg(x, p)| + 17) == ClientReadRec(x, p, rest)
  {
    hide Keys, Msg, AdditionalData, ServerApp, ClientApp, ServerMsgs, ClientMsgs, Uses;
    var t, n := Keys(x).serverHandshake, |ServerMsgs(x, p)|;
    CountsOn(HandshakeKeys, t, n);
    NoMsgsYet(x, p);
    Advances(x, p);
    UsesSnoc(HandshakeKeys, t, ServerMsgs(x, p), Msg(x, p));
  }

  lemma ClientReceives(x: Ctx, p: nat, v: Tail, rest: Bytes)
    requires Sound(x) && Position(x, p) && AT_EXTENSIONS <= p <= AT_FINISHED && Quiet(v) && Available(x, p)
    requires v.inbound == ServerOutput(x, p) + rest
    ensures ReadHandshakeMsg(x.ce.crypto, ClientState(x, p, v).rec) ==
      Step(ClientReadRec(x, p, rest), Success(Msg(x, p)))
  {
    hide Lawful, Keys, Msg, SealedBytes, ReadHandshakeMsg, ServerMsgs, ClientHelloIn, CertificateIn, Aligned, ClientRec,
      ClientReadRec, ClientHs, Receiving;
    var t, n := Keys(x).serverHandshake, |ServerMsgs(x, p)|;
    MsgWhole(x, p);
    CountsOn(HandshakeKeys, t, n);
    ClientReading(x, p, v.inbound, rest);
    ReadsSentMessage(x.ce.crypto, ClientState(x, p, v).rec, SealerAt(HandshakeKeys, t, n), Msg(x, p), rest);
  }

  lemma ClientReadRecIsNext(x: Ctx, p: nat, rest: Bytes)
    requires Position(x, p) && AT_EXTENSIONS <= p <= AT_VERIFY
    ensures ClientReadRec(x, p, rest) == ClientRec(x, Next(x, p), rest, [], [], [])
  {
    hide Keys, Msg, ServerApp, ClientApp, ServerMsgs, ClientMsgs, Uses;
    Advances(x, p);
    NoMsgsYet(x, p);
    NoMsgsYet(x, Next(x, p));
  }

  lemma ClientFacts(x: Ctx, p: nat, v: Tail)
    requires AT_EXTENSIONS <= p <= AT_END
    ensures var c := ClientState(x, p, v);
      && c.rec.isClient && c.hs.peerProtos == x.ce.config.nextProtos && c.hs.certReqContext == []
      && c.hs.transcript == Transcript(x, p) && c.hs.suite == AgreedSuite(x)
      && (p == AT_EXTENSIONS ==> c.hs.negotiatedProto == [])
      && (p > AT_CERTIFICATE ==> c.hs.peerCert == PeerOf(x.se))
      && c.hs.keys.clientHandshake == Keys(x).clientHandshake && c.hs.keys.serverHandshake == Keys(x).serverHandshake
  {
    hide AgreedSuite, Keys, Transcript, Proto, ServerMsgs, ClientMsgs, AllUses, ServerApp, ClientApp, PeerOf;
  }

  /** How the handshake fields change from one position to the next. */
  lemma ClientHsNext(x: Ctx, p: nat)
    requires Position(x, p) && AT_EXTENSIONS <= p <= AT_VERIFY
    ensures ClientHs(x, Next(x, p)) == ClientHs(x, p).(
      transcript := Transcript(x, p) + Msg(x, p),
      negotiatedProto := Proto(x),
      certRequested := Asks(x) && p >= AT_REQUEST,
      peerCert := if p >= AT_CERTIFICATE then PeerOf(x.se) else None)
  {
    hide AgreedSuite, Keys, Transcript, Proto, PeerOf, Msg, ServerApp, ClientApp;
    Advances(x, p);
  }

  lemma ReadMove(x: Ctx, p: nat, v: Tail)
    requires AT_EXTENSIONS <= p <= AT_FINISHED && AgreedSuite(x).Some?
    ensures var c := ClientState(x, p, v);
      ClientMove(x, p, v) == match p
        case 2 => Goto(ReadEncryptedExtensions(x.ce, c), CReadExtensions, CReadCertificate)
        case 3 =>
          var s := ReadServerCertificate(x.ce, c);
          Goto(s, CReadCertificate, if s.result == Success(true) then CReadVerify else CReadCertificate)
        case 4 =>
          var s := ReadServerCertificate(x.ce, c);
          Goto(s, CReadCertificate, if s.result == Success(true) then CReadVerify else CReadCertificate)
        case 5 => Goto(ReadCertificateVerify(x.ce, c), CReadVerify, CReadFinished)
        case _ =>
          var s := ReadFinished(x.ce, c);
          if s.result.Failure? then (CFailed(CReadFinished, s.result.error), s.state)
          else
            var c1 := EarlySwitch(x.ce, s.state);
            (if c1.hs.certRequested then CSendCertificate else CSendFinished, c1)
  {
    hide ClientState, SendClientHello, ReadServerHello, ReadEncryptedExtensions, ReadServerCertificate,
      ReadCertificateVerify, ReadFinished, EarlySwitch, PrepareClientCertificate, SendCertificate,
      SendCertificateVerify, SendFinished, Complete, WriteRecord, AgreedSuite;
  }

  // ----- EncryptedExtensions and CertificateRequest -----

  /** The client accepts the protocol the server chose. */
  lemma AcceptsProto(x: Ctx)
    requires Sound(x)
    ensures AcceptAlpn(ExtensionsIn(x), x.ce.config.nextProtos, []) == Success(Proto(x))
  {
    hide Lawful, Sound, ParseAlpn, SelectAlpn;
    ExtensionsSize(x);
    SelectAlpnCorrect(x.se.config.nextProtos, x.ce.config.nextProtos);
    var es, p := ExtensionsIn(x), Proto(x);
    if p != [] {
      AlpnRoundTrip([p]);
      assert es[1..] == [];
      assert AcceptAlpn(es[1..], x.ce.config.nextProtos, p) == Success(p);
    }
  }

  lemma ExtensionsParse(x: Ctx)
    requires Sound(x)
    ensures ParseEncryptedExtensions(Msg(x, 2)) == Success(ExtensionsIn(x))
  {
    hide Lawful, Sound, ParseEncryptedExtensions, EntriesBytes, ExtensionsIn;
    ExtensionsSize(x);
    EncryptedExtensionsRoundTrip(ExtensionsIn(x));
  }

  lemma ClientReadsExtensions(x: Ctx, v: Tail, rest: Bytes)
    requires Sound(x) && Quiet(v) && AgreedSuite(x).Some?
    requires v.inbound == ServerOutput(x, 2) + rest
    ensures ClientMove(x, 2, v) == (CReadCertificate, ClientState(x, Next(x, 2), v.(inbound := rest)))
  {
    hide ClientMove, Sound, ReadHandshakeMsg, ParseEncryptedExtensions, AcceptAlpn, ClientRec, ClientReadRec, ClientHs,
      ServerOutput, Msg, Transcript, AgreedSuite, Keys, Proto, ExtensionsIn;
    ClientReceives(x, 2, v, rest);
    ClientReadRecIsNext(x, 2, rest);
    ExtensionsParse(x);
    AcceptsProto(x);
    ClientFacts(x, 2, v);
    ClientHsNext(x, 2);
    ClientHsShape(x, 2);
    ReadMove(x, 2, v);
  }

  /** Fields that have not been set yet. */
  lemma ClientHsShape(x: Ctx, p: nat)
    requires AT_EXTENSIONS <= p <= AT_FINISHED
    ensures var hs := ClientHs(x, p);
      && (p <= AT_CERTIFICATE ==> hs.peerCert == None) && (p > AT_CERTIFICATE ==> hs.peerCert == PeerOf(x.se))
      && hs.certRequested == (Asks(x) && p > AT_REQUEST)
      && hs.negotiatedProto == (if p <= AT_EXTENSIONS then [] else Proto(x)) && hs.certReqContext == []
  {
    hide AgreedSuite, Keys, Transcript, Proto, PeerOf, ServerApp, ClientApp;
  }

  lemma ClientReadsRequest(x: Ctx, v: Tail, rest: Bytes)
    requires Sound(x) && Quiet(v) && AgreedSuite(x).Some? && Asks(x)
    requires v.inbound == ServerOutput(x, 3) + rest
    ensures ClientMove(x, 3, v) == (CReadCertificate, ClientState(x, 4, v.(inbound := rest)))
  {
    hide ClientMove, Sound, ReadHandshakeMsg, ParseCertificateRequest, ParseCertificate, ClientRec, ClientReadRec,
      ClientHs, ServerOutput, Transcript, AgreedSuite, Keys, Proto, CertificateRequestBytes;
    ClientReceives(x, 3, v, rest);
    ClientReadRecIsNext(x, 3, rest);
    RequestWhole();
    CertificateRequestRoundTrip([SM2SM3]);
    ClientFacts(x, 3, v);
    ClientHsNext(x, 3);
    ClientHsShape(x, 3);
    ReadMove(x, 3, v);
  }

  // ----- the server's Certificate, CertificateVerify and Finished -----

  lemma ClientReadsCertificate(x: Ctx, v: Tail, rest: Bytes)
    requires Sound(x) && Quiet(v) && AgreedSuite(x).Some? && x.se.config.localCert.Some?
    requires v.inbound == ServerOutput(x, 4) + rest
    ensures ClientAccepts(x) ==> ClientMove(x, 4, v) == (CReadVerify, ClientState(x, 5, v.(inbound := rest)))
    ensures !ClientAccepts(x) ==> var (pc', c') := ClientMove(x, 4, v);
      pc'.CFailed? && c'.rec == ClientRec(x, 5, rest, [], [], []) && c'.hs.transcript == Transcript(x, 4)
  {
    hide ClientMove, Lawful, ReadHandshakeMsg, ParseCertificateRequest, ParseCertificate, ClientRec, ClientReadRec,
      ClientHs, ServerOutput, Transcript, AgreedSuite, Keys, Proto, CertificateIn, FromChain, SentChain, ClientHelloIn;
    ClientReceives(x, 4, v, rest);
    ClientReadRecIsNext(x, 4, rest);
    CertificateWhole(x.se);
    CertificateParses(x.se);
    ClientFacts(x, 4, v);
    ClientHsNext(x, 4);
    ClientHsShape(x, 4);
    ReadMove(x, 4, v);
  }

  lemma ClientReadsVerify(x: Ctx, v: Tail, rest: Bytes)
    requires Sound(x) && Quiet(v) && AgreedSuite(x).Some? && x.se.config.localCert.Some? && x.se.config.localKey.Some?
    requires v.inbound == ServerOutput(x, 5) + rest
    ensures SignatureHolds(x.ce, x.se, false, Transcript(x, 5)) ==>
      ClientMove(x, 5, v) == (CReadFinished, ClientState(x, 6, v.(inbound := rest)))
    ensures !SignatureHolds(x.ce, x.se, false, Transcript(x, 5)) ==> var (pc', c') := ClientMove(x, 5, v);
      pc'.CFailed? && c'.rec == ClientRec(x, 6, rest, [], [], []) && c'.hs.transcript == Transcript(x, 5)
  {
    hide ClientMove, Lawful, ReadHandshakeMsg, ParseCertificateVerify, SignedContent, SignatureContext, ClientRec,
      ClientReadRec, ClientHs, ServerOutput, Transcript, AgreedSuite, Keys, Proto, CertificateIn, FromChain, SentChain,
      VerifyIn, ClientHelloIn;
    ClientReceives(x, 5, v, rest);
    ClientReadRecIsNext(x, 5, rest);
    VerifyParses(x.se, false, Transcript(x, 5));
    ClientFacts(x, 5, v);
    ClientHsNext(x, 5);
    ClientHsShape(x, 5);
    ReadMove(x, 5, v);
  }

  /** The client once it has accepted the server's Finished, before it changes keys. */
  function ClientVerified(x: Ctx, v: Tail): ConnState {
    ClientState(x, 6, v).(
      hs := ClientHs(x, 6).(transcript := Transcript(x, 7), serverFinishedHash := Some(FinishedDigest(x))),
      rec := ClientReadRec(x, 6, v.inbound).(inCipher := Some(OpenerAt(HandshakeKeys, Keys(x).serverHandshake, 0))))
  }

  lemma ClientAcceptsFinished(x: Ctx, v: Tail, rest: Bytes)
    requires Sound(x) && Quiet(v) && AgreedSuite(x).Some?
    requires v.inbound == ServerOutput(x, 6) + rest
    ensures ReadFinished(x.ce, ClientState(x, 6, v)) == Step(ClientVerified(x, v.(inbound := rest)), OK)
  {
    hide Lawful, ReadHandshakeMsg, ParseFinished, VerifyData, FinishedBytes, Transcript, ClientHelloIn, ServerOutput,
      AgreedSuite, CertificateIn, Keys, Proto, ServerMsgs, ClientMsgs, Uses, ServerApp, ClientApp, PeerOf;
    ClientReceives(x, 6, v, rest);
    FinishedParses(VerifyData(x.se.crypto, Keys(x).serverHandshake.secret, Transcript(x, 6)));
    FinishedGrows(x);
  }

  lemma ClientSwitches(x: Ctx, v: Tail)
    requires AgreedSuite(x).Some? && x.ce.crypto == x.se.crypto
    ensures var c := ClientVerified(x, v);
      EarlySwitch(x.ce, c) == c.(
        hs := c.hs.(keys := Keys(x).(serverApp := ServerApp(x))),
        rec := c.rec.(inCipher := Some(OpenerAt(ApplicationKeys, ServerApp(x), 0))))
  {
    hide AgreedSuite, Keys, AppTraffic, FinishedDigest, ServerAppTraffic, ClientAppTraffic, ServerApp, ClientApp,
      Transcript, Proto, ServerMsgs, ClientMsgs, Uses, PeerOf;
    MasterIsThere(x);
    DerivesAppKeys(x, ClientVerified(x, v).hs);
  }

  lemma ClientTurnsToSending(x: Ctx, v: Tail)
    requires AgreedSuite(x).Some? && x.ce.crypto == x.se.crypto && Quiet(v)
    ensures EarlySwitch(x.ce, ClientVerified(x, v)) == ClientState(x, Next(x, 6), v)
  {
    hide AgreedSuite, Keys, FinishedDigest, ServerApp, ClientApp, Transcript, EarlySwitch, ServerMsgs, ClientMsgs, Uses,
      Proto, PeerOf, Msg;
    ClientSwitches(x, v);
    Advances(x, 6);
    FinishedGrows(x);
    NoMsgsYet(x, 6);
    NoMsgsYet(x, Next(x, 6));
  }

  lemma ClientReadsFinished(x: Ctx, v: Tail, rest: Bytes)
    requires Sound(x) && Quiet(v) && AgreedSuite(x).Some?
    requires v.inbound == ServerOutput(x, 6) + rest
    ensures ClientMove(x, 6, v) == (ClientPcAt(Next(x, 6)), ClientState(x, Next(x, 6), v.(inbound := rest)))
  {
    hide ClientMove, Lawful, ReadFinished, ClientVerified, AgreedSuite, EarlySwitch, ServerOutput, Transcript, Keys,
      Proto, ClientRec, CertificateIn, ClientHelloIn, PeerOf, ServerApp, ClientApp;
    ClientAcceptsFinished(x, v, rest);
    ClientTurnsToSending(x, v.(inbound := rest));
    ReadMove(x, 6, v);
  }

  // ----- the client's messages -----

  /** The record layer with the client's handshake key in place, as each of its messages finds it. */
  function ClientSending(x: Ctx, p: nat, inbound: Bytes): RecordState
    requires p <= AT_END
  {
    ClientRec(x, p, inbound, [], [], []).(
      clientEncrypted := true, installs := [HandshakeKeys],
      outCipher := Some(SealerAt(HandshakeKeys, Keys(x).clientHandshake, |ClientMsgs(x, p)|)))
  }

  /** ... and as it leaves it. */
  function ClientSent(x: Ctx, p: nat, inbound: Bytes): RecordState
    requires p < AT_END && Position(x, p)
  {
    ClientSending(x, p, inbound).(
      outbound := ClientOutput(x, p),
      outCipher := Some(SealerAt(HandshakeKeys, Keys(x).clientHandshake, |ClientMsgs(x, Next(x, p))|)),
      seals := Uses(HandshakeKeys, Keys(x).clientHandshake, ClientMsgs(x, Next(x, p))))
  }

  lemma ClientSeals(x: Ctx, p: nat, inbound: Bytes)
    requires Position(x, p) && AT_CLIENT_CERTIFICATE <= p < AT_END
    ensures WriteRecord(x.se.crypto, ClientSending(x, p, inbound), HANDSHAKE, Msg(x, p)) == ClientSent(x, p, inbound)
  {
    hide Keys, Msg, SealRecord, RecordBytes, AdditionalData, ServerApp, ClientApp, ServerMsgs, ClientMsgs, Uses;
    Advances(x, p);
    CountsOn(HandshakeKeys, Keys(x).clientHandshake, |ClientMsgs(x, p)|);
    UsesSnoc(HandshakeKeys, Keys(x).clientHandshake, ClientMsgs(x, p), Msg(x, p));
    assert [] + ClientOutput(x, p) == ClientOutput(x, p);
  }

  lemma SentIsNext(x: Ctx, p: nat, inbound: Bytes)
    requires Asks(x) && (p == AT_CLIENT_CERTIFICATE || p == AT_CLIENT_VERIFY)
    ensures ClientSent(x, p, inbound) == ClientRec(x, p + 1, inbound, [], [], []).(outbound := ClientOutput(x, p))
    ensures p == AT_CLIENT_VERIFY ==> ClientSending(x, p, inbound) == ClientRec(x, p, inbound, [], [], [])
    ensures ClientHs(x, p + 1) == ClientHs(x, p).(transcript := Transcript(x, p) + Msg(x, p))
  {
    hide Keys, Msg, ServerApp, ClientApp, ServerMsgs, ClientMsgs, Uses, AgreedSuite, Transcript, Proto, ClientOutput,
      PeerOf;
    Advances(x, p);
    NoMsgsYet(x, p);
    NoMsgsYet(x, p + 1);
  }

  lemma InstallsSending(x: Ctx, p: nat, inbound: Bytes)
    requires AT_CLIENT_CERTIFICATE <= p < AT_END && ClientMsgs(x, p) == []
    ensures var r := ClientRec(x, p, inbound, [], [], []);
      && !r.clientEncrypted && r.isClient && r.outCipher == None
      && Install(r.(clientEncrypted := true),
           Cipher(HandshakeKeys, Keys(x).clientHandshake.key, Keys(x).clientHandshake.iv, 0, 0)) ==
         ClientSending(x, p, inbound)
  {
    hide Keys, ServerApp, ClientApp, ServerMsgs, ClientMsgs, Uses;
  }

  lemma Prepares(x: Ctx, v: Tail)
    requires Quiet(v) && x.ce.config.localCert.Some? && x.ce.config.localKey.Some?
    ensures PrepareClientCertificate(x.ce, ClientState(x, 7, v)) ==
            Step(ClientState(x, 7, v).(rec := ClientSending(x, 7, v.inbound)), OK)
  {
    hide Keys, ClientRec, ClientSending, ClientHs, AgreedSuite, Transcript, Install;
    ClientFacts(x, 7, v);
    NoMsgsYet(x, 7);
    InstallsSending(x, 7, v.inbound);
  }

  lemma SendMove(x: Ctx, p: nat, v: Tail)
    requires AT_CLIENT_CERTIFICATE <= p < AT_END && AgreedSuite(x).Some?
    ensures var c := ClientState(x, p, v);
      ClientMove(x, p, v) == match p
        case 7 =>
          var s := PrepareClientCertificate(x.ce, c);
          if s.result.Failure? then (CFailed(CSendCertificate, s.result.error), s.state)
          else Goto(SendCertificate(x.ce, s.state), CSendCertificate, CSendVerify)
        case 8 => Goto(SendCertificateVerify(x.ce, c), CSendVerify, CSendFinished)
        case _ =>
          var s := SendFinished(x.ce, c);
          if s.result.Failure? then (CFailed(CSendFinished, s.result.error), s.state)
          else (CDone, Complete(x.ce, s.state))
  {
    hide ClientState, SendClientHello, ReadServerHello, ReadEncryptedExtensions, ReadServerCertificate,
      ReadCertificateVerify, ReadFinished, EarlySwitch, PrepareClientCertificate, SendCertificate,
      SendCertificateVerify, SendFinished, Complete, WriteRecord, AgreedSuite;
  }

  lemma CertificateGoesOut(x: Ctx, v: Tail)
    requires x.ce.crypto == x.se.crypto && Asks(x) && Quiet(v) && x.ce.config.localCert.Some?
    ensures SendCertificate(x.ce, ClientState(x, 7, v).(rec := ClientSending(x, 7, v.inbound))) ==
            Step(WithOutput(ClientState(x, 8, v), ClientOutput(x, 7)), OK)
  {
    hide WriteRecord, ClientRec, ClientHs, ClientSending, ClientSent, ClientOutput, CertificateBytes, AgreedSuite,
      Transcript, Keys;
    ClientFacts(x, 7, v);
    ClientSeals(x, 7, v.inbound);
    SentIsNext(x, 7, v.inbound);
  }

  lemma VerifyGoesOut(x: Ctx, v: Tail)
    requires x.ce.crypto == x.se.crypto && Asks(x) && Quiet(v) && x.ce.config.localKey.Some?
    ensures SendCertificateVerify(x.ce, ClientState(x, 8, v)) ==
      Step(WithOutput(ClientState(x, 9, v), ClientOutput(x, 8)), OK)
  {
    hide WriteRecord, ClientRec, ClientHs, ClientSending, ClientSent, ClientOutput, CertificateVerifyBytes,
      SignedContent, SignatureContext, AgreedSuite, Transcript, Keys;
    ClientFacts(x, 8, v);
    ClientSeals(x, 8, v.inbound);
    SentIsNext(x, 8, v.inbound);
  }

  /** Without a certificate or its key the client gives up before it sends anything. */
  lemma ClientSendsCertificate(x: Ctx, v: Tail)
    requires x.ce.crypto == x.se.crypto && Asks(x) && Quiet(v) && AgreedSuite(x).Some?
    ensures x.ce.config.localCert.Some? && x.ce.config.localKey.Some? ==>
      ClientMove(x, 7, v) == (CSendVerify, WithOutput(ClientState(x, 8, v), ClientOutput(x, 7)))
    ensures x.ce.config.localCert == None || x.ce.config.localKey == None ==>
      ClientMove(x, 7, v) == (CFailed(CSendCertificate, CertificateMissing), ClientState(x, 7, v))
  {
    hide ClientMove, SendCertificate, ClientState, ClientSending, ClientOutput, WithOutput, AgreedSuite, NewCipher,
      Install;
    SendMove(x, 7, v);
    if x.ce.config.localCert.Some? && x.ce.config.localKey.Some? {
      hide PrepareClientCertificate;
      Prepares(x, v);
      CertificateGoesOut(x, v);
    }
  }

  lemma ClientSendsVerify(x: Ctx, v: Tail)
    requires x.ce.crypto == x.se.crypto && Asks(x) && Quiet(v) && AgreedSuite(x).Some? && x.ce.config.localKey.Some?
    ensures ClientMove(x, 8, v) == (CSendFinished, WithOutput(ClientState(x, 9, v), ClientOutput(x, 8)))
  {
    hide ClientMove, SendCertificateVerify, ClientState, ClientOutput, WithOutput, AgreedSuite;
    SendMove(x, 8, v);
    VerifyGoesOut(x, v);
  }

  // ----- the client's Finished -----

  lemma EnsuresSending(x: Ctx, inbound: Bytes)
    ensures EnsureSending(ClientRec(x, 9, inbound, [], [], []), Keys(x).clientHandshake) ==
      Step(ClientSending(x, 9, inbound), OK)
  {
    hide Keys, ServerApp, ClientApp, ServerMsgs, ClientMsgs, Uses, Install;
    NoMsgsYet(x, 9);
    if Asks(x) {
      assert ClientRec(x, 9, inbound, [], [], []) == ClientSending(x, 9, inbound);
    } else {
      InstallsSending(x, 9, inbound);
    }
  }

  /** The client's state once its Finished is out, before it changes keys. */
  function ClientSaidAll(x: Ctx, v: Tail): ConnState {
    ClientState(x, 9, v).(hs := ClientHs(x, 9).(transcript := Transcript(x, 10)), rec := ClientSent(x, 9, v.inbound))
  }

  lemma FinishedGoesOut(x: Ctx, v: Tail)
    requires x.ce.crypto == x.se.crypto && Quiet(v)
    ensures SendFinished(x.ce, ClientState(x, 9, v)) == Step(ClientSaidAll(x, v), OK)
  {
    hide WriteRecord, EnsureSending, ClientRec, ClientHs, ClientSending, ClientSent, ClientOutput, FinishedBytes,
      VerifyData, AgreedSuite, Transcript, Keys;
    ClientFacts(x, 9, v);
    EnsuresSending(x, v.inbound);
    ClientSeals(x, 9, v.inbound);
    Advances(x, 9);
  }

  lemma ClientFinalKeys(x: Ctx, v: Tail)
    requires AgreedSuite(x).Some? && x.ce.crypto == x.se.crypto
    ensures var c := ClientSaidAll(x, v);
      FinalSwitch(x.ce, c) == c.(
        hs := c.hs.(keys := FinalKeys(x)),
        rec := Install(c.rec.(inCipher := Some(OpenerAt(ApplicationKeys, ServerApp(x), 0))),
        SealerAt(ApplicationKeys, ClientApp(x), 0)))
  {
    hide AgreedSuite, Keys, AppTraffic, FinishedDigest, ServerAppTraffic, ClientAppTraffic, ServerApp, ClientApp,
      Transcript, Proto, ServerMsgs, ClientMsgs, Uses, PeerOf, ClientOutput;
    MasterIsThere(x);
    DerivesAppKeys(x, ClientSaidAll(x, v).hs);
  }

  lemma ClientFinalRec(x: Ctx, inbound: Bytes)
    ensures Install(ClientSent(x, 9, inbound).(inCipher := Some(OpenerAt(ApplicationKeys, ServerApp(x), 0)),
      complete := true),
                    SealerAt(ApplicationKeys, ClientApp(x), 0)) ==
            ClientRec(x, 10, inbound, [], [], []).(outbound := ClientOutput(x, 9))
  {
    hide Keys, ServerApp, ClientApp, ServerMsgs, ClientMsgs, Uses, ClientOutput;
    Advances(x, 9);
    NoMsgsYet(x, 10);
  }

  lemma ClientFinalHs(x: Ctx)
    ensures ClientHs(x, 9).(transcript := Transcript(x, 10), keys := FinalKeys(x)) == ClientHs(x, 10)
  {
    hide AgreedSuite, FinalKeys, FinishedDigest, Transcript, Proto, PeerOf, ServerApp, Keys;
  }

  lemma ClientCompletes(x: Ctx, v: Tail)
    requires AgreedSuite(x).Some? && x.ce.crypto == x.se.crypto && Quiet(v)
    ensures Complete(x.ce, ClientSaidAll(x, v)) == WithOutput(ClientState(x, 10, v), ClientOutput(x, 9))
  {
    hide AgreedSuite, FinalKeys, ServerApp, ClientApp, Transcript, FinalSwitch, ClientOutput, ClientRec, ClientHs,
      ClientSent;
    ClientFinalKeys(x, v);
    ClientFinalRec(x, v.inbound);
    ClientFinalHs(x);
  }

  lemma ClientSendsFinished(x: Ctx, v: Tail)
    requires x.ce.crypto == x.se.crypto && Quiet(v) && AgreedSuite(x).Some?
    ensures ClientMove(x, 9, v) == (CDone, WithOutput(ClientState(x, 10, v), ClientOutput(x, 9)))
  {
    hide ClientMove, SendFinished, ClientState, ClientSaidAll, ClientOutput, WithOutput, AgreedSuite, Complete;
    SendMove(x, 9, v);
    FinishedGoesOut(x, v);
    ClientCompletes(x, v);
  }

  /** With nothing on its input a client that reads waits. */
  lemma ClientPausesAt(x: Ctx, p: nat, v: Tail)
    requires Quiet(v) && v.inbound == [] && AT_SERVER_HELLO <= p <= AT_FINISHED
      && (p > AT_SERVER_HELLO ==> AgreedSuite(x).Some?)
    ensures ClientMove(x, p, v).0.CFailed? && ClientMove(x, p, v).0.error == Eof
  {
    hide ClientMove, ClientHs, ReadRecord, ReadHandshakeMsg, ReadSkippingCcs, Keys, ServerMsgs, ClientMsgs, Uses,
      ServerApp, ClientApp, AgreedSuite;
    ReadsNothing(x.ce.crypto, ClientState(x, p, v).rec);
    if p == AT_SERVER_HELLO {
      EarlyMove(x, p, v);
    } else {
      ReadMove(x, p, v);
    }
  }
}
