/** The handshake of two ends of this library as a script: which messages there are, in which order, and what each end
    holds once it has gone through a part of them. Both ends' positions are counted on the same scale. */
module Script {
  import opened Prelude
  import opened Crypto
  import opened Extensions
  import opened HandshakeMessages
  import opened Certificates
  import opened KeySchedule
  import opened Suites
  import opened RecordCipher
  import opened Tickets
  import opened Records
  import opened Offer
  import opened Steps
  import opened Runs
  import opened Retry
  import opened Channels

  /** The inputs of both ends. */
  datatype Ctx = Ctx(ce: Env, se: Env, clientTickets: TicketState, serverTickets: TicketState)

  /** Position k means that messages 0 to k - 1 have been sent or received. */
  const AT_CLIENT_HELLO := 0
  const AT_SERVER_HELLO := 1
  const AT_EXTENSIONS := 2
  const AT_REQUEST := 3
  const AT_CERTIFICATE := 4
  const AT_VERIFY := 5
  const AT_FINISHED := 6
  const AT_CLIENT_CERTIFICATE := 7
  const AT_CLIENT_VERIFY := 8
  const AT_CLIENT_FINISHED := 9
  const AT_END := 10

  /** Whether the server asks for a client certificate. */
  predicate Asks(x: Ctx) { RequestsCertificate(x.se.config) }

  /** Messages that are left out when the server does not ask. */
  predicate Skipped(x: Ctx, p: nat) {
    !Asks(x) && (p == AT_REQUEST || p == AT_CLIENT_CERTIFICATE || p == AT_CLIENT_VERIFY)
  }

  predicate Position(x: Ctx, p: nat) { p <= AT_END && !Skipped(x, p) }

  function Next(x: Ctx, p: nat): (q: nat)
    requires p < AT_END
    ensures p < q <= AT_END
  {
    if !Asks(x) && p == AT_EXTENSIONS then AT_CERTIFICATE
    else if !Asks(x) && p == AT_FINISHED then AT_CLIENT_FINISHED
    else p + 1
  }

  function ClientPcAt(p: nat): ClientPc
    requires p <= AT_END
  {
    match p
    case 0 => CSendHello
    case 1 => CReadHello
    case 2 => CReadExtensions
    case 3 => CReadCertificate
    case 4 => CReadCertificate
    case 5 => CReadVerify
    case 6 => CReadFinished
    case 7 => CSendCertificate
    case 8 => CSendVerify
    case 9 => CSendFinished
    case _ => CDone
  }

  function ServerPcAt(p: nat): ServerPc
    requires p <= AT_END
  {
    match p
    case 0 => SReadHello
    case 1 => SSendHello
    case 2 => SSendExtensions
    case 3 => SSendRequest
    case 4 => SSendCertificate
    case 5 => SSendVerify
    case 6 => SSendFinished
    case 7 => SReadCertificate
    case 8 => SReadVerify
    case 9 => SReadFinished
    case _ => SDone
  }

  // ----- what is agreed -----

  const OFFERED_SUITES: seq<u16> := CLIENT_SUITES + [SCSV]
  const OFFERED_GROUPS: seq<u16> := [CURVE_SM2, CURVE_X25519]

  function AgreedSuite(x: Ctx): Option<Suite> {
    Select(OFFERED_SUITES, ServerSuites(x.se.config), VERSION_TLS13, OFFERED_GROUPS, [SM2SM3])
  }

  function Proto(x: Ctx): Bytes {
    if x.se.config.nextProtos != [] && x.ce.config.nextProtos != [] then
      SelectAlpn(x.se.config.nextProtos, x.ce.config.nextProtos)
    else []
  }

  function ClientShareOf(x: Ctx): KeyShareEntry { ShareOf(x.ce, CURVE_SM2, 0) }

  function ServerShareOf(x: Ctx): KeyShareEntry { ShareOf(x.se, CURVE_SM2, 0) }

  function AgreedSecret(x: Ctx): Option<Bytes> { x.se.crypto.sm2Agree(x.se.rnd.sm2Key(0), ClientShareOf(x).data) }

  /** Negotiation and key agreement succeed. */
  predicate Agreeable(x: Ctx) { AgreedSuite(x).Some? && AgreedSecret(x).Some? }

  function SuiteIn(x: Ctx): Suite { if AgreedSuite(x).Some? then AgreedSuite(x).value else TABLE[0] }

  // ----- the messages -----

  function ClientHelloIn(x: Ctx): Bytes { FirstHello(x.ce, x.clientTickets) }

  function ServerHelloMessage(x: Ctx): ServerHello {
    ServerHello(VERSION_TLS12, x.se.rnd.serverRandom, x.ce.rnd.sessionID, SuiteIn(x).id, 0,
      ServerHelloExtensions(ServerShareOf(x)))
  }

  function ServerHelloIn(x: Ctx): Bytes { ServerHelloBytes(ServerHelloMessage(x)) }

  /** The keys both ends derive from the two hellos. */
  function Keys(x: Ctx): (km: KeyMaterial)
    ensures |km.clientHandshake.iv| == |km.serverHandshake.iv| == 12
    ensures |km.clientHandshake.key| == |km.serverHandshake.key| == 16
  {
    var secret := if AgreedSecret(x).Some? then AgreedSecret(x).value else [];
    AllKeys(x.se.crypto, secret, x.se.crypto.hash(ClientHelloIn(x) + ServerHelloIn(x)), 16, 12).(sharedSecret := secret)
  }

  function ExtensionsIn(x: Ctx): seq<Extension> { if Proto(x) != [] then [Alpn([Proto(x)])] else [] }

  function CertificateIn(e: Env): Bytes {
    match e.config.localCert
    case None => []
    case Some(cert) => CertificateBytes(cert, [])
  }

  function VerifyIn(e: Env, byClient: bool, transcript: Bytes): Bytes {
    match e.config.localKey
    case None => []
    case Some(key) =>
      var signed := SignedContent(SignatureContext(byClient), e.crypto.hash(transcript));
      CertificateVerifyBytes(CertificateVerify(SM2SM3, e.crypto.sign(key, signed, e.rnd.signing)))
  }

  /** The message at a position. */
  function Msg(x: Ctx, p: nat): Bytes
    requires p < AT_END
    decreases p, 1
  {
    match p
    case 0 => ClientHelloIn(x)
    case 1 => ServerHelloIn(x)
    case 2 => EncryptedExtensionsBytes(ExtensionsIn(x))
    case 3 => CertificateRequestBytes([SM2SM3])
    case 4 => CertificateIn(x.se)
    case 5 => VerifyIn(x.se, false, Transcript(x, 5))
    case 6 => FinishedBytes(VerifyData(x.se.crypto, Keys(x).serverHandshake.secret, Transcript(x, 6)))
    case 7 => CertificateIn(x.ce)
    case 8 => VerifyIn(x.ce, true, Transcript(x, 8))
    case _ => FinishedBytes(VerifyData(x.ce.crypto, Keys(x).clientHandshake.secret, Transcript(x, 9)))
  }

  /** The transcript of an end at a position: everything sent and received so far, in order. */
  function Transcript(x: Ctx, p: nat): Bytes
    requires p <= AT_END
    decreases p, 0
  {
    if p == 0 then [] else if Skipped(x, p - 1) then Transcript(x, p - 1) else Transcript(x, p - 1) + Msg(x, p - 1)
  }

  /** The encrypted messages of the server among those before p, and of the client. */
  function ServerMsgs(x: Ctx, p: nat): seq<Bytes>
    requires p <= AT_END
  {
    if p <= AT_EXTENSIONS then []
    else if p > AT_CLIENT_CERTIFICATE || Skipped(x, p - 1) then ServerMsgs(x, p - 1)
    else ServerMsgs(x, p - 1) + [Msg(x, p - 1)]
  }

  function ClientMsgs(x: Ctx, p: nat): seq<Bytes>
    requires p <= AT_END
  {
    if p <= AT_CLIENT_CERTIFICATE then []
    else if Skipped(x, p - 1) then ClientMsgs(x, p - 1)
    else ClientMsgs(x, p - 1) + [Msg(x, p - 1)]
  }

  // ----- the state of an end at a position -----

  /** The hash that the application keys are derived from. */
  function FinishedDigest(x: Ctx): Digest { x.se.crypto.hash(Transcript(x, AT_CLIENT_CERTIFICATE)) }

  function ServerApp(x: Ctx): (t: Traffic)
    ensures |t.key| == 16 && |t.iv| == 12
  {
    hide *;
    AppTraffic(x.se.crypto, Keys(x).masterSecret, Ascii("s ap traffic"), FinishedDigest(x), 16, 12)
  }

  function ClientApp(x: Ctx): (t: Traffic)
    ensures |t.key| == 16 && |t.iv| == 12
  {
    hide *;
    AppTraffic(x.se.crypto, Keys(x).masterSecret, Ascii("c ap traffic"), FinishedDigest(x), 16, 12)
  }

  /** All key material at the end of the handshake. */
  function FinalKeys(x: Ctx): KeyMaterial { Keys(x).(serverApp := ServerApp(x), clientApp := ClientApp(x)) }

  function ClientKeys(x: Ctx, p: nat): KeyMaterial {
    if p == AT_CLIENT_HELLO then NO_KEYS
    else if p == AT_SERVER_HELLO then NO_KEYS.(clientPrivateShare := Some(x.ce.rnd.sm2Key(0)))
    else if p <= AT_FINISHED then Keys(x)
    else if p < AT_END then Keys(x).(serverApp := ServerApp(x))
    else FinalKeys(x)
  }

  function PeerOf(e: Env): Option<Certificate> {
    match e.config.localCert case None => None case Some(cert) => Some(FromChain(e.crypto, SentChain(cert)))
  }

  /** The handshake fields of the client at a position. */
  function ClientHs(x: Ctx, p: nat): HandshakeState
    requires p <= AT_END
  {
    HandshakeState(
      x.ce.rnd.clientRandom,
      if p <= AT_SERVER_HELLO then [] else x.se.rnd.serverRandom,
      if p <= AT_SERVER_HELLO then None else AgreedSuite(x),
      ClientKeys(x, p),
      Transcript(x, p),
      if p == AT_CLIENT_HELLO then [] else ClientHelloIn(x),
      if p <= AT_CERTIFICATE then None else PeerOf(x.se),
      Asks(x) && p > AT_REQUEST,
      [],
      if p <= AT_FINISHED then None else Some(FinishedDigest(x)),
      false,
      0,
      if p == AT_CLIENT_HELLO then [] else x.ce.rnd.sessionID,
      if p == AT_CLIENT_HELLO then 0 else 1,
      false,
      if p <= AT_EXTENSIONS then [] else Proto(x),
      x.ce.config.nextProtos,
      [],
      [],
      if p == AT_CLIENT_HELLO then [] else CLIENT_SUITES,
      None)
  }

  /** The handshake fields of the server at a position. */
  function ServerHs(x: Ctx, p: nat): HandshakeState
    requires p <= AT_END
  {
    if p == AT_CLIENT_HELLO then Blank([], [])
    else
      HandshakeState(
        x.ce.rnd.clientRandom,
        if p == AT_SERVER_HELLO then [] else x.se.rnd.serverRandom,
        AgreedSuite(x),
        if p == AT_SERVER_HELLO then NO_KEYS else if p < AT_END then Keys(x) else FinalKeys(x),
        Transcript(x, p),
        [],
        if p <= AT_CLIENT_CERTIFICATE || !Asks(x) then None else PeerOf(x.ce),
        false,
        [],
        if p <= AT_FINISHED then None else Some(FinishedDigest(x)),
        false,
        0,
        x.ce.rnd.sessionID,
        0,
        false,
        Proto(x),
        x.ce.config.nextProtos,
        [SM2SM3],
        OFFERED_GROUPS,
        OFFERED_SUITES,
        Some(ClientShareOf(x)))
  }

  function AllUses(hk: Traffic, hs: seq<Bytes>, ak: Traffic, app: seq<Bytes>): seq<Use>
    requires |hk.iv| == 12 && |ak.iv| == 12
  {
    if app == [] then Uses(HandshakeKeys, hk, hs) else Uses(HandshakeKeys, hk, hs) + Uses(ApplicationKeys, ak, app)
  }

  function Installs(p: nat, from: nat): seq<Epoch> {
    if p <= from then [] else if p < AT_END then [HandshakeKeys] else [HandshakeKeys, ApplicationKeys]
  }

  /** The record layer of the client at a position, with what it wrote and the payloads it has opened. */
  function ClientRec(x: Ctx, p: nat, inbound: Bytes, buf: Bytes, written: seq<Bytes>, read: seq<Bytes>): RecordState
    requires p <= AT_END
  {
    var sent, got, km := ClientMsgs(x, p), ServerMsgs(x, p), Keys(x);
    RecordState(
      true, inbound, [],
      if p <= AT_SERVER_HELLO then None
      else if p <= AT_FINISHED then Some(OpenerAt(HandshakeKeys, km.serverHandshake, |got|))
      else Some(OpenerAt(ApplicationKeys, ServerApp(x), |read|)),
      if sent == [] then None
      else if p < AT_END then Some(SealerAt(HandshakeKeys, km.clientHandshake, |sent|))
      else Some(SealerAt(ApplicationKeys, ClientApp(x), |written|)),
      sent != [], p >= AT_EXTENSIONS, p == AT_END, 0, [], buf,
      if sent == [] then [] else Installs(p, 0),
      AllUses(km.clientHandshake, sent, ClientApp(x), written),
      AllUses(km.serverHandshake, got, ServerApp(x), read))
  }

  function ServerRec(x: Ctx, p: nat, inbound: Bytes, buf: Bytes, written: seq<Bytes>, read: seq<Bytes>): RecordState
    requires p <= AT_END
  {
    var sent, got, km := ServerMsgs(x, p), ClientMsgs(x, p), Keys(x);
    RecordState(
      false, inbound, [],
      if p <= AT_FINISHED then None
      else if p < AT_END then Some(OpenerAt(HandshakeKeys, km.clientHandshake, |got|))
      else Some(OpenerAt(ApplicationKeys, ClientApp(x), |read|)),
      if p <= AT_SERVER_HELLO then None
      else if p < AT_END then Some(SealerAt(HandshakeKeys, km.serverHandshake, |sent|))
      else Some(SealerAt(ApplicationKeys, ServerApp(x), |written|)),
      p > AT_FINISHED, p >= AT_EXTENSIONS, p == AT_END, 0, [], buf,
      Installs(p, AT_SERVER_HELLO),
      AllUses(km.serverHandshake, sent, ServerApp(x), written),
      AllUses(km.clientHandshake, got, ClientApp(x), read))
  }

  /** What its position does not say of an end: unread input, the application's buffer and data, and its tickets. */
  datatype Tail = Tail(inbound: Bytes, buf: Bytes, written: seq<Bytes>, read: seq<Bytes>, tickets: TicketState)

  /** No application data yet. */
  predicate Quiet(v: Tail) { v.buf == [] && v.written == [] && v.read == [] }

  function ClientState(x: Ctx, p: nat, v: Tail): ConnState
    requires p <= AT_END
  {
    ConnState(ClientRec(x, p, v.inbound, v.buf, v.written, v.read), ClientHs(x, p), v.tickets)
  }

  function ServerState(x: Ctx, p: nat, v: Tail): ConnState
    requires p <= AT_END
  {
    ConnState(ServerRec(x, p, v.inbound, v.buf, v.written, v.read), ServerHs(x, p), v.tickets)
  }

  /** An end with bytes to be carried to the other one. */
  function WithOutput(c: ConnState, outbound: Bytes): ConnState { c.(rec := c.rec.(outbound := outbound)) }

  lemma AgreedSuiteWidth(x: Ctx)
    ensures AgreedSuite(x).Some? ==>
      AgreedSuite(x).value.keyLen == 16 && AgreedSuite(x).value.ivLen == 12
        && SuiteByID(AgreedSuite(x).value.id) == AgreedSuite(x)
  {
    hide Suites.SelectFrom, ServerSuites;
    SelectFromCorrect(Preferences(OFFERED_SUITES, ServerSuites(x.se.config)), OFFERED_SUITES, OFFERED_GROUPS, [SM2SM3]);
  }

  lemma Ranks(p: nat)
    requires p < AT_END
    ensures !ClientEnded(ClientPcAt(p)) && (p <= AT_SERVER_HELLO ==> ClientRank(ClientPcAt(p)) >= 8)
    ensures !ServerEnded(ServerPcAt(p)) && (p == AT_CLIENT_HELLO ==> ServerRank(ServerPcAt(p)) == 10)
  {
  }

  lemma ClientStateReady(x: Ctx, p: nat, v: Tail)
    requires p < AT_END && (p > AT_SERVER_HELLO ==> AgreedSuite(x).Some?)
    ensures ClientReady(ClientPcAt(p), ClientState(x, p, v))
  {
    hide AgreedSuite, Keys, Transcript, Proto, ClientPcAt, ClientMsgs, ServerMsgs, AllUses, ClientApp, ServerApp;
    Ranks(p);
  }

  lemma ServerStateReady(x: Ctx, p: nat, v: Tail)
    requires p < AT_END && (p > AT_CLIENT_HELLO ==> AgreedSuite(x).Some?)
    ensures ServerReady(ServerPcAt(p), ServerState(x, p, v))
  {
    hide AgreedSuite, Keys, Transcript, Proto, ServerPcAt, ClientMsgs, ServerMsgs, AllUses, ClientApp, ServerApp;
    Ranks(p);
  }

  /** One step of an end from a position. */
  function ServerMove(x: Ctx, p: nat, v: Tail): (ServerPc, ConnState)
    requires p < AT_END && (p > AT_CLIENT_HELLO ==> AgreedSuite(x).Some?)
  {
    hide *;
    Ranks(p);
    ServerStateReady(x, p, v);
    ServerStep(x.se, ServerPcAt(p), ServerState(x, p, v))
  }

  function ClientMove(x: Ctx, p: nat, v: Tail): (ClientPc, ConnState)
    requires p < AT_END && (p > AT_SERVER_HELLO ==> AgreedSuite(x).Some?)
  {
    hide *;
    Ranks(p);
    ClientStateReady(x, p, v);
    ClientStep(x.ce, ClientPcAt(p), ClientState(x, p, v))
  }

  lemma HelloTranscripts(x: Ctx)
    ensures Transcript(x, 1) == ClientHelloIn(x) && Transcript(x, 2) == ClientHelloIn(x) + ServerHelloIn(x)
  {
    hide ClientHelloIn, ServerHelloIn;
    assert Transcript(x, 1) == [] + ClientHelloIn(x);
  }

  lemma TranscriptAdvances(x: Ctx, p: nat)
    requires p < AT_END && Position(x, p)
    ensures Position(x, Next(x, p)) && Transcript(x, Next(x, p)) == Transcript(x, p) + Msg(x, p)
  {
    hide Msg;
    if !Asks(x) && p == AT_FINISHED {
      assert Transcript(x, 9) == Transcript(x, 8) == Transcript(x, 7);
    } else if !Asks(x) && p == AT_EXTENSIONS {
      assert Transcript(x, 4) == Transcript(x, 3);
    }
  }

  lemma ServerMsgsAdvance(x: Ctx, p: nat)
    requires p < AT_END && Position(x, p)
    ensures ServerMsgs(x, Next(x, p)) ==
      if AT_EXTENSIONS <= p <= AT_FINISHED then ServerMsgs(x, p) + [Msg(x, p)] else ServerMsgs(x, p)
  {
    hide Msg;
    if !Asks(x) && p == AT_FINISHED {
      assert ServerMsgs(x, 9) == ServerMsgs(x, 8) == ServerMsgs(x, 7);
    } else if !Asks(x) && p == AT_EXTENSIONS {
      assert ServerMsgs(x, 4) == ServerMsgs(x, 3);
    }
  }

  lemma ClientMsgsAdvance(x: Ctx, p: nat)
    requires p < AT_END && Position(x, p)
    ensures ClientMsgs(x, Next(x, p)) ==
      if p >= AT_CLIENT_CERTIFICATE then ClientMsgs(x, p) + [Msg(x, p)] else ClientMsgs(x, p)
  {
    hide Msg;
    if !Asks(x) && p == AT_FINISHED {
      assert ClientMsgs(x, 9) == ClientMsgs(x, 8) == ClientMsgs(x, 7);
    }
  }

  /** Going through a message adds it to the transcript and, if it is encrypted, to its sender's list. */
  lemma Advances(x: Ctx, p: nat)
    requires p < AT_END && Position(x, p)
    ensures Position(x, Next(x, p)) && Transcript(x, Next(x, p)) == Transcript(x, p) + Msg(x, p)
    ensures ServerMsgs(x, Next(x, p)) ==
      if AT_EXTENSIONS <= p <= AT_FINISHED then ServerMsgs(x, p) + [Msg(x, p)] else ServerMsgs(x, p)
    ensures ClientMsgs(x, Next(x, p)) ==
      if p >= AT_CLIENT_CERTIFICATE then ClientMsgs(x, p) + [Msg(x, p)] else ClientMsgs(x, p)
  {
    hide *;
    TranscriptAdvances(x, p);
    ServerMsgsAdvance(x, p);
    ClientMsgsAdvance(x, p);
  }

  lemma NoMsgsYet(x: Ctx, p: nat)
    requires p <= AT_END
    ensures p <= AT_EXTENSIONS ==> ServerMsgs(x, p) == []
    ensures p <= AT_CLIENT_CERTIFICATE || (!Asks(x) && p <= AT_CLIENT_FINISHED) ==> ClientMsgs(x, p) == []
    ensures p > AT_CLIENT_CERTIFICATE && Position(x, p) && (Asks(x) || p == AT_END) ==> ClientMsgs(x, p) != []
  {
    hide Msg;
    if p > AT_CLIENT_CERTIFICATE {
      NoMsgsYet(x, p - 1);
    }
  }
}
