/** The handshake steps of conn.go on values: each send or read function of the two handshakes, from the state of
    one end to the state it leaves and its error. The methods of `Conn` are proved to do exactly this, and the
    properties of runs are proved about these functions. */
module Steps {
  import opened Prelude
  import opened Crypto
  import opened Extensions
  import opened HandshakeMessages
  import opened Certificates
  import opened KeySchedule
  import opened Suites
  import opened RecordCipher
  import opened Tickets
  import opened Records
  import opened Offer

  type Random = s: Bytes | |s| == 32 witness Zeros(32)

  /** What a handshake uses of `Config`. `accepts` is the outcome of chain verification for this end's role, roots,
      server name and time. */
  datatype Config = Config(
    cipherSuites: seq<u16>,
    localCert: Option<Certificate>,
    localKey: Option<Bytes>,
    insecureSkipVerify: bool,
    requireClientCert: bool,
    hasClientCAs: bool,
    accepts: Certificate -> bool,
    serverName: Bytes,
    nextProtos: seq<Bytes>,
    ticketLimit: int)

  /** What the random source will yield; the index counts the key pairs generated so far. */
  datatype Randomness = Randomness(
    clientRandom: Random,
    serverRandom: Random,
    sessionID: Random,
    sm2Key: nat -> Bytes,
    x25519Key: nat -> Bytes,
    signing: Bytes)

  datatype Env = Env(crypto: Crypto, config: Config, rnd: Randomness, clock: nat -> nat)

  /** The handshake fields of a Conn. `keys` is NO_KEYS where the source has a nil pointer; `transcript` is what the
      running hash has been fed. */
  datatype HandshakeState = HandshakeState(
    clientRandom: Bytes,
    serverRandom: Bytes,
    suite: Option<Suite>,
    keys: KeyMaterial,
    transcript: Bytes,
    lastClientHello: Bytes,
    peerCert: Option<Certificate>,
    certRequested: bool,
    certReqContext: Bytes,
    serverFinishedHash: Option<Digest>,
    helloRetry: bool,
    requestedGroup: u16,
    sessionID: Bytes,
    helloCount: nat,
    didResume: bool,
    negotiatedProto: Bytes,
    peerProtos: seq<Bytes>,
    clientSigSchemes: seq<u16>,
    clientCurves: seq<u16>,
    clientSuites: seq<u16>,
    clientShare: Option<KeyShareEntry>)

  datatype ConnState = ConnState(rec: RecordState, hs: HandshakeState, tickets: TicketState)

  const HRR_RANDOM: Random := [
    0xCF, 0x21, 0xAD, 0x74, 0xE5, 0x9A, 0x61, 0x11, 0xBE, 0x1D, 0x8C, 0x02, 0x1E, 0x65, 0xB8, 0x91,
    0xC2, 0xA2, 0x11, 0x16, 0x7A, 0xBB, 0x8C, 0x5E, 0x07, 0x9E, 0x09, 0xE2, 0xC8, 0xA8, 0x33, 0x9C]

  const VERSION_TLS10: u16 := 0x0301
  const OK: Result<()> := Success(())

  function Blank(clientRandom: Bytes, protos: seq<Bytes>): HandshakeState {
    HandshakeState(clientRandom, [], None, NO_KEYS, [], [], None, false, [], None, false, 0, [], 0, false, [], protos,
      [], [], [], None)
  }

  function NewClient(e: Env, inbound: Bytes, tickets: TicketState): ConnState {
    ConnState(Fresh(true, inbound), Blank(e.rnd.clientRandom, e.config.nextProtos), tickets)
  }

  function NewServer(inbound: Bytes, tickets: TicketState): ConnState {
    ConnState(Fresh(false, inbound), Blank([], []), tickets)
  }

  /** The role and the suite stay what they were. */
  predicate Steady(before: ConnState, after: ConnState) {
    after.rec.isClient == before.rec.isClient && after.hs.suite == before.hs.suite
  }

  function Fail<T>(c: ConnState, error: Error): Step<ConnState, T> { Step(c, Failure(error)) }

  /** newTLS13GCM and NewSM4GCMMode: a cipher that starts counting at zero. */
  function NewCipher(epoch: Epoch, t: Traffic): Result<Cipher> {
    if |t.key| != 16 || |t.iv| != 12 then Failure(InvalidKey) else Success(Cipher(epoch, t.key, t.iv, 0, 0))
  }

  /** A handshake message goes into the transcript and out as a record. */
  function SendMessage(e: Env, c: ConnState, data: Bytes): ConnState {
    c.(hs := c.hs.(transcript := c.hs.transcript + data), rec := WriteRecord(e.crypto, c.rec, HANDSHAKE, data))
  }

  function ReadMessage(e: Env, c: ConnState): (s: Step<ConnState, Bytes>)
    ensures s.result.Success? ==> |s.result.value| >= 4 && Consumed(c.rec, s.state.rec)
    ensures s.state.hs == c.hs && s.state.tickets == c.tickets && Steady(c, s.state)
  {
    var s := ReadHandshakeMsg(e.crypto, c.rec);
    Step(c.(rec := s.state), s.result)
  }

  function Append(c: ConnState, data: Bytes): ConnState { c.(hs := c.hs.(transcript := c.hs.transcript + data)) }

  // ----- ClientHello -----

  function HelloOf(e: Env, hs: HandshakeState, share: KeyShareEntry): Hello {
    Hello(hs.clientRandom, if hs.sessionID != [] then hs.sessionID else e.rnd.sessionID, e.config.serverName,
      hs.peerProtos, share)
  }

  /** The key pair of the i-th hello. */
  function ShareOf(e: Env, group: u16, i: nat): KeyShareEntry {
    Tagged(group, if group == CURVE_SM2 then e.crypto.sm2Share(e.rnd.sm2Key(i))
      else e.crypto.x25519Share(e.rnd.x25519Key(i)))
  }

  /** A new key pair; the private key for the other group is kept from an earlier hello. */
  function SharesFor(e: Env, keys: KeyMaterial, group: u16, i: nat): KeyMaterial {
    if group == CURVE_SM2
      then NO_KEYS.(clientPrivateShare := Some(e.rnd.sm2Key(i)), clientX25519Key := keys.clientX25519Key)
    else NO_KEYS.(clientPrivateShare := keys.clientPrivateShare, clientX25519Key := Some(e.rnd.x25519Key(i)))
  }

  function SendClientHello(e: Env, c: ConnState, group: u16): (s: Step<ConnState, ()>)
    ensures Steady(c, s.state)
  {
    var hs := c.hs.(clientSuites := CLIENT_SUITES);
    if group != CURVE_SM2 && group != CURVE_X25519 then Fail(c.(hs := hs), UnsupportedGroup(group))
    else
      var i := hs.helloCount;
      var hello := HelloOf(e, hs, ShareOf(e, group, i));
      var data := HelloBytes(e.crypto, hello, c.tickets.cache, e.clock(c.tickets.ticks));
      var hs1 := hs.(keys := SharesFor(e, hs.keys, group, i), sessionID := hello.sessionID, lastClientHello := data,
        helloCount := i + 1);
      var rec := c.rec.(nextVersion := if i == 0 then VERSION_TLS10 else RECORD_VERSION);
      var c1 := ConnState(rec, hs1, c.tickets.(ticks := c.tickets.ticks + 1));
      Step(SendMessage(e, c1, data), OK)
  }

  // ----- ServerHello, client side -----

  /** The first extension with a tag. */
  function Find(es: seq<Extension>, tag: u16): Option<Bytes> {
    if es == [] then None else if es[0].tag == tag then Some(es[0].data) else Find(es[1..], tag)
  }

  function RetryGroup(es: seq<Extension>): Result<u16> {
    match Find(es, EXT_KEY_SHARE)
    case None => Failure(NoRetryGroup)
    case Some(data) =>
      var group :- if |data| == 2 then Success(ReadU16(data) as u16) else GroupOf(ParseKeyShareServer(data));
      if group == 0 then Failure(NoRetryGroup) else Success(group)
  }

  function GroupOf(r: Result<KeyShareEntry>): Result<u16> {
    var share :- r;
    Success(share.tag)
  }

  /** The synthetic message that stands for the first hello after a retry (section 4.4.1 of RFC 8446). */
  function MessageHash(cr: Crypto, hello: Bytes): Bytes { [MESSAGE_HASH, 0, 0, 32] + cr.hash(hello) }

  function HandleRetry(e: Env, c: ConnState, hello: ServerHello, data: Bytes): (s: Step<ConnState, ()>)
    ensures Steady(c, s.state)
  {
    match RetryGroup(hello.extensions)
    case Failure(error) => Fail(c, error)
    case Success(group) =>
      if c.hs.lastClientHello == [] then Fail(c, BadServerHello)
      else Fail(c.(hs := c.hs.(transcript := MessageHash(e.crypto, c.hs.lastClientHello) + data,
                               helloRetry := true, requestedGroup := group)), HelloRetry)
  }

  /** The shared secret from the server's share and the private key for its group. */
  function ClientSecret(cr: Crypto, keys: KeyMaterial, share: KeyShareEntry): Result<Bytes> {
    if share.tag == CURVE_X25519 then
      if keys.clientX25519Key == None then Failure(KeyAgreementFailed)
      else Agreed(cr.x25519Agree(keys.clientX25519Key.value, share.data))
    else if share.tag == CURVE_SM2 then
      if keys.clientPrivateShare == None then Failure(Panic)
      else Agreed(cr.sm2Agree(keys.clientPrivateShare.value, share.data))
    else Failure(UnsupportedGroup(share.tag))
  }

  function Agreed(secret: Option<Bytes>): Result<Bytes> {
    match secret
    case None => Failure(KeyAgreementFailed)
    case Some(s) => Success(s)
  }

  function CheckVersion(es: seq<Extension>): Result<()> {
    match Find(es, EXT_SUPPORTED_VERSIONS)
    case None => Failure(UnsupportedVersion)
    case Some(data) =>
      if |data| != 2 then Failure(BadExtension)
      else if ReadU16(data) != VERSION_TLS13 then Failure(UnsupportedVersion) else OK
  }

  /** deriveTLS13Keys: replaces all key material; a missing shared secret counts as 32 zeros. */
  function DeriveHandshakeKeys(cr: Crypto, hs: HandshakeState): HandshakeState
    requires hs.suite.Some?
  {
    var shared := if hs.keys.sharedSecret == [] then Zeros(HASH_SIZE) else hs.keys.sharedSecret;
    var km := AllKeys(cr, shared, cr.hash(hs.transcript), hs.suite.value.keyLen, hs.suite.value.ivLen);
    hs.(keys := km.(sharedSecret := shared))
  }

  /** The suite of a ServerHello, if the client offered it and knows it. */
  function ChosenSuite(offered: seq<u16>, id: u16): Result<Suite> {
    if offered != [] && !Offered(offered, id) then Failure(UnsupportedSuite(id))
    else
      match SuiteByID(id)
      case None => Failure(UnsupportedSuite(id))
      case Some(suite) => if ForVersion(suite, VERSION_TLS13) then Success(suite) else Failure(UnsupportedVersion)
  }

  /** The server's key share, if its ServerHello has one. */
  function ServerShare(es: seq<Extension>): Result<Option<KeyShareEntry>> {
    match Find(es, EXT_KEY_SHARE)
    case None => Success(None)
    case Some(data) =>
      var share :- ParseKeyShareServer(data);
      Success(Some(share))
  }

  function ReadServerHello(e: Env, c: ConnState): (s: Step<ConnState, ()>)
    ensures s.state.rec.isClient == c.rec.isClient && (s.result.Success? ==> s.state.hs.suite.Some?)
  {
    var s := ReadSkippingCcs(e.crypto, c.rec);
    var c1 := c.(rec := s.state);
    match s.result
    case Failure(error) => Fail(c1, error)
    case Success(record) =>
      if record.typ == HANDSHAKE && record.data != [] && record.data[0] == SERVER_HELLO then
        match ParseServerHello(record.data)
        case Failure(error) => Fail(c1, error)
        case Success(hello) =>
          if hello.random == HRR_RANDOM then HandleRetry(e, c1, hello, record.data)
          else AcceptServerHello(e, Append(c1, record.data), hello)
      else if record.typ != HANDSHAKE then Fail(c1, UnexpectedRecord(record.typ))
      else
        // Anything but a ServerHello fails to parse, after it has gone into the transcript.
        Fail(Append(c1, record.data), BadServerHello)
  }

  function AcceptServerHello(e: Env, c: ConnState, hello: ServerHello): (s: Step<ConnState, ()>)
    ensures s.state.rec.isClient == c.rec.isClient && (s.result.Success? ==> s.state.hs.suite.Some?)
  {
    var hs := c.hs.(serverRandom := hello.random);
    match ChosenSuite(hs.clientSuites, hello.suite)
    case Failure(error) => Fail(c.(hs := hs), error)
    case Success(suite) =>
      var hs1 := hs.(suite := Some(suite));
      match ServerShare(hello.extensions)
      case Failure(error) => Fail(c.(hs := hs1), error)
      case Success(share) =>
        var psk := Find(hello.extensions, EXT_PRE_SHARED_KEY);
        var hs2 := hs1.(didResume := hs1.didResume || (psk.Some? && |psk.value| >= 2),
                        keys := if share.Some? then hs1.keys.(serverPublicShare := share.value.data) else hs1.keys);
        if share == None then Fail(c.(hs := hs2), NoKeyShare)
        else
          match CheckVersion(hello.extensions)
          case Failure(error) => Fail(c.(hs := hs2), error)
          case Success(_) =>
            match ClientSecret(e.crypto, hs2.keys, share.value)
            case Failure(error) => Fail(c.(hs := hs2), error)
            case Success(secret) => StartReceiving(e, c.(hs := hs2.(keys := hs2.keys.(sharedSecret := secret))))
  }

  /** Keys from the transcript so far, and the server's handshake key for what comes in. */
  function StartReceiving(e: Env, c: ConnState): (s: Step<ConnState, ()>)
    requires c.hs.suite.Some?
    ensures Steady(c, s.state)
  {
    var hs := DeriveHandshakeKeys(e.crypto, c.hs);
    var c1 := c.(hs := hs, rec := c.rec.(serverEncrypted := true));
    match NewCipher(HandshakeKeys, hs.keys.serverHandshake)
    case Failure(error) => Fail(c1, error)
    case Success(k) => Step(c1.(rec := c1.rec.(inCipher := Some(k))), OK)
  }

  /** The part of accepting a ServerHello that only looks at it. */
  ghost function Noted(hs: HandshakeState, hello: ServerHello): (s: Step<HandshakeState, KeyShareEntry>)
    ensures s.result.Success? ==> s.state.suite.Some?
  {
    var hs0 := hs.(serverRandom := hello.random);
    var suite := ChosenSuite(hs0.clientSuites, hello.suite);
    if suite.Failure? then Step(hs0, Failure(suite.error))
    else
      var hs1 := hs0.(suite := Some(suite.value));
      var share := ServerShare(hello.extensions);
      if share.Failure? then Step(hs1, Failure(share.error))
      else
        var psk := Find(hello.extensions, EXT_PRE_SHARED_KEY);
        var hs2 := hs1.(didResume := hs1.didResume || (psk.Some? && |psk.value| >= 2),
                        keys := if share.value.Some? then hs1.keys.(serverPublicShare := share.value.value.data)
                          else hs1.keys);
        if share.value == None then Step(hs2, Failure(NoKeyShare))
        else
          var version := CheckVersion(hello.extensions);
          if version.Failure? then Step(hs2, Failure(version.error)) else Step(hs2, Success(share.value.value))
  }

  lemma AcceptIsNote(e: Env, c: ConnState, hello: ServerHello)
    ensures var n, a := Noted(c.hs, hello), AcceptServerHello(e, c, hello);
      if n.result.Failure? then a == Step(c.(hs := n.state), Failure(n.result.error))
      else
        var secret := ClientSecret(e.crypto, n.state.keys, n.result.value);
        if secret.Failure? then a == Step(c.(hs := n.state), Failure(secret.error))
        else a == StartReceiving(e, c.(hs := n.state.(keys := n.state.keys.(sharedSecret := secret.value))))
  {
    hide ChosenSuite, ServerShare, CheckVersion, ClientSecret, Find, StartReceiving;
  }

  // ----- EncryptedExtensions, client side -----

  /** A single protocol must be one the client named, if it named any; an empty list says nothing. */
  function AcceptAlpn(es: seq<Extension>, protos: seq<Bytes>, proto: Bytes): Result<Bytes> {
    if es == [] then Success(proto)
    else if es[0].tag != EXT_ALPN then AcceptAlpn(es[1..], protos, proto)
    else
      var list :- ParseAlpn(es[0].data);
      if |list| > 1 then Failure(UnsupportedAlpn)
      else if |list| == 0 then AcceptAlpn(es[1..], protos, proto)
      else if protos != [] && list[0] !in protos then Failure(UnsupportedAlpn)
      else AcceptAlpn(es[1..], protos, list[0])
  }

  /** The protocol that was taken before the first extension that is refused, if any is. */
  function ProtoSoFar(es: seq<Extension>, protos: seq<Bytes>, proto: Bytes): (p: Bytes)
    ensures AcceptAlpn(es, protos, proto).Success? ==> p == AcceptAlpn(es, protos, proto).value
  {
    if es == [] then proto
    else if es[0].tag != EXT_ALPN then ProtoSoFar(es[1..], protos, proto)
    else
      match ParseAlpn(es[0].data)
      case Failure(_) => proto
      case Success(list) =>
        if |list| > 1 || (|list| == 1 && protos != [] && list[0] !in protos) then proto
        else ProtoSoFar(es[1..], protos, if |list| == 0 then proto else list[0])
  }

  function ReadEncryptedExtensions(e: Env, c: ConnState): (s: Step<ConnState, ()>)
    ensures Steady(c, s.state)
  {
    var s := ReadMessage(e, c);
    match s.result
    case Failure(error) => Fail(s.state, error)
    case Success(msg) =>
      match ParseEncryptedExtensions(msg)
      case Failure(error) => Fail(s.state, error)
      case Success(es) =>
        var hs := s.state.hs;
        var c1 := s.state.(hs := hs.(negotiatedProto := ProtoSoFar(es, hs.peerProtos, hs.negotiatedProto)));
        match AcceptAlpn(es, hs.peerProtos, hs.negotiatedProto)
        case Failure(error) => Fail(c1, error)
        case Success(_) => Step(Append(c1, msg), OK)
  }

  // ----- certificates -----

  /** verifyPeerCertificate */
  function VerifyChain(e: Env, cert: Certificate): Result<()> {
    if cert.raw == [] then Failure(CertificateMissing)
    else if !e.config.accepts(cert) then Failure(ChainRejected) else OK
  }

  /** One message of readCertificateTLS13's loop; the result says whether it was the Certificate. */
  function ReadServerCertificate(e: Env, c: ConnState): (s: Step<ConnState, bool>)
    ensures Steady(c, s.state) && (s.result.Success? ==> Consumed(c.rec, s.state.rec))
  {
    var s := ReadMessage(e, c);
    match s.result
    case Failure(error) => Fail(s.state, error)
    case Success(msg) =>
      if msg[0] == CERTIFICATE_REQUEST then
        var c1 := s.state.(hs := s.state.hs.(certRequested := true));
        match ParseCertificateRequest(msg)
        case Failure(error) => Fail(c1, error)
        case Success(context) => Step(Append(c1.(hs := c1.hs.(certReqContext := context)), msg), Success(false))
      else if msg[0] == CERTIFICATE then
        match ParseCertificate(e.crypto, msg)
        case Failure(error) => Fail(s.state, error)
        case Success(cert) =>
          var c1 := s.state.(hs := s.state.hs.(peerCert := Some(cert)));
          match if e.config.insecureSkipVerify then OK else VerifyChain(e, cert)
          case Failure(error) => Fail(c1, error)
          case Success(_) => Step(Append(c1, msg), Success(true))
      else Fail(s.state, UnexpectedMessage(msg[0]))
  }

  function ReadClientCertificate(e: Env, c: ConnState): (s: Step<ConnState, ()>)
    ensures Steady(c, s.state)
  {
    var s := ReadMessage(e, c);
    match s.result
    case Failure(error) => Fail(s.state, error)
    case Success(msg) =>
      if msg[0] != CERTIFICATE then Fail(s.state, UnexpectedMessage(msg[0]))
      else
        match ParseCertificate(e.crypto, msg)
        case Failure(error) => Fail(s.state, error)
        case Success(cert) =>
          var c1 := s.state.(hs := s.state.hs.(peerCert := Some(cert)));
          if e.config.requireClientCert && cert.raw == [] then Fail(c1, CertificateMissing)
          else
            match if !e.config.insecureSkipVerify && e.config.hasClientCAs
              && cert.raw != [] then VerifyChain(e, cert) else OK
            case Failure(error) => Fail(c1, error)
            case Success(_) => Step(Append(c1, msg), OK)
  }

  /** Before its own certificate the client starts to send encrypted. */
  function PrepareClientCertificate(e: Env, c: ConnState): (s: Step<ConnState, ()>)
    ensures Steady(c, s.state)
  {
    if e.config.localCert == None || e.config.localKey == None then Fail(c, CertificateMissing)
    else if c.rec.clientEncrypted then Step(c, OK)
    else
      match NewCipher(HandshakeKeys, c.hs.keys.clientHandshake)
      case Failure(error) => Fail(c, error)
      case Success(k) => Step(c.(rec := Install(c.rec.(clientEncrypted := true), k)), OK)
  }

  function SendCertificate(e: Env, c: ConnState): (s: Step<ConnState, ()>)
    ensures Steady(c, s.state)
  {
    match e.config.localCert
    case None => Fail(c, CertificateMissing)
    case Some(cert) => Step(SendMessage(e, c, CertificateBytes(cert, c.hs.certReqContext)), OK)
  }

  function SendCertificateRequest(e: Env, c: ConnState): (s: Step<ConnState, ()>)
    ensures Steady(c, s.state)
  {
    Step(SendMessage(e, c, CertificateRequestBytes(if c.hs.clientSigSchemes != [] then c.hs.clientSigSchemes
      else [SM2SM3])), OK)
  }

  // ----- CertificateVerify -----

  /** The name of the signing end in the signed content. */
  function SignatureContext(byClient: bool): Bytes {
    if byClient then Ascii("TLS 1.3, client CertificateVerify") else Ascii("TLS 1.3, server CertificateVerify")
  }

  /** tls13CertVerifySigned (section 4.4.3 of RFC 8446). */
  function SignedContent(context: Bytes, digest: Digest): Bytes { seq(64, _ => 0x20) + context + [0] + digest }

  function SendCertificateVerify(e: Env, c: ConnState): (s: Step<ConnState, ()>)
    ensures Steady(c, s.state)
  {
    match e.config.localKey
    case None => Fail(c, PrivateKeyMissing)
    case Some(key) =>
      var signed := SignedContent(SignatureContext(c.rec.isClient), e.crypto.hash(c.hs.transcript));
      Step(SendMessage(e, c, CertificateVerifyBytes(CertificateVerify(SM2SM3,
        e.crypto.sign(key, signed, e.rnd.signing)))), OK)
  }

  function VerifySignature(e: Env, c: ConnState, byClient: bool, signature: Bytes): Result<()> {
    if c.hs.peerCert == None || c.hs.peerCert.value.publicKey == None then Failure(PeerKeyMissing)
    else
      var signed := SignedContent(SignatureContext(byClient), e.crypto.hash(c.hs.transcript));
      if e.crypto.verify(c.hs.peerCert.value.publicKey.value, signed, signature) then OK else Failure(SignatureRejected)
  }

  /** The signature is always the peer's, over everything before this message. */
  function ReadCertificateVerify(e: Env, c: ConnState): (s: Step<ConnState, ()>)
    ensures Steady(c, s.state)
  {
    var s := ReadMessage(e, c);
    match s.result
    case Failure(error) => Fail(s.state, error)
    case Success(msg) =>
      match ParseCertificateVerify(msg)
      case Failure(error) => Fail(s.state, error)
      case Success(cv) =>
        if cv.algorithm != SM2SM3 then Fail(s.state, UnsupportedSignature)
        else
          match if e.config.insecureSkipVerify then OK else VerifySignature(e, s.state, !c.rec.isClient, cv.signature)
          case Failure(error) => Fail(s.state, error)
          case Success(_) => Step(Append(s.state, msg), OK)
  }

  // ----- Finished -----

  function ReadFinished(e: Env, c: ConnState): (s: Step<ConnState, ()>)
    ensures Steady(c, s.state)
  {
    var s := ReadMessage(e, c);
    match s.result
    case Failure(error) => Fail(s.state, error)
    case Success(msg) =>
      match ParseFinished(msg)
      case Failure(error) => Fail(s.state, error)
      case Success(verifyData) =>
        var peer := if c.rec.isClient then c.hs.keys.serverHandshake else c.hs.keys.clientHandshake;
        if !e.config.insecureSkipVerify && verifyData != VerifyData(e.crypto, peer.secret, s.state.hs.transcript)
          then Fail(s.state, FinishedMismatch)
        else RestartReceiving(e, Append(s.state, msg), peer)
  }

  /** Rebuilds the receiving cipher from the peer's handshake key, counting from zero again. */
  function RestartReceiving(e: Env, c: ConnState, peer: Traffic): (s: Step<ConnState, ()>)
    ensures Steady(c, s.state)
  {
    var c1 := if c.rec.isClient
              then c.(hs := c.hs.(serverFinishedHash := Some(e.crypto.hash(c.hs.transcript))),
                rec := c.rec.(serverEncrypted := true))
              else c.(rec := c.rec.(clientEncrypted := true));
    match NewCipher(HandshakeKeys, peer)
    case Failure(error) => Fail(c1, error)
    case Success(k) => Step(c1.(rec := c1.rec.(inCipher := Some(k))), OK)
  }

  /** Installs the sending handshake key, unless this end is sending encrypted already. */
  function EnsureSending(r: RecordState, own: Traffic): Step<RecordState, ()> {
    if (if r.isClient then r.clientEncrypted else r.serverEncrypted) && r.outCipher.Some? then Step(r, OK)
    else
      match NewCipher(HandshakeKeys, own)
      case Failure(error) => Step(r, Failure(error))
      case Success(k) => Step(Install(MarkSending(r), k), OK)
  }

  function MarkSending(r: RecordState): RecordState {
    if r.isClient then r.(clientEncrypted := true) else r.(serverEncrypted := true)
  }

  function Install(r: RecordState, k: Cipher): RecordState {
    r.(outCipher := Some(k), installs := r.installs + [k.epoch])
  }

  function SendFinished(e: Env, c: ConnState): (s: Step<ConnState, ()>)
    ensures Steady(c, s.state)
  {
    var own := if c.rec.isClient then c.hs.keys.clientHandshake else c.hs.keys.serverHandshake;
    var data := FinishedBytes(VerifyData(e.crypto, own.secret, c.hs.transcript));
    var c1 := Append(c, data);
    var c2 := if c.rec.isClient then c1
      else c1.(hs := c1.hs.(serverFinishedHash := Some(e.crypto.hash(c1.hs.transcript))));
    var s := EnsureSending(c2.rec, own);
    match s.result
    case Failure(error) => Fail(c2.(rec := s.state), error)
    case Success(_) => Step(c2.(rec := WriteRecord(e.crypto, s.state, HANDSHAKE, data)), OK)
  }

  // ----- application keys -----

  /** The hash that application secrets are derived from: up to the server's Finished. */
  function FinishedHash(cr: Crypto, hs: HandshakeState): Digest {
    match hs.serverFinishedHash
    case Some(d) => d
    case None => cr.hash(hs.transcript)
  }

  function ServerAppTraffic(cr: Crypto, hs: HandshakeState): Traffic
    requires hs.suite.Some?
  {
    AppTraffic(cr, hs.keys.masterSecret, Ascii("s ap traffic"), FinishedHash(cr, hs), hs.suite.value.keyLen,
      hs.suite.value.ivLen)
  }

  function ClientAppTraffic(cr: Crypto, hs: HandshakeState): Traffic
    requires hs.suite.Some?
  {
    AppTraffic(cr, hs.keys.masterSecret, Ascii("c ap traffic"), FinishedHash(cr, hs), hs.suite.value.keyLen,
      hs.suite.value.ivLen)
  }

  /** The client switches to the server's application key right after the server's Finished. */
  function EarlySwitch(e: Env, c: ConnState): (c': ConnState)
    requires c.hs.suite.Some?
    ensures Steady(c, c')
  {
    if c.hs.keys.masterSecret == [] then c
    else
      var t := ServerAppTraffic(e.crypto, c.hs);
      var c1 := c.(hs := c.hs.(keys := c.hs.keys.(serverApp := t)));
      match NewCipher(ApplicationKeys, t)
      case Failure(_) => c1
      case Success(k) => c1.(rec := c1.rec.(inCipher := Some(k)))
  }

  /** deriveTLS13ApplicationKeys and setupApplicationTrafficKeys, which give up silently on a bad key. */
  function FinalSwitch(e: Env, c: ConnState): (c': ConnState)
    requires c.hs.suite.Some?
    ensures Steady(c, c')
  {
    var keys := if c.hs.keys.masterSecret == [] then c.hs.keys
                else c.hs.keys.(clientApp := ClientAppTraffic(e.crypto, c.hs),
                serverApp := ServerAppTraffic(e.crypto, c.hs));
    var c1 := c.(hs := c.hs.(keys := keys));
    var (peer, own) := if c.rec.isClient then (keys.serverApp, keys.clientApp) else (keys.clientApp, keys.serverApp);
    match NewCipher(ApplicationKeys, peer)
    case Failure(_) => c1
    case Success(k) =>
      var r := c1.rec.(inCipher := Some(k));
      match NewCipher(ApplicationKeys, own)
      case Failure(_) => c1.(rec := r)
      case Success(k') => c1.(rec := Install(r, k'))
  }

  function Complete(e: Env, c: ConnState): (c': ConnState)
    requires c.hs.suite.Some?
    ensures Steady(c, c')
  {
    var c1 := FinalSwitch(e, c);
    c1.(rec := c1.rec.(complete := true))
  }

  // ----- ClientHello, server side -----

  /** What the server takes from the extensions of a hello; a later extension overrides an earlier one. */
  datatype ClientOffer = ClientOffer(
    shares: seq<KeyShareEntry>,
    versions: seq<u16>,
    curves: seq<u16>,
    schemes: seq<u16>,
    protos: seq<Bytes>)

  function ReadOne(e: Extension, o: ClientOffer): Result<ClientOffer> {
    if e.tag == EXT_KEY_SHARE then
      var v :- ParseKeyShareClient(e.data);
      Success(o.(shares := v))
    else if e.tag == EXT_SUPPORTED_CURVES then
      var v :- ParseU16List(e.data);
      Success(o.(curves := v))
    else if e.tag == EXT_SIGNATURE_ALGORITHMS then
      var v :- ParseU16List(e.data);
      Success(o.(schemes := v))
    else if e.tag == EXT_ALPN then
      var v :- ParseAlpn(e.data);
      Success(o.(protos := v))
    else if e.tag == EXT_SUPPORTED_VERSIONS then
      var v :- ParseVersions(e.data);
      Success(o.(versions := v))
    else Success(o)
  }

  function ReadOffer(es: seq<Extension>, o: ClientOffer): Result<ClientOffer> {
    if es == [] then Success(o)
    else
      var o1 :- ReadOne(es[0], o);
      ReadOffer(es[1..], o1)
  }

  /** What the extensions before the first bad one have left. */
  function OfferSoFar(es: seq<Extension>, o: ClientOffer): (p: ClientOffer)
    ensures ReadOffer(es, o).Success? ==> p == ReadOffer(es, o).value
  {
    if es == [] then o
    else
      match ReadOne(es[0], o)
      case Failure(_) => o
      case Success(o1) => OfferSoFar(es[1..], o1)
  }

  /** Curves, schemes and protocols are kept in the connection, also when a later extension is bad. */
  function NoteOffer(hs: HandshakeState, o: ClientOffer): HandshakeState {
    hs.(clientCurves := o.curves, clientSigSchemes := o.schemes, peerProtos := o.protos)
  }

  function FirstShare(shares: seq<KeyShareEntry>, group: u16): Option<KeyShareEntry> {
    if shares == [] then None else if shares[0].tag == group then Some(shares[0]) else FirstShare(shares[1..], group)
  }

  /** SM2 first, then X25519. */
  function PreferredShare(shares: seq<KeyShareEntry>): Option<KeyShareEntry> {
    if FirstShare(shares, CURVE_SM2).Some? then FirstShare(shares, CURVE_SM2) else FirstShare(shares, CURVE_X25519)
  }

  function ServerSuites(config: Config): seq<u16> {
    if config.cipherSuites != [] then config.cipherSuites else [SM4_GCM_SM3_ALT, SM4_GCM_SM3]
  }

  function ReadClientHello(e: Env, c: ConnState): (s: Step<ConnState, ()>)
    ensures s.state.rec.isClient == c.rec.isClient && (s.result.Success? ==> s.state.hs.suite.Some?)
  {
    var s := ReadRecord(e.crypto, c.rec);
    var c1 := c.(rec := s.state);
    match s.result
    case Failure(error) => Fail(c1, error)
    case Success(record) =>
      if record.typ != HANDSHAKE then Fail(c1, UnexpectedRecord(record.typ))
      else
        var c2 := Append(c1, record.data);
        match ParseClientHello(record.data)
        case Failure(error) => Fail(c2, error)
        case Success(hello) =>
          var hs := c2.hs.(clientRandom := hello.random, sessionID := hello.sessionID, clientSuites := hello.suites);
          var before := ClientOffer([], [], hs.clientCurves, hs.clientSigSchemes, hs.peerProtos);
          var c3 := c2.(hs := NoteOffer(hs, OfferSoFar(hello.extensions, before)));
          match ReadOffer(hello.extensions, before)
          case Failure(error) => Fail(c3, error)
          case Success(o) => Negotiate(e, c3, o)
  }

  function Negotiate(e: Env, c: ConnState, o: ClientOffer): (s: Step<ConnState, ()>)
    ensures s.state.rec.isClient == c.rec.isClient && (s.result.Success? ==> s.state.hs.suite.Some?)
  {
    if VERSION_TLS13 !in o.versions then Fail(c, UnsupportedVersion)
    else if o.schemes != [] && !SupportsSM2(o.schemes) then Fail(c, UnsupportedSignature)
    else
      var suite := Select(c.hs.clientSuites, ServerSuites(e.config), VERSION_TLS13, o.curves, o.schemes);
      var c1 := c.(hs := c.hs.(suite := suite));
      if suite == None then Fail(c1, UnsupportedSuite(0))
      else if o.shares == [] then Fail(c1, NoKeyShare)
      else
        var share := PreferredShare(o.shares);
        var c2 := c1.(hs := c1.hs.(clientShare := share));
        if share == None then Fail(c2, NoKeyShare)
        else
          Step(c2.(hs := c2.hs.(negotiatedProto := if e.config.nextProtos != [] && o.protos != []
                                                   then SelectAlpn(e.config.nextProtos, o.protos)
                                                     else c2.hs.negotiatedProto)), OK)
  }

  // ----- ServerHello, server side -----

  function ServerHelloExtensions(share: KeyShareEntry): seq<Extension> {
    [Tagged(EXT_SUPPORTED_VERSIONS, [3, 4]), KeyShareServer(share)]
  }

  function ServerHelloOf(e: Env, hs: HandshakeState, share: KeyShareEntry): ServerHello
    requires hs.suite.Some?
  {
    ServerHello(VERSION_TLS12, e.rnd.serverRandom, hs.sessionID, hs.suite.value.id, 0, ServerHelloExtensions(share))
  }

  function ServerSecret(e: Env, share: KeyShareEntry): Result<Bytes> {
    if share.tag == CURVE_SM2 then Agreed(e.crypto.sm2Agree(e.rnd.sm2Key(0), share.data))
    else if share.tag == CURVE_X25519 then Agreed(e.crypto.x25519Agree(e.rnd.x25519Key(0), share.data))
    else Failure(UnsupportedGroup(share.tag))
  }

  function SendServerHello(e: Env, c: ConnState): (s: Step<ConnState, ()>)
    requires c.hs.suite.Some?
    ensures Steady(c, s.state)
  {
    var c1 := c.(hs := c.hs.(serverRandom := e.rnd.serverRandom));
    match c.hs.clientShare
    case None => Fail(c1, NoKeyShare)
    case Some(clientShare) =>
      match ServerSecret(e, clientShare)
      case Failure(error) => Fail(c1, error)
      case Success(secret) =>
        var share := ShareOf(e, clientShare.tag, 0);
        var own := if clientShare.tag == CURVE_SM2 then c1.hs.keys.(clientPrivateShare := Some(e.rnd.sm2Key(0)))
                   else c1.hs.keys.(clientX25519Key := Some(e.rnd.x25519Key(0)));
        var c2 := c1.(hs := c1.hs.(keys := own.(sharedSecret := secret, serverPublicShare := share.data)));
        var c3 := SendMessage(e, c2, ServerHelloBytes(ServerHelloOf(e, c2.hs, share)));
        var hs := DeriveHandshakeKeys(e.crypto, c3.hs);
        match NewCipher(HandshakeKeys, hs.keys.serverHandshake)
        case Failure(error) => Fail(c3.(hs := hs), error)
        case Success(k) => Step(c3.(hs := hs, rec := Install(c3.rec.(serverEncrypted := true), k)), OK)
  }

  function SendEncryptedExtensions(e: Env, c: ConnState): (s: Step<ConnState, ()>)
    ensures Steady(c, s.state)
  {
    var es := if c.hs.negotiatedProto != [] then [Alpn([c.hs.negotiatedProto])] else [];
    Step(SendMessage(e, c, EncryptedExtensionsBytes(es)), OK)
  }

  /** After its Finished the server starts to read under the client's handshake key. */
  function ServerStartReceiving(c: ConnState): (s: Step<ConnState, ()>)
    ensures Steady(c, s.state)
  {
    if c.rec.clientEncrypted && c.rec.inCipher.Some? then Step(c, OK)
    else
      match NewCipher(HandshakeKeys, c.hs.keys.clientHandshake)
      case Failure(error) => Fail(c, error)
      case Success(k) => Step(c.(rec := c.rec.(clientEncrypted := true, inCipher := Some(k))), OK)
  }
}
