/** No check is bypassed: what an end that completes a handshake with an arbitrary peer must have verified. The peer is
    the input: every byte string the transport may deliver is covered. */
module Checks {
  import opened Prelude
  import opened Extensions
  import opened HandshakeMessages
  import opened Certificates
  import opened KeySchedule
  import opened Records
  import opened Steps
  import opened Runs

  /** A transcript through the ServerHello, that message, and what it says. */
  datatype Hellos = Hellos(transcript: Bytes, message: Bytes, answer: ServerHello)

  /** The parts of a transcript: through the ServerHello, through what precedes the peer's Certificate, then the
      peer's Certificate, CertificateVerify and Finished messages. */
  datatype Seen = Seen(hello: Hellos, before: Bytes, cert: Bytes, verify: Bytes, finished: Bytes)

  /** The transcript ends with the ServerHello that named the suite, and the handshake keys and the master secret come
      from the shared secret and that transcript. */
  ghost predicate Keyed(e: Env, hs: HandshakeState, hello: Hellos) {
    && Ends(hello.transcript, hello.message)
    && hs.suite.Some? && hello.answer.suite == hs.suite.value.id && hello.answer.random == hs.serverRandom
    && var km := AllKeys(e.crypto, hs.keys.sharedSecret, e.crypto.hash(hello.transcript), hs.suite.value.keyLen,
         hs.suite.value.ivLen);
    && hs.keys.clientHandshake == km.clientHandshake && hs.keys.serverHandshake == km.serverHandshake
    && hs.keys.masterSecret == km.masterSecret
  }

  predicate Ends(all: Bytes, part: Bytes) { |part| <= |all| && all[|all| - |part|..] == part }

  ghost predicate ChainChecked(e: Env, hs: HandshakeState, cert: Bytes) {
    && hs.peerCert.Some? && ParseCertificate(e.crypto, cert) == Success(hs.peerCert.value)
    && hs.peerCert.value.raw != [] && e.config.accepts(hs.peerCert.value)
  }

  ghost predicate SignatureChecked(e: Env, hs: HandshakeState, byClient: bool, before: Bytes, cert: Bytes,
          verify: Bytes) {
    && hs.peerCert.Some? && ParseCertificate(e.crypto, cert) == Success(hs.peerCert.value)
    && hs.peerCert.value.publicKey.Some?
    && var cv := ParseCertificateVerify(verify);
      && cv.Success? && cv.value.algorithm == SM2SM3
      && e.crypto.verify(hs.peerCert.value.publicKey.value,
                         SignedContent(SignatureContext(byClient), e.crypto.hash(before + cert)), cv.value.signature)
  }

  function Unseen(e: Env): Seen {
    Seen(Hellos([], [], ServerHello(0, e.rnd.serverRandom, [], 0, 0, [])), [], [], [], [])
  }

  ghost predicate FinishedChecked(e: Env, peer: Traffic, transcript: Bytes, finished: Bytes) {
    ParseFinished(finished) == Success(VerifyData(e.crypto, peer.secret, transcript))
  }

  // ----- client -----

  ghost predicate Accepted(hello: Hellos) { ParseServerHello(hello.message) == Success(hello.answer) }

  /** What a client has verified at each point of its run. */
  ghost predicate ClientInv(e: Env, pc: ClientPc, c: ConnState, w: Seen) {
    var n, t := ClientRank(pc), c.hs.transcript;
    0 < n < 8 || pc == CDone ==>
      && Keyed(e, c.hs, w.hello) && w.hello.transcript <= w.before && Accepted(w.hello)
      && (n >= 6 ==> t == w.before)
      && (n < 6 ==> ChainChecked(e, c.hs, w.cert))
      && (n == 5 ==> t == w.before + w.cert)
      && (n < 5 ==> SignatureChecked(e, c.hs, false, w.before, w.cert, w.verify))
      && (n == 4 ==> t == w.before + w.cert + w.verify)
      && (n < 4 ==> FinishedChecked(e, c.hs.keys.serverHandshake, w.before + w.cert + w.verify, w.finished))
      && (n < 4 ==> w.before + w.cert + w.verify + w.finished <= t)
  }

  lemma SuiteIsChosen(offered: seq<u16>, id: u16)
    ensures ChosenSuite(offered, id).Success? ==> ChosenSuite(offered, id).value.id == id
  {
  }

  lemma AcceptedKeys(e: Env, c: ConnState, hello: ServerHello)
    requires AcceptServerHello(e, c, hello).result.Success?
    ensures var hs := AcceptServerHello(e, c, hello).state.hs;
      && hs.transcript == c.hs.transcript && hs.suite.Some? && hs.suite.value.id == hello.suite
      && hs.serverRandom == hello.random
      && var km := AllKeys(e.crypto, hs.keys.sharedSecret, e.crypto.hash(hs.transcript), hs.suite.value.keyLen,
           hs.suite.value.ivLen);
        && hs.keys.clientHandshake == km.clientHandshake && hs.keys.serverHandshake == km.serverHandshake
        && hs.keys.masterSecret == km.masterSecret
  {
    hide AllKeys, AcceptServerHello, ChosenSuite, ServerShare, CheckVersion, ClientSecret, Find;
    AcceptIsNote(e, c, hello);
    SuiteIsChosen(c.hs.clientSuites, hello.suite);
  }

  lemma HelloKeys(e: Env, c: ConnState) returns (hello: Hellos)
    requires ReadServerHello(e, c).result.Success?
    ensures var hs := ReadServerHello(e, c).state.hs;
      hello.transcript == hs.transcript && Keyed(e, hs, hello) && Accepted(hello)
  {
    hide AllKeys, ParseServerHello, ReadSkippingCcs, AcceptServerHello;
    var s := ReadSkippingCcs(e.crypto, c.rec);
    var data := s.result.value.data;
    var answer := ParseServerHello(data).value;
    AcceptedKeys(e, Append(c.(rec := s.state), data), answer);
    hello := Hellos(c.hs.transcript + data, data, answer);
  }

  lemma StartsClientInv(e: Env, pc: ClientPc, c: ConnState) returns (w: Seen)
    requires pc == CReadHello || pc == CReadSecondHello
    requires ClientReady(pc, c)
    ensures ClientInv(e, ClientStep(e, pc, c).0, ClientStep(e, pc, c).1, w)
  {
    hide AllKeys, ReadServerHello, Keyed, Accepted;
    var s := ReadServerHello(e, c);
    w := Unseen(e);
    if s.result.Success? {
      var hello := HelloKeys(e, c);
      w := w.(hello := hello, before := hello.transcript);
    }
  }

  lemma ExtensionsKeepInv(e: Env, c: ConnState, w: Seen) returns (w': Seen)
    requires ClientReady(CReadExtensions, c) && ClientInv(e, CReadExtensions, c, w)
    ensures ClientInv(e, ClientStep(e, CReadExtensions, c).0, ClientStep(e, CReadExtensions, c).1, w')
  {
    hide AllKeys, Ends, Accepted, ReadHandshakeMsg, ParseEncryptedExtensions, AcceptAlpn;
    w' := w.(before := ClientStep(e, CReadExtensions, c).1.hs.transcript);
  }

  lemma CertificateKeepsInv(e: Env, c: ConnState, w: Seen) returns (w': Seen)
    requires !e.config.insecureSkipVerify
    requires ClientReady(CReadCertificate, c) && ClientInv(e, CReadCertificate, c, w)
    ensures ClientInv(e, ClientStep(e, CReadCertificate, c).0, ClientStep(e, CReadCertificate, c).1, w')
  {
    hide AllKeys, Ends, Accepted, ReadHandshakeMsg, ParseCertificate, ParseCertificateRequest;
    var s := ReadServerCertificate(e, c);
    if s.result == Success(true) {
      w' := w.(cert := ReadMessage(e, c).result.value);
    } else {
      w' := w.(before := s.state.hs.transcript);
    }
  }

  lemma VerifyKeepsInv(e: Env, c: ConnState, w: Seen) returns (w': Seen)
    requires !e.config.insecureSkipVerify
    requires ClientReady(CReadVerify, c) && ClientInv(e, CReadVerify, c, w)
    ensures ClientInv(e, ClientStep(e, CReadVerify, c).0, ClientStep(e, CReadVerify, c).1, w')
  {
    hide AllKeys, Ends, Accepted, ReadHandshakeMsg, ParseCertificate, ParseCertificateVerify, SignedContent;
    w' := if ReadMessage(e, c).result.Success? then w.(verify := ReadMessage(e, c).result.value) else w;
  }

  /** Nothing that was checked changes while the transcript grows. */
  ghost predicate Extends(hs: HandshakeState, hs': HandshakeState) {
    && hs.transcript <= hs'.transcript && hs'.suite == hs.suite && hs'.peerCert == hs.peerCert
    && hs'.serverRandom == hs.serverRandom
    && hs'.keys == hs.keys.(clientApp := hs'.keys.clientApp, serverApp := hs'.keys.serverApp)
  }

  lemma ExtendsKeepsInv(e: Env, c: ConnState, c': ConnState, w: Seen)
    requires ClientInv(e, CSendFinished, c, w) && Extends(c.hs, c'.hs)
    ensures ClientInv(e, CSendCertificate, c', w) && ClientInv(e, CSendVerify, c', w)
    ensures ClientInv(e, CSendFinished, c', w) && ClientInv(e, CDone, c', w)
  {
    hide AllKeys, ParseCertificate, ParseCertificateVerify, SignedContent, VerifyData, ParseFinished;
  }

  lemma FinishedMeans(e: Env, c: ConnState)
    requires !e.config.insecureSkipVerify && c.rec.isClient && ReadFinished(e, c).result.Success?
    ensures var m := ReadMessage(e, c).result; var s := ReadFinished(e, c).state;
      && m.Success? && FinishedChecked(e, c.hs.keys.serverHandshake, c.hs.transcript, m.value)
      && s.hs.transcript == c.hs.transcript + m.value && Extends(c.hs, s.hs)
  {
    hide ReadHandshakeMsg, VerifyData, NewCipher, ParseFinished;
  }

  lemma EarlySwitchExtends(e: Env, c: ConnState)
    requires c.hs.suite.Some?
    ensures Extends(c.hs, EarlySwitch(e, c).hs)
  {
    hide AppTraffic, NewCipher;
  }

  lemma FinishedKeepsInv(e: Env, c: ConnState, w: Seen) returns (w': Seen)
    requires !e.config.insecureSkipVerify
    requires ClientReady(CReadFinished, c) && ClientInv(e, CReadFinished, c, w)
    ensures ClientInv(e, ClientStep(e, CReadFinished, c).0, ClientStep(e, CReadFinished, c).1, w')
  {
    hide AllKeys, ReadMessage, ReadFinished, EarlySwitch, Keyed, ChainChecked, SignatureChecked, FinishedChecked;
    w' := if ReadMessage(e, c).result.Success? then w.(finished := ReadMessage(e, c).result.value) else w;
    var s := ReadFinished(e, c);
    if s.result.Success? {
      FinishedMeans(e, c);
      EarlySwitchExtends(e, s.state);
      assert ClientInv(e, CSendFinished, s.state, w') by {
        ExtendsKeepsChecks(e, c.hs, s.state.hs, w');
      }
      ExtendsKeepsInv(e, s.state, EarlySwitch(e, s.state), w');
    }
  }

  lemma ExtendsKeepsChecks(e: Env, hs: HandshakeState, hs': HandshakeState, w: Seen)
    requires Extends(hs, hs') && Keyed(e, hs, w.hello) && ChainChecked(e, hs, w.cert)
    requires SignatureChecked(e, hs, false, w.before, w.cert, w.verify)
    ensures Keyed(e, hs', w.hello) && ChainChecked(e, hs', w.cert)
    ensures SignatureChecked(e, hs', false, w.before, w.cert, w.verify)
  {
    hide AllKeys, ParseCertificate, ParseCertificateVerify, SignedContent;
  }

  lemma CertificateExtends(e: Env, c: ConnState)
    ensures Extends(c.hs, PrepareClientCertificate(e, c).state.hs) && Extends(c.hs, SendCertificate(e, c).state.hs)
  {
    hide WriteRecord, NewCipher, CertificateBytes;
  }

  lemma VerifyExtends(e: Env, c: ConnState)
    ensures Extends(c.hs, SendCertificateVerify(e, c).state.hs)
  {
    hide WriteRecord, SignedContent, CertificateVerifyBytes;
  }

  lemma FinishedExtends(e: Env, c: ConnState)
    requires c.rec.isClient
    ensures Extends(c.hs, SendFinished(e, c).state.hs)
  {
    hide WriteRecord, VerifyData, NewCipher, FinishedBytes;
  }

  lemma CompleteExtends(e: Env, c: ConnState)
    requires c.hs.suite.Some?
    ensures Extends(c.hs, Complete(e, c).hs)
  {
    hide AppTraffic, NewCipher;
  }

  /** From here on the client only sends. */
  lemma SendingExtends(e: Env, pc: ClientPc, c: ConnState)
    requires pc == CSendCertificate || pc == CSendVerify || pc == CSendFinished
    requires ClientReady(pc, c)
    ensures Extends(c.hs, ClientStep(e, pc, c).1.hs)
  {
    hide PrepareClientCertificate, SendCertificate, SendCertificateVerify, SendFinished, Complete;
    CertificateExtends(e, c);
    CertificateExtends(e, PrepareClientCertificate(e, c).state);
    VerifyExtends(e, c);
    FinishedExtends(e, c);
    CompleteExtends(e, SendFinished(e, c).state);
  }

  lemma SendingKeepsInv(e: Env, pc: ClientPc, c: ConnState, w: Seen)
    requires pc == CSendCertificate || pc == CSendVerify || pc == CSendFinished
    requires ClientReady(pc, c) && ClientInv(e, pc, c, w)
    ensures ClientInv(e, ClientStep(e, pc, c).0, ClientStep(e, pc, c).1, w)
  {
    hide Keyed, Accepted, ChainChecked, SignatureChecked, FinishedChecked, Extends, SendCertificate,
      SendCertificateVerify, SendFinished, PrepareClientCertificate, Complete;
    SendingExtends(e, pc, c);
    ExtendsKeepsInv(e, c, ClientStep(e, pc, c).1, w);
  }

  lemma ClientStepKeepsInv(e: Env, pc: ClientPc, c: ConnState, w: Seen) returns (w': Seen)
    requires !e.config.insecureSkipVerify && !ClientEnded(pc)
    requires ClientReady(pc, c) && ClientInv(e, pc, c, w)
    ensures ClientInv(e, ClientStep(e, pc, c).0, ClientStep(e, pc, c).1, w')
  {
    hide ClientInv;
    match pc {
      case CSendHello => w' := w; NothingYet(e, pc, c, w);
      case CRetryHello => w' := w; NothingYet(e, pc, c, w);
      case CReadHello => w' := StartsClientInv(e, pc, c);
      case CReadSecondHello => w' := StartsClientInv(e, pc, c);
      case CReadExtensions => w' := ExtensionsKeepInv(e, c, w);
      case CReadCertificate => w' := CertificateKeepsInv(e, c, w);
      case CReadVerify => w' := VerifyKeepsInv(e, c, w);
      case CReadFinished => w' := FinishedKeepsInv(e, c, w);
      case _ => w' := w; SendingKeepsInv(e, pc, c, w);
    }
  }

  lemma NothingYet(e: Env, pc: ClientPc, c: ConnState, w: Seen)
    requires pc == CSendHello || pc == CRetryHello
    requires ClientReady(pc, c)
    ensures ClientInv(e, ClientStep(e, pc, c).0, ClientStep(e, pc, c).1, w)
  {
    hide SendClientHello, WriteRecord, Keyed;
  }

  lemma {:induction false} ClientRunKeepsInv(e: Env, pc: ClientPc, c: ConnState, w: Seen) returns (w': Seen)
    requires !e.config.insecureSkipVerify && ClientReady(pc, c) && ClientInv(e, pc, c, w)
    ensures ClientInv(e, RunClient(e, pc, c).0, RunClient(e, pc, c).1, w')
    decreases ClientRank(pc), |c.rec.inbound|, |c.rec.handshakeBuf|
  {
    hide ClientInv, ClientStep;
    if ClientEnded(pc) {
      w' := w;
    } else {
      var (pc', c') := ClientStep(e, pc, c);
      var w1 := ClientStepKeepsInv(e, pc, c, w);
      w' := ClientRunKeepsInv(e, pc', c', w1);
    }
  }

  /** A client that verifies and completes, whatever it was sent, has accepted the chain of the Certificate in its
      transcript, verified CertificateVerify with the leaf key over the transcript through Certificate, and
      matched Finished over the transcript through CertificateVerify, under keys derived over the transcript that ends
      with the ServerHello it accepted. */
  lemma ClientChecksEverything(e: Env, inbound: Bytes, tickets: Tickets.TicketState) returns (w: Seen)
    requires !e.config.insecureSkipVerify
    requires RunClient(e, CSendHello, NewClient(e, inbound, tickets)).0 == CDone
    ensures var c := RunClient(e, CSendHello, NewClient(e, inbound, tickets)).1;
      && c.rec.complete
      && w.before + w.cert + w.verify + w.finished <= c.hs.transcript && w.hello.transcript <= w.before
      && Keyed(e, c.hs, w.hello) && Accepted(w.hello)
      && ChainChecked(e, c.hs, w.cert)
      && SignatureChecked(e, c.hs, false, w.before, w.cert, w.verify)
      && FinishedChecked(e, c.hs.keys.serverHandshake, w.before + w.cert + w.verify, w.finished)
  {
    hide ClientStep, Keyed, ChainChecked, SignatureChecked, FinishedChecked;
    var c0 := NewClient(e, inbound, tickets);
    w := ClientRunKeepsInv(e, CSendHello, c0, Unseen(e));
    DoneIsComplete(e, CSendHello, c0);
  }

  lemma LastStepCompletes(e: Env, pc: ClientPc, c: ConnState)
    requires !ClientEnded(pc) && ClientReady(pc, c)
    ensures var (pc', c') := ClientStep(e, pc, c); pc' == CDone ==> c'.rec.complete
  {
    hide SendClientHello, ReadServerHello, ReadEncryptedExtensions, ReadServerCertificate, ReadCertificateVerify,
      ReadFinished, EarlySwitch, PrepareClientCertificate, SendCertificate, SendCertificateVerify, SendFinished,
      FinalSwitch, WriteRecord;
  }

  lemma {:induction false} DoneIsComplete(e: Env, pc: ClientPc, c: ConnState)
    requires ClientReady(pc, c) && (pc == CDone ==> c.rec.complete)
    ensures var (pc', c') := RunClient(e, pc, c); pc' == CDone ==> c'.rec.complete
    decreases ClientRank(pc), |c.rec.inbound|, |c.rec.handshakeBuf|
  {
    hide ClientStep;
    if !ClientEnded(pc) {
      LastStepCompletes(e, pc, c);
      var (pc', c') := ClientStep(e, pc, c);
      DoneIsComplete(e, pc', c');
    }
  }

  // ----- server -----

  /** A certificate must be there if one is required; its chain is checked only against ClientCAs, when they are set. */
  ghost predicate ClientChainChecked(e: Env, hs: HandshakeState, cert: Bytes) {
    && hs.peerCert.Some? && ParseCertificate(e.crypto, cert) == Success(hs.peerCert.value)
    && (e.config.requireClientCert ==> hs.peerCert.value.raw != [])
    && (e.config.hasClientCAs && hs.peerCert.value.raw != [] ==> e.config.accepts(hs.peerCert.value))
  }

  ghost predicate Sent(hello: Hellos) { hello.message == ServerHelloBytes(hello.answer) }

  /** What a server that asks for a client certificate has verified at each point of its run. */
  ghost predicate ServerInv(e: Env, pc: ServerPc, c: ConnState, w: Seen) {
    var n, t := ServerRank(pc), c.hs.transcript;
    0 < n < 9 || pc == SDone ==>
      && Keyed(e, c.hs, w.hello) && w.hello.transcript <= w.before && Sent(w.hello)
      && (n >= 3 ==> t == w.before)
      && (n < 3 ==> ClientChainChecked(e, c.hs, w.cert) && pc != SSendFinished)
      && (n == 2 ==> t == w.before + w.cert)
      && (n < 2 ==> SignatureChecked(e, c.hs, true, w.before, w.cert, w.verify))
      && (n == 1 ==> t == w.before + w.cert + w.verify)
      && (n < 1 ==> FinishedChecked(e, c.hs.keys.clientHandshake, w.before + w.cert + w.verify, w.finished))
      && (n < 1 ==> t == w.before + w.cert + w.verify + w.finished)
  }

  lemma ServerHelloKeys(e: Env, c: ConnState) returns (hello: Hellos)
    requires c.hs.suite.Some? && SendServerHello(e, c).result.Success?
    ensures var hs := SendServerHello(e, c).state.hs;
      hello.transcript == hs.transcript && Keyed(e, hs, hello) && Sent(hello)
  {
    hide AllKeys, ServerSecret, ServerHelloBytes, ServerHelloExtensions, ShareOf, NewCipher, WriteRecord;
    var answer := ServerHelloOf(e, c.hs, ShareOf(e, c.hs.clientShare.value.tag, 0));
    hello := Hellos(c.hs.transcript + ServerHelloBytes(answer), ServerHelloBytes(answer), answer);
  }

  lemma ServerSendsExtend(e: Env, c: ConnState)
    ensures Extends(c.hs, SendEncryptedExtensions(e, c).state.hs)
      && Extends(c.hs, SendCertificateRequest(e, c).state.hs)
    ensures !c.rec.isClient ==> Extends(c.hs, SendFinished(e, c).state.hs)
    ensures ServerStartReceiving(c).state.hs == c.hs
  {
    hide WriteRecord, VerifyData, NewCipher, FinishedBytes, EncryptedExtensionsBytes, CertificateRequestBytes;
  }

  lemma ServerHelloKeepsInv(e: Env, c: ConnState) returns (w: Seen)
    requires ServerReady(SSendHello, c)
    ensures ServerInv(e, ServerStep(e, SSendHello, c).0, ServerStep(e, SSendHello, c).1, w)
  {
    hide AllKeys, Keyed, Sent, SendServerHello;
    w := Unseen(e);
    if SendServerHello(e, c).result.Success? {
      var hello := ServerHelloKeys(e, c);
      w := w.(hello := hello, before := hello.transcript);
    }
  }

  lemma FlightExtends(e: Env, pc: ServerPc, c: ConnState)
    requires 4 <= ServerRank(pc) <= 8 && ServerReady(pc, c)
    ensures Extends(c.hs, ServerStep(e, pc, c).1.hs)
    ensures ServerStep(e, pc, c).0.SFailed? || 3 <= ServerRank(ServerStep(e, pc, c).0) || !RequestsCertificate(e.config)
  {
    hide SendServerHello, SendEncryptedExtensions, SendCertificateRequest, SendCertificate, SendCertificateVerify,
      SendFinished, ServerStartReceiving;
    ServerSendsExtend(e, c);
    CertificateExtends(e, c);
    VerifyExtends(e, c);
    ServerSendsExtend(e, SendFinished(e, c).state);
  }

  /** The server's own flight: keys are bound to the hellos, and the transcript grows. */
  lemma FlightKeepsInv(e: Env, pc: ServerPc, c: ConnState, w: Seen) returns (w': Seen)
    requires (e.config.requireClientCert || e.config.hasClientCAs) && 4 <= ServerRank(pc) <= 8
    requires ServerReady(pc, c) && ServerInv(e, pc, c, w)
    ensures ServerInv(e, ServerStep(e, pc, c).0, ServerStep(e, pc, c).1, w')
  {
    hide Extends, ServerStep, Keyed, ClientChainChecked, SignatureChecked, FinishedChecked;
    var (pc', c') := ServerStep(e, pc, c);
    FlightExtends(e, pc, c);
    ExtendsKeepsKeys(e, c.hs, c'.hs, w);
    w' := w.(before := c'.hs.transcript);
  }

  lemma ExtendsKeepsKeys(e: Env, hs: HandshakeState, hs': HandshakeState, w: Seen)
    requires Extends(hs, hs') && Keyed(e, hs, w.hello)
    ensures Keyed(e, hs', w.hello) && hs.transcript <= hs'.transcript
  {
    hide AllKeys;
  }

  lemma ClientCertificateKeepsInv(e: Env, c: ConnState, w: Seen) returns (w': Seen)
    requires !e.config.insecureSkipVerify && (e.config.requireClientCert || e.config.hasClientCAs)
    requires ServerReady(SReadCertificate, c) && ServerInv(e, SReadCertificate, c, w)
    ensures ServerInv(e, ServerStep(e, SReadCertificate, c).0, ServerStep(e, SReadCertificate, c).1, w')
  {
    hide AllKeys, Ends, Sent, ReadHandshakeMsg, ParseCertificate;
    w' := if ReadMessage(e, c).result.Success? then w.(cert := ReadMessage(e, c).result.value) else w;
  }

  lemma ClientVerifyKeepsInv(e: Env, c: ConnState, w: Seen) returns (w': Seen)
    requires !e.config.insecureSkipVerify
    requires ServerReady(SReadVerify, c) && ServerInv(e, SReadVerify, c, w)
    ensures ServerInv(e, ServerStep(e, SReadVerify, c).0, ServerStep(e, SReadVerify, c).1, w')
  {
    hide AllKeys, Ends, Sent, ReadHandshakeMsg, ParseCertificate, ParseCertificateVerify, SignedContent;
    w' := if ReadMessage(e, c).result.Success? then w.(verify := ReadMessage(e, c).result.value) else w;
  }

  lemma ClientFinishedMeans(e: Env, c: ConnState)
    requires !e.config.insecureSkipVerify && !c.rec.isClient && ReadFinished(e, c).result.Success?
    ensures var m := ReadMessage(e, c).result; var s := ReadFinished(e, c).state;
      && m.Success? && FinishedChecked(e, c.hs.keys.clientHandshake, c.hs.transcript, m.value)
      && s.hs.transcript == c.hs.transcript + m.value && Extends(c.hs, s.hs)
  {
    hide ReadHandshakeMsg, VerifyData, NewCipher, ParseFinished;
  }

  lemma CompleteKeepsTranscript(e: Env, c: ConnState)
    requires c.hs.suite.Some?
    ensures Complete(e, c).hs.transcript == c.hs.transcript && Complete(e, c).rec.complete
  {
    hide AppTraffic, NewCipher;
  }

  lemma ExtendsKeepsServerChecks(e: Env, hs: HandshakeState, hs': HandshakeState, w: Seen)
    requires Extends(hs, hs') && Keyed(e, hs, w.hello) && ClientChainChecked(e, hs, w.cert)
    requires SignatureChecked(e, hs, true, w.before, w.cert, w.verify)
    ensures Keyed(e, hs', w.hello) && ClientChainChecked(e, hs', w.cert)
    ensures SignatureChecked(e, hs', true, w.before, w.cert, w.verify)
    ensures hs'.keys.clientHandshake == hs.keys.clientHandshake
  {
    hide AllKeys, ParseCertificate, ParseCertificateVerify, SignedContent;
  }

  lemma ClientFinishedKeepsInv(e: Env, c: ConnState, w: Seen) returns (w': Seen)
    requires !e.config.insecureSkipVerify
    requires ServerReady(SReadFinished, c) && ServerInv(e, SReadFinished, c, w)
    ensures ServerInv(e, ServerStep(e, SReadFinished, c).0, ServerStep(e, SReadFinished, c).1, w')
  {
    hide AllKeys, ReadMessage, ReadFinished, Complete, Extends, Keyed, ClientChainChecked, SignatureChecked,
      FinishedChecked;
    w' := if ReadMessage(e, c).result.Success? then w.(finished := ReadMessage(e, c).result.value) else w;
    var s := ReadFinished(e, c);
    if s.result.Success? {
      ClientFinishedMeans(e, c);
      CompleteExtends(e, s.state);
      CompleteKeepsTranscript(e, s.state);
      ExtendsKeepsServerChecks(e, c.hs, s.state.hs, w');
      ExtendsKeepsServerChecks(e, s.state.hs, Complete(e, s.state).hs, w');
    }
  }

  lemma {:induction false} ServerRunKeepsInv(e: Env, pc: ServerPc, c: ConnState, w: Seen) returns (w': Seen)
    requires !e.config.insecureSkipVerify && (e.config.requireClientCert || e.config.hasClientCAs)
    requires ServerReady(pc, c) && ServerInv(e, pc, c, w)
    ensures ServerInv(e, RunServer(e, pc, c).0, RunServer(e, pc, c).1, w')
    decreases ServerRank(pc)
  {
    hide ServerInv, ServerStep;
    if ServerEnded(pc) {
      return w;
    }
    var (pc', c') := ServerStep(e, pc, c);
    var w1 := w;
    match pc {
      case SReadHello => NoHelloYet(e, c, w);
      case SSendHello => w1 := ServerHelloKeepsInv(e, c);
      case SReadCertificate => w1 := ClientCertificateKeepsInv(e, c, w);
      case SReadVerify => w1 := ClientVerifyKeepsInv(e, c, w);
      case SReadFinished => w1 := ClientFinishedKeepsInv(e, c, w);
      case _ => w1 := FlightKeepsInv(e, pc, c, w);
    }
    w' := ServerRunKeepsInv(e, pc', c', w1);
  }

  lemma NoHelloYet(e: Env, c: ConnState, w: Seen)
    requires ServerReady(SReadHello, c)
    ensures ServerInv(e, ServerStep(e, SReadHello, c).0, ServerStep(e, SReadHello, c).1, w)
  {
    hide ReadClientHello, Keyed;
  }

  /** Dually for a server that verifies and has ClientCAs or requires a client certificate. Its transcript is exactly
      what was checked: a Certificate message was read, it holds a certificate if one is required, its chain is
      accepted if ClientCAs are set, CertificateVerify holds under its key and Finished matches. */
  lemma ServerChecksEverything(e: Env, inbound: Bytes, tickets: Tickets.TicketState) returns (w: Seen)
    requires !e.config.insecureSkipVerify && (e.config.requireClientCert || e.config.hasClientCAs)
    requires RunServer(e, SReadHello, NewServer(inbound, tickets)).0 == SDone
    ensures var c := RunServer(e, SReadHello, NewServer(inbound, tickets)).1;
      && c.hs.transcript == w.before + w.cert + w.verify + w.finished && w.hello.transcript <= w.before
      && Keyed(e, c.hs, w.hello) && Sent(w.hello)
      && ClientChainChecked(e, c.hs, w.cert)
      && SignatureChecked(e, c.hs, true, w.before, w.cert, w.verify)
      && FinishedChecked(e, c.hs.keys.clientHandshake, w.before + w.cert + w.verify, w.finished)
  {
    hide ServerStep, Keyed, ClientChainChecked, SignatureChecked, FinishedChecked;
    w := ServerRunKeepsInv(e, SReadHello, NewServer(inbound, tickets), Unseen(e));
  }
}
