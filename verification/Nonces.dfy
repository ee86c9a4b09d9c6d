/** Nonce uniqueness: over the whole life of an end, handshake and application data, against an arbitrary peer. */
module Nonces {
  import opened Prelude
  import opened Crypto
  import opened Extensions
  import opened KeySchedule
  import opened HandshakeMessages
  import opened Suites
  import opened Certificates
  import opened RecordCipher
  import opened Tickets
  import opened Records
  import opened Offer
  import opened Steps
  import opened Runs

  /** Everything that decides how an end seals: its installed sending keys, the cipher, the records sealed so far, and
      whether it sends encrypted. */
  datatype Out = Out(installs: seq<Epoch>, cipher: Option<Cipher>, seals: seq<Use>, encrypted: bool)

  function OutOf(r: RecordState): Out {
    Out(r.installs, r.outCipher, r.seals, if r.isClient then r.clientEncrypted else r.serverEncrypted)
  }

  /** Records sealed one after another under one key and IV, counting from zero. */
  ghost predicate OneRun(us: seq<Use>, epoch: Epoch) {
    forall i :: 0 <= i < |us| ==>
      us[i].epoch == epoch && us[i].seqNo == i % TWO64 && us[i].key == us[0].key && us[i].iv == us[0].iv
  }

  ghost predicate RunOf(us: seq<Use>, k: Cipher) {
    && OneRun(us, k.epoch) && k.writeSeq == |us| % TWO64
    && (us != [] ==> us[0].key == k.key && us[0].iv == k.iv)
  }

  /** The sending keys are installed in order and never twice; the first n records are sealed under the handshake
      key and the rest under the application key, each key counting from zero. */
  ghost predicate Orderly(o: Out, n: nat) {
    && n <= |o.seals| && (o.encrypted <==> o.installs != []) && (o.cipher.Some? <==> o.installs != [])
    && (|| (o.installs == [] && o.seals == [])
        || (o.installs == [HandshakeKeys] && n == |o.seals| && o.cipher.value.epoch == HandshakeKeys
          && RunOf(o.seals, o.cipher.value))
        || (o.installs == [HandshakeKeys, ApplicationKeys] && OneRun(o.seals[..n], HandshakeKeys)
            && o.cipher.value.epoch == ApplicationKeys && RunOf(o.seals[n..], o.cipher.value)))
  }

  lemma RunGrows(us: seq<Use>, k: Cipher, length: nat)
    requires RunOf(us, k)
    ensures RunOf(us + [UseOf(k, k.writeSeq, length)], AfterSeal(k))
  {
    hide AdditionalData;
    var us' := us + [UseOf(k, k.writeSeq, length)];
    forall i | 0 <= i < |us'|
      ensures us'[i].epoch == k.epoch && us'[i].seqNo == i % TWO64 && us'[i].key == us'[0].key && us'[i].iv == us'[0].iv
    {
      if i < |us| {
        assert us'[i] == us[i] && us'[0] == us[0];
      }
    }
  }

  /** One record, sealed or plain. */
  lemma WriteKeepsOrder(cr: Crypto, r: RecordState, typ: byte, data: Bytes, n: nat) returns (n': nat)
    requires Orderly(OutOf(r), n)
    ensures var w := WriteRecord(cr, r, typ, data);
      && Orderly(OutOf(w), n') && w.installs == r.installs && w.isClient == r.isClient
  {
    hide AdditionalData, SealRecord, RecordBytes, RunOf, OneRun;
    n' := n;
    if Sending(r) {
      var k, use := r.outCipher.value, UseOf(r.outCipher.value, r.outCipher.value.writeSeq, |data| + 17);
      if r.installs == [HandshakeKeys] {
        n' := n + 1;
        RunGrows(r.seals, k, |data| + 17);
      } else {
        RunGrows(r.seals[n..], k, |data| + 17);
        assert (r.seals + [use])[..n] == r.seals[..n] && (r.seals + [use])[n..] == r.seals[n..] + [use];
      }
    }
  }

  lemma FirstInstall(r: RecordState, k: Cipher, n: nat) returns (n': nat)
    requires Orderly(OutOf(r), n) && r.installs == [] && k.epoch == HandshakeKeys && k.writeSeq == 0
    ensures Orderly(OutOf(Install(MarkSending(r), k)), n')
  {
    n' := 0;
  }

  lemma SecondInstall(r: RecordState, k: Cipher, n: nat)
    requires Orderly(OutOf(r), n) && r.installs == [HandshakeKeys] && k.epoch == ApplicationKeys && k.writeSeq == 0
    ensures Orderly(OutOf(Install(r, k)), n)
  {
    assert r.seals[..n] == r.seals && r.seals[n..] == [];
  }

  // ----- what leaves the sending side alone -----

  lemma RecordReadKeepsOut(cr: Crypto, r: RecordState)
    ensures OutOf(ReadRecord(cr, r).state) == OutOf(r) && ReadRecord(cr, r).state.complete == r.complete
  {
    hide OpenRecord, Unwrap;
  }

  lemma SkippingKeepsOut(cr: Crypto, r: RecordState)
    ensures OutOf(ReadSkippingCcs(cr, r).state) == OutOf(r)
    decreases |r.inbound|
  {
    hide ReadRecord;
    RecordReadKeepsOut(cr, r);
    var s := ReadRecord(cr, r);
    if s.result.Success? {
      SkippingKeepsOut(cr, s.state);
    }
  }

  lemma MessageReadKeepsOut(cr: Crypto, r: RecordState)
    ensures OutOf(ReadHandshakeMsg(cr, r).state) == OutOf(r)
    decreases |r.inbound|
  {
    hide ReadRecord, HandshakeContent;
    if !HasMessage(r.handshakeBuf) {
      RecordReadKeepsOut(cr, r);
      var s := ReadRecord(cr, r);
      if s.result.Success? {
        MessageReadKeepsOut(cr, s.state);
        var content := HandshakeContent(s.result.value);
        if content.Success? {
          MessageReadKeepsOut(cr, s.state.(handshakeBuf := s.state.handshakeBuf + content.value));
        }
      }
    }
  }

  lemma AppReadKeepsOut(cr: Crypto, tc: TicketContext, a: AppState, n: nat)
    ensures OutOf(Read(cr, tc, a, n).state.rec) == OutOf(a.rec)
    decreases |a.rec.inbound|
  {
    hide ReadRecord, UnwrapApplicationData, ParseAndStore, CloseOrAlert;
    if a.rec.complete && a.rec.appReadBuf == [] {
      RecordReadKeepsOut(cr, a.rec);
      var s := ReadRecord(cr, a.rec);
      if s.result.Success? && s.result.value.typ == APPLICATION_DATA {
        var u := UnwrapApplicationData(true, s.result.value.data);
        if u.NewTickets? {
          AppReadKeepsOut(cr, tc, AppState(s.state,
            ParseAndStore(cr, tc.clock, tc.limit, tc.secret, a.tickets, u.data)), n);
        }
      }
    }
  }

  lemma AcceptKeepsOut(e: Env, c: ConnState, hello: ServerHello)
    requires c.rec.isClient
    ensures OutOf(AcceptServerHello(e, c, hello).state.rec) == OutOf(c.rec)
  {
    hide DeriveHandshakeKeys, NewCipher, ChosenSuite, ServerShare, CheckVersion, ClientSecret, Find;
  }

  lemma HelloReadKeepsOut(e: Env, c: ConnState)
    requires c.rec.isClient
    ensures OutOf(ReadServerHello(e, c).state.rec) == OutOf(c.rec)
  {
    hide AcceptServerHello, RetryGroup, ParseServerHello, MessageHash, ReadSkippingCcs;
    SkippingKeepsOut(e.crypto, c.rec);
    var s := ReadSkippingCcs(e.crypto, c.rec);
    if s.result.Success? && ParseServerHello(s.result.value.data).Success? {
      AcceptKeepsOut(e, Append(c.(rec := s.state), s.result.value.data), ParseServerHello(s.result.value.data).value);
    }
  }

  lemma ReadsKeepOut(e: Env, c: ConnState)
    ensures OutOf(ReadEncryptedExtensions(e, c).state.rec) == OutOf(c.rec)
    ensures OutOf(ReadServerCertificate(e, c).state.rec) == OutOf(c.rec)
    ensures OutOf(ReadClientCertificate(e, c).state.rec) == OutOf(c.rec)
    ensures OutOf(ReadCertificateVerify(e, c).state.rec) == OutOf(c.rec)
  {
    hide ReadHandshakeMsg, ParseEncryptedExtensions, AcceptAlpn, ParseCertificate, ParseCertificateRequest,
      ParseCertificateVerify, VerifyChain, VerifySignature;
    MessageReadKeepsOut(e.crypto, c.rec);
  }

  lemma FinishedReadKeepsOut(e: Env, c: ConnState)
    ensures OutOf(ReadFinished(e, c).state.rec) == OutOf(c.rec)
  {
    hide ReadHandshakeMsg, ParseFinished, VerifyData, NewCipher;
    MessageReadKeepsOut(e.crypto, c.rec);
  }

  lemma ClientHelloReadKeepsOut(e: Env, c: ConnState)
    ensures OutOf(ReadClientHello(e, c).state.rec) == OutOf(c.rec)
  {
    hide ReadRecord, ParseClientHello, ReadOffer, Negotiate;
    RecordReadKeepsOut(e.crypto, c.rec);
    assert forall c: ConnState, o: ClientOffer {:trigger Negotiate(e, c, o)} ::
      Negotiate(e, c, o).state.rec == c.rec by {
      forall c: ConnState, o: ClientOffer ensures Negotiate(e, c, o).state.rec == c.rec {
        NegotiateKeepsRecords(e, c, o);
      }
    }
  }

  lemma NegotiateKeepsRecords(e: Env, c: ConnState, o: ClientOffer)
    ensures Negotiate(e, c, o).state.rec == c.rec
  {
    hide Select, PreferredShare, SelectAlpn;
  }

  lemma SwitchKeepsOut(e: Env, c: ConnState)
    requires c.hs.suite.Some?
    ensures OutOf(EarlySwitch(e, c).rec) == OutOf(c.rec)
    ensures !c.rec.isClient ==> OutOf(ServerStartReceiving(c).state.rec) == OutOf(c.rec)
  {
    hide AppTraffic, NewCipher;
  }

  // ----- what sends -----

  lemma SendKeepsOrder(e: Env, c: ConnState, data: Bytes, n: nat) returns (n': nat)
    requires Orderly(OutOf(c.rec), n)
    ensures Orderly(OutOf(SendMessage(e, c, data).rec), n') && SendMessage(e, c, data).rec.installs == c.rec.installs
  {
    hide Orderly, WriteRecord;
    n' := WriteKeepsOrder(e.crypto, c.rec, HANDSHAKE, data, n);
  }

  lemma ClientHelloKeepsOrder(e: Env, c: ConnState, group: u16, n: nat) returns (n': nat)
    requires Orderly(OutOf(c.rec), n)
    ensures var r := SendClientHello(e, c, group).state.rec; Orderly(OutOf(r), n') && r.installs == c.rec.installs
  {
    hide Orderly, HelloBytes, WriteRecord, SharesFor, ShareOf, HelloOf;
    n' := n;
    var r := c.rec.(nextVersion := if c.hs.helloCount == 0 then VERSION_TLS10 else RECORD_VERSION);
    if group == CURVE_SM2 || group == CURVE_X25519 {
      assert OutOf(r) == OutOf(c.rec);
      var data := HelloBytes(e.crypto,
        HelloOf(e, c.hs.(clientSuites := CLIENT_SUITES), ShareOf(e, group, c.hs.helloCount)),
                             c.tickets.cache, e.clock(c.tickets.ticks));
      n' := WriteKeepsOrder(e.crypto, r, HANDSHAKE, data, n);
    }
  }

  lemma CertificatesKeepOrder(e: Env, c: ConnState, n: nat) returns (n1: nat, n2: nat)
    requires Orderly(OutOf(c.rec), n)
    ensures var r := SendCertificate(e, c).state.rec; Orderly(OutOf(r), n1) && r.installs == c.rec.installs
    ensures var r := SendCertificateVerify(e, c).state.rec; Orderly(OutOf(r), n2) && r.installs == c.rec.installs
  {
    hide Orderly, SendMessage, CertificateBytes, CertificateVerifyBytes, SignedContent;
    n1, n2 := n, n;
    if e.config.localCert.Some? {
      n1 := SendKeepsOrder(e, c, CertificateBytes(e.config.localCert.value, c.hs.certReqContext), n);
    }
    if e.config.localKey.Some? {
      var signed := SignedContent(SignatureContext(c.rec.isClient), e.crypto.hash(c.hs.transcript));
      n2 := SendKeepsOrder(e, c,
        CertificateVerifyBytes(CertificateVerify(SM2SM3,
        e.crypto.sign(e.config.localKey.value, signed, e.rnd.signing))), n);
    }
  }

  lemma PrepareKeepsOrder(e: Env, c: ConnState, n: nat) returns (n': nat)
    requires c.rec.isClient && Orderly(OutOf(c.rec), n) && c.rec.installs == []
    ensures var s := PrepareClientCertificate(e, c);
      && Orderly(OutOf(s.state.rec), n') && s.state.rec.isClient && |s.state.rec.installs| <= 1
  {
    hide RunOf, OneRun;
    n' := n;
    var k := NewCipher(HandshakeKeys, c.hs.keys.clientHandshake);
    if e.config.localCert.Some? && e.config.localKey.Some? && k.Success? {
      n' := FirstInstall(c.rec, k.value, n);
    }
  }

  /** A cipher that is in place stays: the sequence numbers of a live key are not reset. */
  lemma EnsureKeepsOrder(r: RecordState, own: Traffic, n: nat) returns (n': nat)
    requires Orderly(OutOf(r), n) && |r.installs| <= 1
    ensures var s := EnsureSending(r, own);
      && Orderly(OutOf(s.state), n') && s.state.isClient == r.isClient
      && (s.result.Success? ==> s.state.installs == [HandshakeKeys]) && |s.state.installs| <= 1
  {
    hide RunOf, OneRun;
    n' := n;
    var k := NewCipher(HandshakeKeys, own);
    if r.installs == [] && k.Success? {
      n' := FirstInstall(r, k.value, n);
    }
  }

  lemma FinishedKeepsOrder(e: Env, c: ConnState, n: nat) returns (n': nat)
    requires Orderly(OutOf(c.rec), n) && |c.rec.installs| <= 1
    ensures var s := SendFinished(e, c);
      && Orderly(OutOf(s.state.rec), n') && |s.state.rec.installs| <= 1
      && (s.result.Success? ==> s.state.rec.installs == [HandshakeKeys])
  {
    hide Orderly, EnsureSending, WriteRecord, VerifyData, FinishedBytes;
    var own := if c.rec.isClient then c.hs.keys.clientHandshake else c.hs.keys.serverHandshake;
    n' := EnsureKeepsOrder(c.rec, own, n);
    var s := EnsureSending(c.rec, own);
    if s.result.Success? {
      n' := WriteKeepsOrder(e.crypto, s.state, HANDSHAKE,
        FinishedBytes(VerifyData(e.crypto, own.secret, c.hs.transcript)), n');
    }
  }

  lemma CompleteKeepsOrder(e: Env, c: ConnState, n: nat)
    requires c.hs.suite.Some? && Orderly(OutOf(c.rec), n) && c.rec.installs == [HandshakeKeys]
    ensures Orderly(OutOf(Complete(e, c).rec), n)
  {
    hide AppTraffic, RunOf, OneRun, Orderly;
    var c' := Complete(e, c);
    if c'.rec.installs != c.rec.installs {
      var k := c'.rec.outCipher.value;
      SecondInstall(c.rec, k, n);
      assert OutOf(c'.rec) == OutOf(Install(c.rec, k));
    } else {
      assert OutOf(c'.rec) == OutOf(c.rec);
    }
  }

  lemma ServerHelloRecords(e: Env, c: ConnState) returns (data: Bytes)
    requires c.hs.suite.Some? && !c.rec.isClient
    ensures var w := WriteRecord(e.crypto, c.rec, HANDSHAKE, data); var s := SendServerHello(e, c).state;
      var k := NewCipher(HandshakeKeys, s.hs.keys.serverHandshake);
      s.rec == c.rec || s.rec == w || (k.Success? && s.rec == Install(MarkSending(w), k.value))
  {
    hide WriteRecord, DeriveHandshakeKeys, ServerHelloBytes, ServerSecret, ShareOf, Install, NewCipher;
    data := [];
    if c.hs.clientShare.Some? && ServerSecret(e, c.hs.clientShare.value).Success? {
      data := ServerHelloBytes(ServerHelloOf(e, c.hs, ShareOf(e, c.hs.clientShare.value.tag, 0)));
    }
  }

  lemma ServerHelloKeepsOrder(e: Env, c: ConnState, n: nat) returns (n': nat)
    requires c.hs.suite.Some? && !c.rec.isClient && Orderly(OutOf(c.rec), n) && c.rec.installs == []
    ensures var s := SendServerHello(e, c);
      && Orderly(OutOf(s.state.rec), n') && |s.state.rec.installs| <= 1
  {
    hide Orderly, WriteRecord, SendServerHello;
    var data := ServerHelloRecords(e, c);
    var s := SendServerHello(e, c).state;
    var w := WriteRecord(e.crypto, c.rec, HANDSHAKE, data);
    var k := NewCipher(HandshakeKeys, s.hs.keys.serverHandshake);
    n' := WriteKeepsOrder(e.crypto, c.rec, HANDSHAKE, data, n);
    if k.Success? && s.rec == Install(MarkSending(w), k.value) {
      n' := FirstInstall(w, k.value, n');
    } else if s.rec == c.rec {
      n' := n;
    }
  }

  // ----- steps and runs -----

  ghost predicate ClientOrderly(pc: ClientPc, c: ConnState, n: nat) {
    Orderly(OutOf(c.rec), n) && (ClientRank(pc) >= 3 ==> c.rec.installs == [])
      && (ClientRank(pc) >= 1 ==> |c.rec.installs| <= 1)
  }

  ghost predicate ServerOrderly(pc: ServerPc, c: ConnState, n: nat) {
    Orderly(OutOf(c.rec), n) && (ServerRank(pc) >= 9 ==> c.rec.installs == [])
      && (ServerRank(pc) >= 1 ==> |c.rec.installs| <= 1)
      && (0 < ServerRank(pc) < 4 ==> c.rec.installs == [HandshakeKeys])
  }

  lemma ClientStepKeepsOrder(e: Env, pc: ClientPc, c: ConnState, n: nat) returns (n': nat)
    requires ClientReady(pc, c) && !ClientEnded(pc) && ClientOrderly(pc, c, n)
    ensures ClientOrderly(ClientStep(e, pc, c).0, ClientStep(e, pc, c).1, n')
  {
    hide Orderly, SendClientHello, ReadServerHello, ReadEncryptedExtensions, ReadServerCertificate,
      ReadCertificateVerify, ReadFinished, EarlySwitch, PrepareClientCertificate, SendCertificate,
      SendCertificateVerify, SendFinished, Complete, WriteRecord;
    n' := n;
    match pc {
      case CSendHello => n' := ClientHelloKeepsOrder(e, c, CURVE_SM2, n);
      case CRetryHello =>
        var c1 := c.(rec := WriteRecord(e.crypto, c.rec, CHANGE_CIPHER_SPEC, [1]));
        n' := WriteKeepsOrder(e.crypto, c.rec, CHANGE_CIPHER_SPEC, [1], n);
        n' := ClientHelloKeepsOrder(e, c1, c.hs.requestedGroup, n');
      case CReadHello => HelloReadKeepsOut(e, c);
      case CReadSecondHello => HelloReadKeepsOut(e, c);
      case CReadFinished =>
        FinishedReadKeepsOut(e, c);
        if ReadFinished(e, c).result.Success? {
          SwitchKeepsOut(e, ReadFinished(e, c).state);
        }
      case CSendCertificate => n' := ClientCertificateKeepsOrder(e, c, n);
      case CSendVerify =>
        var m;
        m, n' := CertificatesKeepOrder(e, c, n);
      case CSendFinished =>
        n' := FinishedKeepsOrder(e, c, n);
        if SendFinished(e, c).result.Success? {
          CompleteKeepsOrder(e, SendFinished(e, c).state, n');
        }
      case _ => ReadsKeepOut(e, c);
    }
  }

  lemma ClientCertificateKeepsOrder(e: Env, c: ConnState, n: nat) returns (n': nat)
    requires ClientReady(CSendCertificate, c) && ClientOrderly(CSendCertificate, c, n)
    ensures ClientOrderly(ClientStep(e, CSendCertificate, c).0, ClientStep(e, CSendCertificate, c).1, n')
  {
    hide Orderly, PrepareClientCertificate, SendCertificate;
    n' := PrepareKeepsOrder(e, c, n);
    var s := PrepareClientCertificate(e, c);
    if s.result.Success? {
      var m;
      n', m := CertificatesKeepOrder(e, s.state, n');
    }
  }

  lemma ServerStepKeepsOrder(e: Env, pc: ServerPc, c: ConnState, n: nat) returns (n': nat)
    requires ServerReady(pc, c) && !ServerEnded(pc) && ServerOrderly(pc, c, n)
    ensures ServerOrderly(ServerStep(e, pc, c).0, ServerStep(e, pc, c).1, n')
  {
    hide Orderly, ReadClientHello, SendServerHello, SendEncryptedExtensions, SendCertificateRequest, SendCertificate,
      SendCertificateVerify, SendFinished, ServerStartReceiving, ReadClientCertificate, ReadCertificateVerify,
      ReadFinished, Complete;
    n' := n;
    match pc {
      case SReadHello => ClientHelloReadKeepsOut(e, c);
      case SSendHello => n' := ServerHelloKeepsOrder(e, c, n);
      case SSendExtensions => n' := ExtensionsKeepOrder(e, c, n);
      case SSendRequest => n' := RequestKeepsOrder(e, c, n);
      case SSendCertificate =>
        var m;
        n', m := CertificatesKeepOrder(e, c, n);
      case SSendVerify =>
        var m;
        m, n' := CertificatesKeepOrder(e, c, n);
      case SSendFinished =>
        n' := FinishedKeepsOrder(e, c, n);
        SwitchKeepsOut(e, SendFinished(e, c).state);
      case SReadFinished =>
        FinishedReadKeepsOut(e, c);
        if ReadFinished(e, c).result.Success? {
          CompleteKeepsOrder(e, ReadFinished(e, c).state, n);
        }
      case _ => ReadsKeepOut(e, c);
    }
  }

  lemma ExtensionsKeepOrder(e: Env, c: ConnState, n: nat) returns (n': nat)
    requires Orderly(OutOf(c.rec), n)
    ensures var r := SendEncryptedExtensions(e, c).state.rec; Orderly(OutOf(r), n') && r.installs == c.rec.installs
  {
    hide Orderly, SendMessage, EncryptedExtensionsBytes;
    n' := SendKeepsOrder(e, c,
      EncryptedExtensionsBytes(if c.hs.negotiatedProto != [] then [Alpn([c.hs.negotiatedProto])] else []), n);
  }

  lemma RequestKeepsOrder(e: Env, c: ConnState, n: nat) returns (n': nat)
    requires Orderly(OutOf(c.rec), n)
    ensures var r := SendCertificateRequest(e, c).state.rec; Orderly(OutOf(r), n') && r.installs == c.rec.installs
  {
    hide Orderly, SendMessage, CertificateRequestBytes;
    n' := SendKeepsOrder(e, c,
      CertificateRequestBytes(if c.hs.clientSigSchemes != [] then c.hs.clientSigSchemes else [SM2SM3]), n);
  }

  /** What can happen at one end: bytes arrive, the handshake takes a step, or the application reads or writes. */
  datatype Action = Arrive(bytes: Bytes) | Handshake | DoRead(n: nat) | DoWrite(b: Bytes)

  datatype End = ClientEnd(cpc: ClientPc, c: ConnState) | ServerEnd(spc: ServerPc, c: ConnState)

  ghost predicate EndReady(x: End) {
    match x case ClientEnd(pc, c) => ClientReady(pc, c) case ServerEnd(pc, c) => ServerReady(pc, c)
  }

  /** An end that has ended its handshake takes no more steps of it; a step that runs short of input fails it with Eof.
      Reading and writing are refused until the handshake is done. */
  ghost function Act(e: Env, x: End, a: Action): (y: End)
    requires EndReady(x)
    ensures EndReady(y)
  {
    hide ClientStep, ServerStep, Read, WriteRecord;
    match a
    case Arrive(bytes) => x.(c := x.c.(rec := x.c.rec.(inbound := x.c.rec.inbound + bytes)))
    case DoRead(n) => if x.c.rec.complete then x.(c := AppRead(e, x.c, n).state) else x
    case DoWrite(b) => if x.c.rec.complete then x.(c := AppWrite(e, x.c, b).state) else x
    case Handshake =>
      match x
      case ClientEnd(pc, c) => if ClientEnded(pc) then x else ClientEnd(ClientStep(e, pc, c).0, ClientStep(e, pc, c).1)
      case ServerEnd(pc, c) => if ServerEnded(pc) then x else ServerEnd(ServerStep(e, pc, c).0, ServerStep(e, pc, c).1)
  }

  ghost function RunEnd(e: Env, x: End, actions: seq<Action>): (y: End)
    requires EndReady(x)
    ensures EndReady(y)
  {
    hide Act, EndReady;
    if actions == [] then x else Act(e, RunEnd(e, x, actions[..|actions| - 1]), actions[|actions| - 1])
  }

  ghost predicate EndOrderly(x: End, n: nat) {
    match x case ClientEnd(pc, c) => ClientOrderly(pc, c, n) case ServerEnd(pc, c) => ServerOrderly(pc, c, n)
  }

  lemma ActKeepsOrder(e: Env, x: End, a: Action, n: nat) returns (n': nat)
    requires EndReady(x) && EndOrderly(x, n)
    ensures EndOrderly(Act(e, x, a), n')
  {
    hide Orderly, ClientStep, ServerStep, Read, WriteRecord;
    n' := n;
    match a {
      case Arrive(bytes) =>
        assert OutOf(Act(e, x, a).c.rec) == OutOf(x.c.rec);
      case DoRead(k) =>
        AppReadKeepsOut(e.crypto, TicketsFor(e, x.c.hs), AppState(x.c.rec, x.c.tickets), k);
      case DoWrite(b) =>
        if x.c.rec.complete {
          n' := WriteKeepsOrder(e.crypto, x.c.rec, APPLICATION_DATA, b, n);
        }
      case Handshake =>
        if x.ClientEnd? && !ClientEnded(x.cpc) {
          n' := ClientStepKeepsOrder(e, x.cpc, x.c, n);
        } else if x.ServerEnd? && !ServerEnded(x.spc) {
          n' := ServerStepKeepsOrder(e, x.spc, x.c, n);
        }
    }
  }

  lemma {:induction false} RunKeepsOrder(e: Env, x: End, actions: seq<Action>, n: nat) returns (n': nat)
    requires EndReady(x) && EndOrderly(x, n)
    ensures EndOrderly(RunEnd(e, x, actions), n')
  {
    hide Act, EndReady, EndOrderly;
    n' := n;
    if actions != [] {
      n' := RunKeepsOrder(e, x, actions[..|actions| - 1], n);
      n' := ActKeepsOrder(e, RunEnd(e, x, actions[..|actions| - 1]), actions[|actions| - 1], n');
    }
  }

  ghost predicate Starts(e: Env, x: End, inbound: Bytes, tickets: TicketState) {
    x == ClientEnd(CSendHello, NewClient(e, inbound, tickets))
      || x == ServerEnd(SReadHello, NewServer(inbound, tickets))
  }

  function NonceOf(u: Use): Bytes
    requires |u.iv| == 12
  {
    Nonce(u.iv, u.seqNo)
  }

  /** No end ever seals two records under the same keys with the same nonce, until it has sealed 2^64 under them. Both
      directions: the nonces of two records of an epoch are equal exactly when the records are a multiple of 2^64
      apart. The two epochs are two installs, in this order, each made once. */
  lemma NoncesAreUnique(e: Env, x: End, inbound: Bytes, tickets: TicketState, actions: seq<Action>, i: nat, j: nat)
    requires Starts(e, x, inbound, tickets) && EndReady(x)
    requires i < j < |RunEnd(e, x, actions).c.rec.seals|
    ensures var r := RunEnd(e, x, actions).c.rec;
      && r.installs <= [HandshakeKeys, ApplicationKeys]
      && (r.seals[i].epoch == r.seals[j].epoch ==>
            && r.seals[i].key == r.seals[j].key && r.seals[i].iv == r.seals[j].iv
            && (NonceOf(r.seals[i]) == NonceOf(r.seals[j]) <==> (j - i) % TWO64 == 0))
  {
    hide RunEnd, EndReady;
    StartsOrderly(e, x, inbound, tickets);
    var n := RunKeepsOrder(e, x, actions, 0);
    var o := OutOf(RunEnd(e, x, actions).c.rec);
    OrderlyMeans(o, n, i, j);
  }

  lemma StartsOrderly(e: Env, x: End, inbound: Bytes, tickets: TicketState)
    requires Starts(e, x, inbound, tickets)
    ensures EndOrderly(x, 0)
  {
  }

  lemma OrderlyMeans(o: Out, n: nat, i: nat, j: nat)
    requires Orderly(o, n) && i < j < |o.seals|
    ensures o.installs <= [HandshakeKeys, ApplicationKeys]
    ensures o.seals[i].epoch == o.seals[j].epoch ==>
              && o.seals[i].key == o.seals[j].key && o.seals[i].iv == o.seals[j].iv
              && (NonceOf(o.seals[i]) == NonceOf(o.seals[j]) <==> (j - i) % TWO64 == 0)
  {
    hide Nonce;
    if o.seals[i].epoch == o.seals[j].epoch {
      if o.installs == [HandshakeKeys] {
        RunNonces(o.seals, o.cipher.value, i, j);
      } else if j < n {
        OneRunNonces(o.seals[..n], HandshakeKeys, i, j);
      } else {
        assert o.seals[j] == o.seals[n..][j - n];
        FrontEpoch(o.seals, n, HandshakeKeys);
        RunNonces(o.seals[n..], o.cipher.value, i - n, j - n);
      }
    }
  }

  lemma FrontEpoch(us: seq<Use>, n: nat, epoch: Epoch)
    requires n <= |us| && OneRun(us[..n], epoch)
    ensures forall i :: 0 <= i < n ==> us[i].epoch == epoch
  {
    assert forall i :: 0 <= i < n ==> us[i] == us[..n][i];
  }

  lemma RunNonces(us: seq<Use>, k: Cipher, i: nat, j: nat)
    requires RunOf(us, k) && i < j < |us|
    ensures us[i].key == us[j].key && us[i].iv == us[j].iv
    ensures NonceOf(us[i]) == NonceOf(us[j]) <==> (j - i) % TWO64 == 0
  {
    OneRunNonces(us, k.epoch, i, j);
  }

  lemma OneRunNonces(us: seq<Use>, epoch: Epoch, i: nat, j: nat)
    requires OneRun(us, epoch) && i < j < |us|
    ensures us[i].key == us[j].key && us[i].iv == us[j].iv
    ensures NonceOf(us[i]) == NonceOf(us[j]) <==> (j - i) % TWO64 == 0
  {
    hide Nonce;
    if NonceOf(us[i]) == NonceOf(us[j]) {
      NonceInjective(us[i].iv, us[i].seqNo, us[j].seqNo);
    }
    SameResidue(i, j);
  }

  lemma SameResidue(i: nat, j: nat)
    requires i < j
    ensures i % TWO64 == j % TWO64 <==> (j - i) % TWO64 == 0
  {
    var q, p := i / TWO64, j / TWO64;
    assert i == q * TWO64 + i % TWO64 && j == p * TWO64 + j % TWO64;
    if i % TWO64 == j % TWO64 {
      assert j - i == (p - q) * TWO64;
    }
  }
}
