/** clientHandshakeTLS13 and serverHandshakeTLS13 as step machines: a program counter says which send or read step is
    next. A whole handshake is a run of the machine to its end. */
module Runs {
  import opened Prelude
  import opened Extensions
  import opened RecordCipher
  import opened Records
  import opened Steps

  datatype ClientPc =
    | CSendHello
    | CReadHello
    | CRetryHello
    | CReadSecondHello
    | CReadExtensions
    | CReadCertificate
    | CReadVerify
    | CReadFinished
    | CSendCertificate
    | CSendVerify
    | CSendFinished
    | CDone
    | CFailed(at: ClientPc, error: Error)

  datatype ServerPc =
    | SReadHello
    | SSendHello
    | SSendExtensions
    | SSendRequest
    | SSendCertificate
    | SSendVerify
    | SSendFinished
    | SReadCertificate
    | SReadVerify
    | SReadFinished
    | SDone
    | SFailed(at: ServerPc, error: Error)

  // ----- client -----

  function ClientRank(pc: ClientPc): nat {
    match pc
    case CSendHello => 11
    case CReadHello => 10
    case CRetryHello => 9
    case CReadSecondHello => 8
    case CReadExtensions => 7
    case CReadCertificate => 6
    case CReadVerify => 5
    case CReadFinished => 4
    case CSendCertificate => 3
    case CSendVerify => 2
    case CSendFinished => 1
    case CDone => 0
    case CFailed(_, _) => 0
  }

  predicate ClientEnded(pc: ClientPc) { pc.CDone? || pc.CFailed? }

  /** A suite has been agreed once the ServerHello is accepted. */
  predicate ClientReady(pc: ClientPc, c: ConnState) {
    c.rec.isClient && (0 < ClientRank(pc) < 8 ==> c.hs.suite.Some?)
  }

  function Goto<T>(s: Step<ConnState, T>, at: ClientPc, next: ClientPc): (ClientPc, ConnState) {
    match s.result
    case Failure(error) => (CFailed(at, error), s.state)
    case Success(_) => (next, s.state)
  }

  function ClientStep(e: Env, pc: ClientPc, c: ConnState): (r: (ClientPc, ConnState))
    requires !ClientEnded(pc) && ClientReady(pc, c)
    ensures ClientReady(r.0, r.1)
    ensures ClientRank(r.0) < ClientRank(pc) || (r.0 == pc && Consumed(c.rec, r.1.rec))
  {
    hide SendClientHello, ReadServerHello, ReadEncryptedExtensions, ReadServerCertificate, ReadCertificateVerify,
      ReadFinished, EarlySwitch, PrepareClientCertificate, SendCertificate, SendCertificateVerify, SendFinished,
      Complete, WriteRecord;
    match pc
    case CSendHello => Goto(SendClientHello(e, c, CURVE_SM2), pc, CReadHello)
    case CReadHello =>
      var s := ReadServerHello(e, c);
      if s.result == Failure(HelloRetry) && s.state.hs.helloRetry then (CRetryHello, s.state)
      else Goto(s, pc, CReadExtensions)
    case CRetryHello =>
      var c1 := c.(rec := WriteRecord(e.crypto, c.rec, CHANGE_CIPHER_SPEC, [1]));
      Goto(SendClientHello(e, c1, c.hs.requestedGroup), pc, CReadSecondHello)
    case CReadSecondHello => Goto(ReadServerHello(e, c), pc, CReadExtensions)
    case CReadExtensions => Goto(ReadEncryptedExtensions(e, c), pc, CReadCertificate)
    case CReadCertificate =>
      var s := ReadServerCertificate(e, c);
      Goto(s, pc, if s.result == Success(true) then CReadVerify else CReadCertificate)
    case CReadVerify => Goto(ReadCertificateVerify(e, c), pc, CReadFinished)
    case CReadFinished =>
      var s := ReadFinished(e, c);
      if s.result.Failure? then (CFailed(pc, s.result.error), s.state)
      else
        var c1 := EarlySwitch(e, s.state);
        (if c1.hs.certRequested then CSendCertificate else CSendFinished, c1)
    case CSendCertificate =>
      var s := PrepareClientCertificate(e, c);
      if s.result.Failure? then (CFailed(pc, s.result.error), s.state)
      else Goto(SendCertificate(e, s.state), pc, CSendVerify)
    case CSendVerify => Goto(SendCertificateVerify(e, c), pc, CSendFinished)
    case CSendFinished =>
      var s := SendFinished(e, c);
      if s.result.Failure? then (CFailed(pc, s.result.error), s.state) else (CDone, Complete(e, s.state))
  }

  /** The handshake from a program counter on, to completion or an error. */
  function RunClient(e: Env, pc: ClientPc, c: ConnState): (ClientPc, ConnState)
    requires ClientReady(pc, c)
    decreases ClientRank(pc), |c.rec.inbound|, |c.rec.handshakeBuf|
  {
    if ClientEnded(pc) then (pc, c)
    else
      var (pc', c') := ClientStep(e, pc, c);
      RunClient(e, pc', c')
  }

  // ----- server -----

  function ServerRank(pc: ServerPc): nat {
    match pc
    case SReadHello => 10
    case SSendHello => 9
    case SSendExtensions => 8
    case SSendRequest => 7
    case SSendCertificate => 6
    case SSendVerify => 5
    case SSendFinished => 4
    case SReadCertificate => 3
    case SReadVerify => 2
    case SReadFinished => 1
    case SDone => 0
    case SFailed(_, _) => 0
  }

  predicate ServerEnded(pc: ServerPc) { pc.SDone? || pc.SFailed? }

  predicate ServerReady(pc: ServerPc, c: ConnState) {
    !c.rec.isClient && (0 < ServerRank(pc) < 10 ==> c.hs.suite.Some?)
  }

  predicate RequestsCertificate(config: Config) { config.requireClientCert || config.hasClientCAs }

  function GotoS<T>(s: Step<ConnState, T>, at: ServerPc, next: ServerPc): (ServerPc, ConnState) {
    match s.result
    case Failure(error) => (SFailed(at, error), s.state)
    case Success(_) => (next, s.state)
  }

  function ServerStep(e: Env, pc: ServerPc, c: ConnState): (r: (ServerPc, ConnState))
    requires !ServerEnded(pc) && ServerReady(pc, c)
    ensures ServerReady(r.0, r.1)
    ensures ServerRank(r.0) < ServerRank(pc)
  {
    hide ReadClientHello, SendServerHello, SendEncryptedExtensions, SendCertificateRequest, SendCertificate,
      SendCertificateVerify, SendFinished, ServerStartReceiving, ReadClientCertificate, ReadCertificateVerify,
      ReadFinished, Complete;
    match pc
    case SReadHello => GotoS(ReadClientHello(e, c), pc, SSendHello)
    case SSendHello => GotoS(SendServerHello(e, c), pc, SSendExtensions)
    case SSendExtensions =>
      GotoS(SendEncryptedExtensions(e, c), pc, if RequestsCertificate(e.config) then SSendRequest else SSendCertificate)
    case SSendRequest => GotoS(SendCertificateRequest(e, c), pc, SSendCertificate)
    case SSendCertificate => GotoS(SendCertificate(e, c), pc, SSendVerify)
    case SSendVerify => GotoS(SendCertificateVerify(e, c), pc, SSendFinished)
    case SSendFinished =>
      var s := SendFinished(e, c);
      if s.result.Failure? then (SFailed(pc, s.result.error), s.state)
      else GotoS(ServerStartReceiving(s.state), pc,
      if RequestsCertificate(e.config) then SReadCertificate else SReadFinished)
    case SReadCertificate => GotoS(ReadClientCertificate(e, c), pc, SReadVerify)
    case SReadVerify => GotoS(ReadCertificateVerify(e, c), pc, SReadFinished)
    case SReadFinished =>
      var s := ReadFinished(e, c);
      if s.result.Failure? then (SFailed(pc, s.result.error), s.state) else (SDone, Complete(e, s.state))
  }

  function RunServer(e: Env, pc: ServerPc, c: ConnState): (ServerPc, ConnState)
    requires ServerReady(pc, c)
    decreases ServerRank(pc)
  {
    if ServerEnded(pc) then (pc, c)
    else
      var (pc', c') := ServerStep(e, pc, c);
      RunServer(e, pc', c')
  }

  // ----- one end with its application -----

  function TicketsFor(e: Env, hs: HandshakeState): TicketContext {
    TicketContext(e.clock, e.config.ticketLimit, hs.keys.resumptionSecret)
  }

  function AppRead(e: Env, c: ConnState, n: nat): (s: Step<ConnState, Bytes>)
    ensures Steady(c, s.state) && s.state.hs == c.hs
  {
    var s := Read(e.crypto, TicketsFor(e, c.hs), AppState(c.rec, c.tickets), n);
    Step(c.(rec := s.state.rec, tickets := s.state.tickets), s.result)
  }

  function AppWrite(e: Env, c: ConnState, b: Bytes): (s: Step<ConnState, nat>)
    ensures Steady(c, s.state) && s.state.hs == c.hs
  {
    var s := Write(e.crypto, c.rec, b);
    Step(c.(rec := s.state), s.result)
  }
}
