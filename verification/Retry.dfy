/** HelloRetryRequest: what every client run does with it, against an arbitrary peer. */
module Retry {
  import opened Prelude
  import opened Extensions
  import opened HandshakeMessages
  import opened Certificates
  import opened KeySchedule
  import opened RecordCipher
  import opened Records
  import opened Offer
  import opened Steps
  import opened Runs
  import opened Tickets

  /** The state after n steps of the client machine. */
  function ClientAfter(e: Env, pc: ClientPc, c: ConnState, n: nat): (r: (ClientPc, ConnState))
    requires ClientReady(pc, c)
    ensures ClientReady(r.0, r.1)
    decreases n
  {
    hide ClientStep;
    if n == 0 || ClientEnded(pc) then (pc, c)
    else
      var (pc', c') := ClientStep(e, pc, c);
      ClientAfter(e, pc', c', n - 1)
  }

  /** The hello with the i-th key pair, as this client sends it. */
  function HelloFor(e: Env, group: u16, i: nat): Hello {
    Hello(e.rnd.clientRandom, e.rnd.sessionID, e.config.serverName, e.config.nextProtos, ShareOf(e, group, i))
  }

  function FirstHello(e: Env, t: TicketState): Bytes {
    HelloBytes(e.crypto, HelloFor(e, CURVE_SM2, 0), t.cache, e.clock(t.ticks))
  }

  function SecondHello(e: Env, t: TicketState, group: u16): Bytes {
    HelloBytes(e.crypto, HelloFor(e, group, 1), t.cache, e.clock(t.ticks + 1))
  }

  function FirstFlight(e: Env, t: TicketState): Bytes { RecordBytes(HANDSHAKE, VERSION_TLS10, FirstHello(e, t)) }

  function SecondFlight(e: Env, t: TicketState, group: u16): Bytes {
    RecordBytes(CHANGE_CIPHER_SPEC, RECORD_VERSION, [1]) +
      RecordBytes(HANDSHAKE, RECORD_VERSION, SecondHello(e, t, group))
  }

  ghost predicate IsRetry(hrr: Bytes, group: u16) {
    var hello := ParseServerHello(hrr);
    hello.Success? && hello.value.random == HRR_RANDOM && RetryGroup(hello.value.extensions) == Success(group)
  }

  /** Nothing but the named messages has been sent or hashed, and nothing is encrypted yet. */
  ghost predicate Plain(c: ConnState, outbound: Bytes, transcript: Bytes, hellos: nat) {
    && c.rec.outbound == outbound && c.hs.transcript == transcript && c.hs.helloCount == hellos
    && !c.rec.clientEncrypted && c.rec.nextVersion == 0
  }

  /** What the second hello needs of the first. */
  ghost predicate Kept(e: Env, t: TicketState, c: ConnState) {
    && c.hs.clientRandom == e.rnd.clientRandom && c.hs.sessionID == e.rnd.sessionID
    && c.hs.peerProtos == e.config.nextProtos
    && c.tickets == t.(ticks := t.ticks + 1) && c.hs.lastClientHello == FirstHello(e, t)
    && c.hs.keys.clientPrivateShare == Some(e.rnd.sm2Key(0))
  }

  /** The key of the second hello, beside the key of the first unless the same group was asked for again. */
  ghost predicate SharesKept(e: Env, keys: KeyMaterial, group: u16) {
    && keys.clientPrivateShare == Some(e.rnd.sm2Key(if group == CURVE_SM2 then 1 else 0))
    && (group == CURVE_X25519 ==> keys.clientX25519Key == Some(e.rnd.x25519Key(1)))
  }

  function HashedThroughSecond(e: Env, t: TicketState, hrr: Bytes, group: u16): Bytes {
    MessageHash(e.crypto, FirstHello(e, t)) + hrr + SecondHello(e, t, group)
  }

  function SentThroughSecond(e: Env, t: TicketState, group: u16): Bytes {
    FirstFlight(e, t) + SecondFlight(e, t, group)
  }

  /** Where a client is with its hellos. `t` are the tickets it started with, `hrr` the retry request it got and `group`
      the group asked for in it. */
  ghost predicate HelloInv(e: Env, t: TicketState, pc: ClientPc, c: ConnState, hrr: Bytes, group: u16) {
    match pc
    case CSendHello =>
      && Plain(c, [], [], 0) && c.hs.sessionID == [] && c.tickets == t && c.hs.keys == NO_KEYS
      && c.hs.clientRandom == e.rnd.clientRandom && c.hs.peerProtos == e.config.nextProtos && !c.hs.helloRetry
    case CReadHello =>
      Plain(c, FirstFlight(e, t), FirstHello(e, t), 1) && Kept(e, t, c) && !c.hs.helloRetry
    case CRetryHello =>
      && Plain(c, FirstFlight(e, t), MessageHash(e.crypto, FirstHello(e, t)) + hrr, 1) && Kept(e, t, c)
      && IsRetry(hrr, group) && c.hs.requestedGroup == group
    case CReadSecondHello =>
      && Plain(c, SentThroughSecond(e, t, group), HashedThroughSecond(e, t, hrr, group), 2)
      && IsRetry(hrr, group) && SharesKept(e, c.hs.keys, group)
    case CFailed(at, _) => Ended(e, t, at, c, group)
    case _ => Later(e, t, c, hrr, group)
  }

  /** A failed run has sent one hello or two; a run that fails on the answer to the second has sent nothing more. */
  ghost predicate Ended(e: Env, t: TicketState, at: ClientPc, c: ConnState, group: u16) {
    && c.hs.helloCount <= 2
    && (at == CReadHello ==> c.hs.helloCount == 1 && c.rec.outbound == FirstFlight(e, t))
    && (at == CRetryHello ==> c.hs.helloCount == 1)
    && (at == CReadSecondHello ==> c.hs.helloCount == 2 && c.rec.outbound == SentThroughSecond(e, t, group))
  }

  /** After the ServerHello: the hellos sent and hashed stay the first things that were sent and hashed. */
  ghost predicate Later(e: Env, t: TicketState, c: ConnState, hrr: Bytes, group: u16) {
    && 1 <= c.hs.helloCount <= 2
    && (c.hs.helloCount == 1 ==> FirstHello(e, t) <= c.hs.transcript && FirstFlight(e, t) <= c.rec.outbound)
    && (c.hs.helloCount == 2 ==>
          && HashedThroughSecond(e, t, hrr, group) <= c.hs.transcript
          && SentThroughSecond(e, t, group) <= c.rec.outbound && IsRetry(hrr, group))
  }

  lemma FirstHelloSent(e: Env, t: TicketState, c: ConnState, hrr: Bytes, group: u16)
    requires ClientReady(CSendHello, c) && HelloInv(e, t, CSendHello, c, hrr, group)
    ensures HelloInv(e, t, ClientStep(e, CSendHello, c).0, ClientStep(e, CSendHello, c).1, hrr, group)
  {
    hide HelloBytes, RecordBytes, ShareOf, SealRecord;
  }

  lemma RecordReadKeeps(e: Env, r: RecordState)
    ensures var s := ReadSkippingCcs(e.crypto, r).state;
      s.outbound == r.outbound && s.clientEncrypted == r.clientEncrypted && s.nextVersion == r.nextVersion
    decreases |r.inbound|
  {
    hide OpenRecord, Unwrap;
  }

  /** The transcript and the output only grow, and no hello is sent. */
  ghost predicate Grows(c: ConnState, c': ConnState) {
    c.hs.transcript <= c'.hs.transcript && c.rec.outbound <= c'.rec.outbound && c'.hs.helloCount == c.hs.helloCount
  }

  lemma AcceptGrows(e: Env, c: ConnState, hello: ServerHello)
    ensures var c' := AcceptServerHello(e, c, hello).state;
      && Grows(c, c') && c'.rec.outbound == c.rec.outbound && c'.hs.helloRetry == c.hs.helloRetry
  {
    hide AcceptServerHello, AllKeys, ChosenSuite, ServerShare, CheckVersion, ClientSecret, Find, NewCipher;
    AcceptIsNote(e, c, hello);
  }

  /** What reading a ServerHello can do to a client: go on, fail, or be asked to retry. */
  lemma ServerHelloRead(e: Env, c: ConnState) returns (hrr: Bytes)
    requires ClientReady(CReadHello, c)
    ensures var s := ReadServerHello(e, c); var c' := s.state;
      && c'.rec.outbound == c.rec.outbound && c'.hs.helloCount == c.hs.helloCount
      && c'.rec.clientEncrypted == c.rec.clientEncrypted && c'.rec.nextVersion == c.rec.nextVersion
      && (s.result.Success? ==> c.hs.transcript <= c'.hs.transcript)
      && (!c.hs.helloRetry && c'.hs.helloRetry ==>
            && IsRetry(hrr, c'.hs.requestedGroup) && s.result == Failure(HelloRetry)
            && c'.tickets == c.tickets
            && c'.hs == c.hs.(transcript := MessageHash(e.crypto, c.hs.lastClientHello) + hrr, helloRetry := true,
                              requestedGroup := c'.hs.requestedGroup))
  {
    hide AcceptServerHello, RetryGroup, ParseServerHello, MessageHash, ReadSkippingCcs;
    RecordReadKeeps(e, c.rec);
    var s := ReadSkippingCcs(e.crypto, c.rec);
    hrr := if s.result.Success? then s.result.value.data else [];
    var hello := ParseServerHello(hrr);
    if hello.Success? {
      var c1 := Append(c.(rec := s.state), hrr);
      AcceptGrows(e, c1, hello.value);
      AcceptKeepsRecords(e, c1, hello.value);
    }
  }

  lemma AcceptKeepsRecords(e: Env, c: ConnState, hello: ServerHello)
    ensures var r := AcceptServerHello(e, c, hello).state.rec;
      r.clientEncrypted == c.rec.clientEncrypted && r.nextVersion == c.rec.nextVersion
  {
    hide AllKeys, ChosenSuite, ServerShare, CheckVersion, ClientSecret, Find;
  }

  lemma HelloAnswered(e: Env, t: TicketState, c: ConnState) returns (hrr: Bytes, group: u16)
    requires ClientReady(CReadHello, c) && HelloInv(e, t, CReadHello, c, [], 0)
    ensures HelloInv(e, t, ClientStep(e, CReadHello, c).0, ClientStep(e, CReadHello, c).1, hrr, group)
  {
    hide ReadServerHello, FirstHello, FirstFlight, SecondHello, SecondFlight, IsRetry, MessageHash;
    hrr := ServerHelloRead(e, c);
    group := ReadServerHello(e, c).state.hs.requestedGroup;
  }

  lemma SecondAnswered(e: Env, t: TicketState, c: ConnState, hrr: Bytes, group: u16)
    requires ClientReady(CReadSecondHello, c) && HelloInv(e, t, CReadSecondHello, c, hrr, group)
    ensures HelloInv(e, t, ClientStep(e, CReadSecondHello, c).0, ClientStep(e, CReadSecondHello, c).1, hrr, group)
  {
    hide ReadServerHello, FirstHello, FirstFlight, SecondHello, SecondFlight, IsRetry, MessageHash;
    var second := ServerHelloRead(e, c);
  }

  lemma SecondHelloSent(e: Env, t: TicketState, c: ConnState, hrr: Bytes, group: u16)
    requires ClientReady(CRetryHello, c) && HelloInv(e, t, CRetryHello, c, hrr, group)
    ensures HelloInv(e, t, ClientStep(e, CRetryHello, c).0, ClientStep(e, CRetryHello, c).1, hrr, group)
  {
    hide HelloBytes, RecordBytes, ShareOf, SealRecord, IsRetry, MessageHash, FirstHello, FirstFlight;
    var c1 := c.(rec := WriteRecord(e.crypto, c.rec, CHANGE_CIPHER_SPEC, [1]));
    assert HelloOf(e, c1.hs, ShareOf(e, group, 1)) == HelloFor(e, group, 1);
    Assoc(FirstFlight(e, t), RecordBytes(CHANGE_CIPHER_SPEC, RECORD_VERSION, [1]),
          RecordBytes(HANDSHAKE, RECORD_VERSION, SecondHello(e, t, group)));
  }

  lemma ReadsGrow(e: Env, pc: ClientPc, c: ConnState)
    requires ClientReady(pc, c) && (pc == CReadExtensions || pc == CReadVerify)
    ensures var (pc', c') := ClientStep(e, pc, c); Grows(c, c')
  {
    hide ReadHandshakeMsg, ParseEncryptedExtensions, AcceptAlpn, ParseCertificateVerify, VerifySignature;
    MessageKeepsOutput(e, c.rec);
  }

  lemma MessageKeepsOutput(e: Env, r: RecordState)
    ensures ReadHandshakeMsg(e.crypto, r).state.outbound == r.outbound
    decreases |r.inbound|
  {
    hide OpenRecord, Unwrap, HandshakeContent;
  }

  lemma CertificateGrows(e: Env, c: ConnState)
    ensures Grows(c, ReadServerCertificate(e, c).state)
  {
    hide ReadHandshakeMsg, ParseCertificate, ParseCertificateRequest, VerifyChain;
    MessageKeepsOutput(e, c.rec);
  }

  lemma FinishedReadGrows(e: Env, c: ConnState)
    ensures Grows(c, ReadFinished(e, c).state)
  {
    hide ReadHandshakeMsg, ParseFinished, VerifyData, NewCipher;
    MessageKeepsOutput(e, c.rec);
  }

  lemma SwitchesGrow(e: Env, c: ConnState)
    requires c.hs.suite.Some?
    ensures Grows(c, EarlySwitch(e, c)) && Grows(c, Complete(e, c))
  {
    hide AppTraffic, NewCipher;
  }

  lemma SendGrows(e: Env, c: ConnState)
    ensures Grows(c, SendCertificate(e, c).state) && Grows(c, SendCertificateVerify(e, c).state)
    ensures Grows(c, PrepareClientCertificate(e, c).state)
  {
    hide NewCipher, SealRecord, CertificateBytes, CertificateVerifyBytes, SignedContent;
  }

  lemma FinishedSentGrows(e: Env, c: ConnState)
    ensures Grows(c, SendFinished(e, c).state)
  {
    hide NewCipher, SealRecord, VerifyData, FinishedBytes;
  }

  lemma GrowsTwice(a: ConnState, b: ConnState, c: ConnState)
    requires Grows(a, b) && Grows(b, c)
    ensures Grows(a, c)
  {
  }

  lemma LaterStepsGrow(e: Env, pc: ClientPc, c: ConnState)
    requires ClientReady(pc, c) && 0 < ClientRank(pc) < 8
    ensures Grows(c, ClientStep(e, pc, c).1) && 0 <= ClientRank(ClientStep(e, pc, c).0) < 8
    ensures ClientStep(e, pc, c).0.CFailed? ==> ClientStep(e, pc, c).0.at == pc
  {
    hide Grows, ReadEncryptedExtensions, ReadServerCertificate, ReadCertificateVerify, ReadFinished, EarlySwitch,
      PrepareClientCertificate, SendCertificate, SendCertificateVerify, SendFinished, Complete;
    match pc {
      case CReadCertificate => CertificateGrows(e, c);
      case CReadFinished =>
        FinishedReadGrows(e, c);
        var s := ReadFinished(e, c).state;
        SwitchesGrow(e, s);
        GrowsTwice(c, s, EarlySwitch(e, s));
      case CSendCertificate =>
        var s := PrepareClientCertificate(e, c).state;
        SendGrows(e, c);
        SendGrows(e, s);
        GrowsTwice(c, s, SendCertificate(e, s).state);
      case CSendVerify => SendGrows(e, c);
      case CSendFinished =>
        FinishedSentGrows(e, c);
        var s := SendFinished(e, c).state;
        SwitchesGrow(e, s);
        GrowsTwice(c, s, Complete(e, s));
      case _ => ReadsGrow(e, pc, c);
    }
  }

  lemma GrowsKeepsLater(e: Env, t: TicketState, c: ConnState, c': ConnState, hrr: Bytes, group: u16)
    requires Later(e, t, c, hrr, group) && Grows(c, c')
    ensures Later(e, t, c', hrr, group)
  {
    hide FirstHello, FirstFlight, SecondHello, SecondFlight, IsRetry, HashedThroughSecond, SentThroughSecond;
  }

  lemma HelloStep(e: Env, t: TicketState, pc: ClientPc, c: ConnState, hrr: Bytes, group: u16)
    returns (hrr': Bytes, group': u16)
    requires ClientReady(pc, c) && !ClientEnded(pc) && HelloInv(e, t, pc, c, hrr, group)
    ensures HelloInv(e, t, ClientStep(e, pc, c).0, ClientStep(e, pc, c).1, hrr', group')
  {
    hide ClientStep, Later, Plain, Kept, SharesKept, IsRetry;
    hrr', group' := hrr, group;
    match pc {
      case CSendHello => FirstHelloSent(e, t, c, hrr, group);
      case CReadHello => hrr', group' := HelloAnswered(e, t, c);
      case CRetryHello => SecondHelloSent(e, t, c, hrr, group);
      case CReadSecondHello => SecondAnswered(e, t, c, hrr, group);
      case _ => LaterStep(e, t, pc, c, hrr, group);
    }
  }

  lemma LaterStep(e: Env, t: TicketState, pc: ClientPc, c: ConnState, hrr: Bytes, group: u16)
    requires ClientReady(pc, c) && 0 < ClientRank(pc) < 8 && HelloInv(e, t, pc, c, hrr, group)
    ensures HelloInv(e, t, ClientStep(e, pc, c).0, ClientStep(e, pc, c).1, hrr, group)
  {
    hide ClientStep, Later, Grows;
    LaterStepsGrow(e, pc, c);
    GrowsKeepsLater(e, t, c, ClientStep(e, pc, c).1, hrr, group);
    LaterCounts(e, t, ClientStep(e, pc, c).1, hrr, group);
  }

  lemma LaterCounts(e: Env, t: TicketState, c: ConnState, hrr: Bytes, group: u16)
    requires Later(e, t, c, hrr, group)
    ensures c.hs.helloCount <= 2
  {
  }

  lemma {:induction false} HelloRun(e: Env, t: TicketState, pc: ClientPc, c: ConnState, hrr: Bytes, group: u16, n: nat)
    returns (hrr': Bytes, group': u16)
    requires ClientReady(pc, c) && HelloInv(e, t, pc, c, hrr, group)
    ensures HelloInv(e, t, ClientAfter(e, pc, c, n).0, ClientAfter(e, pc, c, n).1, hrr', group')
    decreases n
  {
    hide ClientStep, HelloInv;
    hrr', group' := hrr, group;
    if n > 0 && !ClientEnded(pc) {
      var (pc', c') := ClientStep(e, pc, c);
      hrr', group' := HelloStep(e, t, pc, c, hrr, group);
      hrr', group' := HelloRun(e, t, pc', c', hrr', group', n - 1);
    }
  }

  /** In every state of every client run, whatever the peer sends: at most two hellos, with the same random and session
      ID; after a retry the transcript is the hash of the first, the retry request and the second; and the
      private key of the first hello is kept unless its group was asked for again. */
  lemma RetryIsBounded(e: Env, inbound: Bytes, t: TicketState, n: nat) returns (hrr: Bytes, group: u16)
    ensures var (pc, c) := ClientAfter(e, CSendHello, NewClient(e, inbound, t), n);
      c.hs.helloCount <= 2 && HelloInv(e, t, pc, c, hrr, group)
  {
    hide ClientAfter, Later, Plain, Kept, SharesKept, IsRetry;
    var c0 := NewClient(e, inbound, t);
    StartsPlain(e, inbound, t);
    hrr, group := HelloRun(e, t, CSendHello, c0, [], 0, n);
    HelloCounts(e, t, ClientAfter(e, CSendHello, c0, n).0, ClientAfter(e, CSendHello, c0, n).1, hrr, group);
  }

  lemma StartsPlain(e: Env, inbound: Bytes, t: TicketState)
    ensures HelloInv(e, t, CSendHello, NewClient(e, inbound, t), [], 0)
  {
  }

  lemma HelloCounts(e: Env, t: TicketState, pc: ClientPc, c: ConnState, hrr: Bytes, group: u16)
    requires HelloInv(e, t, pc, c, hrr, group)
    ensures c.hs.helloCount <= 2
  {
    hide FirstHello, FirstFlight, SecondHello, SecondFlight, IsRetry, HashedThroughSecond, SentThroughSecond, Kept,
      SharesKept;
  }

  /** What asks for a retry, in numbers: the fixed random of section 4.1.3 of RFC 8446, and a key_share extension (51),
      the first of them, that names a group other than 0, alone or as the group of a whole share. */
  lemma RetryExactly(data: Bytes, group: u16)
    ensures IsRetry(data, group) <==>
      var hello := ParseServerHello(data);
      && hello.Success?
      && hello.value.random ==
         [207, 33, 173, 116, 229, 154, 97, 17, 190, 29, 140, 2, 30, 101, 184, 145,
          194, 162, 17, 22, 122, 187, 140, 94, 7, 158, 9, 226, 200, 168, 51, 156]
      && group != 0
      && var share := Find(hello.value.extensions, 51);
        && share.Some?
        && if |share.value| == 2 then group == share.value[0] as int * 256 + share.value[1] as int
           else ParseKeyShareServer(share.value).Success? && ParseKeyShareServer(share.value).value.tag == group
  {
    hide ParseServerHello, ParseKeyShareServer, Find;
  }

  /** When a client retries: the next record that is not change-cipher-spec is a handshake message that asks for it. */
  lemma RetriesExactly(e: Env, c: ConnState, group: u16)
    requires ClientReady(CReadHello, c) && !c.hs.helloRetry && c.hs.lastClientHello != []
    ensures var r, (pc', c') := ReadSkippingCcs(e.crypto, c.rec).result, ClientStep(e, CReadHello, c);
      pc' == CRetryHello && c'.hs.requestedGroup == group <==>
      r.Success? && r.value.typ == 22 && r.value.data != [] && r.value.data[0] == 2 && IsRetry(r.value.data, group)
  {
    hide ReadSkippingCcs, ParseServerHello, RetryGroup, AcceptServerHello, MessageHash;
    var s := ReadSkippingCcs(e.crypto, c.rec);
    var hello := if s.result.Success? then ParseServerHello(s.result.value.data) else Failure(BadServerHello);
    if hello.Success? {
      AcceptGrows(e, Append(c.(rec := s.state), s.result.value.data), hello.value);
    }
  }

  /** The answer to a retry request: in a group it has, a change-cipher-spec record and a second hello with a new share
      in that group; in any other, an error. */
  lemma AnswersRetry(e: Env, c: ConnState)
    requires ClientReady(CRetryHello, c) && !Sending(c.rec) && c.hs.sessionID != []
    ensures var (pc', c') := ClientStep(e, CRetryHello, c); var group, i := c.hs.requestedGroup, c.hs.helloCount;
      if group != 41 && group != 29 then pc' == CFailed(CRetryHello, UnsupportedGroup(group))
      else
        var share := Tagged(group, if group == 41 then e.crypto.sm2Share(e.rnd.sm2Key(i))
                                   else e.crypto.x25519Share(e.rnd.x25519Key(i)));
        var hello := Hello(c.hs.clientRandom, c.hs.sessionID, e.config.serverName, c.hs.peerProtos, share);
        var data := HelloBytes(e.crypto, hello, c.tickets.cache, e.clock(c.tickets.ticks));
        && pc' == CReadSecondHello && c'.hs.transcript == c.hs.transcript + data
        && (i > 0 && c.rec.nextVersion == 0 ==>
              c'.rec.outbound == c.rec.outbound + [20, 3, 3, 0, 1, 1] + RecordBytes(22, 0x0303, data))
  {
    hide HelloBytes, RecordBytes;
    ChangeCipherSpec();
  }

  lemma ChangeCipherSpec()
    ensures RecordBytes(20, 0x0303, [1]) == [20, 3, 3, 0, 1, 1]
  {
  }

  /** The client meets a second retry request, well-formed or not, only with an error, and sends nothing. */
  lemma SecondRetryFails(e: Env, c: ConnState, data: Bytes)
    requires ClientReady(CReadSecondHello, c)
    requires var r := ReadSkippingCcs(e.crypto, c.rec).result;
      r.Success? && r.value.typ == HANDSHAKE && r.value.data == data
    requires ParseServerHello(data).Success? && ParseServerHello(data).value.random == HRR_RANDOM
    ensures var (pc', c') := ClientStep(e, CReadSecondHello, c);
      && pc'.CFailed? && pc'.at == CReadSecondHello && c'.rec.outbound == c.rec.outbound
      && c'.hs.helloCount == c.hs.helloCount
      && (c.hs.lastClientHello != [] && (exists group :: IsRetry(data, group)) ==> pc'.error == HelloRetry)
  {
    hide ReadSkippingCcs, MessageHash, ParseEntries, RetryGroup;
    RecordReadKeeps(e, c.rec);
    if exists group :: IsRetry(data, group) {
      var group :| IsRetry(data, group);
    }
  }
}
