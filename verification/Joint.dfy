/** What holds of a client and a server of this library in every state of every run, whatever the configurations: each
    is where the script says it is or has stopped there, and each channel holds exactly the records in between. */
module Joint {
  import opened Prelude
  import opened Crypto
  import opened KeySchedule
  import opened RecordCipher
  import opened Tickets
  import opened Records
  import opened Steps
  import opened Runs
  import opened Retry
  import opened Channels
  import opened Script
  import opened Greeting
  import opened ServerSteps
  import opened ClientSteps
  import opened Pairs

  // ----- the channels -----

  /** The records of hs from i on, then those of app from j on. */
  function Flow(cr: Crypto, hk: Traffic, hs: seq<Bytes>, i: nat, ak: Traffic, app: seq<Bytes>, j: nat): Bytes
    requires i <= |hs| && j <= |app| && |hk.iv| == 12 && |ak.iv| == 12
  {
    var front := Sent(cr, HandshakeKeys, hk, HANDSHAKE, hs, i);
    if app == [] then front else front + Sent(cr, ApplicationKeys, ak, APPLICATION_DATA, app, j)
  }

  /** How far the ends can be apart: nobody has read what was not sent. */
  ghost predicate Ordered(x: Ctx, cp: nat, sp: nat) {
    && Position(x, cp) && Position(x, sp)
    && (sp >= AT_SERVER_HELLO ==> cp >= AT_SERVER_HELLO)
    && (AT_EXTENSIONS <= cp <= AT_FINISHED ==> sp >= cp)
    && (cp >= AT_CLIENT_CERTIFICATE ==> sp >= AT_CLIENT_CERTIFICATE)
    && (sp > AT_CLIENT_CERTIFICATE && (Asks(x) || sp == AT_END) ==> cp >= sp)
  }

  /** What is under way to the client, and to the server, when they are at cp and sp, some application data has been
      written and the first payloads of it have been opened. */
  ghost function ToClient(x: Ctx, cp: nat, sp: nat, written: seq<Bytes>, read: nat): Bytes
    requires Ordered(x, cp, sp) && read <= |written|
  {
    MsgsGrow(x, cp, sp);
    (if cp <= AT_SERVER_HELLO && sp >= AT_EXTENSIONS then RecordBytes(HANDSHAKE, RECORD_VERSION, ServerHelloIn(x))
      else [])
    + Flow(x.se.crypto, Keys(x).serverHandshake, ServerMsgs(x, sp), |ServerMsgs(x, cp)|, ServerApp(x), written, read)
  }

  ghost function ToServer(x: Ctx, cp: nat, sp: nat, written: seq<Bytes>, read: nat): Bytes
    requires Ordered(x, cp, sp) && read <= |written|
  {
    MsgsGrow(x, cp, sp);
    (if sp == AT_CLIENT_HELLO && cp >= AT_SERVER_HELLO then FirstFlight(x.ce, x.clientTickets) else [])
    + Flow(x.se.crypto, Keys(x).clientHandshake, ClientMsgs(x, cp), |ClientMsgs(x, sp)|, ClientApp(x), written, read)
  }

  lemma {:induction false} ServerMsgsPrefix(x: Ctx, p: nat, q: nat)
    requires p <= q <= AT_END
    ensures ServerMsgs(x, p) <= ServerMsgs(x, q)
    ensures AT_EXTENSIONS <= p <= AT_FINISHED && Position(x, p) && p < q ==>
              |ServerMsgs(x, p)| < |ServerMsgs(x, q)| && ServerMsgs(x, q)[|ServerMsgs(x, p)|] == Msg(x, p)
    decreases q
  {
    hide Msg;
    if p < q {
      ServerMsgsPrefix(x, p, q - 1);
    }
  }

  lemma {:induction false} ClientMsgsPrefix(x: Ctx, p: nat, q: nat)
    requires p <= q <= AT_END
    ensures ClientMsgs(x, p) <= ClientMsgs(x, q)
    ensures AT_CLIENT_CERTIFICATE <= p < q && Position(x, p) ==>
              |ClientMsgs(x, p)| < |ClientMsgs(x, q)| && ClientMsgs(x, q)[|ClientMsgs(x, p)|] == Msg(x, p)
    decreases q
  {
    hide Msg;
    if p < q {
      ClientMsgsPrefix(x, p, q - 1);
    }
  }

  /** After its flight the server has nothing more to send before application data. */
  lemma {:induction false} ServerMsgsEnd(x: Ctx, p: nat)
    requires AT_CLIENT_CERTIFICATE <= p <= AT_END
    ensures ServerMsgs(x, p) == ServerMsgs(x, AT_CLIENT_CERTIFICATE)
  {
    hide Msg;
    if p > AT_CLIENT_CERTIFICATE {
      ServerMsgsEnd(x, p - 1);
    }
  }

  lemma MsgsGrow(x: Ctx, cp: nat, sp: nat)
    requires Ordered(x, cp, sp)
    ensures ServerMsgs(x, cp) <= ServerMsgs(x, sp) && ClientMsgs(x, sp) <= ClientMsgs(x, cp)
  {
    hide ServerMsgs, ClientMsgs;
    if cp <= AT_SERVER_HELLO {
      NoMsgsYet(x, cp);
    } else if cp >= AT_CLIENT_CERTIFICATE {
      ServerMsgsEnd(x, cp);
      ServerMsgsEnd(x, sp);
    } else {
      ServerMsgsPrefix(x, cp, sp);
    }
    if sp <= cp {
      ClientMsgsPrefix(x, sp, cp);
    } else {
      NoMsgsYet(x, sp);
    }
  }

  // ----- how the channels change -----

  lemma NextOrdered(x: Ctx, cp: nat, sp: nat)
    requires Ordered(x, cp, sp)
    ensures cp < AT_END ==>
              (|| cp == 0 || cp >= AT_CLIENT_CERTIFICATE || (cp == AT_SERVER_HELLO && sp >= AT_EXTENSIONS)
               || (cp >= AT_EXTENSIONS && sp > cp)) ==> Ordered(x, Next(x, cp), sp)
    ensures sp < AT_END ==>
              (|| (sp == 0 && cp >= 1) || 1 <= sp <= AT_FINISHED
               || (sp >= AT_CLIENT_CERTIFICATE && cp > sp)) ==> Ordered(x, cp, Next(x, sp))
  {
  }

  lemma SentEnds(cr: Crypto, epoch: Epoch, t: Traffic, typ: byte, msgs: seq<Bytes>)
    requires |t.iv| == 12
    ensures Sent(cr, epoch, t, typ, msgs, |msgs|) == []
  {
  }

  /** The client takes the server's message off its channel. */
  lemma ClientTakes(x: Ctx, cp: nat, sp: nat)
    requires Ordered(x, cp, sp) && AT_EXTENSIONS <= cp <= AT_FINISHED && cp < sp
    ensures Ordered(x, Next(x, cp), sp)
    ensures ToClient(x, cp, sp, [], 0) == ServerOutput(x, cp) + ToClient(x, Next(x, cp), sp, [], 0)
  {
    hide ServerMsgs, ClientMsgs, Msg, SealedBytes, Keys, ServerApp, ClientApp;
    NextOrdered(x, cp, sp);
    MsgsGrow(x, cp, sp);
    MsgsGrow(x, Next(x, cp), sp);
    ServerMsgsPrefix(x, cp, sp);
    Advances(x, cp);
    EmptyFront(ToClient(x, cp, sp, [], 0), ServerOutput(x, cp), ToClient(x, Next(x, cp), sp, [], 0));
  }

  lemma EmptyFront(a: Bytes, b: Bytes, c: Bytes)
    ensures [] + a == a && [] + (b + c) == b + c && [] + c == c && b + [] == b
  {
  }

  lemma ClientTakesHello(x: Ctx, sp: nat)
    requires Ordered(x, 1, sp) && sp >= AT_EXTENSIONS
    ensures Ordered(x, 2, sp)
    ensures ToClient(x, 1, sp, [], 0) ==
      RecordBytes(HANDSHAKE, RECORD_VERSION, ServerHelloIn(x)) + ToClient(x, 2, sp, [], 0)
  {
    hide Flow, RecordBytes, ServerHelloIn;
    NextOrdered(x, 1, sp);
    NoMsgsYet(x, 1);
    NoMsgsYet(x, 2);
    MsgsGrow(x, 1, sp);
    MsgsGrow(x, 2, sp);
    var flow := Flow(x.se.crypto, Keys(x).serverHandshake, ServerMsgs(x, sp), 0, ServerApp(x), [], 0);
    assert [] + flow == flow;
  }

  /** Where it waits for the server there is nothing on the channel. */
  lemma ClientIdle(x: Ctx, cp: nat, sp: nat)
    requires Ordered(x, cp, sp) && (cp == AT_SERVER_HELLO ==> sp <= AT_SERVER_HELLO)
    requires cp <= AT_SERVER_HELLO || (cp <= AT_FINISHED && sp == cp)
    ensures ToClient(x, cp, sp, [], 0) == []
  {
    hide ServerMsgs, ClientMsgs, Keys, ServerApp, ClientApp;
    MsgsGrow(x, cp, sp);
    NoMsgsYet(x, cp);
    if cp <= AT_SERVER_HELLO {
      NoMsgsYet(x, sp);
    }
    SentEnds(x.se.crypto, HandshakeKeys, Keys(x).serverHandshake, HANDSHAKE, ServerMsgs(x, sp));
  }

  lemma ClientPuts(x: Ctx, cp: nat, sp: nat)
    requires Ordered(x, cp, sp) && AT_CLIENT_CERTIFICATE <= cp < AT_END
    ensures Ordered(x, Next(x, cp), sp)
    ensures ToServer(x, Next(x, cp), sp, [], 0) == ToServer(x, cp, sp, [], 0) + ClientOutput(x, cp)
    ensures ToClient(x, Next(x, cp), sp, [], 0) == ToClient(x, cp, sp, [], 0)
  {
    hide ServerMsgs, ClientMsgs, Msg, SealedBytes, Keys, ServerApp, ClientApp, FirstFlight;
    NextOrdered(x, cp, sp);
    MsgsGrow(x, cp, sp);
    MsgsGrow(x, Next(x, cp), sp);
    Advances(x, cp);
    SentSnoc(x.se.crypto, HandshakeKeys, Keys(x).clientHandshake, HANDSHAKE, ClientMsgs(x, cp), |ClientMsgs(x, sp)|,
      Msg(x, cp));
    EmptyFront(Sent(x.se.crypto, HandshakeKeys, Keys(x).clientHandshake, HANDSHAKE, ClientMsgs(x, cp),
      |ClientMsgs(x, sp)|), [], []);
    EmptyFront(Sent(x.se.crypto, HandshakeKeys, Keys(x).clientHandshake, HANDSHAKE, ClientMsgs(x, Next(x, cp)),
      |ClientMsgs(x, sp)|), [], []);
  }

  lemma ClientPutsHello(x: Ctx)
    ensures Ordered(x, 0, 0) && Ordered(x, 1, 0)
    ensures ToServer(x, 0, 0, [], 0) == [] && ToServer(x, 1, 0, [], 0) == FirstFlight(x.ce, x.clientTickets)
    ensures ToClient(x, 0, 0, [], 0) == [] && ToClient(x, 1, 0, [], 0) == []
  {
    hide FirstFlight, RecordBytes, Keys, ServerApp, ClientApp;
    NoMsgsYet(x, 0);
    NoMsgsYet(x, 1);
    EmptyFront([], FirstFlight(x.ce, x.clientTickets), []);
  }

  lemma FlowPops(cr: Crypto, hk: Traffic, hs: seq<Bytes>, i: nat, ak: Traffic, app: seq<Bytes>)
    requires i < |hs| && |hk.iv| == 12 && |ak.iv| == 12
    ensures Flow(cr, hk, hs, i, ak, app, 0) ==
            SealedBytes(cr, SealerAt(HandshakeKeys, hk, i), HANDSHAKE, hs[i]) + Flow(cr, hk, hs, i + 1, ak, app, 0)
  {
    hide SealedBytes;
    Assoc(SealedBytes(cr, SealerAt(HandshakeKeys, hk, i), HANDSHAKE, hs[i]),
      Sent(cr, HandshakeKeys, hk, HANDSHAKE, hs, i + 1),
          Sent(cr, ApplicationKeys, ak, APPLICATION_DATA, app, 0));
  }

  /** The server takes the client's message off its channel; application data may already be behind it. */
  lemma ServerTakes(x: Ctx, cp: nat, sp: nat, written: seq<Bytes>)
    requires Ordered(x, cp, sp) && AT_CLIENT_CERTIFICATE <= sp < AT_END && sp < cp
    ensures Ordered(x, cp, Next(x, sp))
    ensures ToServer(x, cp, sp, written, 0) == ClientOutput(x, sp) + ToServer(x, cp, Next(x, sp), written, 0)
    ensures ToClient(x, cp, Next(x, sp), [], 0) == ToClient(x, cp, sp, [], 0)
  {
    hide ServerMsgs, ClientMsgs, Msg, SealedBytes, Keys, ServerApp, ClientApp, Flow, RecordBytes;
    NextOrdered(x, cp, sp);
    MsgsGrow(x, cp, sp);
    MsgsGrow(x, cp, Next(x, sp));
    ClientMsgsPrefix(x, sp, cp);
    Advances(x, sp);
    FlowPops(x.se.crypto, Keys(x).clientHandshake, ClientMsgs(x, cp), |ClientMsgs(x, sp)|, ClientApp(x), written);
    EmptyFront(ToServer(x, cp, sp, written, 0), ClientOutput(x, sp), ToServer(x, cp, Next(x, sp), written, 0));
    EmptyFront(Flow(x.se.crypto, Keys(x).clientHandshake, ClientMsgs(x, cp), |ClientMsgs(x, sp)|, ClientApp(x), written,
      0), [], []);
    EmptyFront(Flow(x.se.crypto, Keys(x).clientHandshake, ClientMsgs(x, cp), |ClientMsgs(x, Next(x, sp))|, ClientApp(x),
      written, 0), [], []);
  }

  lemma ServerTakesHello(x: Ctx, cp: nat)
    requires Ordered(x, cp, 0) && cp >= AT_SERVER_HELLO
    ensures cp == AT_SERVER_HELLO && Ordered(x, cp, 1)
    ensures ToServer(x, cp, 0, [], 0) == FirstFlight(x.ce, x.clientTickets) + ToServer(x, cp, 1, [], 0)
    ensures ToClient(x, cp, 1, [], 0) == ToClient(x, cp, 0, [], 0)
  {
    hide Flow, FirstFlight, RecordBytes, Keys, ServerApp, ClientApp;
    NoMsgsYet(x, 0);
    NoMsgsYet(x, 1);
    var flow := Flow(x.se.crypto, Keys(x).clientHandshake, [], 0, ClientApp(x), [], 0);
    assert [] + flow == flow;
  }

  lemma ServerIdle(x: Ctx, cp: nat, sp: nat)
    requires Ordered(x, cp, sp)
    requires (sp == AT_CLIENT_HELLO && cp == sp) || (AT_CLIENT_CERTIFICATE <= sp < AT_END && cp <= sp)
    ensures ToServer(x, cp, sp, [], 0) == []
  {
    hide Keys, ServerApp, ClientApp, FirstFlight, Msg, ServerMsgs;
    MsgsGrow(x, cp, sp);
    if cp < sp {
      NothingSaid(x, cp, sp);
    }
    SentEnds(x.se.crypto, HandshakeKeys, Keys(x).clientHandshake, HANDSHAKE, ClientMsgs(x, cp));
  }

  lemma NothingSaid(x: Ctx, cp: nat, sp: nat)
    requires Ordered(x, cp, sp) && cp < sp
    ensures ClientMsgs(x, cp) == []
  {
    NoMsgsYet(x, cp);
  }

  lemma ServerPuts(x: Ctx, cp: nat, sp: nat)
    requires Ordered(x, cp, sp) && AT_EXTENSIONS <= sp <= AT_FINISHED
    ensures Ordered(x, cp, Next(x, sp))
    ensures ToClient(x, cp, Next(x, sp), [], 0) == ToClient(x, cp, sp, [], 0) + ServerOutput(x, sp)
    ensures ToServer(x, cp, Next(x, sp), [], 0) == ToServer(x, cp, sp, [], 0)
  {
    hide ServerMsgs, ClientMsgs, Msg, SealedBytes, Keys, ServerApp, ClientApp, FirstFlight, RecordBytes, ServerHelloIn;
    NextOrdered(x, cp, sp);
    MsgsGrow(x, cp, sp);
    MsgsGrow(x, cp, Next(x, sp));
    Advances(x, sp);
    SentSnoc(x.se.crypto, HandshakeKeys, Keys(x).serverHandshake, HANDSHAKE, ServerMsgs(x, sp), |ServerMsgs(x, cp)|,
      Msg(x, sp));
    Assoc(if cp <= AT_SERVER_HELLO then RecordBytes(HANDSHAKE, RECORD_VERSION, ServerHelloIn(x)) else [],
          Sent(x.se.crypto, HandshakeKeys, Keys(x).serverHandshake, HANDSHAKE, ServerMsgs(x, sp), |ServerMsgs(x, cp)|),
            ServerOutput(x, sp));
  }

  lemma ServerPutsHello(x: Ctx, cp: nat)
    requires Ordered(x, cp, 1)
    ensures cp == AT_SERVER_HELLO && Ordered(x, cp, 2)
    ensures ToClient(x, cp, 2, [], 0) ==
      ToClient(x, cp, 1, [], 0) + RecordBytes(HANDSHAKE, RECORD_VERSION, ServerHelloIn(x))
    ensures ToServer(x, cp, 2, [], 0) == ToServer(x, cp, 1, [], 0)
  {
    hide FirstFlight, RecordBytes, ServerHelloIn, Keys, ServerApp, ClientApp;
    NoMsgsYet(x, 1);
    NoMsgsYet(x, 2);
    EmptyFront([], RecordBytes(HANDSHAKE, RECORD_VERSION, ServerHelloIn(x)), []);
  }

  // ----- the invariant -----

  /** What both ends have got past. */
  ghost predicate Possible(x: Ctx, cp: nat, sp: nat) {
    && (sp > AT_CLIENT_HELLO ==> AgreedSuite(x).Some?) && (sp > AT_SERVER_HELLO ==> AgreedSecret(x).Some?)
    && (sp > AT_CERTIFICATE ==> x.se.config.localCert.Some?) && (sp > AT_VERIFY ==> x.se.config.localKey.Some?)
    && (cp > AT_CLIENT_CERTIFICATE && Asks(x) ==> x.ce.config.localCert.Some? && x.ce.config.localKey.Some?)
  }

  /** The client is at position cp of the script and has opened the first payloads of the server's application data. */
  ghost predicate ClientIs(x: Ctx, p: Pair, cp: nat, sp: nat, read: nat)
    requires Ordered(x, cp, sp)
  {
    && read <= |p.sWritten| && p.cpc == ClientPcAt(cp)
    && p.c == ClientState(x, cp, Tail(p.c.rec.inbound, p.c.rec.appReadBuf, p.cWritten, p.sWritten[..read], p.c.tickets))
    && p.c.rec.inbound == ToClient(x, cp, sp, p.sWritten, read)
    && (cp < AT_END ==> p.c.rec.appReadBuf == [] && read == 0)
    && (cp == AT_CLIENT_HELLO ==> p.c.tickets == x.clientTickets)
  }

  /** The client gave up at position cp, possibly after opening the message it did not accept. */
  ghost predicate ClientStopped(x: Ctx, p: Pair, cp: nat, sp: nat, read: nat)
    requires Position(x, cp)
  {
    && p.cpc.CFailed? && cp < AT_END && read == 0 && p.c.hs.transcript == Transcript(x, cp)
    && (|| p.c.rec == ClientRec(x, cp, p.c.rec.inbound, [], [], [])
        || ((cp == AT_CERTIFICATE || cp == AT_VERIFY) && cp < sp
          && p.c.rec == ClientRec(x, cp + 1, p.c.rec.inbound, [], [], [])))
  }

  ghost predicate ServerIs(x: Ctx, p: Pair, cp: nat, sp: nat, read: nat)
    requires Ordered(x, cp, sp)
  {
    && read <= |p.cWritten| && p.spc == ServerPcAt(sp)
    && p.s == ServerState(x, sp, Tail(p.s.rec.inbound, p.s.rec.appReadBuf, p.sWritten, p.cWritten[..read], p.s.tickets))
    && p.s.rec.inbound == ToServer(x, cp, sp, p.cWritten, read)
    && (sp < AT_END ==> p.s.rec.appReadBuf == [] && read == 0)
  }

  ghost predicate ServerStopped(x: Ctx, p: Pair, cp: nat, sp: nat, read: nat)
    requires Position(x, sp)
  {
    && p.spc.SFailed? && sp < AT_END && read == 0
    && (p.s.hs.transcript == Transcript(x, sp) || (sp == AT_CLIENT_HELLO && p.s.hs.transcript == Transcript(x, 1)))
    && (|| p.s.rec == ServerRec(x, sp, p.s.rec.inbound, [], [], [])
        || (Asks(x) && (sp == AT_CLIENT_CERTIFICATE || sp == AT_CLIENT_VERIFY) && sp < cp
            && p.s.rec == ServerRec(x, sp + 1, p.s.rec.inbound, [], [], [])))
  }

  /** Where both ends are, and how much application data each has opened. */
  datatype View = View(cp: nat, sp: nat, cRead: nat, sRead: nat)

  ghost predicate Inv(x: Ctx, p: Pair, w: View) {
    && Ordered(x, w.cp, w.sp) && Possible(x, w.cp, w.sp)
    && (w.cp < AT_END ==> p.cWritten == []) && (w.sp < AT_END ==> p.sWritten == [])
    && (ClientIs(x, p, w.cp, w.sp, w.cRead) || ClientStopped(x, p, w.cp, w.sp, w.cRead))
    && (ServerIs(x, p, w.cp, w.sp, w.sRead) || ServerStopped(x, p, w.cp, w.sp, w.sRead))
  }

  lemma StartsInv(x: Ctx)
    ensures Inv(x, Start(x), View(0, 0, 0, 0))
  {
    hide RecordBytes, FirstFlight, Keys, ServerApp, ClientApp;
    ClientPutsHello(x);
  }

  // ----- a step of the client -----

  /** The step succeeds: the client is at the next position, and what it put out is on the other channel. */
  ghost predicate ClientGoesOn(x: Ctx, cp: nat, sp: nat, v: Tail, m: (ClientPc, ConnState), out: Bytes, t: TicketState)
    requires cp < AT_END && Ordered(x, cp, sp)
  {
    && Ordered(x, Next(x, cp), sp) && Possible(x, Next(x, cp), sp)
    && m == (ClientPcAt(Next(x, cp)),
             WithOutput(ClientState(x, Next(x, cp),
               v.(inbound := ToClient(x, Next(x, cp), sp, [], 0), tickets := t)), out))
    && ToServer(x, Next(x, cp), sp, [], 0) == ToServer(x, cp, sp, [], 0) + out
  }

  ghost predicate ClientGivesUp(x: Ctx, cp: nat, sp: nat, m: (ClientPc, ConnState))
    requires cp < AT_END
  {
    && m.0.CFailed? && m.1.hs.transcript == Transcript(x, cp)
    && (|| m.1.rec == ClientRec(x, cp, m.1.rec.inbound, [], [], [])
        || ((cp == AT_CERTIFICATE || cp == AT_VERIFY) && cp < sp
          && m.1.rec == ClientRec(x, cp + 1, m.1.rec.inbound, [], [], [])))
  }

  predicate ClientPauses(m: (ClientPc, ConnState)) { m.0.CFailed? && Waits(m.0.error) }

  /** Everything the client's side has to be able to do for its steps to succeed. */
  predicate ClientCan(x: Ctx, cp: nat) {
    && (cp == AT_CERTIFICATE ==> x.se.config.localCert.Some? && ClientAccepts(x))
    && (cp == AT_VERIFY ==>
          && x.se.config.localCert.Some? && x.se.config.localKey.Some?
          && SignatureHolds(x.ce, x.se, false, Transcript(x, 5)))
    && (cp == AT_CLIENT_CERTIFICATE ==> x.ce.config.localCert.Some? && x.ce.config.localKey.Some?)
  }

  /** What a client's step comes to. */
  ghost predicate ClientOutcome(x: Ctx, cp: nat, sp: nat, v: Tail, out: Bytes, t: TicketState)
    requires cp < AT_END && Ordered(x, cp, sp) && Possible(x, cp, sp)
  {
    ClientSuite(x, cp, sp);
    var m := ClientMove(x, cp, v);
    || (ClientGoesOn(x, cp, sp, v, m, out, t) && ClientCan(x, cp))
    || (ClientGivesUp(x, cp, sp, m) && !ClientCan(x, cp))
    || (ClientPauses(m) && AT_SERVER_HELLO <= cp <= AT_FINISHED && sp <= cp)
  }

  lemma ClientSuite(x: Ctx, cp: nat, sp: nat)
    requires Ordered(x, cp, sp) && Possible(x, cp, sp)
    ensures cp > AT_SERVER_HELLO ==> AgreedSuite(x).Some?
  {
  }

  lemma NoOutput(b: Bytes, c: ConnState)
    ensures b + [] == b && (c.rec.outbound == [] ==> WithOutput(c, []) == c)
  {
  }

  lemma ClientStateQuiet(x: Ctx, p: nat, v: Tail)
    requires p <= AT_END
    ensures ClientState(x, p, v).rec.outbound == []
  {
    hide Keys, ServerApp, ClientApp, AgreedSuite, ClientMsgs, ServerMsgs, ClientHs, AllUses;
  }

  /** The messages of the server's flight that cannot be refused. */
  lemma ClientReadsPlainly(x: Ctx, cp: nat, sp: nat, v: Tail)
    requires Sound(x) && Ordered(x, cp, sp) && Possible(x, cp, sp) && Quiet(v)
    requires cp == AT_EXTENSIONS || cp == AT_REQUEST || cp == AT_FINISHED
    requires cp < sp && v.inbound == ToClient(x, cp, sp, [], 0)
    ensures ClientOutcome(x, cp, sp, v, [], v.tickets)
  {
    hide Sound, ClientMove, ClientState, ServerOutput, ToClient, ToServer, AgreedSuite, AgreedSecret;
    ClientTakes(x, cp, sp);
    ClientKeepsToServer(x, cp, sp);
    var rest := ToClient(x, Next(x, cp), sp, [], 0);
    if cp == AT_EXTENSIONS {
      ClientReadsExtensions(x, v, rest);
    } else if cp == AT_REQUEST {
      ClientReadsRequest(x, v, rest);
    } else {
      ClientReadsFinished(x, v, rest);
    }
    var v' := v.(inbound := rest);
    ClientStateQuiet(x, Next(x, cp), v');
    NoOutput(ToServer(x, cp, sp, [], 0), ClientState(x, Next(x, cp), v'));
  }

  lemma ClientKeepsToServer(x: Ctx, cp: nat, sp: nat)
    requires Ordered(x, cp, sp) && AT_SERVER_HELLO <= cp <= AT_FINISHED && Ordered(x, Next(x, cp), sp)
    ensures ToServer(x, Next(x, cp), sp, [], 0) == ToServer(x, cp, sp, [], 0)
  {
    hide Keys, ServerApp, ClientApp, FirstFlight;
    NoMsgsYet(x, cp);
    NoMsgsYet(x, Next(x, cp));
  }

  lemma ClientReadsCritically(x: Ctx, cp: nat, sp: nat, v: Tail)
    requires Sound(x) && Ordered(x, cp, sp) && Possible(x, cp, sp) && Quiet(v)
    requires cp == AT_CERTIFICATE || cp == AT_VERIFY
    requires cp < sp && v.inbound == ToClient(x, cp, sp, [], 0)
    ensures ClientOutcome(x, cp, sp, v, [], v.tickets)
  {
    hide Sound, ClientMove, ClientState, ClientRec, ServerOutput, ToClient, ToServer, AgreedSuite, AgreedSecret,
      ClientAccepts, SignatureHolds, Transcript;
    ClientTakes(x, cp, sp);
    ClientKeepsToServer(x, cp, sp);
    var rest := ToClient(x, Next(x, cp), sp, [], 0);
    if cp == AT_CERTIFICATE {
      ClientReadsCertificate(x, v, rest);
    } else {
      ClientReadsVerify(x, v, rest);
    }
    ClientRecInbound(x, cp + 1, rest);
    var v' := v.(inbound := rest);
    ClientStateQuiet(x, Next(x, cp), v');
    NoOutput(ToServer(x, cp, sp, [], 0), ClientState(x, Next(x, cp), v'));
  }

  lemma ClientRecInbound(x: Ctx, p: nat, inbound: Bytes)
    requires p <= AT_END
    ensures ClientRec(x, p, inbound, [], [], []).inbound == inbound
  {
    hide Keys, ServerApp, ClientApp, ClientMsgs, ServerMsgs, AllUses;
  }

  lemma ClientMeetsHello(x: Ctx, sp: nat, v: Tail)
    requires Sound(x) && Ordered(x, 1, sp) && Possible(x, 1, sp) && Quiet(v) && sp >= AT_EXTENSIONS
    requires v.inbound == ToClient(x, 1, sp, [], 0)
    ensures ClientOutcome(x, 1, sp, v, [], v.tickets)
  {
    hide Sound, ClientMove, ClientState, RecordBytes, ServerHelloIn, ToClient, ToServer, AgreedSuite, AgreedSecret;
    ClientTakesHello(x, sp);
    ClientKeepsToServer(x, 1, sp);
    var rest := ToClient(x, 2, sp, [], 0);
    ClientReadsHello(x, v, rest);
    var v' := v.(inbound := rest);
    ClientStateQuiet(x, 2, v');
    NoOutput(ToServer(x, 1, sp, [], 0), ClientState(x, 2, v'));
  }

  lemma ClientGreets(x: Ctx, sp: nat, v: Tail)
    requires Ordered(x, 0, sp) && Possible(x, 0, sp) && Quiet(v) && v.tickets == x.clientTickets
    requires v.inbound == ToClient(x, 0, sp, [], 0)
    ensures ClientOutcome(x, 0, sp, v, FirstFlight(x.ce, x.clientTickets), v.tickets.(ticks := v.tickets.ticks + 1))
  {
    hide ClientMove, ClientState, FirstFlight, ToClient, ToServer, AgreedSuite, AgreedSecret;
    ClientPutsHello(x);
    ClientSendsHello(x, v);
    NoOutput(FirstFlight(x.ce, x.clientTickets), ClientState(x, 0, v));
    assert [] + FirstFlight(x.ce, x.clientTickets) == FirstFlight(x.ce, x.clientTickets);
  }

  lemma ClientShows(x: Ctx, sp: nat, v: Tail)
    requires Sound(x) && Ordered(x, 7, sp) && Possible(x, 7, sp) && Quiet(v) && v.inbound == ToClient(x, 7, sp, [], 0)
    ensures ClientOutcome(x, 7, sp, v, ClientOutput(x, 7), v.tickets)
  {
    hide ClientMove, ClientState, ClientOutput, ToClient, ToServer, AgreedSuite, AgreedSecret, CertificateIn,
      ClientHelloIn, Lawful, ClientAccepts, SignatureHolds, Transcript, FirstFlight, Keys, ServerApp, ClientApp;
    ClientPuts(x, 7, sp);
    ClientSendsCertificate(x, v);
    ClientFacts(x, 7, v);
    ClientStateIs(x, 7, v);
  }

  lemma ClientAnswers(x: Ctx, cp: nat, sp: nat, v: Tail)
    requires Sound(x) && Ordered(x, cp, sp) && Possible(x, cp, sp) && Quiet(v) && AT_CLIENT_VERIFY <= cp < AT_END
    requires v.inbound == ToClient(x, cp, sp, [], 0)
    ensures ClientOutcome(x, cp, sp, v, ClientOutput(x, cp), v.tickets)
  {
    hide ClientMove, ClientState, ClientOutput, ToClient, ToServer, AgreedSuite, AgreedSecret, CertificateIn,
      ClientHelloIn, Lawful;
    ClientPuts(x, cp, sp);
    if cp == AT_CLIENT_VERIFY {
      ClientSendsVerify(x, v);
    } else {
      ClientSendsFinished(x, v);
    }
  }

  lemma ClientStateIs(x: Ctx, p: nat, v: Tail)
    requires p <= AT_END && Quiet(v)
    ensures ClientState(x, p, v).rec == ClientRec(x, p, ClientState(x, p, v).rec.inbound, [], [], [])
  {
    hide Keys, ServerApp, ClientApp, ClientMsgs, ServerMsgs, AllUses, ClientHs;
  }

  lemma ClientRests(x: Ctx, cp: nat, sp: nat, v: Tail)
    requires Ordered(x, cp, sp) && Possible(x, cp, sp) && Quiet(v) && AT_SERVER_HELLO <= cp <= AT_FINISHED
    requires if cp == AT_SERVER_HELLO then sp <= AT_SERVER_HELLO else sp <= cp
    requires v.inbound == ToClient(x, cp, sp, [], 0)
    ensures ClientOutcome(x, cp, sp, v, [], v.tickets)
  {
    hide ClientMove, ToClient, ToServer, AgreedSuite, AgreedSecret;
    ClientIdle(x, cp, sp);
    ClientPausesAt(x, cp, v);
  }

  function ClientPutsOut(x: Ctx, cp: nat): Bytes
    requires cp < AT_END
  {
    if cp == AT_CLIENT_HELLO then FirstFlight(x.ce, x.clientTickets)
    else if cp >= AT_CLIENT_CERTIFICATE then ClientOutput(x, cp) else []
  }

  lemma ClientOutcomeHolds(x: Ctx, cp: nat, sp: nat, v: Tail) returns (t: TicketState)
    requires Sound(x) && Ordered(x, cp, sp) && Possible(x, cp, sp) && Quiet(v) && cp < AT_END
    requires (cp == AT_CLIENT_HELLO ==> v.tickets == x.clientTickets) && v.inbound == ToClient(x, cp, sp, [], 0)
    ensures ClientOutcome(x, cp, sp, v, ClientPutsOut(x, cp), t)
  {
    hide ClientOutcome, Sound, ToClient, FirstFlight, ClientOutput, Possible;
    t := v.tickets;
    if cp == AT_CLIENT_HELLO {
      t := v.tickets.(ticks := v.tickets.ticks + 1);
      ClientGreets(x, sp, v);
    } else if cp == AT_SERVER_HELLO && sp >= AT_EXTENSIONS {
      ClientMeetsHello(x, sp, v);
    } else if cp == AT_CLIENT_CERTIFICATE {
      ClientShows(x, sp, v);
    } else if cp >= AT_CLIENT_VERIFY {
      ClientAnswers(x, cp, sp, v);
    } else if cp == AT_SERVER_HELLO || sp <= cp {
      ClientRests(x, cp, sp, v);
    } else if cp == AT_CERTIFICATE || cp == AT_VERIFY {
      ClientReadsCritically(x, cp, sp, v);
    } else {
      ClientReadsPlainly(x, cp, sp, v);
    }
  }

  // ----- a step of the server -----

  ghost predicate ServerGoesOn(x: Ctx, cp: nat, sp: nat, v: Tail, written: seq<Bytes>, m: (ServerPc, ConnState),
          out: Bytes)
    requires sp < AT_END && Ordered(x, cp, sp)
  {
    && Ordered(x, cp, Next(x, sp)) && Possible(x, cp, Next(x, sp))
    && m == (ServerPcAt(Next(x, sp)),
             WithOutput(ServerState(x, Next(x, sp), v.(inbound := ToServer(x, cp, Next(x, sp), written, 0))), out))
    && ToClient(x, cp, Next(x, sp), [], 0) == ToClient(x, cp, sp, [], 0) + out
  }

  ghost predicate ServerGivesUp(x: Ctx, cp: nat, sp: nat, m: (ServerPc, ConnState))
    requires sp < AT_END
  {
    && m.0.SFailed?
    && (m.1.hs.transcript == Transcript(x, sp) || (sp == AT_CLIENT_HELLO && m.1.hs.transcript == Transcript(x, 1)))
    && (|| m.1.rec == ServerRec(x, sp, m.1.rec.inbound, [], [], [])
        || (Asks(x) && (sp == AT_CLIENT_CERTIFICATE || sp == AT_CLIENT_VERIFY) && sp < cp
            && m.1.rec == ServerRec(x, sp + 1, m.1.rec.inbound, [], [], [])))
  }

  predicate ServerPauses(m: (ServerPc, ConnState)) { m.0.SFailed? && Waits(m.0.error) }

  /** Everything the server's side has to be able to do for its steps to succeed. */
  predicate ServerCan(x: Ctx, sp: nat) {
    && (sp == AT_CLIENT_HELLO ==> AgreedSuite(x).Some?) && (sp == AT_SERVER_HELLO ==> AgreedSecret(x).Some?)
    && (sp == AT_CERTIFICATE ==> x.se.config.localCert.Some?) && (sp == AT_VERIFY ==> x.se.config.localKey.Some?)
    && (sp == AT_CLIENT_CERTIFICATE ==> x.ce.config.localCert.Some? && ServerAccepts(x))
    && (sp == AT_CLIENT_VERIFY ==>
          && x.ce.config.localCert.Some? && x.ce.config.localKey.Some?
          && SignatureHolds(x.se, x.ce, true, Transcript(x, 8)))
  }

  ghost predicate ServerOutcome(x: Ctx, cp: nat, sp: nat, v: Tail, written: seq<Bytes>, out: Bytes)
    requires sp < AT_END && Ordered(x, cp, sp) && Possible(x, cp, sp)
  {
    var m := ServerMove(x, sp, v);
    || (ServerGoesOn(x, cp, sp, v, written, m, out) && ServerCan(x, sp))
    || (ServerGivesUp(x, cp, sp, m) && !ServerCan(x, sp))
    || (ServerPauses(m) && (sp == AT_CLIENT_HELLO || sp >= AT_CLIENT_CERTIFICATE) && cp <= sp)
  }

  lemma ServerStateIs(x: Ctx, p: nat, v: Tail)
    requires p <= AT_END && Quiet(v)
    ensures var c := ServerState(x, p, v);
      c.rec.outbound == [] && c.rec == ServerRec(x, p, v.inbound, [], [], []) && c.rec.inbound == v.inbound
  {
    hide Keys, ServerApp, ClientApp, AgreedSuite, ClientMsgs, ServerMsgs, ServerHs, AllUses;
  }

  lemma ServerRecInbound(x: Ctx, p: nat, inbound: Bytes)
    requires p <= AT_END
    ensures ServerRec(x, p, inbound, [], [], []).inbound == inbound
  {
    hide Keys, ServerApp, ClientApp, ClientMsgs, ServerMsgs, AllUses;
  }

  lemma ServerMeetsHello(x: Ctx, cp: nat, v: Tail)
    requires Sound(x) && Ordered(x, cp, 0) && Possible(x, cp, 0) && Quiet(v) && cp >= AT_SERVER_HELLO
    requires v.inbound == ToServer(x, cp, 0, [], 0)
    ensures ServerOutcome(x, cp, 0, v, [], [])
  {
    hide Sound, ServerMove, ServerState, ServerRec, FirstFlight, ToClient, ToServer, AgreedSuite, AgreedSecret,
      Transcript;
    ServerTakesHello(x, cp);
    var rest := ToServer(x, cp, 1, [], 0);
    ServerReadsHello(x, v, rest);
    ServerRecInbound(x, 0, rest);
    var v' := v.(inbound := rest);
    ServerStateIs(x, 1, v');
    NoOutput(ToClient(x, cp, 0, [], 0), ServerState(x, 1, v'));
  }

  lemma ServerGreets(x: Ctx, cp: nat, v: Tail)
    requires Sound(x) && Ordered(x, cp, 1) && Possible(x, cp, 1) && Quiet(v)
    requires v.inbound == ToServer(x, cp, 1, [], 0)
    ensures ServerOutcome(x, cp, 1, v, [], RecordBytes(HANDSHAKE, RECORD_VERSION, ServerHelloIn(x)))
  {
    hide Sound, ServerMove, ServerState, ServerRec, RecordBytes, ServerHelloIn, ToClient, ToServer, AgreedSuite,
      AgreedSecret, Transcript;
    ServerPutsHello(x, cp);
    ServerSendsHello(x, v);
    ServerRecInbound(x, 1, v.inbound);
  }

  lemma ServerSpeaksFirst(x: Ctx, cp: nat, sp: nat, v: Tail)
    requires Ordered(x, cp, sp) && Possible(x, cp, sp) && Quiet(v) && AT_EXTENSIONS <= sp <= AT_REQUEST
    requires v.inbound == ToServer(x, cp, sp, [], 0)
    ensures ServerOutcome(x, cp, sp, v, [], ServerOutput(x, sp))
  {
    hide ServerMove, ServerState, ServerRec, ServerOutput, ToClient, ToServer, AgreedSuite, AgreedSecret, Transcript;
    ServerPuts(x, cp, sp);
    if sp == AT_EXTENSIONS {
      ServerSendsExtensions(x, v);
    } else {
      ServerSendsRequest(x, v);
    }
  }

  lemma ServerSpeaks(x: Ctx, cp: nat, sp: nat, v: Tail)
    requires Ordered(x, cp, sp) && Possible(x, cp, sp) && Quiet(v) && AT_CERTIFICATE <= sp <= AT_FINISHED
    requires v.inbound == ToServer(x, cp, sp, [], 0)
    ensures ServerOutcome(x, cp, sp, v, [], ServerOutput(x, sp))
  {
    hide ServerMove, ServerState, ServerRec, ServerOutput, ToClient, ToServer, AgreedSuite, AgreedSecret, Transcript,
      ServerAccepts, SignatureHolds, FirstFlight, Keys, ServerApp, ClientApp;
    ServerPuts(x, cp, sp);
    ServerStateIs(x, sp, v);
    ServerFacts(x, sp, v);
    match sp {
      case 4 => ServerSendsCertificate(x, v);
      case 5 => ServerSendsVerify(x, v);
      case _ => ServerSendsFinished(x, v);
    }
  }

  lemma ServerListens(x: Ctx, cp: nat, sp: nat, v: Tail, written: seq<Bytes>)
    requires Sound(x) && Ordered(x, cp, sp) && Possible(x, cp, sp) && Quiet(v) && AT_CLIENT_CERTIFICATE <= sp < AT_END
      && sp < cp
    requires v.inbound == ToServer(x, cp, sp, written, 0)
    ensures ServerOutcome(x, cp, sp, v, written, [])
  {
    hide Sound, ServerMove, ServerState, ServerRec, ClientOutput, ToClient, ToServer, AgreedSuite, AgreedSecret,
      Transcript, ServerAccepts, SignatureHolds;
    ServerTakes(x, cp, sp, written);
    var rest := ToServer(x, cp, Next(x, sp), written, 0);
    match sp {
      case 7 => ServerReadsCertificate(x, v, rest);
      case 8 => ServerReadsVerify(x, v, rest);
      case _ => ServerReadsFinished(x, v, rest);
    }
    ServerRecInbound(x, sp + 1, rest);
    var v' := v.(inbound := rest);
    ServerStateIs(x, Next(x, sp), v');
    NoOutput(ToClient(x, cp, sp, [], 0), ServerState(x, Next(x, sp), v'));
  }

  lemma ServerRests(x: Ctx, cp: nat, sp: nat, v: Tail)
    requires Ordered(x, cp, sp) && Possible(x, cp, sp) && Quiet(v)
    requires (sp == AT_CLIENT_HELLO || AT_CLIENT_CERTIFICATE <= sp < AT_END) && cp <= sp
    requires v.inbound == ToServer(x, cp, sp, [], 0)
    ensures ServerOutcome(x, cp, sp, v, [], [])
  {
    hide ServerMove, ToClient, ToServer, AgreedSuite, AgreedSecret;
    ServerIdle(x, cp, sp);
    ServerPausesAt(x, sp, v);
  }

  function ServerPutsOut(x: Ctx, sp: nat): Bytes
    requires sp < AT_END
  {
    if sp == AT_SERVER_HELLO then RecordBytes(HANDSHAKE, RECORD_VERSION, ServerHelloIn(x))
    else if AT_EXTENSIONS <= sp <= AT_FINISHED then ServerOutput(x, sp) else []
  }

  lemma ServerOutcomeHolds(x: Ctx, cp: nat, sp: nat, v: Tail, written: seq<Bytes>)
    requires Sound(x) && Ordered(x, cp, sp) && Possible(x, cp, sp) && Quiet(v) && sp < AT_END
    requires (cp < AT_END ==> written == []) && v.inbound == ToServer(x, cp, sp, written, 0)
    ensures ServerOutcome(x, cp, sp, v, written, ServerPutsOut(x, sp))
  {
    hide ServerOutcome, Sound, ToServer, ServerOutput, RecordBytes, Possible;
    if sp == AT_CLIENT_HELLO && cp >= AT_SERVER_HELLO {
      ServerMeetsHello(x, cp, v);
    } else if sp == AT_SERVER_HELLO {
      ServerGreets(x, cp, v);
    } else if AT_EXTENSIONS <= sp <= AT_REQUEST {
      ServerSpeaksFirst(x, cp, sp, v);
    } else if AT_CERTIFICATE <= sp <= AT_FINISHED {
      ServerSpeaks(x, cp, sp, v);
    } else if cp <= sp {
      ServerRests(x, cp, sp, v);
    } else {
      ServerListens(x, cp, sp, v, written);
    }
  }

  // ----- the invariant is kept -----

  lemma FedStates(x: Ctx, k: nat, v: Tail, bytes: Bytes)
    requires k <= AT_END
    ensures Fed(ServerState(x, k, v), bytes) == ServerState(x, k, v.(inbound := v.inbound + bytes))
    ensures Fed(ClientState(x, k, v), bytes) == ClientState(x, k, v.(inbound := v.inbound + bytes))
  {
    hide Keys, ServerApp, ClientApp, AgreedSuite, ClientMsgs, ServerMsgs, ServerHs, ClientHs, AllUses;
  }

  lemma FedRecs(x: Ctx, k: nat, c: ConnState, bytes: Bytes)
    requires k <= AT_END
    ensures c.rec == ServerRec(x, k, c.rec.inbound, [], [], []) ==>
      Fed(c, bytes).rec == ServerRec(x, k, Fed(c, bytes).rec.inbound, [], [], [])
    ensures c.rec == ClientRec(x, k, c.rec.inbound, [], [], []) ==>
      Fed(c, bytes).rec == ClientRec(x, k, Fed(c, bytes).rec.inbound, [], [], [])
    ensures Fed(c, bytes).hs == c.hs
  {
    hide Keys, ServerApp, ClientApp, AgreedSuite, ClientMsgs, ServerMsgs, ServerHs, ClientHs, AllUses;
  }

  lemma ServerIsFed(x: Ctx, p: Pair, p': Pair, cp: nat, cp': nat, sp: nat, read: nat, out: Bytes)
    requires Ordered(x, cp, sp) && Ordered(x, cp', sp) && sp <= AT_END
    requires p.cWritten == [] && p'.cWritten == [] && p'.sWritten == p.sWritten && p'.spc == p.spc
      && p'.s == Fed(p.s, out)
    requires ToServer(x, cp', sp, [], 0) == ToServer(x, cp, sp, [], 0) + out
    requires ServerIs(x, p, cp, sp, read)
    ensures ServerIs(x, p', cp', sp, read)
  {
    hide ServerState, ToServer, Ordered;
    var v := Tail(p.s.rec.inbound, p.s.rec.appReadBuf, p.sWritten, [], p.s.tickets);
    assert p.cWritten[..read] == [];
    FedStates(x, sp, v, out);
  }

  lemma ServerStoppedFed(x: Ctx, p: Pair, p': Pair, cp: nat, cp': nat, sp: nat, read: nat, out: Bytes)
    requires Position(x, sp) && sp <= AT_END && p'.spc == p.spc && p'.s == Fed(p.s, out)
    requires cp <= cp' && ServerStopped(x, p, cp, sp, read)
    ensures ServerStopped(x, p', cp', sp, read)
  {
    hide ServerRec, ClientRec, Transcript, Fed;
    FedRecs(x, sp, p.s, out);
    FedRecs(x, sp + 1, p.s, out);
  }

  lemma ClientIsFed(x: Ctx, p: Pair, p': Pair, cp: nat, sp: nat, sp': nat, read: nat, out: Bytes)
    requires Ordered(x, cp, sp) && Ordered(x, cp, sp') && cp <= AT_END
    requires p.sWritten == [] && p'.sWritten == [] && p'.cWritten == p.cWritten && p'.cpc == p.cpc
      && p'.c == Fed(p.c, out)
    requires ToClient(x, cp, sp', [], 0) == ToClient(x, cp, sp, [], 0) + out
    requires ClientIs(x, p, cp, sp, read)
    ensures ClientIs(x, p', cp, sp', read)
  {
    hide ClientState, ToClient, Ordered;
    var v := Tail(p.c.rec.inbound, p.c.rec.appReadBuf, p.cWritten, [], p.c.tickets);
    assert p.sWritten[..read] == [];
    FedStates(x, cp, v, out);
  }

  lemma ClientStoppedFed(x: Ctx, p: Pair, p': Pair, cp: nat, sp: nat, sp': nat, read: nat, out: Bytes)
    requires Position(x, cp) && cp <= AT_END && p'.cpc == p.cpc && p'.c == Fed(p.c, out)
    requires sp <= sp' && ClientStopped(x, p, cp, sp, read)
    ensures ClientStopped(x, p', cp, sp', read)
  {
    hide ServerRec, ClientRec, Transcript, Fed;
    FedRecs(x, cp, p.c, out);
    FedRecs(x, cp + 1, p.c, out);
  }

  /** The server's part of the invariant when the client has moved on and written something. */
  lemma ServerSideFed(x: Ctx, p: Pair, p': Pair, w: View, cp': nat, out: Bytes)
    requires Ordered(x, w.cp, w.sp) && Ordered(x, cp', w.sp) && w.sp <= AT_END && Position(x, w.sp) && w.cp <= cp'
    requires p.cWritten == [] && p'.cWritten == [] && p'.sWritten == p.sWritten && p'.spc == p.spc
      && p'.s == Fed(p.s, out)
    requires ToServer(x, cp', w.sp, [], 0) == ToServer(x, w.cp, w.sp, [], 0) + out
    requires ServerIs(x, p, w.cp, w.sp, w.sRead) || ServerStopped(x, p, w.cp, w.sp, w.sRead)
    ensures ServerIs(x, p', cp', w.sp, w.sRead) || ServerStopped(x, p', cp', w.sp, w.sRead)
    ensures ServerIs(x, p, w.cp, w.sp, w.sRead) ==> ServerIs(x, p', cp', w.sp, w.sRead)
  {
    hide *;
    if ServerIs(x, p, w.cp, w.sp, w.sRead) {
      ServerIsFed(x, p, p', w.cp, cp', w.sp, w.sRead, out);
    } else {
      ServerStoppedFed(x, p, p', w.cp, cp', w.sp, w.sRead, out);
    }
  }

  lemma ClientSideFed(x: Ctx, p: Pair, p': Pair, w: View, sp': nat, out: Bytes)
    requires Ordered(x, w.cp, w.sp) && Ordered(x, w.cp, sp') && w.cp <= AT_END && Position(x, w.cp) && w.sp <= sp'
    requires p.sWritten == [] && p'.sWritten == [] && p'.cWritten == p.cWritten && p'.cpc == p.cpc
      && p'.c == Fed(p.c, out)
    requires ToClient(x, w.cp, sp', [], 0) == ToClient(x, w.cp, w.sp, [], 0) + out
    requires ClientIs(x, p, w.cp, w.sp, w.cRead) || ClientStopped(x, p, w.cp, w.sp, w.cRead)
    ensures ClientIs(x, p', w.cp, sp', w.cRead) || ClientStopped(x, p', w.cp, sp', w.cRead)
    ensures ClientIs(x, p, w.cp, w.sp, w.cRead) ==> ClientIs(x, p', w.cp, sp', w.cRead)
  {
    hide *;
    if ClientIs(x, p, w.cp, w.sp, w.cRead) {
      ClientIsFed(x, p, p', w.cp, w.sp, sp', w.cRead, out);
    } else {
      ClientStoppedFed(x, p, p', w.cp, w.sp, sp', w.cRead, out);
    }
  }

  lemma EmptiedStates(x: Ctx, k: nat, v: Tail, out: Bytes)
    requires k <= AT_END
    ensures Emptied(WithOutput(ServerState(x, k, v), out)) == ServerState(x, k, v)
    ensures Emptied(WithOutput(ClientState(x, k, v), out)) == ClientState(x, k, v)
    ensures ServerState(x, k, v).rec.inbound == v.inbound && ServerState(x, k, v).rec.appReadBuf == v.buf
      && ServerState(x, k, v).tickets == v.tickets
    ensures ClientState(x, k, v).rec.inbound == v.inbound && ClientState(x, k, v).rec.appReadBuf == v.buf
      && ClientState(x, k, v).tickets == v.tickets
  {
    hide Keys, ServerApp, ClientApp, AgreedSuite, ClientMsgs, ServerMsgs, ServerHs, ClientHs, AllUses;
  }

  lemma EmptiedRecs(x: Ctx, k: nat, c: ConnState)
    requires k <= AT_END
      && (c.rec == ServerRec(x, k, c.rec.inbound, [], [], []) || c.rec == ClientRec(x, k, c.rec.inbound, [], [], []))
    ensures c.rec.outbound == [] && c.rec.appReadBuf == [] && Emptied(c) == c
  {
    hide Keys, ServerApp, ClientApp, AgreedSuite, ClientMsgs, ServerMsgs, AllUses;
  }

  lemma FedNothing(c: ConnState)
    ensures Fed(c, []) == c
  {
    assert c.rec.inbound + [] == c.rec.inbound;
  }

  /** The client's part after a step that succeeds. */
  lemma ClientAdvanced(x: Ctx, p: Pair, p': Pair, w: View, v: Tail, out: Bytes, t: TicketState,
          m: (ClientPc, ConnState))
    requires Ordered(x, w.cp, w.sp) && w.cp < AT_END && Quiet(v) && ClientGoesOn(x, w.cp, w.sp, v, m, out, t)
    requires p'.cpc == m.0 && p'.c == Emptied(m.1) && p'.cWritten == [] && p'.sWritten == []
    ensures ClientIs(x, p', Next(x, w.cp), w.sp, 0) && m.1.rec.outbound == out && p'.c.rec.appReadBuf == []
  {
    hide ClientState, ToClient, ToServer, Ordered, Possible;
    EmptiedStates(x, Next(x, w.cp), v.(inbound := ToClient(x, Next(x, w.cp), w.sp, [], 0), tickets := t), out);
    assert p'.sWritten[..0] == [];
  }

  lemma ServerAdvanced(x: Ctx, p': Pair, w: View, v: Tail, m: (ServerPc, ConnState), out: Bytes)
    requires Ordered(x, w.cp, w.sp) && w.sp < AT_END && Quiet(v) && ServerGoesOn(x, w.cp, w.sp, v, p'.cWritten, m, out)
    requires p'.spc == m.0 && p'.s == Emptied(m.1) && p'.sWritten == []
    ensures ServerIs(x, p', w.cp, Next(x, w.sp), 0) && m.1.rec.outbound == out && p'.s.rec.appReadBuf == []
  {
    hide ServerState, ToClient, ToServer, Ordered, Possible;
    EmptiedStates(x, Next(x, w.sp), v.(inbound := ToServer(x, w.cp, Next(x, w.sp), p'.cWritten, 0)), out);
    assert p'.cWritten[..0] == [];
  }

  /** An end that gives up leaves nothing behind and stays. */
  lemma ClientGaveUp(x: Ctx, p: Pair, p': Pair, cp: nat, sp: nat, m: (ClientPc, ConnState))
    requires Position(x, cp) && cp < AT_END && ClientGivesUp(x, cp, sp, m)
    requires p' == p.(cpc := m.0, c := Emptied(m.1), s := Fed(p.s, m.1.rec.outbound))
    ensures ClientStopped(x, p', cp, sp, 0) && p'.s == p.s && p'.c.rec.appReadBuf == []
  {
    hide ClientRec, ServerRec, Transcript, Emptied, Fed;
    EmptiedRecs(x, if m.1.rec == ClientRec(x, cp, m.1.rec.inbound, [], [], []) then cp else cp + 1, m.1);
    FedNothing(p.s);
  }

  lemma ServerGaveUp(x: Ctx, p: Pair, p': Pair, cp: nat, sp: nat, m: (ServerPc, ConnState))
    requires Position(x, sp) && sp < AT_END && ServerGivesUp(x, cp, sp, m)
    requires p' == p.(spc := m.0, s := Emptied(m.1), c := Fed(p.c, m.1.rec.outbound))
    ensures ServerStopped(x, p', cp, sp, 0) && p'.c == p.c && p'.s.rec.appReadBuf == []
  {
    hide ClientRec, ServerRec, Transcript, Emptied, Fed;
    EmptiedRecs(x, if m.1.rec == ServerRec(x, sp, m.1.rec.inbound, [], [], []) then sp else sp + 1, m.1);
    FedNothing(p.c);
  }

  /** A live client before the end: its state in the form the step lemmas want. */
  lemma ClientTail(x: Ctx, p: Pair, w: View)
    requires Ready(p) && Inv(x, p, w) && ClientIs(x, p, w.cp, w.sp, w.cRead) && w.cp < AT_END
    ensures var v := Tail(p.c.rec.inbound, [], [], [], p.c.tickets);
      && Quiet(v) && !ClientEnded(p.cpc) && p.sWritten == [] && p.cWritten == [] && w.cRead == 0 && w.sp < AT_END
      && v.inbound == ToClient(x, w.cp, w.sp, [], 0) && (w.cp == AT_CLIENT_HELLO ==> v.tickets == x.clientTickets)
      && (w.cp > AT_SERVER_HELLO ==> AgreedSuite(x).Some?) && ClientStep(x.ce, p.cpc, p.c) == ClientMove(x, w.cp, v)
  {
    hide ClientState, ServerState, ToClient, ToServer, ClientStep, ServerRec, ClientRec, Transcript, ServerIs,
      ServerStopped;
    assert p.sWritten[..0] == [];
    Ranks(w.cp);
  }

  lemma ServerTail(x: Ctx, p: Pair, w: View)
    requires Ready(p) && Inv(x, p, w) && ServerIs(x, p, w.cp, w.sp, w.sRead) && w.sp < AT_END
    ensures var v := Tail(p.s.rec.inbound, [], [], [], p.s.tickets);
      && Quiet(v) && !ServerEnded(p.spc) && p.sWritten == [] && w.sRead == 0 && (w.cp < AT_END ==> p.cWritten == [])
      && v.inbound == ToServer(x, w.cp, w.sp, p.cWritten, 0)
      && (w.sp > AT_CLIENT_HELLO ==> AgreedSuite(x).Some?) && ServerStep(x.se, p.spc, p.s) == ServerMove(x, w.sp, v)
  {
    hide ClientState, ServerState, ToClient, ToServer, ServerStep, ServerRec, ClientRec, Transcript, ClientIs,
      ClientStopped;
    assert p.cWritten[..0] == [];
    Ranks(w.sp);
  }

  lemma GoingOnIsNotFailing(x: Ctx, cp: nat, sp: nat, v: Tail, written: seq<Bytes>, out: Bytes, t: TicketState)
    requires Ordered(x, cp, sp)
    ensures forall m :: cp < AT_END && ClientGoesOn(x, cp, sp, v, m, out, t) ==> !m.0.CFailed?
    ensures forall m :: sp < AT_END && ServerGoesOn(x, cp, sp, v, written, m, out) ==> !m.0.SFailed?
  {
    hide ClientState, ServerState, ToClient, ToServer, Possible;
  }

  /** Neither end has given up. */
  ghost predicate Alive(x: Ctx, p: Pair, w: View)
    requires Ordered(x, w.cp, w.sp)
  {
    ClientIs(x, p, w.cp, w.sp, w.cRead) && ServerIs(x, p, w.cp, w.sp, w.sRead)
  }

  lemma EndsAtEnd(x: Ctx, p: Pair, w: View)
    requires Ordered(x, w.cp, w.sp) && Alive(x, p, w)
    ensures ClientEnded(p.cpc) ==> w.cp == AT_END
    ensures ServerEnded(p.spc) ==> w.sp == AT_END
  {
    hide ClientState, ServerState, ToClient, ToServer;
  }

  lemma ClientShakeKeeps(x: Ctx, p: Pair, w: View) returns (w': View)
    requires Sound(x) && Ready(p) && Inv(x, p, w)
    ensures Inv(x, ShakeClient(x, p), w')
    ensures ShakeClient(x, p).c.rec.appReadBuf == p.c.rec.appReadBuf
    ensures w' == w || (w.cp < AT_END && w' == w.(cp := Next(x, w.cp)) && ClientCan(x, w.cp))
    ensures Alive(x, p, w) && (w.cp < AT_END ==> ClientCan(x, w.cp)) ==>
      Alive(x, ShakeClient(x, p), w')
        && (w' == w ==> w.cp == AT_END || (AT_SERVER_HELLO <= w.cp <= AT_FINISHED && w.sp <= w.cp))
  {
    hide ClientIs, ClientStopped, ServerIs, ServerStopped, ClientStep, ClientMove, ClientGoesOn, ClientGivesUp, Sound,
      ToClient, ToServer, ClientPutsOut, ClientCan;
    w' := w;
    var p' := ShakeClient(x, p);
    ClientLive(x, p, w);
    if Alive(x, p, w) {
      EndsAtEnd(x, p, w);
    }
    if !ClientEnded(p.cpc) {
      ClientTail(x, p, w);
      var v := Tail(p.c.rec.inbound, [], [], [], p.c.tickets);
      var t := ClientOutcomeHolds(x, w.cp, w.sp, v);
      var m, out := ClientMove(x, w.cp, v), ClientPutsOut(x, w.cp);
      GoingOnIsNotFailing(x, w.cp, w.sp, v, [], out, t);
      if m.0.CFailed? && Waits(m.0.error) {
      } else if ClientGoesOn(x, w.cp, w.sp, v, m, out, t) && ClientCan(x, w.cp) {
        w' := w.(cp := Next(x, w.cp));
        ClientWentOn(x, p, p', w, v, m, out, t);
      } else {
        ClientGaveUp(x, p, p', w.cp, w.sp, m);
        ServerUntouched(x, p, p', w);
      }
    }
  }

  /** An ended client is done or has stopped. */
  lemma ClientLive(x: Ctx, p: Pair, w: View)
    requires Inv(x, p, w)
    ensures !ClientEnded(p.cpc) ==> ClientIs(x, p, w.cp, w.sp, w.cRead) && w.cp < AT_END && p.c.rec.appReadBuf == []
    ensures ClientStopped(x, p, w.cp, w.sp, w.cRead) ==> w.cRead == 0
  {
    hide ServerIs, ServerStopped, ClientState, ClientRec, Transcript, ToClient, ToServer;
  }

  lemma ClientWentOn(x: Ctx, p: Pair, p': Pair, w: View, v: Tail, m: (ClientPc, ConnState), out: Bytes, t: TicketState)
    requires Ordered(x, w.cp, w.sp) && w.cp < AT_END && w.sp < AT_END && Quiet(v)
      && ClientGoesOn(x, w.cp, w.sp, v, m, out, t)
    requires p.cWritten == [] && p.sWritten == [] && w.cRead == 0
    requires p' == p.(cpc := m.0, c := Emptied(m.1), s := Fed(p.s, m.1.rec.outbound))
    requires ServerIs(x, p, w.cp, w.sp, w.sRead) || ServerStopped(x, p, w.cp, w.sp, w.sRead)
    ensures Inv(x, p', w.(cp := Next(x, w.cp))) && p'.c.rec.appReadBuf == []
    ensures ClientIs(x, p', Next(x, w.cp), w.sp, 0)
      && (ServerIs(x, p, w.cp, w.sp, w.sRead) ==> ServerIs(x, p', Next(x, w.cp), w.sp, w.sRead))
  {
    hide ClientIs, ClientStopped, ServerIs, ServerStopped, ToClient, ToServer, ClientState, WithOutput, Emptied, Fed;
    ClientAdvanced(x, p, p', w, v, out, t, m);
    ServerSideFed(x, p, p', w, Next(x, w.cp), out);
  }

  lemma ServerUntouched(x: Ctx, p: Pair, p': Pair, w: View)
    requires Ordered(x, w.cp, w.sp) && (ServerIs(x, p, w.cp, w.sp, w.sRead) || ServerStopped(x, p, w.cp, w.sp, w.sRead))
    requires p'.spc == p.spc && p'.s == p.s && p'.cWritten == p.cWritten && p'.sWritten == p.sWritten
    ensures ServerIs(x, p', w.cp, w.sp, w.sRead) || ServerStopped(x, p', w.cp, w.sp, w.sRead)
  {
    hide ServerState, ServerRec, Transcript, ToServer, Ordered;
  }

  lemma ClientUntouched(x: Ctx, p: Pair, p': Pair, w: View)
    requires Ordered(x, w.cp, w.sp) && (ClientIs(x, p, w.cp, w.sp, w.cRead) || ClientStopped(x, p, w.cp, w.sp, w.cRead))
    requires p'.cpc == p.cpc && p'.c == p.c && p'.cWritten == p.cWritten && p'.sWritten == p.sWritten
    ensures ClientIs(x, p', w.cp, w.sp, w.cRead) || ClientStopped(x, p', w.cp, w.sp, w.cRead)
  {
    hide ClientState, ClientRec, Transcript, ToClient, Ordered;
  }

  lemma ServerWentOn(x: Ctx, p: Pair, p': Pair, w: View, v: Tail, m: (ServerPc, ConnState), out: Bytes)
    requires Ordered(x, w.cp, w.sp) && w.sp < AT_END && Quiet(v) && ServerGoesOn(x, w.cp, w.sp, v, p.cWritten, m, out)
    requires p.sWritten == [] && w.sRead == 0 && (w.cp < AT_END ==> p.cWritten == [])
    requires p' == p.(spc := m.0, s := Emptied(m.1), c := Fed(p.c, m.1.rec.outbound))
    requires ClientIs(x, p, w.cp, w.sp, w.cRead) || ClientStopped(x, p, w.cp, w.sp, w.cRead)
    ensures Inv(x, p', w.(sp := Next(x, w.sp))) && p'.s.rec.appReadBuf == []
    ensures ServerIs(x, p', w.cp, Next(x, w.sp), 0)
      && (ClientIs(x, p, w.cp, w.sp, w.cRead) ==> ClientIs(x, p', w.cp, Next(x, w.sp), w.cRead))
  {
    hide ClientIs, ClientStopped, ServerIs, ServerStopped, ToClient, ToServer, ServerState, WithOutput, Emptied, Fed;
    ServerAdvanced(x, p', w, v, m, out);
    ClientSideFed(x, p, p', w, Next(x, w.sp), out);
  }

  lemma ServerLive(x: Ctx, p: Pair, w: View)
    requires Inv(x, p, w)
    ensures !ServerEnded(p.spc) ==> ServerIs(x, p, w.cp, w.sp, w.sRead) && w.sp < AT_END && p.s.rec.appReadBuf == []
    ensures ServerStopped(x, p, w.cp, w.sp, w.sRead) ==> w.sRead == 0
  {
    hide ClientIs, ClientStopped, ServerState, ServerRec, Transcript, ToClient, ToServer;
  }

  lemma ServerShakeKeeps(x: Ctx, p: Pair, w: View) returns (w': View)
    requires Sound(x) && Ready(p) && Inv(x, p, w)
    ensures Inv(x, ShakeServer(x, p), w')
    ensures ShakeServer(x, p).s.rec.appReadBuf == p.s.rec.appReadBuf
    ensures w' == w || (w.sp < AT_END && w' == w.(sp := Next(x, w.sp)) && ServerCan(x, w.sp))
    ensures Alive(x, p, w) && (w.sp < AT_END ==> ServerCan(x, w.sp)) ==>
      Alive(x, ShakeServer(x, p), w') &&
      (w' == w ==> w.sp == AT_END || ((w.sp == AT_CLIENT_HELLO || w.sp >= AT_CLIENT_CERTIFICATE) && w.cp <= w.sp))
  {
    hide ClientIs, ClientStopped, ServerIs, ServerStopped, ServerStep, ServerMove, ServerGoesOn, ServerGivesUp, Sound,
      ToClient, ToServer, ServerPutsOut, ServerCan;
    w' := w;
    var p' := ShakeServer(x, p);
    ServerLive(x, p, w);
    if Alive(x, p, w) {
      EndsAtEnd(x, p, w);
    }
    if !ServerEnded(p.spc) {
      ServerTail(x, p, w);
      var v := Tail(p.s.rec.inbound, [], [], [], p.s.tickets);
      ServerOutcomeHolds(x, w.cp, w.sp, v, p.cWritten);
      var m, out := ServerMove(x, w.sp, v), ServerPutsOut(x, w.sp);
      GoingOnIsNotFailing(x, w.cp, w.sp, v, p.cWritten, out, v.tickets);
      if m.0.SFailed? && Waits(m.0.error) {
      } else if ServerGoesOn(x, w.cp, w.sp, v, p.cWritten, m, out) && ServerCan(x, w.sp) {
        w' := w.(sp := Next(x, w.sp));
        ServerWentOn(x, p, p', w, v, m, out);
      } else {
        ServerGaveUp(x, p, p', w.cp, w.sp, m);
        ClientUntouched(x, p, p', w);
      }
    }
  }

  // ----- application data -----

  /** Application data that fits a record. */
  predicate FitsRecord(ev: Event) {
    match ev
    case ClientWrites(b) => |b| <= MAX_PLAINTEXT
    case ServerWrites(b) => |b| <= MAX_PLAINTEXT
    case _ => true
  }

  ghost predicate AllFit(msgs: seq<Bytes>) { forall i :: 0 <= i < |msgs| ==> |msgs[i]| <= MAX_PLAINTEXT }

  /** A record of application data at the end of the flow. */
  lemma FlowSnoc(cr: Crypto, hk: Traffic, hs: seq<Bytes>, i: nat, ak: Traffic, app: seq<Bytes>, j: nat, b: Bytes)
    requires i <= |hs| && j <= |app| && |hk.iv| == 12 && |ak.iv| == 12
    ensures Flow(cr, hk, hs, i, ak, app + [b], j) ==
            Flow(cr, hk, hs, i, ak, app, j) + SealedBytes(cr, SealerAt(ApplicationKeys, ak, |app|), APPLICATION_DATA, b)
  {
    hide SealedBytes;
    var front, last :=
      Sent(cr, HandshakeKeys, hk, HANDSHAKE, hs, i),
      SealedBytes(cr, SealerAt(ApplicationKeys, ak, |app|), APPLICATION_DATA, b);
    SentSnoc(cr, ApplicationKeys, ak, APPLICATION_DATA, app, j, b);
    if app == [] {
      SentEnds(cr, ApplicationKeys, ak, APPLICATION_DATA, app);
      assert [] + last == last;
    } else {
      Assoc(front, Sent(cr, ApplicationKeys, ak, APPLICATION_DATA, app, j), last);
    }
  }

  lemma WrittenToServer(x: Ctx, sp: nat, written: seq<Bytes>, read: nat, b: Bytes)
    requires Ordered(x, AT_END, sp) && read <= |written|
    ensures ToServer(x, AT_END, sp, written + [b], read) ==
            ToServer(x, AT_END, sp, written, read) +
              SealedBytes(x.se.crypto, SealerAt(ApplicationKeys, ClientApp(x), |written|), APPLICATION_DATA, b)
  {
    hide SealedBytes, Keys, ClientApp, ServerMsgs, ClientMsgs, Flow, FirstFlight;
    MsgsGrow(x, AT_END, sp);
    FlowSnoc(x.se.crypto, Keys(x).clientHandshake, ClientMsgs(x, AT_END), |ClientMsgs(x, sp)|, ClientApp(x), written,
      read, b);
    EmptyFront(Flow(x.se.crypto, Keys(x).clientHandshake, ClientMsgs(x, AT_END), |ClientMsgs(x, sp)|, ClientApp(x),
      written, read), [], []);
    EmptyFront(Flow(x.se.crypto, Keys(x).clientHandshake, ClientMsgs(x, AT_END), |ClientMsgs(x, sp)|, ClientApp(x),
      written + [b], read), [], []);
  }

  lemma WrittenToClient(x: Ctx, written: seq<Bytes>, read: nat, b: Bytes)
    requires Ordered(x, AT_END, AT_END) && read <= |written|
    ensures ToClient(x, AT_END, AT_END, written + [b], read) ==
            ToClient(x, AT_END, AT_END, written, read)
            + SealedBytes(x.se.crypto, SealerAt(ApplicationKeys, ServerApp(x), |written|), APPLICATION_DATA, b)
  {
    hide SealedBytes, Keys, ServerApp, ServerMsgs, ClientMsgs, Flow;
    FlowSnoc(x.se.crypto, Keys(x).serverHandshake, ServerMsgs(x, AT_END), |ServerMsgs(x, AT_END)|, ServerApp(x),
      written, read, b);
    EmptyFront(Flow(x.se.crypto, Keys(x).serverHandshake, ServerMsgs(x, AT_END), |ServerMsgs(x, AT_END)|, ServerApp(x),
      written, read), [], []);
    EmptyFront(Flow(x.se.crypto, Keys(x).serverHandshake, ServerMsgs(x, AT_END), |ServerMsgs(x, AT_END)|, ServerApp(x),
      written + [b], read), [], []);
  }

  lemma AllUsesSnoc(hk: Traffic, hs: seq<Bytes>, ak: Traffic, app: seq<Bytes>, b: Bytes)
    requires |hk.iv| == 12 && |ak.iv| == 12
    ensures AllUses(hk, hs, ak, app + [b]) ==
            AllUses(hk, hs, ak, app) + [UseOf(SealerAt(ApplicationKeys, ak, |app|), |app| % TWO64, |b| + 17)]
  {
    hide AdditionalData, Uses;
    UsesSnoc(ApplicationKeys, ak, app, b);
    assert Uses(ApplicationKeys, ak, []) == [];
    if app != [] {
      Assoc(Uses(HandshakeKeys, hk, hs), Uses(ApplicationKeys, ak, app),
        [UseOf(SealerAt(ApplicationKeys, ak, |app|), |app| % TWO64, |b| + 17)]);
    }
  }

  /** A write at the end of the handshake, on either side. */
  lemma ClientWritesOne(x: Ctx, v: Tail, b: Bytes)
    requires x.ce.crypto == x.se.crypto
    ensures WriteRecord(x.ce.crypto, ClientState(x, AT_END, v).rec, APPLICATION_DATA, b) ==
            WithOutput(ClientState(x, AT_END, v.(written := v.written + [b])),
                       SealedBytes(x.se.crypto, SealerAt(ApplicationKeys, ClientApp(x), |v.written|),
                         APPLICATION_DATA, b)).rec
  {
    hide Keys, ClientApp, ServerApp, SealRecord, RecordBytes, AdditionalData, ServerMsgs, ClientMsgs, AllUses, ClientHs;
    NoMsgsYet(x, AT_END);
    CountsOn(ApplicationKeys, ClientApp(x), |v.written|);
    AllUsesSnoc(Keys(x).clientHandshake, ClientMsgs(x, AT_END), ClientApp(x), v.written, b);
    var out := SealedBytes(x.se.crypto, SealerAt(ApplicationKeys, ClientApp(x), |v.written|), APPLICATION_DATA, b);
    assert [] + out == out;
  }

  lemma ServerWritesOne(x: Ctx, v: Tail, b: Bytes)
    ensures WriteRecord(x.se.crypto, ServerState(x, AT_END, v).rec, APPLICATION_DATA, b) ==
            WithOutput(ServerState(x, AT_END, v.(written := v.written + [b])),
                       SealedBytes(x.se.crypto, SealerAt(ApplicationKeys, ServerApp(x), |v.written|),
                         APPLICATION_DATA, b)).rec
  {
    hide Keys, ClientApp, ServerApp, SealRecord, RecordBytes, AdditionalData, ServerMsgs, ClientMsgs, AllUses, ServerHs;
    CountsOn(ApplicationKeys, ServerApp(x), |v.written|);
    AllUsesSnoc(Keys(x).serverHandshake, ServerMsgs(x, AT_END), ServerApp(x), v.written, b);
    var out := SealedBytes(x.se.crypto, SealerAt(ApplicationKeys, ServerApp(x), |v.written|), APPLICATION_DATA, b);
    assert [] + out == out;
  }
}
