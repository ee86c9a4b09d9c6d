/** Reading and writing at a finished end keep the joint invariant, and lose nothing of the two byte streams. */
module AppData {
  import opened Prelude
  import opened Crypto
  import opened RecordCipher
  import opened Records
  import opened Steps
  import opened Runs
  import opened Retry
  import opened Channels
  import opened Script
  import opened Greeting
  import opened Pairs
  import opened Joint
  import opened Delivery

  // ----- application data keeps the invariant -----

  lemma ChannelAtEnd(x: Ctx, sp: nat, written: seq<Bytes>, read: nat)
    requires Ordered(x, AT_END, sp) && read <= |written| && (sp < AT_END ==> written == [])
    ensures ToClient(x, AT_END, sp, written, read) ==
            Sent(x.se.crypto, ApplicationKeys, ServerApp(x), APPLICATION_DATA, written, read)
  {
    hide Keys, ServerApp, ServerMsgs, ClientMsgs;
    MsgsGrow(x, AT_END, sp);
    ServerMsgsEnd(x, sp);
    ServerMsgsEnd(x, AT_END);
    var app := Sent(x.se.crypto, ApplicationKeys, ServerApp(x), APPLICATION_DATA, written, read);
    EmptyFront(app, app, app);
    SentEnds(x.se.crypto, HandshakeKeys, Keys(x).serverHandshake, HANDSHAKE, ServerMsgs(x, sp));
  }

  lemma ChannelAtServerEnd(x: Ctx, written: seq<Bytes>, read: nat)
    requires Ordered(x, AT_END, AT_END) && read <= |written|
    ensures ToServer(x, AT_END, AT_END, written, read) ==
            Sent(x.se.crypto, ApplicationKeys, ClientApp(x), APPLICATION_DATA, written, read)
  {
    hide Keys, ClientApp, ServerMsgs, ClientMsgs, FirstFlight;
    var app := Sent(x.se.crypto, ApplicationKeys, ClientApp(x), APPLICATION_DATA, written, read);
    EmptyFront(app, app, app);
    SentEnds(x.se.crypto, HandshakeKeys, Keys(x).clientHandshake, HANDSHAKE, ClientMsgs(x, AT_END));
  }

  /** A finished client as the receiving end of a stream. */
  lemma ClientReceiver(x: Ctx, sp: nat, written: seq<Bytes>, sent: seq<Bytes>, i: nat, buf: Bytes)
    requires Ordered(x, AT_END, sp) && i <= |sent| && (sp < AT_END ==> sent == [])
    ensures var r := ClientRec(x, AT_END, [], [], written, []);
      && Open(r)
      && ClientRec(x, AT_END, ToClient(x, AT_END, sp, sent, i), buf, written, sent[..i]) ==
         Receiver(x.se.crypto, r, Keys(x).serverHandshake, ServerMsgs(x, AT_END), ServerApp(x), sent, i, buf)
  {
    hide Keys, ServerApp, ClientApp, ServerMsgs, ClientMsgs, AllUses, Sent, ToClient;
    ChannelAtEnd(x, sp, sent, i);
  }

  lemma ServerReceiver(x: Ctx, written: seq<Bytes>, sent: seq<Bytes>, i: nat, buf: Bytes)
    requires Ordered(x, AT_END, AT_END) && i <= |sent|
    ensures var r := ServerRec(x, AT_END, [], [], written, []);
      && Open(r)
      && ServerRec(x, AT_END, ToServer(x, AT_END, AT_END, sent, i), buf, written, sent[..i]) ==
         Receiver(x.se.crypto, r, Keys(x).clientHandshake, ClientMsgs(x, AT_END), ClientApp(x), sent, i, buf)
  {
    hide Keys, ServerApp, ClientApp, ServerMsgs, ClientMsgs, AllUses, Sent, ToServer;
    ChannelAtServerEnd(x, sent, i);
  }

  /** An end is complete exactly when it is at the end of the script. */
  lemma CompleteMeans(x: Ctx, p: Pair, w: View)
    requires Inv(x, p, w)
    ensures p.c.rec.complete ==> w.cp == AT_END && ClientIs(x, p, w.cp, w.sp, w.cRead)
    ensures p.s.rec.complete ==> w.sp == AT_END && ServerIs(x, p, w.cp, w.sp, w.sRead)
    ensures p.cpc == CDone ==> w.cp == AT_END && ClientIs(x, p, w.cp, w.sp, w.cRead) && p.c.rec.complete
    ensures p.spc == SDone ==> w.sp == AT_END && ServerIs(x, p, w.cp, w.sp, w.sRead) && p.s.rec.complete
  {
    hide Keys, ServerApp, ClientApp, ServerMsgs, ClientMsgs, AllUses, ToServer, ToClient, Transcript, ClientHs,
      ServerHs, Possible;
  }

  /** What a run's application data adds to the invariant: each end's data fits, and what was handed over and what is
      buffered are what arrives of the payloads opened. */
  ghost predicate Streams(p: Pair, w: View) {
    && AllFit(p.cWritten) && AllFit(p.sWritten) && w.cRead <= |p.sWritten| && w.sRead <= |p.cWritten|
    && p.sGot + p.s.rec.appReadBuf == Arrivals(p.cWritten[..w.sRead])
    && p.cGot + p.c.rec.appReadBuf == Arrivals(p.sWritten[..w.cRead])
  }

  lemma ClientReadOpens(x: Ctx, p: Pair, w: View, n: nat) returns (j: nat, buf: Bytes)
    requires Sound(x) && Ready(p) && Inv(x, p, w) && AllFit(p.sWritten) && p.c.rec.complete
    requires w.cRead <= |p.sWritten| && p.cGot + p.c.rec.appReadBuf == Arrivals(p.sWritten[..w.cRead])
    ensures var c' := AppRead(x.ce, p.c, n).state;
      && w.cp == AT_END && w.cRead <= j <= |p.sWritten| && c'.hs == p.c.hs && Ordered(x, AT_END, w.sp)
      && c'.rec == ClientRec(x, AT_END, ToClient(x, AT_END, w.sp, p.sWritten, j), buf, p.cWritten, p.sWritten[..j])
    ensures p.cGot + Handed(AppRead(x.ce, p.c, n).result) + buf == Arrivals(p.sWritten[..j])
  {
    hide Lawful, Keys, ServerApp, ClientApp, ServerMsgs, ClientMsgs, AllUses, Sent, ToClient, ClientRec, Receiver, Read,
      ClientHs, Possible, ServerIs, ServerStopped, ClientStopped, CertificateIn, ClientHelloIn, Ordered, Open, Arrivals;
    CompleteMeans(x, p, w);
    var i, b, sent := w.cRead, p.c.rec.appReadBuf, p.sWritten;
    var r, hk, hs, t :=
      ClientRec(x, AT_END, [], [], p.cWritten, []), Keys(x).serverHandshake, ServerMsgs(x, AT_END), ServerApp(x);
    var tc := TicketsFor(x.ce, p.c.hs);
    ClientReceiver(x, w.sp, p.cWritten, sent, i, b);
    j, buf := ReadHandsOver(x.ce.crypto, tc, r, hk, hs, t, sent, i, p.cGot, b, p.c.tickets, n);
    ClientReceiver(x, w.sp, p.cWritten, sent, j, buf);
  }

  lemma ServerReadOpens(x: Ctx, p: Pair, w: View, n: nat) returns (j: nat, buf: Bytes)
    requires Sound(x) && Ready(p) && Inv(x, p, w) && AllFit(p.cWritten) && p.s.rec.complete
    requires w.sRead <= |p.cWritten| && p.sGot + p.s.rec.appReadBuf == Arrivals(p.cWritten[..w.sRead])
    ensures var s' := AppRead(x.se, p.s, n).state;
      && w.cp == AT_END && w.sRead <= j <= |p.cWritten| && s'.hs == p.s.hs && Ordered(x, AT_END, AT_END)
      && s'.rec == ServerRec(x, AT_END, ToServer(x, AT_END, AT_END, p.cWritten, j), buf, p.sWritten, p.cWritten[..j])
    ensures p.sGot + Handed(AppRead(x.se, p.s, n).result) + buf == Arrivals(p.cWritten[..j])
  {
    hide Lawful, Keys, ServerApp, ClientApp, ServerMsgs, ClientMsgs, AllUses, Sent, ToServer, ServerRec, Receiver, Read,
      ServerHs, Possible, ClientIs, ServerStopped, ClientStopped, CertificateIn, ClientHelloIn, Open, Arrivals;
    CompleteMeans(x, p, w);
    var i, b, sent := w.sRead, p.s.rec.appReadBuf, p.cWritten;
    var r, hk, hs, t :=
      ServerRec(x, AT_END, [], [], p.sWritten, []), Keys(x).clientHandshake, ClientMsgs(x, AT_END), ClientApp(x);
    var tc := TicketsFor(x.se, p.s.hs);
    ServerReceiver(x, p.sWritten, sent, i, b);
    j, buf := ReadHandsOver(x.se.crypto, tc, r, hk, hs, t, sent, i, p.sGot, b, p.s.tickets, n);
    ServerReceiver(x, p.sWritten, sent, j, buf);
  }

  lemma ClientRecFields(x: Ctx, k: nat, inbound: Bytes, buf: Bytes, written: seq<Bytes>, read: seq<Bytes>)
    requires k <= AT_END
    ensures var r := ClientRec(x, k, inbound, buf, written, read); r.inbound == inbound && r.appReadBuf == buf
    ensures var r := ServerRec(x, k, inbound, buf, written, read); r.inbound == inbound && r.appReadBuf == buf
  {
    hide Keys, ServerApp, ClientApp, ServerMsgs, ClientMsgs, AllUses;
  }

  lemma ClientReadInv(x: Ctx, p: Pair, p': Pair, w: View, j: nat, buf: Bytes)
    requires Inv(x, p, w) && w.cp == AT_END && j <= |p.sWritten| && ClientIs(x, p, w.cp, w.sp, w.cRead)
    requires p' == p.(c := p'.c, cGot := p'.cGot) && p'.c.hs == p.c.hs
    requires p'.c.rec ==
      ClientRec(x, AT_END, ToClient(x, AT_END, w.sp, p.sWritten, j), buf, p.cWritten, p.sWritten[..j])
    ensures Inv(x, p', w.(cRead := j)) && p'.c.rec.appReadBuf == buf
  {
    hide ToServer, ToClient, ClientStopped, ServerIs, ServerStopped, Ordered, Possible, ClientRec, ClientHs;
    ServerUntouched(x, p, p', w);
    ClientRecFields(x, AT_END, ToClient(x, AT_END, w.sp, p.sWritten, j), buf, p.cWritten, p.sWritten[..j]);
  }

  lemma ServerReadInv(x: Ctx, p: Pair, p': Pair, w: View, j: nat, buf: Bytes)
    requires Inv(x, p, w) && w.sp == AT_END == w.cp && j <= |p.cWritten| && ServerIs(x, p, w.cp, w.sp, w.sRead)
    requires p' == p.(s := p'.s, sGot := p'.sGot) && p'.s.hs == p.s.hs
    requires p'.s.rec ==
      ServerRec(x, AT_END, ToServer(x, AT_END, AT_END, p.cWritten, j), buf, p.sWritten, p.cWritten[..j])
    ensures Inv(x, p', w.(sRead := j)) && p'.s.rec.appReadBuf == buf
  {
    hide ToServer, ToClient, ServerStopped, ClientIs, ClientStopped, Ordered, Possible, ServerRec, ServerHs;
    ClientUntouched(x, p, p', w);
    ClientRecFields(x, AT_END, ToServer(x, AT_END, AT_END, p.cWritten, j), buf, p.sWritten, p.cWritten[..j]);
  }

  lemma ClientReadKeeps(x: Ctx, p: Pair, w: View, n: nat) returns (w': View)
    requires Sound(x) && Ready(p) && Inv(x, p, w) && Streams(p, w) && p.c.rec.complete
    ensures Inv(x, Happens(x, p, ClientReads(n)), w') && Streams(Happens(x, p, ClientReads(n)), w')
    ensures w'.cp == w.cp && w'.sp == w.sp
  {
    hide Inv, Sound, AppRead, ClientIs, ToClient, ClientRec, Handed, Arrivals, AllFit, Ordered, Ready,
      ClientReady, ServerReady, ServerIs, ServerStopped, ClientStopped, Position, Asks;
    CompleteMeans(x, p, w);
    var j, buf := ClientReadOpens(x, p, w, n);
    w' := w.(cRead := j);
    ClientReadInv(x, p, Happens(x, p, ClientReads(n)), w, j, buf);
  }

  lemma ServerReadKeeps(x: Ctx, p: Pair, w: View, n: nat) returns (w': View)
    requires Sound(x) && Ready(p) && Inv(x, p, w) && Streams(p, w) && p.s.rec.complete
    ensures Inv(x, Happens(x, p, ServerReads(n)), w') && Streams(Happens(x, p, ServerReads(n)), w')
    ensures w'.cp == w.cp && w'.sp == w.sp
  {
    hide Inv, Sound, AppRead, ServerIs, ToServer, ServerRec, Handed, Arrivals, AllFit, Ordered, Ready,
      ClientReady, ServerReady, ClientIs, ServerStopped, ClientStopped, Position, Asks;
    CompleteMeans(x, p, w);
    var j, buf := ServerReadOpens(x, p, w, n);
    w' := w.(sRead := j);
    ServerReadInv(x, p, Happens(x, p, ServerReads(n)), w, j, buf);
  }

  lemma StillFits(written: seq<Bytes>, b: Bytes, read: nat)
    requires AllFit(written) && |b| <= MAX_PLAINTEXT && read <= |written|
    ensures AllFit(written + [b]) && (written + [b])[..read] == written[..read]
  {
  }

  lemma ClientStateParts(x: Ctx, k: nat, v: Tail, v': Tail)
    requires k <= AT_END && v'.tickets == v.tickets
    ensures ClientState(x, k, v').hs == ClientState(x, k, v).hs
      && ClientState(x, k, v').tickets == ClientState(x, k, v).tickets
    ensures ServerState(x, k, v').hs == ServerState(x, k, v).hs
      && ServerState(x, k, v').tickets == ServerState(x, k, v).tickets
    ensures ClientState(x, AT_END, v).rec.complete && ServerState(x, AT_END, v).rec.complete
  {
    hide Keys, ServerApp, ClientApp, ServerMsgs, ClientMsgs, AllUses, ClientHs, ServerHs;
  }

  function ClientDataRecord(x: Ctx, written: seq<Bytes>, b: Bytes): Bytes {
    SealedBytes(x.se.crypto, SealerAt(ApplicationKeys, ClientApp(x), |written|), APPLICATION_DATA, b)
  }

  function ServerDataRecord(x: Ctx, written: seq<Bytes>, b: Bytes): Bytes {
    SealedBytes(x.se.crypto, SealerAt(ApplicationKeys, ServerApp(x), |written|), APPLICATION_DATA, b)
  }

  function ClientTailOf(p: Pair, read: nat): Tail
    requires read <= |p.sWritten|
  {
    Tail(p.c.rec.inbound, p.c.rec.appReadBuf, p.cWritten, p.sWritten[..read], p.c.tickets)
  }

  function ServerTailOf(p: Pair, read: nat): Tail
    requires read <= |p.cWritten|
  {
    Tail(p.s.rec.inbound, p.s.rec.appReadBuf, p.sWritten, p.cWritten[..read], p.s.tickets)
  }

  lemma ClientAppWrites(x: Ctx, v: Tail, b: Bytes)
    requires x.ce.crypto == x.se.crypto
    ensures AppWrite(x.ce, ClientState(x, AT_END, v), b).state ==
            WithOutput(ClientState(x, AT_END, v.(written := v.written + [b])), ClientDataRecord(x, v.written, b))
  {
    hide WriteRecord, ClientState, SealedBytes;
    ClientWritesOne(x, v, b);
    ClientStateParts(x, AT_END, v, v.(written := v.written + [b]));
  }

  lemma ServerAppWrites(x: Ctx, v: Tail, b: Bytes)
    ensures AppWrite(x.se, ServerState(x, AT_END, v), b).state ==
            WithOutput(ServerState(x, AT_END, v.(written := v.written + [b])), ServerDataRecord(x, v.written, b))
  {
    hide WriteRecord, ServerState, SealedBytes;
    ServerWritesOne(x, v, b);
    ClientStateParts(x, AT_END, v, v.(written := v.written + [b]));
  }

  lemma OutputIs(c: ConnState, outbound: Bytes)
    ensures WithOutput(c, outbound).rec.outbound == outbound
  {
  }

  lemma WriteEvents(x: Ctx, p: Pair, b: Bytes)
    requires Ready(p)
    ensures p.c.rec.complete ==> var c' := AppWrite(x.ce, p.c, b).state;
      Happens(x, p, ClientWrites(b)) ==
        p.(c := Emptied(c'), s := Fed(p.s, c'.rec.outbound), cWritten := p.cWritten + [b])
    ensures p.s.rec.complete ==> var s' := AppWrite(x.se, p.s, b).state;
      Happens(x, p, ServerWrites(b)) ==
        p.(s := Emptied(s'), c := Fed(p.c, s'.rec.outbound), sWritten := p.sWritten + [b])
  {
    hide ShakeClient, ShakeServer, AppWrite, AppRead, Ready, Handed, Emptied, Fed;
  }

  /** What a write makes of the pair. */
  lemma ClientWritesPair(x: Ctx, p: Pair, read: nat, b: Bytes)
    requires x.ce.crypto == x.se.crypto && Ready(p) && read <= |p.sWritten|
      && p.c == ClientState(x, AT_END, ClientTailOf(p, read))
    ensures var v := ClientTailOf(p, read);
      Happens(x, p, ClientWrites(b)) == p.(c := ClientState(x, AT_END, v.(written := v.written + [b])),
                                           s := Fed(p.s, ClientDataRecord(x, p.cWritten, b)),
                                             cWritten := p.cWritten + [b])
  {
    hide Happens, AppWrite, Ready, ClientState, WithOutput, Emptied, Fed, ClientDataRecord;
    WriteEvents(x, p, b);
    var v := ClientTailOf(p, read);
    ClientAppWrites(x, v, b);
    ClientStateParts(x, AT_END, v, v);
    EmptiedStates(x, AT_END, v.(written := v.written + [b]), ClientDataRecord(x, p.cWritten, b));
    OutputIs(ClientState(x, AT_END, v.(written := v.written + [b])), ClientDataRecord(x, p.cWritten, b));
  }

  lemma ServerWritesPair(x: Ctx, p: Pair, read: nat, b: Bytes)
    requires Ready(p) && read <= |p.cWritten| && p.s == ServerState(x, AT_END, ServerTailOf(p, read))
    ensures var v := ServerTailOf(p, read);
      Happens(x, p, ServerWrites(b)) == p.(s := ServerState(x, AT_END, v.(written := v.written + [b])),
                                           c := Fed(p.c, ServerDataRecord(x, p.sWritten, b)),
                                             sWritten := p.sWritten + [b])
  {
    hide Happens, AppWrite, Ready, ServerState, WithOutput, Emptied, Fed, ServerDataRecord;
    WriteEvents(x, p, b);
    var v := ServerTailOf(p, read);
    ServerAppWrites(x, v, b);
    ClientStateParts(x, AT_END, v, v);
    EmptiedStates(x, AT_END, v.(written := v.written + [b]), ServerDataRecord(x, p.sWritten, b));
    OutputIs(ServerState(x, AT_END, v.(written := v.written + [b])), ServerDataRecord(x, p.sWritten, b));
  }

  /** The writer's part of the invariant, then the reader's. */
  lemma ClientHasWritten(x: Ctx, p: Pair, p': Pair, w: View, b: Bytes)
    requires w.cp == AT_END && Ordered(x, w.cp, w.sp) && ClientIs(x, p, w.cp, w.sp, w.cRead)
    requires var v := ClientTailOf(p, w.cRead);
      p' == p.(c := ClientState(x, AT_END, v.(written := v.written + [b])), s := p'.s, cWritten := p.cWritten + [b])
    ensures ClientIs(x, p', w.cp, w.sp, w.cRead) && p'.c.rec.appReadBuf == p.c.rec.appReadBuf
  {
    hide ClientState, ToClient, Ordered;
    var v := ClientTailOf(p, w.cRead);
    EmptiedStates(x, AT_END, v.(written := v.written + [b]), []);
  }

  lemma ServerHasWritten(x: Ctx, p: Pair, p': Pair, w: View, b: Bytes)
    requires w.sp == AT_END && Ordered(x, w.cp, w.sp) && ServerIs(x, p, w.cp, w.sp, w.sRead)
    requires var v := ServerTailOf(p, w.sRead);
      p' == p.(s := ServerState(x, AT_END, v.(written := v.written + [b])), c := p'.c, sWritten := p.sWritten + [b])
    ensures ServerIs(x, p', w.cp, w.sp, w.sRead) && p'.s.rec.appReadBuf == p.s.rec.appReadBuf
  {
    hide ServerState, ToServer, Ordered;
    var v := ServerTailOf(p, w.sRead);
    EmptiedStates(x, AT_END, v.(written := v.written + [b]), []);
  }

  /** What makes up `ServerIs`, there and back. */
  lemma ServerIsMeans(x: Ctx, p: Pair, cp: nat, sp: nat, read: nat)
    requires Ordered(x, cp, sp) && ServerIs(x, p, cp, sp, read)
    ensures read <= |p.cWritten| && p.spc == ServerPcAt(sp) && p.s == ServerState(x, sp, ServerTailOf(p, read))
    ensures p.s.rec.inbound == ToServer(x, cp, sp, p.cWritten, read)
    ensures sp < AT_END ==> p.s.rec.appReadBuf == [] && read == 0
  {
    hide ServerState, ToServer, Ordered, ServerPcAt;
  }

  lemma ServerIsFrom(x: Ctx, p: Pair, cp: nat, sp: nat, read: nat, v: Tail)
    requires Ordered(x, cp, sp) && sp <= AT_END && read <= |p.cWritten| && p.spc == ServerPcAt(sp)
    requires p.s == ServerState(x, sp, v)
    requires v.written == p.sWritten && v.read == p.cWritten[..read]
    requires v.inbound == ToServer(x, cp, sp, p.cWritten, read) && (sp < AT_END ==> v.buf == [] && read == 0)
    ensures ServerIs(x, p, cp, sp, read) && p.s.rec.appReadBuf == v.buf
  {
    hide ServerState, ToServer, Ordered, ServerPcAt;
    EmptiedStates(x, sp, v, []);
  }

  lemma ClientIsMeans(x: Ctx, p: Pair, cp: nat, sp: nat, read: nat)
    requires Ordered(x, cp, sp) && ClientIs(x, p, cp, sp, read)
    ensures read <= |p.sWritten| && p.cpc == ClientPcAt(cp) && p.c == ClientState(x, cp, ClientTailOf(p, read))
    ensures p.c.rec.inbound == ToClient(x, cp, sp, p.sWritten, read)
    ensures cp < AT_END ==> p.c.rec.appReadBuf == [] && read == 0
  {
    hide ClientState, ToClient, Ordered, ClientPcAt;
  }

  lemma ClientIsFrom(x: Ctx, p: Pair, sp: nat, read: nat, v: Tail)
    requires Ordered(x, AT_END, sp) && read <= |p.sWritten| && p.cpc == ClientPcAt(AT_END)
    requires p.c == ClientState(x, AT_END, v)
    requires v.written == p.cWritten && v.read == p.sWritten[..read]
    requires v.inbound == ToClient(x, AT_END, sp, p.sWritten, read)
    ensures ClientIs(x, p, AT_END, sp, read) && p.c.rec.appReadBuf == v.buf
  {
    hide ClientState, ToClient, Ordered, ClientPcAt;
    EmptiedStates(x, AT_END, v, []);
  }

  lemma ServerIsSent(x: Ctx, p: Pair, p': Pair, sp: nat, read: nat, b: Bytes)
    requires Ordered(x, AT_END, sp) && sp <= AT_END && ServerIs(x, p, AT_END, sp, read)
    requires p' == p.(c := p'.c, s := Fed(p.s, ClientDataRecord(x, p.cWritten, b)), cWritten := p.cWritten + [b])
    ensures ServerIs(x, p', AT_END, sp, read) && p'.s.rec.appReadBuf == p.s.rec.appReadBuf
  {
    hide ServerState, ToServer, Fed, SealedBytes, Ordered, ServerPcAt, ClientApp, ServerIs;
    ServerIsMeans(x, p, AT_END, sp, read);
    var out, v := ClientDataRecord(x, p.cWritten, b), ServerTailOf(p, read);
    WrittenToServer(x, sp, p.cWritten, read, b);
    FedStates(x, sp, v, out);
    assert p'.cWritten[..read] == p.cWritten[..read];
    ServerIsFrom(x, p', AT_END, sp, read, v.(inbound := v.inbound + out));
  }

  lemma ClientIsSent(x: Ctx, p: Pair, p': Pair, read: nat, b: Bytes)
    requires Ordered(x, AT_END, AT_END) && ClientIs(x, p, AT_END, AT_END, read)
    requires p' == p.(s := p'.s, c := Fed(p.c, ServerDataRecord(x, p.sWritten, b)), sWritten := p.sWritten + [b])
    ensures ClientIs(x, p', AT_END, AT_END, read) && p'.c.rec.appReadBuf == p.c.rec.appReadBuf
  {
    hide ClientState, ToClient, Fed, SealedBytes, Ordered, ServerApp, ClientIs;
    ClientIsMeans(x, p, AT_END, AT_END, read);
    var out, v := ServerDataRecord(x, p.sWritten, b), ClientTailOf(p, read);
    WrittenToClient(x, p.sWritten, read, b);
    FedStates(x, AT_END, v, out);
    assert p'.sWritten[..read] == p.sWritten[..read];
    ClientIsFrom(x, p', AT_END, read, v.(inbound := v.inbound + out));
  }

  lemma FedKeepsBuf(c: ConnState, bytes: Bytes)
    ensures Fed(c, bytes).rec.appReadBuf == c.rec.appReadBuf
  {
  }

  lemma ClientWriteKeeps(x: Ctx, p: Pair, w: View, b: Bytes)
    requires Sound(x) && Ready(p) && Inv(x, p, w) && Streams(p, w) && p.c.rec.complete && |b| <= MAX_PLAINTEXT
    ensures Inv(x, Happens(x, p, ClientWrites(b)), w) && Streams(Happens(x, p, ClientWrites(b)), w)
  {
    hide Happens, ToServer, ToClient, ClientState, ServerState, Fed, Possible, ClientStopped, ServerStopped, ClientIs,
      ServerIs, ClientHelloIn, CertificateIn, Lawful, AllFit, Arrivals, ClientDataRecord;
    var p' := Happens(x, p, ClientWrites(b));
    CompleteMeans(x, p, w);
    ClientIsState(x, p, w);
    ClientWritesPair(x, p, w.cRead, b);
    ClientHasWritten(x, p, p', w, b);
    FedKeepsBuf(p.s, ClientDataRecord(x, p.cWritten, b));
    if ServerIs(x, p, w.cp, w.sp, w.sRead) {
      ServerIsSent(x, p, p', w.sp, w.sRead, b);
    } else {
      ServerStoppedFed(x, p, p', w.cp, w.cp, w.sp, w.sRead, ClientDataRecord(x, p.cWritten, b));
    }
    StillFits(p.cWritten, b, w.sRead);
  }

  lemma PartsOf(x: Ctx, k: nat, v: Tail)
    requires k <= AT_END
    ensures ClientState(x, k, v).rec == ClientRec(x, k, v.inbound, v.buf, v.written, v.read)
    ensures ServerState(x, k, v).rec == ServerRec(x, k, v.inbound, v.buf, v.written, v.read)
    ensures ClientState(x, k, v).hs == ClientHs(x, k) && ServerState(x, k, v).hs == ServerHs(x, k)
  {
    hide ClientRec, ClientHs, ServerRec, ServerHs;
  }

  lemma ClientIsState(x: Ctx, p: Pair, w: View)
    requires Ordered(x, w.cp, w.sp) && ClientIs(x, p, w.cp, w.sp, w.cRead)
    ensures w.cRead <= |p.sWritten| && p.c == ClientState(x, w.cp, ClientTailOf(p, w.cRead))
    ensures w.cp == AT_END ==> p.cpc == CDone
    ensures p.c.rec.inbound == ToClient(x, w.cp, w.sp, p.sWritten, w.cRead)
  {
    hide ClientState, ToClient, Ordered;
  }

  lemma ServerIsState(x: Ctx, p: Pair, w: View)
    requires Ordered(x, w.cp, w.sp) && ServerIs(x, p, w.cp, w.sp, w.sRead)
    ensures w.sRead <= |p.cWritten| && p.s == ServerState(x, w.sp, ServerTailOf(p, w.sRead))
    ensures w.sp == AT_END ==> p.spc == SDone
    ensures p.s.rec.inbound == ToServer(x, w.cp, w.sp, p.cWritten, w.sRead)
  {
    hide ServerState, ToServer, Ordered;
  }

  lemma ServerWriteKeeps(x: Ctx, p: Pair, w: View, b: Bytes)
    requires Sound(x) && Ready(p) && Inv(x, p, w) && Streams(p, w) && p.s.rec.complete && |b| <= MAX_PLAINTEXT
    ensures Inv(x, Happens(x, p, ServerWrites(b)), w) && Streams(Happens(x, p, ServerWrites(b)), w)
  {
    hide Happens, ToServer, ToClient, ClientState, ServerState, Fed, Possible, ClientStopped, ServerStopped, ClientIs,
      ServerIs, ClientHelloIn, CertificateIn, Lawful, AllFit, Arrivals, ServerDataRecord;
    var p' := Happens(x, p, ServerWrites(b));
    CompleteMeans(x, p, w);
    ServerIsState(x, p, w);
    ServerWritesPair(x, p, w.sRead, b);
    ServerHasWritten(x, p, p', w, b);
    FedKeepsBuf(p.c, ServerDataRecord(x, p.sWritten, b));
    ClientIsNotStopped(x, p, w);
    ClientIsSent(x, p, p', w.cRead, b);
    StillFits(p.sWritten, b, w.cRead);
  }

  /** A client that has got to the end has not stopped. */
  lemma ClientIsNotStopped(x: Ctx, p: Pair, w: View)
    requires Inv(x, p, w) && w.cp == AT_END
    ensures ClientIs(x, p, w.cp, w.sp, w.cRead)
  {
    hide ClientState, ToClient, ToServer, ClientRec, Transcript, ServerIs, ServerStopped, Possible;
  }
}
