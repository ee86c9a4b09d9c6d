/** The main results about a client and a server of this library, over all runs: what both ends agree on, that every
    record is opened as it was sealed, what the applications get, and that compatible configurations complete. */
module Agreement {
  import opened Prelude
  import opened Crypto
  import opened KeySchedule
  import opened RecordCipher
  import opened Tickets
  import opened Records
  import opened Runs
  import opened Channels
  import opened Script
  import opened Greeting
  import opened Pairs
  import opened Joint
  import opened Delivery
  import opened AppData

  // ----- every run keeps the invariant -----

  lemma ShakesKeepData(x: Ctx, p: Pair)
    requires Ready(p)
    ensures var p' := ShakeClient(x, p);
      && p'.cWritten == p.cWritten && p'.sWritten == p.sWritten && p'.cGot == p.cGot && p'.sGot == p.sGot
      && p'.s.rec.appReadBuf == p.s.rec.appReadBuf
    ensures var p' := ShakeServer(x, p);
      && p'.cWritten == p.cWritten && p'.sWritten == p.sWritten && p'.cGot == p.cGot && p'.sGot == p.sGot
      && p'.c.rec.appReadBuf == p.c.rec.appReadBuf
  {
    hide ClientStep, ServerStep;
  }

  lemma StreamsCarryOver(p: Pair, p': Pair, w: View, w': View)
    requires Streams(p, w) && w'.cRead == w.cRead && w'.sRead == w.sRead
    requires p'.cWritten == p.cWritten && p'.sWritten == p.sWritten && p'.cGot == p.cGot && p'.sGot == p.sGot
    requires p'.s.rec.appReadBuf == p.s.rec.appReadBuf && p'.c.rec.appReadBuf == p.c.rec.appReadBuf
    ensures Streams(p', w')
  {
    hide Arrivals, AllFit;
  }

  /** An end moves to the next position only if it can. */
  predicate Moves(x: Ctx, w: View, w': View) {
    && (w'.cp == w.cp || (w.cp < AT_END && w'.cp == Next(x, w.cp) && ClientCan(x, w.cp)))
    && (w'.sp == w.sp || (w.sp < AT_END && w'.sp == Next(x, w.sp) && ServerCan(x, w.sp)))
  }

  lemma EventKeepsInv(x: Ctx, p: Pair, w: View, ev: Event) returns (w': View)
    requires Sound(x) && Ready(p) && Inv(x, p, w) && Streams(p, w) && FitsRecord(ev)
    ensures Inv(x, Happens(x, p, ev), w') && Streams(Happens(x, p, ev), w') && Moves(x, w, w')
  {
    hide Inv, Streams, Sound, ShakeClient, ShakeServer, AppRead, AppWrite, Next, ClientCan, ServerCan;
    w' := w;
    ShakesKeepData(x, p);
    match ev {
      case ClientShakes =>
        w' := ClientShakeKeeps(x, p, w);
        StreamsCarryOver(p, ShakeClient(x, p), w, w');
      case ServerShakes =>
        w' := ServerShakeKeeps(x, p, w);
        StreamsCarryOver(p, ShakeServer(x, p), w, w');
      case ClientWrites(b) =>
        if p.c.rec.complete {
          ClientWriteKeeps(x, p, w, b);
        }
      case ServerWrites(b) =>
        if p.s.rec.complete {
          ServerWriteKeeps(x, p, w, b);
        }
      case ClientReads(n) =>
        if p.c.rec.complete {
          w' := ClientReadKeeps(x, p, w, n);
        }
      case ServerReads(n) =>
        if p.s.rec.complete {
          w' := ServerReadKeeps(x, p, w, n);
        }
    }
  }

  lemma StartsStreams(x: Ctx)
    ensures Streams(Start(x), View(0, 0, 0, 0))
  {
  }

  /** The events of a run whose application data fits the records. */
  predicate Fitting(events: seq<Event>) { forall i :: 0 <= i < |events| ==> FitsRecord(events[i]) }

  lemma {:induction false} RunKeepsInv(x: Ctx, events: seq<Event>) returns (w: View)
    requires Sound(x) && Fitting(events)
    ensures Inv(x, After(x, events), w) && Streams(After(x, events), w)
  {
    hide Inv, Streams, Sound, Happens;
    if events == [] {
      w := View(0, 0, 0, 0);
      StartsInv(x);
      StartsStreams(x);
    } else {
      var before := events[..|events| - 1];
      w := RunKeepsInv(x, before);
      w := EventKeepsInv(x, After(x, before), w, events[|events| - 1]);
    }
  }

  // ----- transcripts -----

  lemma {:induction false} TranscriptPrefix(x: Ctx, p: nat, q: nat)
    requires p <= q <= AT_END
    ensures Transcript(x, p) <= Transcript(x, q)
    decreases q
  {
    hide Msg;
    if p < q {
      TranscriptPrefix(x, p, q - 1);
    }
  }

  /** The transcript of either end is the script's at some position. */
  lemma TranscriptsAre(x: Ctx, p: Pair, w: View) returns (i: nat, j: nat)
    requires Inv(x, p, w)
    ensures i <= AT_END && p.c.hs.transcript == Transcript(x, i)
    ensures j <= AT_END && p.s.hs.transcript == Transcript(x, j)
  {
    hide ToClient, ToServer, ClientRec, ServerRec, Transcript, Possible, Keys, AgreedSuite, Proto, FinalKeys,
      FinishedDigest, PeerOf, ServerApp, ClientApp;
    i, j := w.cp, w.sp;
    if p.s.hs.transcript != Transcript(x, w.sp) {
      j := if w.sp == 0 && p.s.hs.transcript == Transcript(x, 1) then 1 else 0;
    }
    NoTranscriptYet(x);
  }

  lemma NoTranscriptYet(x: Ctx)
    ensures Transcript(x, 0) == []
  {
  }

  /** In every state of every run, with or without a client certificate and whichever end has stopped, the transcript of
      one end is the other's or the beginning of it (section 4.4.1 of RFC 8446). */
  lemma TranscriptsAgree(x: Ctx, events: seq<Event>)
    requires Sound(x) && Fitting(events)
    ensures var p := After(x, events);
      p.c.hs.transcript <= p.s.hs.transcript || p.s.hs.transcript <= p.c.hs.transcript
  {
    hide Inv, Streams, Sound, After, Transcript;
    var w := RunKeepsInv(x, events);
    var i, j := TranscriptsAre(x, After(x, events), w);
    if i <= j {
      TranscriptPrefix(x, i, j);
    } else {
      TranscriptPrefix(x, j, i);
    }
  }

  // ----- what both ends agree on -----

  lemma FinishedClient(x: Ctx, p: Pair, w: View)
    requires w.cp == AT_END == w.sp && Ordered(x, w.cp, w.sp) && ClientIs(x, p, w.cp, w.sp, w.cRead)
    ensures p.cpc == CDone && p.c.hs == ClientHs(x, AT_END) && w.cRead <= |p.sWritten|
    ensures p.c.rec == ClientRec(x, AT_END, p.c.rec.inbound, p.c.rec.appReadBuf, p.cWritten, p.sWritten[..w.cRead])
    ensures p.c.rec.inbound == Sent(x.se.crypto, ApplicationKeys, ServerApp(x), APPLICATION_DATA, p.sWritten, w.cRead)
  {
    hide ToClient, ClientState, ClientIs, ClientRec, ClientHs, Sent, Ordered;
    ClientIsState(x, p, w);
    PartsOf(x, AT_END, ClientTailOf(p, w.cRead));
    ChannelAtEnd(x, AT_END, p.sWritten, w.cRead);
  }

  lemma FinishedServer(x: Ctx, p: Pair, w: View)
    requires w.cp == AT_END == w.sp && Ordered(x, w.cp, w.sp) && ServerIs(x, p, w.cp, w.sp, w.sRead)
    ensures p.spc == SDone && p.s.hs == ServerHs(x, AT_END) && w.sRead <= |p.cWritten|
    ensures p.s.rec == ServerRec(x, AT_END, p.s.rec.inbound, p.s.rec.appReadBuf, p.sWritten, p.cWritten[..w.sRead])
    ensures p.s.rec.inbound == Sent(x.se.crypto, ApplicationKeys, ClientApp(x), APPLICATION_DATA, p.cWritten, w.sRead)
  {
    hide ToServer, ServerState, ServerIs, ServerRec, ServerHs, Sent, Ordered;
    ServerIsState(x, p, w);
    PartsOf(x, AT_END, ServerTailOf(p, w.sRead));
    ChannelAtServerEnd(x, p.cWritten, w.sRead);
  }

  lemma FinishedEnds(x: Ctx, p: Pair, w: View)
    requires Inv(x, p, w) && p.c.rec.complete && p.s.rec.complete
    ensures p.cpc == CDone && p.spc == SDone
    ensures p.c.hs == ClientHs(x, AT_END) && p.s.hs == ServerHs(x, AT_END)
    ensures w.cRead <= |p.sWritten| && w.sRead <= |p.cWritten|
    ensures p.c.rec == ClientRec(x, AT_END, p.c.rec.inbound, p.c.rec.appReadBuf, p.cWritten, p.sWritten[..w.cRead])
    ensures p.s.rec == ServerRec(x, AT_END, p.s.rec.inbound, p.s.rec.appReadBuf, p.sWritten, p.cWritten[..w.sRead])
    ensures p.c.rec.inbound == Sent(x.se.crypto, ApplicationKeys, ServerApp(x), APPLICATION_DATA, p.sWritten, w.cRead)
    ensures p.s.rec.inbound == Sent(x.se.crypto, ApplicationKeys, ClientApp(x), APPLICATION_DATA, p.cWritten, w.sRead)
  {
    hide ClientIs, ServerIs, ClientStopped, ServerStopped, ClientRec, ServerRec, ClientHs, ServerHs, Sent, Ordered,
      Possible;
    CompleteMeans(x, p, w);
    BothAtEnd(x, p, w);
    FinishedClient(x, p, w);
    FinishedServer(x, p, w);
  }

  /** The ciphers of a finished pair: each end sends under what the other receives under, and has sealed as many records
      as the other has opened and has still to open. */
  ghost predicate CiphersMatch(sender: RecordState, receiver: RecordState, t: Traffic, written: nat, read: nat)
    requires |t.iv| == 12
  {
    && read <= written
    && sender.outCipher == Some(SealerAt(ApplicationKeys, t, written))
    && receiver.inCipher == Some(OpenerAt(ApplicationKeys, t, read))
  }

  lemma FinishedCiphers(x: Ctx, inbound: Bytes, buf: Bytes, written: seq<Bytes>, read: seq<Bytes>)
    ensures var r := ClientRec(x, AT_END, inbound, buf, written, read);
      && r.outCipher == Some(SealerAt(ApplicationKeys, ClientApp(x), |written|))
      && r.inCipher == Some(OpenerAt(ApplicationKeys, ServerApp(x), |read|))
    ensures var r := ServerRec(x, AT_END, inbound, buf, written, read);
      && r.outCipher == Some(SealerAt(ApplicationKeys, ServerApp(x), |written|))
      && r.inCipher == Some(OpenerAt(ApplicationKeys, ClientApp(x), |read|))
  {
    hide Keys, ServerApp, ClientApp, ServerMsgs, ClientMsgs, AllUses;
    NoMsgsYet(x, AT_END);
  }

  lemma FinishedHs(x: Ctx)
    ensures var c, s := ClientHs(x, AT_END), ServerHs(x, AT_END);
      && c.transcript == s.transcript && c.suite == s.suite && c.negotiatedProto == s.negotiatedProto
      && c.keys == s.keys
      && c.clientRandom == s.clientRandom && c.serverRandom == s.serverRandom && c.sessionID == s.sessionID
      && c.keys.clientApp == ClientApp(x) && c.keys.serverApp == ServerApp(x)
  {
    hide Transcript, AgreedSuite, Proto, FinishedDigest, PeerOf, ServerApp, ClientApp, Keys;
  }

  /** Joint agreement. Once both ends have completed they hold the same transcript, randoms, suite and ALPN result and
      the same key material, all four application keys and IVs among it; and those keys are in use crosswise. */
  lemma EndsAgree(x: Ctx, events: seq<Event>) returns (cRead: nat, sRead: nat)
    requires Sound(x) && Fitting(events)
    requires After(x, events).c.rec.complete && After(x, events).s.rec.complete
    ensures var p := After(x, events); var c, s := p.c.hs, p.s.hs;
      && c.transcript == s.transcript && c.suite == s.suite && c.negotiatedProto == s.negotiatedProto
      && c.clientRandom == s.clientRandom && c.serverRandom == s.serverRandom && c.sessionID == s.sessionID
      && c.keys == s.keys
      && |c.keys.clientApp.key| == |c.keys.serverApp.key| == 16 && |c.keys.clientApp.iv| == |c.keys.serverApp.iv| == 12
      && CiphersMatch(p.c.rec, p.s.rec, c.keys.clientApp, |p.cWritten|, sRead)
      && CiphersMatch(p.s.rec, p.c.rec, c.keys.serverApp, |p.sWritten|, cRead)
  {
    hide Inv, Streams, Sound, After, ClientHs, ServerHs, ClientRec, ServerRec, ServerApp, ClientApp, Sent;
    var w := RunKeepsInv(x, events);
    var p := After(x, events);
    cRead, sRead := w.cRead, w.sRead;
    FinishedEnds(x, p, w);
    FinishedHs(x);
    FinishedCiphers(x, p.c.rec.inbound, p.c.rec.appReadBuf, p.cWritten, p.sWritten[..cRead]);
    FinishedCiphers(x, p.s.rec.inbound, p.s.rec.appReadBuf, p.sWritten, p.cWritten[..sRead]);
  }

  // ----- epoch and sequence lockstep -----

  lemma AllUsesPrefix(hk: Traffic, hs: seq<Bytes>, hs': seq<Bytes>, ak: Traffic, app: seq<Bytes>, n: nat)
    requires |hk.iv| == 12 && |ak.iv| == 12 && hs <= hs' && n <= |app| && (n > 0 ==> hs == hs')
    ensures AllUses(hk, hs, ak, app[..n]) <= AllUses(hk, hs', ak, app)
  {
    hide AdditionalData;
    UsesPrefix(HandshakeKeys, hk, hs', |hs|);
    assert hs == hs'[..|hs|];
    if n > 0 {
      UsesPrefix(ApplicationKeys, ak, app, n);
    }
  }

  /** What the ends have sealed and opened, by position. */
  lemma LogsAre(x: Ctx, k: nat, inbound: Bytes, buf: Bytes, written: seq<Bytes>, read: seq<Bytes>)
    requires k <= AT_END
    ensures var r := ClientRec(x, k, inbound, buf, written, read);
      && r.seals == AllUses(Keys(x).clientHandshake, ClientMsgs(x, k), ClientApp(x), written)
      && r.opens == AllUses(Keys(x).serverHandshake, ServerMsgs(x, k), ServerApp(x), read)
    ensures var r := ServerRec(x, k, inbound, buf, written, read);
      && r.seals == AllUses(Keys(x).serverHandshake, ServerMsgs(x, k), ServerApp(x), written)
      && r.opens == AllUses(Keys(x).clientHandshake, ClientMsgs(x, k), ClientApp(x), read)
  {
    hide Keys, ServerApp, ClientApp, ServerMsgs, ClientMsgs, AllUses;
  }

  /** The messages an end has opened: those before its position, or before the next if it stopped over that one. */
  lemma ClientLogs(x: Ctx, p: Pair, w: View) returns (k: nat)
    requires Inv(x, p, w)
    ensures w.cp <= AT_END && w.sp <= AT_END
    ensures k <= AT_END && ServerMsgs(x, k) <= ServerMsgs(x, w.sp) && (w.cRead > 0 ==> k == AT_END == w.sp)
    ensures w.cRead <= |p.sWritten|
    ensures p.c.rec.opens == AllUses(Keys(x).serverHandshake, ServerMsgs(x, k), ServerApp(x), p.sWritten[..w.cRead])
    ensures p.c.rec.seals == AllUses(Keys(x).clientHandshake, ClientMsgs(x, w.cp), ClientApp(x), p.cWritten)
  {
    hide ToClient, ToServer, ClientRec, ServerIs, ServerStopped, Transcript, Possible, Keys, ServerMsgs, ClientMsgs,
      AllUses, ServerApp, ClientApp, ClientHs;
    k := w.cp;
    MsgsGrow(x, w.cp, w.sp);
    if ClientIs(x, p, w.cp, w.sp, w.cRead) {
      LogsAre(x, w.cp, p.c.rec.inbound, p.c.rec.appReadBuf, p.cWritten, p.sWritten[..w.cRead]);
    } else {
      LogsAre(x, w.cp, p.c.rec.inbound, [], [], []);
      if p.c.rec != ClientRec(x, w.cp, p.c.rec.inbound, [], [], []) {
        k := w.cp + 1;
        LogsAre(x, k, p.c.rec.inbound, [], [], []);
        ServerMsgsPrefix(x, k, w.sp);
        NoMsgsYet(x, w.cp);
        NoMsgsYet(x, k);
      }
    }
  }

  lemma ServerLogs(x: Ctx, p: Pair, w: View) returns (k: nat)
    requires Inv(x, p, w)
    ensures k <= AT_END && ClientMsgs(x, k) <= ClientMsgs(x, w.cp) && (w.sRead > 0 ==> k == AT_END == w.cp)
    ensures w.sRead <= |p.cWritten|
    ensures p.s.rec.opens == AllUses(Keys(x).clientHandshake, ClientMsgs(x, k), ClientApp(x), p.cWritten[..w.sRead])
    ensures p.s.rec.seals == AllUses(Keys(x).serverHandshake, ServerMsgs(x, w.sp), ServerApp(x), p.sWritten)
  {
    hide ToClient, ToServer, ServerRec, ClientIs, ClientStopped, Transcript, Possible, Keys, ServerMsgs, ClientMsgs,
      AllUses, ServerApp, ClientApp, ServerHs;
    k := w.sp;
    MsgsGrow(x, w.cp, w.sp);
    if ServerIs(x, p, w.cp, w.sp, w.sRead) {
      LogsAre(x, w.sp, p.s.rec.inbound, p.s.rec.appReadBuf, p.sWritten, p.cWritten[..w.sRead]);
    } else {
      LogsAre(x, w.sp, p.s.rec.inbound, [], [], []);
      if p.s.rec != ServerRec(x, w.sp, p.s.rec.inbound, [], [], []) {
        k := w.sp + 1;
        LogsAre(x, k, p.s.rec.inbound, [], [], []);
        ClientMsgsPrefix(x, k, w.cp);
        ServerMsgsEnd(x, w.sp);
        ServerMsgsEnd(x, k);
      }
    }
  }

  /** Lockstep. In every state of every run the records an end has opened are, in order, the first ones the other end
      has sealed: same key epoch, key and IV, same sequence number, same additional data. This spans the rebuilding of
      the receiving cipher after a Finished, the client's double installation of the server's application key, ends that
      stop half-way and application data that overtakes the end of the server's handshake. */
  lemma RecordsAreInLockstep(x: Ctx, events: seq<Event>)
    requires Sound(x) && Fitting(events)
    ensures var p := After(x, events);
      p.c.rec.opens <= p.s.rec.seals && p.s.rec.opens <= p.c.rec.seals
  {
    hide Inv, Streams, Sound, After, AllUses, Keys, ServerMsgs, ClientMsgs, ServerApp, ClientApp;
    var w := RunKeepsInv(x, events);
    var p := After(x, events);
    var k := ClientLogs(x, p, w);
    var m := ServerLogs(x, p, w);
    AllUsesPrefix(Keys(x).serverHandshake, ServerMsgs(x, k), ServerMsgs(x, w.sp), ServerApp(x), p.sWritten, w.cRead);
    AllUsesPrefix(Keys(x).clientHandshake, ClientMsgs(x, m), ClientMsgs(x, w.cp), ClientApp(x), p.cWritten, w.sRead);
  }

  // ----- the byte streams -----

  /** End-to-end delivery. In every state of every run, what an end's reads have returned, then its buffer, is what
      arrives of the payloads it has opened. Together with the payloads it has not opened yet that is the bytes written,
      in order, exactly if none of those it has opened ends in a type byte. Once both ends are complete the payloads not
      opened are exactly what is in flight. */
  lemma StreamsArrive(x: Ctx, events: seq<Event>) returns (cRead: nat, sRead: nat)
    requires Sound(x) && Fitting(events)
    ensures var p := After(x, events);
      && cRead <= |p.sWritten| && sRead <= |p.cWritten|
      && p.sGot + p.s.rec.appReadBuf == Arrivals(p.cWritten[..sRead])
      && p.cGot + p.c.rec.appReadBuf == Arrivals(p.sWritten[..cRead])
      && (p.sGot + p.s.rec.appReadBuf + Concat(p.cWritten[sRead..]) == Concat(p.cWritten) <==>
          AllSurvive(p.cWritten[..sRead]))
      && (p.cGot + p.c.rec.appReadBuf + Concat(p.sWritten[cRead..]) == Concat(p.sWritten) <==>
          AllSurvive(p.sWritten[..cRead]))
      && (p.c.rec.complete && p.s.rec.complete ==>
            && p.s.rec.inbound == Sent(x.se.crypto, ApplicationKeys, ClientApp(x), APPLICATION_DATA, p.cWritten, sRead)
            && p.c.rec.inbound == Sent(x.se.crypto, ApplicationKeys, ServerApp(x), APPLICATION_DATA, p.sWritten, cRead))
  {
    hide Inv, Sound, After, Concat, AllSurvive, AllFit, Arrivals, Sent;
    var w := RunKeepsInv(x, events);
    cRead, sRead := w.cRead, w.sRead;
    var p := After(x, events);
    ArrivesInFront(p.cWritten, sRead);
    ArrivesInFront(p.sWritten, cRead);
    if p.c.rec.complete && p.s.rec.complete {
      FinishedEnds(x, p, w);
    }
  }

  /** What arrives of a part completes the rest to the whole exactly if all of the part survives. */
  lemma ArrivesInFront(written: seq<Bytes>, read: nat)
    requires read <= |written|
    ensures Arrivals(written[..read]) + Concat(written[read..]) == Concat(written) <==> AllSurvive(written[..read])
  {
    hide Arrivals, AllSurvive;
    var front, rest := written[..read], written[read..];
    assert written == front + rest;
    ConcatAppend(front, rest);
    ArrivalsAreWhole(front);
    if Arrivals(front) + Concat(rest) == Concat(front) + Concat(rest) {
      assert |Arrivals(front)| == |Concat(front)|;
    }
  }

  /** What a Read with room for it returns of a single payload: all of it exactly when it survives the second look. */
  lemma SinglePayload(cr: Crypto, tc: TicketContext, r: RecordState, hk: Traffic, hs: seq<Bytes>, t: Traffic,
          sent: seq<Bytes>, i: nat, tickets: TicketState, n: nat)
    requires Lawful(cr) && Open(r) && i + 1 == |sent| && |t.iv| == 12 && |hk.iv| == 12 && |sent[i]| <= MAX_PLAINTEXT
      && n >= |sent[i]|
    ensures Read(cr, tc, AppState(Receiver(cr, r, hk, hs, t, sent, i, []), tickets), n).result == Success(sent[i]) <==>
      Survives(sent[i])
    ensures sent[i] == [APPLICATION_DATA] ==>
      Read(cr, tc, AppState(Receiver(cr, r, hk, hs, t, sent, i, []), tickets), n).result == Success([])
  {
    hide Lawful, ReadRecord, UnwrapApplicationData, ParseAndStore, ConsumesTickets, AllUses, Sent;
    OpensNext(cr, r, hk, hs, t, sent, i, []);
    NothingSent(cr, r, hk, hs, t, sent, []);
    SurvivesExactly(sent[i]);
    match UnwrapApplicationData(true, sent[i]) {
      case Refused(_) =>
      case NewTickets(data) =>
        var a := AppState(Receiver(cr, r, hk, hs, t, sent, i + 1, []),
          ParseAndStore(cr, tc.clock, tc.limit, tc.secret, tickets, data));
        assert Read(cr, tc, a, n).result == Failure(Eof);
      case Payload(data) =>
        assert |data| <= |sent[i]|;
        assert Take(data, n) == data;
    }
  }

  /** A pair at rest: both ends complete, nothing buffered at the server and nothing under way to it. */
  ghost predicate ServerDrained(p: Pair) {
    p.c.rec.complete && p.s.rec.complete && p.s.rec.appReadBuf == [] && p.s.rec.inbound == []
  }

  lemma NothingUnread(cr: Crypto, t: Traffic, sent: seq<Bytes>, i: nat)
    requires i <= |sent| && |t.iv| == 12 && Sent(cr, ApplicationKeys, t, APPLICATION_DATA, sent, i) == []
    ensures i == |sent|
  {
    hide SealRecord;
  }

  /** The payloads that come through, exactly: one write at one end and one read with room for it at the other return
      the payload if and only if it is empty or does not end in one of the bytes 20 to 23. A write of the single byte 23
      is read as nothing. */
  lemma PayloadComesThrough(x: Ctx, events: seq<Event>, b: Bytes, n: nat)
    requires Sound(x) && Fitting(events) && ServerDrained(After(x, events)) && |b| <= MAX_PLAINTEXT && n >= |b|
    ensures var p := Happens(x, After(x, events), ClientWrites(b));
      && (AppRead(x.se, p.s, n).result == Success(b) <==> b == [] || b[|b| - 1] !in {20, 21, 22, 23})
      && (b == [23] ==> AppRead(x.se, p.s, n).result == Success([]))
  {
    hide Inv, Streams, After, Happens, Sent, ServerRec, Receiver, Read, Open, AllUses, Lawful, ClientHelloIn,
      CertificateIn, ServerHs, ServerIs, ClientIs, ToServer, ToClient, Ordered;
    var w := RunKeepsInv(x, events);
    var p0 := After(x, events);
    var p := Happens(x, p0, ClientWrites(b));
    CompleteMeans(x, p0, w);
    FinishedEnds(x, p0, w);
    NothingUnread(x.se.crypto, ClientApp(x), p0.cWritten, w.sRead);
    ClientWriteKeeps(x, p0, w, b);
    WriteChanges(x, p0, b);
    FinishedEnds(x, p, w);
    BothAtEnd(x, p, w);
    var sent, i := p.cWritten, w.sRead;
    ServerReceiver(x, p.sWritten, sent, i, []);
    ChannelAtServerEnd(x, sent, i);
    var r, hk, hs := ServerRec(x, AT_END, [], [], p.sWritten, []), Keys(x).clientHandshake, ClientMsgs(x, AT_END);
    SinglePayload(x.se.crypto, TicketsFor(x.se, p.s.hs), r, hk, hs, ClientApp(x), sent, i, p.s.tickets, n);
  }

  ghost predicate ClientDrained(p: Pair) {
    p.c.rec.complete && p.s.rec.complete && p.c.rec.appReadBuf == [] && p.c.rec.inbound == []
  }

  /** The same the other way. */
  lemma PayloadComesBack(x: Ctx, events: seq<Event>, b: Bytes, n: nat)
    requires Sound(x) && Fitting(events) && ClientDrained(After(x, events)) && |b| <= MAX_PLAINTEXT && n >= |b|
    ensures var p := Happens(x, After(x, events), ServerWrites(b));
      && (AppRead(x.ce, p.c, n).result == Success(b) <==> b == [] || b[|b| - 1] !in {20, 21, 22, 23})
      && (b == [23] ==> AppRead(x.ce, p.c, n).result == Success([]))
  {
    hide Inv, Streams, After, Happens, Sent, ClientRec, Receiver, Read, Open, AllUses, Lawful, ClientHelloIn,
      CertificateIn, ClientHs, ServerIs, ClientIs, ToServer, ToClient, Ordered;
    var w := RunKeepsInv(x, events);
    var p0 := After(x, events);
    var p := Happens(x, p0, ServerWrites(b));
    CompleteMeans(x, p0, w);
    FinishedEnds(x, p0, w);
    NothingUnread(x.se.crypto, ServerApp(x), p0.sWritten, w.cRead);
    ServerWriteKeeps(x, p0, w, b);
    ServerWriteChanges(x, p0, b);
    FinishedEnds(x, p, w);
    BothAtEnd(x, p, w);
    var sent, i := p.sWritten, w.cRead;
    ClientReceiver(x, AT_END, p.cWritten, sent, i, []);
    ChannelAtEnd(x, AT_END, sent, i);
    var r, hk, hs := ClientRec(x, AT_END, [], [], p.cWritten, []), Keys(x).serverHandshake, ServerMsgs(x, AT_END);
    SinglePayload(x.se.crypto, TicketsFor(x.ce, p.c.hs), r, hk, hs, ServerApp(x), sent, i, p.c.tickets, n);
  }

  lemma ServerWriteChanges(x: Ctx, p: Pair, b: Bytes)
    requires Ready(p) && p.s.rec.complete
    ensures var p' := Happens(x, p, ServerWrites(b));
      && p'.sWritten == p.sWritten + [b] && p'.c.rec.appReadBuf == p.c.rec.appReadBuf && p'.s.rec.complete
      && p'.c.rec.complete == p.c.rec.complete
  {
    hide SealRecord, RecordBytes, ShakeClient, ShakeServer, AppRead;
  }

  lemma WriteChanges(x: Ctx, p: Pair, b: Bytes)
    requires Ready(p) && p.c.rec.complete
    ensures var p' := Happens(x, p, ClientWrites(b));
      && p'.cWritten == p.cWritten + [b] && p'.s.rec.appReadBuf == p.s.rec.appReadBuf && p'.c.rec.complete
      && p'.s.rec.complete == p.s.rec.complete
  {
    hide SealRecord, RecordBytes, ShakeClient, ShakeServer, AppRead;
  }

  lemma BothAtEnd(x: Ctx, p: Pair, w: View)
    requires Inv(x, p, w) && p.c.rec.complete && p.s.rec.complete
    ensures Ordered(x, AT_END, AT_END) && w.cp == AT_END == w.sp
  {
    hide ClientIs, ServerIs, ClientStopped, ServerStopped;
    CompleteMeans(x, p, w);
  }
}
