/** Joint completion: a client and a server with compatible configurations never fail, and every way of taking their
    handshake steps until no more can be taken ends with both complete. The condition for that is exact. */
module Completion {
  import opened Prelude
  import opened Crypto
  import opened HandshakeMessages
  import opened Records
  import opened Runs
  import opened Script
  import opened Greeting
  import opened Pairs
  import opened Joint
  import opened AppData
  import opened Agreement

  /** What it takes to complete, as it can be told before the handshake: a common suite and a shared secret; a server
      with a certificate and a key, whose certificate the client accepts and whose signature it verifies; and, if the
      server asks for one, a client of which the same holds. */
  predicate Capable(x: Ctx) {
    && Agreeable(x)
    && x.se.config.localCert.Some? && x.se.config.localKey.Some?
    && ClientAccepts(x) && SignatureHolds(x.ce, x.se, false, Transcript(x, AT_VERIFY))
    && (x.se.config.requireClientCert || x.se.config.hasClientCAs ==>
          && x.ce.config.localCert.Some? && x.ce.config.localKey.Some?
          && ServerAccepts(x) && SignatureHolds(x.se, x.ce, true, Transcript(x, AT_CLIENT_VERIFY)))
  }

  /** Certificates for the keys that sign, acceptable to the peer: the signatures then verify. */
  predicate Compatible(x: Ctx) {
    && Agreeable(x)
    && KeyMatches(x.se) && ClientAccepts(x)
    && (x.se.config.requireClientCert || x.se.config.hasClientCAs ==> KeyMatches(x.ce) && ServerAccepts(x))
  }

  lemma CompatibleIsCapable(x: Ctx)
    requires Sound(x) && Compatible(x)
    ensures Capable(x)
  {
    hide Lawful, AgreedSuite, AgreedSecret, ClientAccepts, ServerAccepts, SignatureHolds, Transcript, CertificateIn,
      ClientHelloIn;
    MatchingKeyVerifies(x.ce, x.se, false, Transcript(x, AT_VERIFY));
    if Asks(x) {
      MatchingKeyVerifies(x.se, x.ce, true, Transcript(x, AT_CLIENT_VERIFY));
    }
  }

  lemma CapableCan(x: Ctx, cp: nat, sp: nat)
    requires Capable(x) && Position(x, cp) && Position(x, sp)
    ensures ClientCan(x, cp) && ServerCan(x, sp)
  {
    hide AgreedSuite, AgreedSecret, ClientAccepts, ServerAccepts, SignatureHolds, Transcript;
  }

  predicate NotFailed(p: Pair) { !p.cpc.CFailed? && !p.spc.SFailed? }

  lemma AliveMeansNotFailed(x: Ctx, p: Pair, w: View)
    requires Inv(x, p, w)
    ensures NotFailed(p) <==> Alive(x, p, w)
  {
    hide ClientState, ServerState, ClientRec, ServerRec, ToClient, ToServer, Transcript, Possible;
  }

  lemma AppEventsKeepPcs(x: Ctx, p: Pair, ev: Event)
    requires Ready(p) && ev != ClientShakes && ev != ServerShakes
    ensures Happens(x, p, ev).cpc == p.cpc && Happens(x, p, ev).spc == p.spc
  {
    hide AppRead, AppWrite;
  }

  lemma EventKeepsAlive(x: Ctx, p: Pair, w: View, ev: Event) returns (w': View)
    requires Sound(x) && Capable(x) && Ready(p) && Inv(x, p, w) && Streams(p, w) && FitsRecord(ev) && NotFailed(p)
    ensures Inv(x, Happens(x, p, ev), w') && Streams(Happens(x, p, ev), w') && NotFailed(Happens(x, p, ev))
  {
    hide ClientIs, ServerIs, ClientStopped, ServerStopped, Possible, Streams, Sound, ShakeClient, ShakeServer, AppRead,
      AppWrite, Next, ClientCan, ServerCan, Alive, Capable;
    AliveMeansNotFailed(x, p, w);
    CapableCan(x, w.cp, w.sp);
    if ev == ClientShakes {
      w' := ClientShakeKeeps(x, p, w);
      ShakesKeepData(x, p);
      StreamsCarryOver(p, ShakeClient(x, p), w, w');
      AliveMeansNotFailed(x, ShakeClient(x, p), w');
    } else if ev == ServerShakes {
      w' := ServerShakeKeeps(x, p, w);
      ShakesKeepData(x, p);
      StreamsCarryOver(p, ShakeServer(x, p), w, w');
      AliveMeansNotFailed(x, ShakeServer(x, p), w');
    } else {
      w' := EventKeepsInv(x, p, w, ev);
      AppEventsKeepPcs(x, p, ev);
    }
  }

  lemma {:induction false} RunStaysAlive(x: Ctx, events: seq<Event>) returns (w: View)
    requires Sound(x) && Capable(x) && Fitting(events)
    ensures Inv(x, After(x, events), w) && Streams(After(x, events), w) && NotFailed(After(x, events))
  {
    hide Inv, Streams, Happens, Sound, Capable;
    if events == [] {
      w := View(0, 0, 0, 0);
      StartsInv(x);
      StartsStreams(x);
    } else {
      var before := events[..|events| - 1];
      w := RunStaysAlive(x, before);
      w := EventKeepsAlive(x, After(x, before), w, events[|events| - 1]);
    }
  }

  /** In every state of every run of a capable pair, whatever the interleaving and the application data, neither end
      has failed. */
  lemma CapableNeverFails(x: Ctx, events: seq<Event>)
    requires Sound(x) && Capable(x) && Fitting(events)
    ensures NotFailed(After(x, events))
  {
    hide *;
    var w := RunStaysAlive(x, events);
  }

  // ----- progress -----

  /** Handshake steps still to be taken. */
  function Left(p: Pair): nat { ClientRank(p.cpc) + ServerRank(p.spc) }

  /** Every handshake step that changes anything comes nearer to the end: there are fewer steps left, or as many and the
      client has taken something off its input. So no run takes infinitely many of them. */
  lemma ShakesComeNearer(x: Ctx, p: Pair)
    requires Ready(p)
    ensures var p' := ShakeClient(x, p);
      p' != p ==> Left(p') < Left(p) || (Left(p') == Left(p) && Consumed(p.c.rec, p'.c.rec))
    ensures var p' := ShakeServer(x, p);
      p' != p ==> Left(p') < Left(p)
  {
    hide ClientStep, ServerStep;
  }

  lemma MsgNotEmpty(x: Ctx, p: nat)
    requires Sound(x) && p < AT_END && Available(x, p)
    ensures Msg(x, p) != []
  {
    hide Sound, ClientHelloBody, ServerHelloBody, U24;
    if p >= AT_EXTENSIONS {
      MsgWhole(x, p);
    }
  }

  /** Different positions are different states. */
  lemma PositionShows(x: Ctx, p: Pair, w: View, w': View)
    requires Sound(x) && Inv(x, p, w) && Inv(x, p, w') && Alive(x, p, w) && Alive(x, p, w')
    ensures w.cp < AT_END ==> w' != w.(cp := Next(x, w.cp))
    ensures w.sp < AT_END ==> w' != w.(sp := Next(x, w.sp))
  {
    hide Sound, Transcript, Msg, ToClient, ToServer, ClientRec, ServerRec, ClientStopped, ServerStopped;
    TranscriptOf(x, p, w);
    TranscriptOf(x, p, w');
    if w.cp < AT_END && w' == w.(cp := Next(x, w.cp)) {
      Advances(x, w.cp);
      MsgNotEmpty(x, w.cp);
    } else if w.sp < AT_END && w' == w.(sp := Next(x, w.sp)) {
      Advances(x, w.sp);
      MsgNotEmpty(x, w.sp);
    }
  }

  lemma TranscriptOf(x: Ctx, p: Pair, w: View)
    requires Ordered(x, w.cp, w.sp) && Alive(x, p, w)
    ensures p.c.hs.transcript == Transcript(x, w.cp) && (w.sp > 0 ==> p.s.hs.transcript == Transcript(x, w.sp))
    ensures w.sp == 0 ==> p.s.hs.transcript == []
  {
    hide Transcript, ToClient, ToServer, ClientRec, ServerRec, Keys, AgreedSuite, Proto, FinalKeys, FinishedDigest,
      PeerOf, ServerApp, ClientApp, Ordered;
  }

  /** When no handshake step changes anything any more, both ends have completed. */
  lemma StuckMeansComplete(x: Ctx, events: seq<Event>)
    requires Sound(x) && Capable(x) && Fitting(events)
    requires var p := After(x, events); ShakeClient(x, p) == p && ShakeServer(x, p) == p
    ensures var p := After(x, events); p.cpc == CDone && p.spc == SDone && p.c.rec.complete && p.s.rec.complete
  {
    hide After, ClientIs, ServerIs, ClientStopped, ServerStopped, Possible, Streams, Sound, ShakeClient, ShakeServer,
      ClientCan, ServerCan, Capable;
    var w := RunStaysAlive(x, events);
    var p := After(x, events);
    AliveMeansNotFailed(x, p, w);
    CapableCan(x, w.cp, w.sp);
    var w1 := ClientShakeKeeps(x, p, w);
    var w2 := ServerShakeKeeps(x, p, w);
    PositionShows(x, p, w, w1);
    PositionShows(x, p, w, w2);
    DoneAtEnd(x, p, w);
  }

  lemma DoneAtEnd(x: Ctx, p: Pair, w: View)
    requires Ordered(x, w.cp, w.sp) && Alive(x, p, w)
    ensures w.cp == AT_END ==> p.cpc == CDone && p.c.rec.complete
    ensures w.sp == AT_END ==> p.spc == SDone && p.s.rec.complete
  {
    hide ToClient, ToServer, ClientHs, ServerHs, Keys, ServerApp, ClientApp, ServerMsgs, ClientMsgs, AllUses, Ordered;
  }

  /** Handshake steps taken in any order, `clientFirst` deciding whom to try first each time, until none is left. */
  ghost function Settle(x: Ctx, p: Pair, clientFirst: nat -> bool, i: nat): (p': Pair)
    requires Ready(p)
    decreases Left(p), |p.c.rec.inbound|, |p.c.rec.handshakeBuf|
  {
    hide ShakeClient, ShakeServer, Ready;
    ShakesComeNearer(x, p);
    var first := if clientFirst(i) then ShakeClient(x, p) else ShakeServer(x, p);
    var second := if clientFirst(i) then ShakeServer(x, p) else ShakeClient(x, p);
    if first != p then Settle(x, first, clientFirst, i + 1)
    else if second != p then Settle(x, second, clientFirst, i + 1)
    else p
  }

  lemma OneMore(x: Ctx, events: seq<Event>, ev: Event)
    requires Fitting(events) && FitsRecord(ev)
    ensures Fitting(events + [ev]) && After(x, events + [ev]) == Happens(x, After(x, events), ev)
  {
    hide Happens;
    assert (events + [ev])[..|events|] == events;
  }

  /** Joint completion. From every state that a run of a capable pair can reach, every maximal interleaving of
      handshake steps ends, with both ends complete. */
  lemma {:induction false} EveryInterleavingCompletes(x: Ctx, events: seq<Event>, clientFirst: nat -> bool, i: nat)
    requires Sound(x) && Capable(x) && Fitting(events)
    ensures var p := Settle(x, After(x, events), clientFirst, i);
      p.cpc == CDone && p.spc == SDone && p.c.rec.complete && p.s.rec.complete
    decreases Left(After(x, events)), |After(x, events).c.rec.inbound|, |After(x, events).c.rec.handshakeBuf|
  {
    hide After, ShakeClient, ShakeServer, Sound, Capable, Fitting;
    var p := After(x, events);
    ShakesComeNearer(x, p);
    OneMore(x, events, ClientShakes);
    OneMore(x, events, ServerShakes);
    var first := if clientFirst(i) then ShakeClient(x, p) else ShakeServer(x, p);
    var second := if clientFirst(i) then ShakeServer(x, p) else ShakeClient(x, p);
    if first != p {
      EveryInterleavingCompletes(x, events + [if clientFirst(i) then ClientShakes else ServerShakes],
        clientFirst, i + 1);
    } else if second != p {
      EveryInterleavingCompletes(x, events + [if clientFirst(i) then ServerShakes else ClientShakes],
        clientFirst, i + 1);
    } else {
      StuckMeansComplete(x, events);
    }
  }

  // ----- the condition is necessary -----

  /** Every position that has been left behind could be left. */
  ghost predicate Passed(x: Ctx, w: View) {
    && (forall k: nat :: k < w.cp && Position(x, k) ==> ClientCan(x, k))
    && (forall k: nat :: k < w.sp && Position(x, k) ==> ServerCan(x, k))
  }

  lemma NothingPassed(x: Ctx)
    ensures Passed(x, View(0, 0, 0, 0))
  {
  }

  lemma MovesPass(x: Ctx, w: View, w': View)
    requires Passed(x, w) && Moves(x, w, w') && Position(x, w.cp) && Position(x, w.sp)
    ensures Passed(x, w')
  {
    hide ClientCan, ServerCan, Asks;
  }

  lemma {:induction false} RunPasses(x: Ctx, events: seq<Event>) returns (w: View)
    requires Sound(x) && Fitting(events)
    ensures Inv(x, After(x, events), w) && Streams(After(x, events), w) && Passed(x, w)
  {
    hide ClientIs, ClientStopped, ServerIs, ServerStopped, Possible, Streams, Happens, Sound, Moves, Passed;
    if events == [] {
      w := View(0, 0, 0, 0);
      StartsInv(x);
      StartsStreams(x);
      NothingPassed(x);
    } else {
      var before := events[..|events| - 1];
      var w0 := RunPasses(x, before);
      w := EventKeepsInv(x, After(x, before), w0, events[|events| - 1]);
      MovesPass(x, w0, w);
    }
  }

  predicate BothComplete(p: Pair) { p.cpc == CDone && p.spc == SDone && p.c.rec.complete && p.s.rec.complete }

  lemma PassedAll(x: Ctx, w: View)
    requires w.cp == AT_END && w.sp == AT_END && Passed(x, w)
    ensures Capable(x)
  {
    hide AgreedSuite, AgreedSecret, ClientAccepts, ServerAccepts, SignatureHolds, Transcript;
    assert ServerCan(x, AT_CLIENT_HELLO) && ServerCan(x, AT_SERVER_HELLO);
    assert ClientCan(x, AT_CERTIFICATE) && ClientCan(x, AT_VERIFY);
    if Asks(x) {
      assert ClientCan(x, AT_CLIENT_CERTIFICATE);
      assert ServerCan(x, AT_CLIENT_CERTIFICATE) && ServerCan(x, AT_CLIENT_VERIFY);
    }
  }

  /** Only capable pairs ever complete, in whatever run. */
  lemma CompleteMeansCapable(x: Ctx, events: seq<Event>)
    requires Sound(x) && Fitting(events) && BothComplete(After(x, events))
    ensures Capable(x)
  {
    hide After, Inv, Streams, Sound, Passed, Capable;
    var w := RunPasses(x, events);
    CompleteMeans(x, After(x, events), w);
    PassedAll(x, w);
  }

  /** Settling is a run. */
  lemma {:induction false} SettlingIsARun(x: Ctx, events: seq<Event>, clientFirst: nat -> bool, i: nat)
    returns (more: seq<Event>)
    requires Fitting(events)
    ensures Fitting(more) && After(x, more) == Settle(x, After(x, events), clientFirst, i)
    decreases Left(After(x, events)), |After(x, events).c.rec.inbound|, |After(x, events).c.rec.handshakeBuf|
  {
    hide After, ShakeClient, ShakeServer, Fitting;
    var p := After(x, events);
    ShakesComeNearer(x, p);
    OneMore(x, events, ClientShakes);
    OneMore(x, events, ServerShakes);
    var first := if clientFirst(i) then ShakeClient(x, p) else ShakeServer(x, p);
    var second := if clientFirst(i) then ShakeServer(x, p) else ShakeClient(x, p);
    if first != p {
      more := SettlingIsARun(x, events + [if clientFirst(i) then ClientShakes else ServerShakes], clientFirst, i + 1);
    } else if second != p {
      more := SettlingIsARun(x, events + [if clientFirst(i) then ServerShakes else ClientShakes], clientFirst, i + 1);
    } else {
      more := events;
    }
  }

  /** From every reachable state and under every schedule, the handshake ends with both ends complete exactly when the
      pair is capable of it. */
  lemma CompletesExactlyIfCapable(x: Ctx, events: seq<Event>, clientFirst: nat -> bool)
    requires Sound(x) && Fitting(events)
    ensures BothComplete(Settle(x, After(x, events), clientFirst, 0)) <==> Capable(x)
  {
    hide After, Settle, Sound, Capable, Fitting;
    if Capable(x) {
      EveryInterleavingCompletes(x, events, clientFirst, 0);
    } else {
      var more := SettlingIsARun(x, events, clientFirst, 0);
      if BothComplete(After(x, more)) {
        CompleteMeansCapable(x, more);
      }
    }
  }
}
