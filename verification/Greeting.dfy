/** The two hellos between two ends of this library: what the server reads off the client's hello and what the client
    reads off the server's. */
module Greeting {
  import opened Prelude
  import opened Crypto
  import opened Extensions
  import opened HandshakeMessages
  import opened Certificates
  import opened KeySchedule
  import opened Suites
  import opened Tickets
  import opened Offer
  import opened Steps
  import opened Retry
  import opened Channels
  import opened Script

  /** Lawful primitives, and inputs whose messages fit a record; a server random that is not the retry marker. */
  ghost predicate Sound(x: Ctx) {
    && Lawful(x.se.crypto) && x.ce.crypto == x.se.crypto
    && x.se.rnd.serverRandom != HRR_RANDOM
    && |ClientHelloIn(x)| < 0x1_0000
    && (forall i :: 0 <= i < |x.ce.config.nextProtos| ==> |x.ce.config.nextProtos[i]| < 0x100)
    && |CertificateIn(x.ce)| <= MAX_PLAINTEXT && |CertificateIn(x.se)| <= MAX_PLAINTEXT
  }

  // ----- the client's hello -----

  lemma {:induction false} EntryBounds(es: seq<Extension>, i: nat)
    requires i < |es|
    ensures |es[i].data| + 4 <= |EntriesBytes(es)|
  {
    if i > 0 {
      EntryBounds(es[1..], i - 1);
    }
  }

  lemma SizeBounds(m: ClientHello)
    requires |m.random| == 32 && |m.sessionID| == 32 && |m.suites| == 3 && |m.compression| == 1
    requires |ClientHelloBytes(m)| < 0x1_0000
    ensures ClientHelloFits(m)
  {
    hide EntriesBytes, U16s;
    assert |SuitesPart(m)| >= |EntriesBytes(m.extensions)|;
    forall i | 0 <= i < |m.extensions| ensures |m.extensions[i].data| < 0x1_0000 {
      EntryBounds(m.extensions, i);
    }
  }

  lemma {:induction false} ReadOfferAppend(xs: seq<Extension>, ys: seq<Extension>, o: ClientOffer)
    requires ReadOffer(xs, o).Success?
    ensures ReadOffer(xs + ys, o) == ReadOffer(ys, ReadOffer(xs, o).value)
    decreases |xs|
  {
    hide ReadOne;
    if xs == [] {
      assert xs + ys == ys;
    } else {
      assert (xs + ys)[1..] == xs[1..] + ys;
      ReadOfferAppend(xs[1..], ys, ReadOne(xs[0], o).value);
    }
  }

  lemma ReadsSingle(e: Extension, o: ClientOffer)
    ensures ReadOffer([e], o) == ReadOne(e, o)
  {
    hide ReadOne;
    assert [e][1..] == [];
  }

  lemma ReadsPair(xs: seq<Extension>, e: Extension, o: ClientOffer, o1: ClientOffer, o2: ClientOffer)
    requires ReadOffer(xs, o) == Success(o1) && ReadOne(e, o1) == Success(o2)
    ensures ReadOffer(xs + [e], o) == Success(o2)
  {
    hide ReadOne;
    ReadOfferAppend(xs, [e], o);
    ReadsSingle(e, o1);
  }

  lemma ListsRead(o: ClientOffer, share: KeyShareEntry)
    requires |share.data| < 0x1000
    ensures ReadOne(U16ListExtension(EXT_SUPPORTED_CURVES, OFFERED_GROUPS), o) == Success(o.(curves := OFFERED_GROUPS))
    ensures ReadOne(U16ListExtension(EXT_SIGNATURE_ALGORITHMS, [SM2SM3]), o) == Success(o.(schemes := [SM2SM3]))
    ensures ReadOne(Tagged(EXT_SUPPORTED_VERSIONS, [2, 3, 4]), o) == Success(o.(versions := [VERSION_TLS13]))
    ensures ReadOne(KeyShareClient([share]), o) == Success(o.(shares := [share]))
  {
    hide ParseU16List, ParseKeyShareClient;
    U16ListRoundTrip(EXT_SUPPORTED_CURVES, OFFERED_GROUPS);
    U16ListRoundTrip(EXT_SIGNATURE_ALGORITHMS, [SM2SM3]);
    assert EntriesBytes([share]) == EntryBytes(share) + EntriesBytes([share][1..]);
    KeyShareClientRoundTrip([share]);
    VersionsRead();
  }

  lemma VersionsRead()
    ensures ParseVersions([2, 3, 4]) == Success([VERSION_TLS13])
  {
    var data: Bytes, list: Bytes := [2, 3, 4], [3, 4];
    assert data[1..1 + data[0]] == list;
    assert list[2..] == [] && ReadU16(list) == VERSION_TLS13;
    assert ReadU16s(list[2..]) == [];
    assert ReadU16s(list) == [ReadU16(list)] + [];
    assert ReadU16s(list) == [VERSION_TLS13];
    assert ParseVersions(data) == Success(ReadU16s(list));
  }

  /** Extensions the server does not look at. */
  predicate Ignored(e: Extension) {
    && e.tag != EXT_KEY_SHARE && e.tag != EXT_SUPPORTED_CURVES && e.tag != EXT_SIGNATURE_ALGORITHMS
    && e.tag != EXT_ALPN && e.tag != EXT_SUPPORTED_VERSIONS
  }

  lemma {:induction false} IgnoredRead(es: seq<Extension>, o: ClientOffer)
    requires forall i :: 0 <= i < |es| ==> Ignored(es[i])
    ensures ReadOffer(es, o) == Success(o)
  {
    if es != [] {
      assert Ignored(es[0]);
      IgnoredRead(es[1..], o);
    }
  }

  lemma ReadsNext(xs: seq<Extension>, ys: seq<Extension>, o: ClientOffer, o1: ClientOffer, o2: ClientOffer)
    requires ReadOffer(xs, o) == Success(o1) && ReadOffer(ys, o1) == Success(o2)
    ensures ReadOffer(xs + ys, o) == Success(o2)
  {
    hide ReadOffer;
    ReadOfferAppend(xs, ys, o);
  }

  function ServerNamePart(h: Hello): seq<Extension> { if h.serverName != [] then [ServerName(h.serverName)] else [] }

  function AlpnPart(h: Hello): seq<Extension> { if h.protos != [] then [Alpn(h.protos)] else [] }

  /** The extensions of a hello for the SM2 group, cut at those the server reads. */
  lemma BaseSplits(h: Hello)
    requires h.share.tag == CURVE_SM2
    ensures BaseExtensions(h) ==
      (ServerNamePart(h) + [Tagged(EXT_SUPPORTED_POINTS, [3, 0, 1, 2])])
      + [U16ListExtension(EXT_SUPPORTED_CURVES, OFFERED_GROUPS)]
      + [Tagged(EXT_SESSION_TICKET, []), Tagged(EXT_ENCRYPT_THEN_MAC, []), Tagged(EXT_EXTENDED_MASTER_SECRET, [])]
      + [U16ListExtension(EXT_SIGNATURE_ALGORITHMS, [SM2SM3])]
      + [U16ListExtension(EXT_SIGNATURE_ALGORITHMS_CERT, [SM2SM3])]
      + [Tagged(EXT_SUPPORTED_VERSIONS, [2, 3, 4])]
      + [Tagged(EXT_PSK_MODES, [1, 1])]
      + [KeyShareClient([h.share])]
      + AlpnPart(h)
  {
    hide U16ListExtension, KeyShareClient, Alpn, ServerName;
  }

  const NO_OFFER := ClientOffer([], [], [], [], [])

  lemma FirstPartRead(h: Hello)
    requires |h.share.data| < 0x1000
    ensures ReadOffer(
      (ServerNamePart(h) + [Tagged(EXT_SUPPORTED_POINTS, [3, 0, 1, 2])])
      + [U16ListExtension(EXT_SUPPORTED_CURVES, OFFERED_GROUPS)]
      + [Tagged(EXT_SESSION_TICKET, []), Tagged(EXT_ENCRYPT_THEN_MAC, []), Tagged(EXT_EXTENDED_MASTER_SECRET, [])]
      + [U16ListExtension(EXT_SIGNATURE_ALGORITHMS, [SM2SM3])], NO_OFFER)
      == Success(ClientOffer([], [], OFFERED_GROUPS, [SM2SM3], []))
  {
    hide ReadOffer, ReadOne;
    var a := ServerNamePart(h) + [Tagged(EXT_SUPPORTED_POINTS, [3, 0, 1, 2])];
    IgnoredRead(a, NO_OFFER);
    var o1 := NO_OFFER.(curves := OFFERED_GROUPS);
    ListsRead(NO_OFFER, h.share);
    ReadsPair(a, U16ListExtension(EXT_SUPPORTED_CURVES, OFFERED_GROUPS), NO_OFFER, NO_OFFER, o1);
    var b := [Tagged(EXT_SESSION_TICKET, []), Tagged(EXT_ENCRYPT_THEN_MAC, []), Tagged(EXT_EXTENDED_MASTER_SECRET, [])];
    IgnoredRead(b, o1);
    var a1 := a + [U16ListExtension(EXT_SUPPORTED_CURVES, OFFERED_GROUPS)];
    ReadsNext(a1, b, NO_OFFER, o1, o1);
    ListsRead(o1, h.share);
    ReadsPair(a1 + b, U16ListExtension(EXT_SIGNATURE_ALGORITHMS, [SM2SM3]), NO_OFFER, o1, o1.(schemes := [SM2SM3]));
  }

  lemma SecondPartRead(xs: seq<Extension>, h: Hello, o: ClientOffer)
    requires |h.share.data| < 0x1000 && ReadOffer(xs, NO_OFFER) == Success(o)
    ensures ReadOffer(
      xs
      + [U16ListExtension(EXT_SIGNATURE_ALGORITHMS_CERT, [SM2SM3])]
      + [Tagged(EXT_SUPPORTED_VERSIONS, [2, 3, 4])]
      + [Tagged(EXT_PSK_MODES, [1, 1])]
      + [KeyShareClient([h.share])], NO_OFFER)
      == Success(o.(versions := [VERSION_TLS13], shares := [h.share]))
  {
    hide ReadOffer;
    var c := U16ListExtension(EXT_SIGNATURE_ALGORITHMS_CERT, [SM2SM3]);
    ReadsPair(xs, c, NO_OFFER, o, o);
    ListsRead(o, h.share);
    var o1 := o.(versions := [VERSION_TLS13]);
    ReadsPair(xs + [c], Tagged(EXT_SUPPORTED_VERSIONS, [2, 3, 4]), NO_OFFER, o, o1);
    var xs1 := xs + [c] + [Tagged(EXT_SUPPORTED_VERSIONS, [2, 3, 4])];
    ReadsPair(xs1, Tagged(EXT_PSK_MODES, [1, 1]), NO_OFFER, o1, o1);
    ListsRead(o1, h.share);
    ReadsPair(xs1 + [Tagged(EXT_PSK_MODES, [1, 1])], KeyShareClient([h.share]), NO_OFFER, o1, o1.(shares := [h.share]));
  }

  lemma AlpnPartRead(h: Hello, o: ClientOffer)
    requires AlpnFits(h.protos) && o.protos == []
    ensures ReadOffer(AlpnPart(h), o) == Success(o.(protos := h.protos))
  {
    hide ParseAlpn;
    if h.protos != [] {
      AlpnRoundTrip(h.protos);
      ReadsSingle(Alpn(h.protos), o);
    }
  }

  /** What a server makes of the extensions of a hello, the pre_shared_key one included. */
  function OfferOf(h: Hello): ClientOffer {
    ClientOffer([h.share], [VERSION_TLS13], OFFERED_GROUPS, [SM2SM3], h.protos)
  }

  lemma BaseRead(h: Hello)
    requires h.share.tag == CURVE_SM2 && |h.share.data| < 0x1000 && AlpnFits(h.protos)
    ensures ReadOffer(BaseExtensions(h), NO_OFFER) == Success(OfferOf(h))
  {
    hide ReadOffer, U16ListExtension, KeyShareClient, ServerNamePart, AlpnPart;
    FirstPartRead(h);
    var a := (ServerNamePart(h) + [Tagged(EXT_SUPPORTED_POINTS, [3, 0, 1, 2])])
      + [U16ListExtension(EXT_SUPPORTED_CURVES, OFFERED_GROUPS)]
      + [Tagged(EXT_SESSION_TICKET, []), Tagged(EXT_ENCRYPT_THEN_MAC, []), Tagged(EXT_EXTENDED_MASTER_SECRET, [])]
      + [U16ListExtension(EXT_SIGNATURE_ALGORITHMS, [SM2SM3])];
    var o := ClientOffer([], [], OFFERED_GROUPS, [SM2SM3], []);
    SecondPartRead(a, h, o);
    var o1 := o.(versions := [VERSION_TLS13], shares := [h.share]);
    AlpnPartRead(h, o1);
    BaseSplits(h);
    ReadsNext(a + [U16ListExtension(EXT_SIGNATURE_ALGORITHMS_CERT, [SM2SM3])] +
      [Tagged(EXT_SUPPORTED_VERSIONS, [2, 3, 4])]
              + [Tagged(EXT_PSK_MODES, [1, 1])] + [KeyShareClient([h.share])], AlpnPart(h), NO_OFFER, o1, OfferOf(h));
  }

  lemma AllRead(cr: Crypto, h: Hello, tickets: seq<Ticket>, now: nat)
    requires h.share.tag == CURVE_SM2 && |h.share.data| < 0x1000 && AlpnFits(h.protos)
    ensures ReadOffer(AllExtensions(cr, h, tickets, now), NO_OFFER) == Success(OfferOf(h))
  {
    hide ReadOffer, BaseExtensions, SelectTicket, Binder, Identity, BeforeBinder;
    BaseRead(h);
    if SelectTicket(tickets, now).Some? {
      var front := BeforeBinder(Identity(tickets[SelectTicket(tickets, now).value], now));
      SentExtensions(cr, h, tickets, now, front);
      var zero := ClientHelloBytes(HelloMessage(h, BaseExtensions(h) + [PskOffer(tickets, now).value.ext]));
      var psk := Tagged(EXT_PRE_SHARED_KEY, front + Binder(cr, PskOffer(tickets, now).value.psk, zero));
      ReadsPair(BaseExtensions(h), psk, NO_OFFER, OfferOf(h), OfferOf(h));
    }
  }

  /** The protocols fit when the hello that lists them does. */
  lemma ProtosFit(cr: Crypto, h: Hello, tickets: seq<Ticket>, now: nat)
    requires h.share.tag == CURVE_SM2
    requires forall i :: 0 <= i < |h.protos| ==> |h.protos[i]| < 0x100
    requires |EntriesBytes(AllExtensions(cr, h, tickets, now))| < 0x1_0000
    ensures AlpnFits(h.protos)
  {
    hide EntriesBytes, AlpnEntries, SelectTicket, Binder, Identity, BeforeBinder, BaseExtensions, U16ListExtension,
      ServerName;
    var base, all := BaseExtensions(h), AllExtensions(cr, h, tickets, now);
    if h.protos != [] {
      BaseEndsWithAlpn(h);
      if SelectTicket(tickets, now).Some? {
        SentExtensions(cr, h, tickets, now, BeforeBinder(Identity(tickets[SelectTicket(tickets, now).value], now)));
      }
      assert all[|base| - 1] == base[|base| - 1];
      EntryBounds(all, |base| - 1);
    } else {
      NoProtos();
    }
  }

  lemma BaseEndsWithAlpn(h: Hello)
    requires h.protos != []
    ensures var base := BaseExtensions(h); base != [] && base[|base| - 1] == Alpn(h.protos)
  {
    hide U16ListExtension, ServerName, KeyShareClient, Alpn;
  }

  lemma NoProtos()
    ensures |AlpnEntries([])| == 0
  {
  }

  function ClientHelloOf(x: Ctx): Hello { HelloFor(x.ce, CURVE_SM2, 0) }

  function ExtensionsOf(x: Ctx): seq<Extension> {
    AllExtensions(x.ce.crypto, ClientHelloOf(x), x.clientTickets.cache, x.ce.clock(x.clientTickets.ticks))
  }

  lemma ShareSize(x: Ctx)
    requires Lawful(x.se.crypto) && x.ce.crypto == x.se.crypto
    ensures |ClientShareOf(x).data| == 65 && |ServerShareOf(x).data| == 65
  {
  }

  /** The server reads the client's hello as the client meant it. */
  lemma ClientHelloParses(x: Ctx)
    requires Sound(x)
    ensures ParseClientHello(ClientHelloIn(x)) == Success(HelloMessage(ClientHelloOf(x), ExtensionsOf(x)))
    ensures ReadOffer(ExtensionsOf(x), NO_OFFER) == Success(OfferOf(ClientHelloOf(x)))
  {
    hide ClientHelloBytes, ParseClientHello, AllExtensions, ReadOffer, Lawful;
    var h, es := ClientHelloOf(x), ExtensionsOf(x);
    var m := HelloMessage(h, es);
    assert ClientHelloIn(x) == ClientHelloBytes(m);
    SizeBounds(m);
    ClientHelloRoundTrip(m);
    ShareSize(x);
    ProtosFit(x.ce.crypto, h, x.clientTickets.cache, x.ce.clock(x.clientTickets.ticks));
    AllRead(x.ce.crypto, h, x.clientTickets.cache, x.ce.clock(x.clientTickets.ticks));
  }

  // ----- the messages fit their records -----

  lemma WholeMessage(typ: byte, body: Bytes)
    requires 4 + |body| <= MAX_PLAINTEXT
    ensures Whole(Message(typ, body)) && |Message(typ, body)| <= MAX_PLAINTEXT && Message(typ, body)[0] == typ
  {
    MessageFields(typ, body);
  }

  lemma ProtoSize(x: Ctx)
    requires Sound(x)
    ensures |Proto(x)| < 0x100
  {
    hide Lawful;
    SelectAlpnCorrect(x.se.config.nextProtos, x.ce.config.nextProtos);
  }

  lemma ExtensionsSize(x: Ctx)
    requires Sound(x)
    ensures |EntriesBytes(ExtensionsIn(x))| < 0x1000 && EntriesFit(ExtensionsIn(x))
    ensures Proto(x) != [] ==> AlpnFits([Proto(x)])
  {
    hide Lawful, Proto, U16, Sound;
    ProtoSize(x);
    var p := Proto(x);
    if p != [] {
      var list: seq<Bytes> := [p];
      assert AlpnEntries(list) == [|p| % 0x100] + p + AlpnEntries(list[1..]) && list[1..] == [];
      var es := ExtensionsIn(x);
      assert EntriesBytes(es) == EntryBytes(es[0]) + EntriesBytes(es[1..]) && es[1..] == [];
    }
  }

  lemma VerifyWhole(e: Env, byClient: bool, transcript: Bytes)
    requires Lawful(e.crypto) && e.config.localKey.Some?
    ensures var m := VerifyIn(e, byClient, transcript); Whole(m) && |m| <= MAX_PLAINTEXT
  {
    hide SignedContent, U24;
    var signed := SignedContent(SignatureContext(byClient), e.crypto.hash(transcript));
    var signature := e.crypto.sign(e.config.localKey.value, signed, e.rnd.signing);
    WholeMessage(CERTIFICATE_VERIFY, U16(SM2SM3) + U16(|signature|) + signature);
  }

  lemma CertificateWhole(e: Env)
    requires |CertificateIn(e)| <= MAX_PLAINTEXT && e.config.localCert.Some?
    ensures Whole(CertificateIn(e)) && CertificateIn(e)[0] == CERTIFICATE
  {
    hide CertificateEntries, U24;
    var entries := CertificateEntries(SentChain(e.config.localCert.value));
    WholeMessage(CERTIFICATE, [0] + [][..0] + (U24(|entries|) + entries) + Zeros(0));
  }

  lemma RequestWhole()
    ensures Whole(CertificateRequestBytes([SM2SM3])) && |CertificateRequestBytes([SM2SM3])| <= MAX_PLAINTEXT
    ensures CertificateRequestBytes([SM2SM3])[0] == CERTIFICATE_REQUEST
  {
    hide U24;
    var es := [U16ListExtension(EXT_SIGNATURE_ALGORITHMS, [SM2SM3]),
      U16ListExtension(EXT_SIGNATURE_ALGORITHMS_CERT, [SM2SM3])];
    assert es[1..][1..] == [];
    assert |EntriesBytes(es)| == |EntryBytes(es[0])| + |EntryBytes(es[1])| + |EntriesBytes(es[1..][1..])|;
    WholeMessage(CERTIFICATE_REQUEST, [0] + Block(es));
  }

  /** What its sender must have for the message of a position to exist. */
  predicate Available(x: Ctx, p: nat) {
    && (p == AT_CERTIFICATE ==> x.se.config.localCert.Some?) && (p == AT_VERIFY ==> x.se.config.localKey.Some?)
    && (p == AT_CLIENT_CERTIFICATE ==> x.ce.config.localCert.Some?)
    && (p == AT_CLIENT_VERIFY ==> x.ce.config.localKey.Some?)
  }

  lemma MsgWhole(x: Ctx, p: nat)
    requires Sound(x) && AT_EXTENSIONS <= p < AT_END && Available(x, p)
    ensures Whole(Msg(x, p)) && |Msg(x, p)| <= MAX_PLAINTEXT
  {
    hide Lawful, CertificateIn, VerifyIn, Transcript, Keys, VerifyData, CertificateRequestBytes, EntriesBytes, U24,
      ClientHelloIn;
    match p {
      case 2 =>
        ExtensionsSize(x);
        WholeMessage(ENCRYPTED_EXTENSIONS, Block(ExtensionsIn(x)));
      case 3 => RequestWhole();
      case 4 => CertificateWhole(x.se);
      case 5 => VerifyWhole(x.se, false, Transcript(x, 5));
      case 6 => WholeMessage(FINISHED, VerifyData(x.se.crypto, Keys(x).serverHandshake.secret, Transcript(x, 6)));
      case 7 => CertificateWhole(x.ce);
      case 8 => VerifyWhole(x.ce, true, Transcript(x, 8));
      case _ => WholeMessage(FINISHED, VerifyData(x.ce.crypto, Keys(x).clientHandshake.secret, Transcript(x, 9)));
    }
  }

  // ----- certificates as the peer reads them -----

  lemma {:induction false} ChainBounds(chain: seq<Bytes>, i: nat)
    requires i < |chain|
    ensures |chain[i]| <= |CertificateEntries(chain)|
  {
    if i > 0 {
      ChainBounds(chain[1..], i - 1);
    }
  }

  lemma CertificateParses(e: Env)
    requires |CertificateIn(e)| <= MAX_PLAINTEXT && e.config.localCert.Some?
    ensures ParseCertificate(e.crypto, CertificateIn(e)) == Success(PeerOf(e).value)
  {
    hide CertificateEntries, ParseCertificate, U24;
    var chain := SentChain(e.config.localCert.value);
    forall i | 0 <= i < |chain| ensures |chain[i]| < 0x100_0000 {
      ChainBounds(chain, i);
    }
    CertificateRoundTrip(e.crypto, e.config.localCert.value, []);
  }

  lemma VerifyParses(e: Env, byClient: bool, transcript: Bytes)
    requires Lawful(e.crypto) && e.config.localKey.Some?
    ensures var signed := SignedContent(SignatureContext(byClient), e.crypto.hash(transcript));
      ParseCertificateVerify(VerifyIn(e, byClient, transcript)) ==
      Success(CertificateVerify(SM2SM3, e.crypto.sign(e.config.localKey.value, signed, e.rnd.signing)))
  {
    hide SignedContent, SignatureContext, ParseCertificateVerify, CertificateVerifyBytes;
    var signed := SignedContent(SignatureContext(byClient), e.crypto.hash(transcript));
    CertificateVerifyRoundTrip(CertificateVerify(SM2SM3,
      e.crypto.sign(e.config.localKey.value, signed, e.rnd.signing)));
  }

  /** The reader's check of the sender's signature at the point where it is sent. */
  predicate SignatureHolds(reader: Env, sender: Env, byClient: bool, transcript: Bytes)
    requires sender.config.localCert.Some? && sender.config.localKey.Some?
  {
    var signed := SignedContent(SignatureContext(byClient), sender.crypto.hash(transcript));
    var signature := sender.crypto.sign(sender.config.localKey.value, signed, sender.rnd.signing);
    reader.config.insecureSkipVerify ||
      (PeerOf(sender).value.publicKey.Some?
        && reader.crypto.verify(PeerOf(sender).value.publicKey.value, signed, signature))
  }

  /** A certificate for the key that signs. */
  predicate KeyMatches(e: Env) {
    && e.config.localCert.Some? && e.config.localKey.Some?
    && PeerOf(e).value.publicKey == Some(e.crypto.publicKey(e.config.localKey.value))
  }

  lemma MatchingKeyVerifies(reader: Env, sender: Env, byClient: bool, transcript: Bytes)
    requires Lawful(sender.crypto) && reader.crypto == sender.crypto && KeyMatches(sender)
    ensures SignatureHolds(reader, sender, byClient, transcript)
  {
    hide SignedContent, SignatureContext;
  }

  predicate ClientAccepts(x: Ctx)
    requires x.se.config.localCert.Some?
  {
    x.ce.config.insecureSkipVerify || VerifyChain(x.ce, PeerOf(x.se).value) == OK
  }

  predicate ServerAccepts(x: Ctx)
    requires x.ce.config.localCert.Some?
  {
    var cert := PeerOf(x.ce).value;
    && !(x.se.config.requireClientCert && cert.raw == [])
    && (x.se.config.insecureSkipVerify || !x.se.config.hasClientCAs || cert.raw == [] || x.se.config.accepts(cert))
  }
}
