/** What goes over the wire, byte for byte: the messages and records of RFC 8446 with their numbers written out. */
module Wire {
  import opened Prelude
  import opened Crypto
  import opened Extensions
  import opened HandshakeMessages
  import opened Certificates
  import opened KeySchedule
  import opened Tickets
  import opened Records
  import opened Offer
  import opened Steps

  // ----- numbers -----

  /** Most significant byte first. */
  lemma NumbersOnTheWire(a: u16, b: nat, c: u32)
    requires b < 0x100_0000
    ensures U16(a)[0] * 256 + U16(a)[1] as int == a
    ensures U24(b)[0] * 65536 + U24(b)[1] as int * 256 + U24(b)[2] as int == b
    ensures U32(c)[0] as int * 16777216 + U32(c)[1] as int * 65536 + U32(c)[2] as int * 256 + U32(c)[3] as int == c
  {
  }

  /** A record: type, version, length, payload. */
  lemma RecordOnTheWire(typ: byte, version: u16, payload: Bytes)
    requires |payload| < 0x1_0000
    ensures RecordBytes(typ, version, payload) ==
      [typ, version / 256, version % 256, |payload| / 256, |payload| % 256] + payload
  {
  }

  /** A handshake message: type, length, body. */
  lemma MessageOnTheWire(typ: byte, body: Bytes)
    requires |body| < 0x100_0000
    ensures Message(typ, body) == [typ, |body| / 65536, |body| / 256 % 256, |body| % 256] + body
  {
  }

  // ----- extensions -----

  lemma EntriesCons(e: Tagged, rest: seq<Tagged>)
    ensures EntriesBytes([e] + rest) == EntryBytes(e) + EntriesBytes(rest)
  {
    assert ([e] + rest)[1..] == rest;
  }

  lemma ListExtensions()
    ensures EntryBytes(U16ListExtension(EXT_SUPPORTED_CURVES, [CURVE_SM2, CURVE_X25519])) ==
      [0, 10, 0, 6, 0, 4, 0, 41, 0, 29]
    ensures EntryBytes(U16ListExtension(EXT_SUPPORTED_CURVES, [CURVE_X25519, CURVE_SM2])) ==
      [0, 10, 0, 6, 0, 4, 0, 29, 0, 41]
    ensures EntryBytes(U16ListExtension(EXT_SIGNATURE_ALGORITHMS, [SM2SM3])) == [0, 13, 0, 4, 0, 2, 7, 8]
    ensures EntryBytes(U16ListExtension(EXT_SIGNATURE_ALGORITHMS_CERT, [SM2SM3])) == [0, 50, 0, 4, 0, 2, 7, 8]
  {
    TwoGroups(CURVE_SM2, CURVE_X25519);
    TwoGroups(CURVE_X25519, CURVE_SM2);
    assert U16s([SM2SM3]) == U16(SM2SM3) + U16s([]);
  }

  lemma TwoGroups(a: u16, b: u16)
    ensures U16s([a, b]) == [a / 256, a % 256, b / 256, b % 256]
  {
    assert [a, b][1..] == [b] && [b][1..] == [];
    assert U16s([b]) == U16(b) + U16s([]);
  }

  /** The client's key share and the server's. */
  lemma SharesOnTheWire(share: KeyShareEntry)
    requires 0 < |share.data| < 0xF000
    ensures var n := |share.data|; var entry := U16(share.tag) + [n / 256, n % 256] + share.data;
      && EntryBytes(KeyShareClient([share])) ==
         [0, 51, (n + 6) / 256, (n + 6) % 256, (n + 4) / 256, (n + 4) % 256] + entry
      && EntryBytes(KeyShareServer(share)) == [0, 51, (n + 4) / 256, (n + 4) % 256] + entry
  {
    EntriesCons(share, []);
    assert [share] + [] == [share];
    assert EntryBytes(share) + EntriesBytes([]) == EntryBytes(share);
  }

  lemma NamesOnTheWire(name: Bytes, proto: Bytes)
    requires 0 < |name| < 0xF000 && |proto| < 256
    ensures var n := |name|;
      EntryBytes(ServerName(name)) ==
      [0, 0, (n + 5) / 256, (n + 5) % 256, (n + 3) / 256, (n + 3) % 256, 0, n / 256, n % 256] + name
    ensures EntryBytes(Alpn([proto])) ==
      [0, 16, (|proto| + 3) / 256, (|proto| + 3) % 256, (|proto| + 1) / 256, (|proto| + 1) % 256, |proto|] + proto
  {
    assert AlpnEntries([proto]) == [|proto| % 0x100] + proto + AlpnEntries([]);
  }

  /** The extensions of a ClientHello in the order they are sent: name, point formats, groups, session ticket,
      encrypt-then-MAC, extended master secret, signature algorithms for messages and for certificates, versions, PSK
      modes, key share, protocols. */
  lemma ExtensionsOnTheWire(h: Hello)
    ensures EntriesBytes(BaseExtensions(h)) ==
      (if h.serverName != [] then EntryBytes(ServerName(h.serverName)) else [])
      + ([0, 11, 0, 4, 3, 0, 1, 2]
         + (if h.share.tag == 29 then [0, 10, 0, 6, 0, 4, 0, 29, 0, 41] else [0, 10, 0, 6, 0, 4, 0, 41, 0, 29])
         + [0, 35, 0, 0] + [0, 22, 0, 0] + [0, 23, 0, 0] + [0, 13, 0, 4, 0, 2, 7, 8] + [0, 50, 0, 4, 0, 2, 7, 8]
         + [0, 43, 0, 3, 2, 3, 4] + [0, 45, 0, 2, 1, 1] + EntryBytes(KeyShareClient([h.share])))
      + (if h.protos != [] then EntryBytes(Alpn(h.protos)) else [])
  {
    hide EntriesBytes, KeyShareClient, Alpn, ServerName, U16ListExtension, EntryBytes;
    var name := if h.serverName != [] then [ServerName(h.serverName)] else [];
    var protos := if h.protos != [] then [Alpn(h.protos)] else [];
    var middle := MiddleExtensions(h);
    assert BaseExtensions(h) == name + middle + protos;
    EntriesAppend(name + middle, protos);
    EntriesAppend(name, middle);
    SingleEntry(ServerName(h.serverName));
    SingleEntry(Alpn(h.protos));
    MiddleOnTheWire(h);
  }

  function MiddleExtensions(h: Hello): seq<Extension> {
    [Tagged(EXT_SUPPORTED_POINTS, [3, 0, 1, 2]),
     U16ListExtension(EXT_SUPPORTED_CURVES, SupportedGroups(h)),
     Tagged(EXT_SESSION_TICKET, []),
     Tagged(EXT_ENCRYPT_THEN_MAC, []),
     Tagged(EXT_EXTENDED_MASTER_SECRET, []),
     U16ListExtension(EXT_SIGNATURE_ALGORITHMS, [SM2SM3]),
     U16ListExtension(EXT_SIGNATURE_ALGORITHMS_CERT, [SM2SM3]),
     Tagged(EXT_SUPPORTED_VERSIONS, [2, 3, 4]),
     Tagged(EXT_PSK_MODES, [1, 1]),
     KeyShareClient([h.share])]
  }

  lemma SingleEntry(e: Extension)
    ensures EntriesBytes([e]) == EntryBytes(e) && EntriesBytes([]) == []
  {
    EntriesCons(e, []);
    assert [e] + [] == [e];
  }

  lemma FixedEntries()
    ensures EntryBytes(Tagged(EXT_SUPPORTED_POINTS, [3, 0, 1, 2])) == [0, 11, 0, 4, 3, 0, 1, 2]
    ensures EntryBytes(Tagged(EXT_SESSION_TICKET, [])) == [0, 35, 0, 0]
    ensures EntryBytes(Tagged(EXT_ENCRYPT_THEN_MAC, [])) == [0, 22, 0, 0]
    ensures EntryBytes(Tagged(EXT_EXTENDED_MASTER_SECRET, [])) == [0, 23, 0, 0]
    ensures EntryBytes(Tagged(EXT_SUPPORTED_VERSIONS, [2, 3, 4])) == [0, 43, 0, 3, 2, 3, 4]
    ensures EntryBytes(Tagged(EXT_PSK_MODES, [1, 1])) == [0, 45, 0, 2, 1, 1]
  {
  }

  lemma MiddleOnTheWire(h: Hello)
    ensures EntriesBytes(MiddleExtensions(h)) ==
      [0, 11, 0, 4, 3, 0, 1, 2]
      + (if h.share.tag == 29 then [0, 10, 0, 6, 0, 4, 0, 29, 0, 41] else [0, 10, 0, 6, 0, 4, 0, 41, 0, 29])
      + [0, 35, 0, 0] + [0, 22, 0, 0] + [0, 23, 0, 0] + [0, 13, 0, 4, 0, 2, 7, 8] + [0, 50, 0, 4, 0, 2, 7, 8]
      + [0, 43, 0, 3, 2, 3, 4] + [0, 45, 0, 2, 1, 1] + EntryBytes(KeyShareClient([h.share]))
  {
    hide EntriesBytes, KeyShareClient, U16ListExtension, EntryBytes;
    ListExtensions();
    FixedEntries();
    var es := MiddleExtensions(h);
    SingleEntry(es[0]);
    assert es[..1] == [es[0]] && es[..10] == es;
    forall k | 1 < k <= 10 ensures EntriesBytes(es[..k]) == EntriesBytes(es[..k - 1]) + EntryBytes(es[k - 1]) {
      EntriesGrow(es, k - 1);
    }
    assert EntriesBytes(es[..2]) == EntriesBytes(es[..1]) + EntryBytes(es[1]);
    assert EntriesBytes(es[..3]) == EntriesBytes(es[..2]) + EntryBytes(es[2]);
    assert EntriesBytes(es[..4]) == EntriesBytes(es[..3]) + EntryBytes(es[3]);
    assert EntriesBytes(es[..5]) == EntriesBytes(es[..4]) + EntryBytes(es[4]);
    assert EntriesBytes(es[..6]) == EntriesBytes(es[..5]) + EntryBytes(es[5]);
    assert EntriesBytes(es[..7]) == EntriesBytes(es[..6]) + EntryBytes(es[6]);
    assert EntriesBytes(es[..8]) == EntriesBytes(es[..7]) + EntryBytes(es[7]);
    assert EntriesBytes(es[..9]) == EntriesBytes(es[..8]) + EntryBytes(es[8]);
    assert EntriesBytes(es[..10]) == EntriesBytes(es[..9]) + EntryBytes(es[9]);
  }

  // ----- messages -----

  /** A ClientHello of this library: version 0x0303, random, session ID, the suites 0x00C6, 0x1306 and 0x00FF, no
      compression, extensions. */
  lemma ClientHelloOnTheWire(h: Hello, es: seq<Extension>)
    requires |h.sessionID| < 256
    ensures ClientHelloBytes(HelloMessage(h, es)) ==
      Message(1, [3, 3] + h.random + [|h.sessionID|] + h.sessionID + [0, 6, 0, 198, 19, 6, 0, 255, 1, 0]
                 + U16(|EntriesBytes(es)|) + EntriesBytes(es))
  {
    hide EntriesBytes;
    var suites: seq<u16> := [0xC6, 0x1306, 0xFF];
    assert suites[1..] == [0x1306, 0xFF];
    TwoGroups(0x1306, 0xFF);
    assert U16s(suites) == [0, 198, 19, 6, 0, 255];
    assert HelloMessage(h, es).suites == suites;
    assert U16(6) + U16s(suites) + [1, 0] == [0, 6, 0, 198, 19, 6, 0, 255, 1, 0];
  }

  /** The server's answer: its random, the session ID of the client, the chosen suite, supported_versions, key share. */
  lemma ServerHelloOnTheWire(e: Env, hs: HandshakeState, share: KeyShareEntry)
    requires hs.suite.Some? && |hs.sessionID| < 256
    ensures var id, entry := hs.suite.value.id, EntryBytes(KeyShareServer(share));
      ServerHelloBytes(ServerHelloOf(e, hs, share)) ==
      Message(2, [3, 3] + e.rnd.serverRandom + [|hs.sessionID|] + hs.sessionID + [id / 256, id % 256, 0]
                 + U16(6 + |entry|) + [0, 43, 0, 2, 3, 4] + entry)
  {
    hide Block, ServerHelloExtensions, KeyShareServer, EntryBytes, Message;
    var id, entry := hs.suite.value.id, EntryBytes(KeyShareServer(share));
    AnswerExtensions(share);
    var block := U16(6 + |entry|) + [0, 43, 0, 2, 3, 4] + entry;
    assert U16(0x0303) == [3, 3] && U16(id) + [0] == [id / 256, id % 256, 0];
    assert [3, 3] + e.rnd.serverRandom + ([|hs.sessionID|] + hs.sessionID + (U16(id) + [0] + block)) ==
      [3, 3] + e.rnd.serverRandom + [|hs.sessionID|] + hs.sessionID + [id / 256, id % 256, 0]
      + U16(6 + |entry|) + [0, 43, 0, 2, 3, 4] + entry;
  }

  lemma AnswerExtensions(share: KeyShareEntry)
    ensures var entry := EntryBytes(KeyShareServer(share));
      Block(ServerHelloExtensions(share)) == U16(6 + |entry|) + [0, 43, 0, 2, 3, 4] + entry
  {
    hide EntriesBytes, KeyShareServer, EntryBytes;
    var versions, keyShare := Tagged(EXT_SUPPORTED_VERSIONS, [3, 4]), KeyShareServer(share);
    VersionEntry();
    EntriesCons(versions, [keyShare]);
    SingleEntry(keyShare);
    assert ServerHelloExtensions(share) == [versions] + [keyShare];
  }

  lemma VersionEntry()
    ensures EntryBytes(Tagged(EXT_SUPPORTED_VERSIONS, [3, 4])) == [0, 43, 0, 2, 3, 4]
  {
  }

  /** EncryptedExtensions, with a protocol and without. */
  lemma EncryptedExtensionsOnTheWire(alpn: Extension)
    ensures EncryptedExtensionsBytes([]) == [8, 0, 0, 2, 0, 0]
    ensures EncryptedExtensionsBytes([alpn]) == Message(8, U16(|EntryBytes(alpn)|) + EntryBytes(alpn))
  {
    SingleEntry(alpn);
  }

  /** CertificateRequest for the one scheme of this library, asked for or by default. */
  lemma CertificateRequestOnTheWire()
    ensures CertificateRequestBytes([SM2SM3]) == CertificateRequestBytes([]) ==
      [13, 0, 0, 19, 0, 0, 16, 0, 13, 0, 4, 0, 2, 7, 8, 0, 50, 0, 4, 0, 2, 7, 8]
  {
    hide EntryBytes, U16ListExtension;
    ListExtensions();
    var schemes := U16ListExtension(EXT_SIGNATURE_ALGORITHMS, [SM2SM3]);
    var certSchemes := U16ListExtension(EXT_SIGNATURE_ALGORITHMS_CERT, [SM2SM3]);
    EntriesCons(schemes, [certSchemes]);
    SingleEntry(certSchemes);
    assert [schemes, certSchemes] == [schemes] + [certSchemes];
  }

  /** Certificate: empty context, and each certificate behind its length, with no extensions; the leaf is the first. */
  lemma CertificateOnTheWire(cert: Certificate)
    requires |CertificateEntries(SentChain(cert))| < 0x100_0000
    ensures var list := CertificateEntries(SentChain(cert));
      CertificateBytes(cert, []) ==
      Message(11, [0, |list| / 65536, |list| / 256 % 256, |list| % 256] + list)
    ensures SentChain(cert) == if |cert.chain| > 0 then cert.chain else if |cert.raw| > 0 then [cert.raw] else []
  {
    hide CertificateEntries, Message, U24;
    var list := CertificateEntries(SentChain(cert));
    ThreeBytes(|list|);
    assert Zeros(0) == [];
    assert [0] + [] + (U24(|list|) + list) + [] == [0] + U24(|list|) + list;
    assert [0] + U24(|list|) == [0, |list| / 65536, |list| / 256 % 256, |list| % 256];
  }

  lemma ThreeBytes(n: nat)
    requires n < 0x100_0000
    ensures U24(n) == [n / 65536, n / 256 % 256, n % 256]
  {
  }

  lemma CertificateEntryOnTheWire(der: Bytes, rest: seq<Bytes>)
    requires |der| < 0x100_0000
    ensures CertificateEntries([der] + rest) ==
      [|der| / 65536, |der| / 256 % 256, |der| % 256] + der + [0, 0] + CertificateEntries(rest)
    ensures CertificateEntries([]) == []
  {
    assert ([der] + rest)[1..] == rest;
  }

  /** CertificateVerify under sm2sig_sm3, and Finished. */
  lemma ProofsOnTheWire(signature: Bytes, verifyData: Bytes)
    requires |signature| < 0x1_0000
    ensures CertificateVerifyBytes(CertificateVerify(SM2SM3, signature)) ==
      Message(15, [7, 8, |signature| / 256, |signature| % 256] + signature)
    ensures FinishedBytes(verifyData) == Message(20, verifyData)
  {
  }

  /** What stands for the first hello after a retry request. */
  lemma MessageHashOnTheWire(cr: Crypto, hello: Bytes)
    ensures MessageHash(cr, hello) == [254, 0, 0, 32] + cr.hash(hello)
  {
  }

  /** pre_shared_key with a zero binder: one identity with its age, one binder; and the PSK of that ticket. */
  lemma PskOnTheWire(tickets: seq<Ticket>, now: nat)
    requires SelectTicket(tickets, now).Some?
    ensures var t := tickets[SelectTicket(tickets, now).value]; var n := |t.ticket|;
      && PskOffer(tickets, now).Some? && PskOffer(tickets, now).value.psk == t.psk
      && PskOffer(tickets, now).value.ext ==
         Tagged(41, U16(n + 6) + U16(n) + t.ticket + U32(ObfuscatedAge(t, now)) + [0, 33, 32] + Zeros(32))
  {
    hide ObfuscatedAge, SelectTicket;
    assert U16(1 + HASH_SIZE) + [HASH_SIZE] == [0, 33, 32];
  }

  /** The age in milliseconds since the ticket came, modulo 2^32, on top of the ticket's own offset. */
  lemma AgeIsMilliseconds(t: Ticket, now: nat)
    requires t.receivedAt > 0 && now >= t.receivedAt
    ensures (ObfuscatedAge(t, now) - t.ageAdd - (now - t.receivedAt) / 1_000_000) % 4_294_967_296 == 0
  {
    var ms := (now - t.receivedAt) / 1_000_000;
    ModuloSums(ms, t.ageAdd);
  }

  lemma ModuloSums(a: nat, b: nat)
    ensures ((a % 4_294_967_296 + b) % 4_294_967_296 - b - a) % 4_294_967_296 == 0
  {
    var m := 4_294_967_296;
    var q, r := a / m, (a % m + b) / m;
    assert a == q * m + a % m && a % m + b == r * m + (a % m + b) % m;
    assert (a % m + b) % m - b - a == -(q + r) * m;
  }

  /** NewSessionTicket as a peer sends it: lifetime, age offset, nonce, ticket, extensions. */
  lemma TicketOnTheWire(t: Ticket, extensions: Bytes)
    requires TicketFits(t, extensions)
    ensures TicketMessage(t, extensions) ==
      Message(4, U32(t.lifetime) + U32(t.ageAdd) + [|t.nonce|] + t.nonce + U16(|t.ticket|) + t.ticket
                 + U16(|extensions|) + extensions)
  {
    hide U32, U16;
  }
}
