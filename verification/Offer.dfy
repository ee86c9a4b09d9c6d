/** How the client builds its ClientHello (sendClientHelloTLS13WithGroup), with the pre_shared_key extension and its
    binder. */
module Offer {
  import opened Prelude
  import opened Crypto
  import opened Extensions
  import opened HandshakeMessages
  import opened KeySchedule
  import opened Suites
  import opened Tickets

  const CLIENT_SUITES: seq<u16> := [SM4_GCM_SM3_ALT, SM4_GCM_SM3]

  /** Go's integer division of a possibly negative duration, then the conversion to uint32. */
  function AgeMillis(elapsed: int): u32 {
    (if elapsed >= 0 then elapsed / 1_000_000 else -(-elapsed / 1_000_000)) % 0x1_0000_0000
  }

  function ObfuscatedAge(t: Ticket, now: nat): u32 {
    if t.receivedAt == 0 then t.ageAdd else (AgeMillis(now - t.receivedAt) + t.ageAdd) % 0x1_0000_0000
  }

  /** tls13PSKInfo: the extension, the key, and where in the extension the binder is. */
  datatype PskInfo = PskInfo(ext: Extension, psk: Bytes, binderStart: nat, binderLen: nat)

  function Identity(t: Ticket, now: nat): Bytes { U16(|t.ticket|) + t.ticket + U32(ObfuscatedAge(t, now)) }

  /** One identity and one binder of zeros. */
  function PskOffer(tickets: seq<Ticket>, now: nat): Option<PskInfo> {
    match SelectTicket(tickets, now)
    case None => None
    case Some(k) =>
      var identity := Identity(tickets[k], now);
      var data := BeforeBinder(identity) + Zeros(HASH_SIZE);
      Some(PskInfo(Tagged(EXT_PRE_SHARED_KEY, data), tickets[k].psk, 2 + |identity| + 2 + 1, HASH_SIZE))
  }

  /** buildTLS13PSKInfo */
  method BuildPskInfo(tickets: seq<Ticket>, now: nat) returns (info: Option<PskInfo>)
    ensures info == PskOffer(tickets, now)
  {
    var best := SelectResumptionTicket(tickets, now);
    if best == None {
      return None;
    }
    var t := tickets[best.value];
    var identities: Bytes := U16(|t.ticket|);
    identities := identities + t.ticket;
    identities := identities + U32(ObfuscatedAge(t, now));
    var binders: Bytes := [HASH_SIZE];
    var binderStart := 2 + |identities| + 2 + 1;
    binders := binders + Zeros(HASH_SIZE);
    var data := U16(|identities|);
    data := data + identities;
    data := data + U16(|binders|);
    data := data + binders;
    assert data == BeforeBinder(identities) + Zeros(HASH_SIZE);
    info := Some(PskInfo(Tagged(EXT_PRE_SHARED_KEY, data), t.psk, binderStart, HASH_SIZE));
  }

  /** The identity list, then the length of the binder list and of its one binder. */
  function BeforeBinder(identity: Bytes): (s: Bytes)
    ensures |s| == 2 + |identity| + 2 + 1
  {
    U16(|identity|) + identity + (U16(1 + HASH_SIZE) + [HASH_SIZE])
  }

  /** SetBinder: overwrites the binder in place. */
  function SetBinder(p: PskInfo, binder: Bytes): PskInfo
    requires |binder| >= p.binderLen
  {
    var data := p.ext.data;
    if p.binderStart + p.binderLen > |data| then p
    else p.(ext := p.ext.(data := data[..p.binderStart] + binder[..p.binderLen] + data[p.binderStart + p.binderLen..]))
  }

  /** rebuildExtensionsWithPSK */
  function ReplacePsk(es: seq<Extension>, psk: Extension): seq<Extension> {
    seq(|es|, i requires 0 <= i < |es| => if es[i].tag == EXT_PRE_SHARED_KEY then psk else es[i])
  }

  method RebuildExtensions(es: seq<Extension>, psk: Extension) returns (out: seq<Extension>)
    ensures out == ReplacePsk(es, psk)
  {
    out := [];
    for i := 0 to |es|
      invariant out == ReplacePsk(es, psk)[..i]
    {
      if es[i].tag == EXT_PRE_SHARED_KEY {
        out := out + [psk];
      } else {
        out := out + [es[i]];
      }
    }
  }

  /** What a hello depends on besides the tickets. */
  datatype Hello = Hello(random: Bytes, sessionID: Bytes, serverName: Bytes, protos: seq<Bytes>, share: KeyShareEntry)

  function SupportedGroups(h: Hello): seq<u16> {
    if h.share.tag == CURVE_X25519 then [CURVE_X25519, CURVE_SM2] else [CURVE_SM2, CURVE_X25519]
  }

  /** All extensions but pre_shared_key, in the order they are sent. */
  function BaseExtensions(h: Hello): seq<Extension> {
    (if h.serverName != [] then [ServerName(h.serverName)] else [])
    + [Tagged(EXT_SUPPORTED_POINTS, [3, 0, 1, 2]),
       U16ListExtension(EXT_SUPPORTED_CURVES, SupportedGroups(h)),
       Tagged(EXT_SESSION_TICKET, []),
       Tagged(EXT_ENCRYPT_THEN_MAC, []),
       Tagged(EXT_EXTENDED_MASTER_SECRET, []),
       U16ListExtension(EXT_SIGNATURE_ALGORITHMS, [SM2SM3]),
       U16ListExtension(EXT_SIGNATURE_ALGORITHMS_CERT, [SM2SM3]),
       Tagged(EXT_SUPPORTED_VERSIONS, [2, 3, 4]),
       Tagged(EXT_PSK_MODES, [1, 1]),
       KeyShareClient([h.share])]
    + (if h.protos != [] then [Alpn(h.protos)] else [])
  }

  function HelloMessage(h: Hello, extensions: seq<Extension>): ClientHello {
    ClientHello(VERSION_TLS12, h.random, h.sessionID, CLIENT_SUITES + [SCSV], [0], extensions)
  }

  function BinderKey(cr: Crypto, psk: Bytes): Bytes {
    FinishedKey(cr, ExpandLabel(cr, EarlySecret(cr, psk), Ascii("res binder"), [], HASH_SIZE))
  }

  /** The binder is taken over the whole hello with a zero binder, not over the part before the binders. */
  function Binder(cr: Crypto, psk: Bytes, hello: Bytes): Digest { cr.hmac(BinderKey(cr, psk), cr.hash(hello)) }

  function AllExtensions(cr: Crypto, h: Hello, tickets: seq<Ticket>, now: nat): seq<Extension> {
    var base := BaseExtensions(h);
    match PskOffer(tickets, now)
    case None => base
    case Some(p) =>
      var zero := base + [p.ext];
      ReplacePsk(zero, SetBinder(p, Binder(cr, p.psk, ClientHelloBytes(HelloMessage(h, zero)))).ext)
  }

  function HelloBytes(cr: Crypto, h: Hello, tickets: seq<Ticket>, now: nat): Bytes {
    ClientHelloBytes(HelloMessage(h, AllExtensions(cr, h, tickets, now)))
  }

  // ----- the binder -----

  lemma BaseHasNoPsk(h: Hello)
    requires h.share.tag == CURVE_SM2 || h.share.tag == CURVE_X25519
    ensures forall i :: 0 <= i < |BaseExtensions(h)| ==> BaseExtensions(h)[i].tag != EXT_PRE_SHARED_KEY
  {
  }

  lemma ReplaceLast(base: seq<Extension>, zero: Extension, psk: Extension)
    requires zero.tag == EXT_PRE_SHARED_KEY
    requires forall i :: 0 <= i < |base| ==> base[i].tag != EXT_PRE_SHARED_KEY
    ensures ReplacePsk(base + [zero], psk) == base + [psk]
  {
  }

  /** A hello whose last extension is e: everything up to the data of e depends on its length only. */
  function HelloFront(h: Hello, base: seq<Extension>, tag: u16, n: nat): Bytes {
    var entries := EntriesBytes(base) + (U16(tag) + U16(n));
    var block := U16(|entries| + n) + entries;
    var m := HelloMessage(h, []);
    var tail := U16(2 * |m.suites|) + U16s(m.suites) + (Vec8(m.compression) + block);
    var body := U16(m.version) + m.random + (Vec8(m.sessionID) + tail);
    [CLIENT_HELLO] + U24(|body| + n) + body
  }

  lemma BlockEndsWith(base: seq<Extension>, e: Extension)
    ensures var entries := EntriesBytes(base) + (U16(e.tag) + U16(|e.data|));
      Block(base + [e]) == U16(|entries| + |e.data|) + entries + e.data
  {
    hide EntriesBytes, U16;
    EntriesSnoc(base, e);
    BlockJoins(EntriesBytes(base), U16(e.tag) + U16(|e.data|), e.data);
  }

  lemma BlockJoins(front: Bytes, header: Bytes, data: Bytes)
    ensures var entries := front + header;
      U16(|front + (header + data)|) + (front + (header + data)) == U16(|entries| + |data|) + entries + data
  {
    Assoc(front, header, data);
    Assoc(U16(|front + header| + |data|), front + header, data);
  }

  lemma HelloEndsWith(h: Hello, base: seq<Extension>, e: Extension)
    ensures ClientHelloBytes(HelloMessage(h, base + [e])) == HelloFront(h, base, e.tag, |e.data|) + e.data
  {
    var m := HelloMessage(h, base + [e]);
    var entries := EntriesBytes(base) + (U16(e.tag) + U16(|e.data|));
    var block := U16(|entries| + |e.data|) + entries;
    BlockEndsWith(base, e);
    Assoc(Vec8(m.compression), block, e.data);
    Assoc(U16(2 * |m.suites|) + U16s(m.suites), Vec8(m.compression) + block, e.data);
    var tail := U16(2 * |m.suites|) + U16s(m.suites) + (Vec8(m.compression) + block);
    Assoc(Vec8(m.sessionID), tail, e.data);
    Assoc(U16(m.version) + m.random, Vec8(m.sessionID) + tail, e.data);
    var body := U16(m.version) + m.random + (Vec8(m.sessionID) + tail);
    assert ClientHelloBody(m) == body + e.data;
    Assoc([CLIENT_HELLO] + U24(|body| + |e.data|), body, e.data);
  }

  lemma SentExtensions(cr: Crypto, h: Hello, tickets: seq<Ticket>, now: nat, front: Bytes)
    requires h.share.tag == CURVE_SM2 || h.share.tag == CURVE_X25519
    requires SelectTicket(tickets, now).Some?
    requires front == BeforeBinder(Identity(tickets[SelectTicket(tickets, now).value], now))
    ensures var p := PskOffer(tickets, now).value;
      var zero := ClientHelloBytes(HelloMessage(h, BaseExtensions(h) + [p.ext]));
      && p.ext == Tagged(EXT_PRE_SHARED_KEY, front + Zeros(HASH_SIZE))
      && AllExtensions(cr, h, tickets, now) ==
         BaseExtensions(h) + [Tagged(EXT_PRE_SHARED_KEY, front + Binder(cr, p.psk, zero))]
  {
    var base, p := BaseExtensions(h), PskOffer(tickets, now).value;
    var binder := Binder(cr, p.psk, ClientHelloBytes(HelloMessage(h, base + [p.ext])));
    var data := p.ext.data;
    assert data[..p.binderStart] == front && binder[..p.binderLen] == binder
      && data[p.binderStart + p.binderLen..] == [];
    assert SetBinder(p, binder).ext == Tagged(EXT_PRE_SHARED_KEY, front + binder);
    BaseHasNoPsk(h);
    ReplaceLast(base, p.ext, SetBinder(p, binder).ext);
  }

  lemma HelloEndsWithBinder(h: Hello, base: seq<Extension>, front: Bytes, binder: Digest)
    ensures ClientHelloBytes(HelloMessage(h, base + [Tagged(EXT_PRE_SHARED_KEY, front + binder)])) ==
            HelloFront(h, base, EXT_PRE_SHARED_KEY, |front| + HASH_SIZE) + front + binder
  {
    HelloEndsWith(h, base, Tagged(EXT_PRE_SHARED_KEY, front + binder));
    Assoc(HelloFront(h, base, EXT_PRE_SHARED_KEY, |front| + HASH_SIZE), front, binder);
  }

  /** Re-marshalling with the binder gives a hello of the same length that differs only in its last 32 bytes,
      which were zero and are the binder of the zero version. */
  lemma BinderPatchesTheEnd(cr: Crypto, h: Hello, tickets: seq<Ticket>, now: nat)
    requires h.share.tag == CURVE_SM2 || h.share.tag == CURVE_X25519
    requires PskOffer(tickets, now).Some?
    ensures var p := PskOffer(tickets, now).value;
      var zero := ClientHelloBytes(HelloMessage(h, BaseExtensions(h) + [p.ext]));
      var sent := HelloBytes(cr, h, tickets, now);
      var n := |zero| - HASH_SIZE;
      && |sent| == |zero| && 0 <= n && sent[..n] == zero[..n]
      && zero[n..] == Zeros(HASH_SIZE) && sent[n..] == Binder(cr, p.psk, zero)
  {
    var base, p := BaseExtensions(h), PskOffer(tickets, now).value;
    var front := BeforeBinder(Identity(tickets[SelectTicket(tickets, now).value], now));
    SentExtensions(cr, h, tickets, now, front);
    var zero := ClientHelloBytes(HelloMessage(h, base + [p.ext]));
    HelloEndsWithBinder(h, base, front, Zeros(HASH_SIZE));
    HelloEndsWithBinder(h, base, front, Binder(cr, p.psk, zero));
  }
}
