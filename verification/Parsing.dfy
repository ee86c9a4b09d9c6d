/** What the parsers accept, exactly: for each, a byte string is taken for a value if and only if it starts with the
    bytes that print the value. What they tolerate beyond that is in the statements: bytes behind the end, a length
    that nobody looks at, extensions of a certificate that are skipped. */
module Parsing {
  import opened Prelude
  import opened Crypto
  import opened Extensions
  import opened HandshakeMessages
  import opened Certificates
  import opened Tickets

  // ----- lists -----

  lemma {:induction false} U16sPrint(s: Bytes)
    requires |s| % 2 == 0
    ensures U16s(ReadU16s(s)) == s
  {
    if s != [] {
      U16sPrint(s[2..]);
      U16Print(s[..2]);
      assert s == s[..2] + s[2..];
    }
  }

  /** supported_groups and signature_algorithms: a length of two bytes, then the list. */
  lemma U16ListExactly(data: Bytes, xs: seq<u16>)
    ensures ParseU16List(data) == Success(xs) <==>
      |data| >= 2 && data[0] as int * 256 + data[1] as int == 2 * |xs| && U16s(xs) <= data[2..]
  {
    if |data| >= 2 {
      ListAt(data, 2, ReadU16(data), xs);
    }
  }

  /** Of n bytes at some place a list of 16-bit values is read if and only if they are its printed form. */
  lemma ListAt(data: Bytes, at: nat, n: nat, xs: seq<u16>)
    requires at <= |data|
    ensures at + n <= |data| && n % 2 == 0 && ReadU16s(data[at..at + n]) == xs <==>
      n == 2 * |xs| && U16s(xs) <= data[at..]
  {
    hide U16s, ReadU16s;
    if at + n <= |data| && n % 2 == 0 {
      U16sPrint(data[at..at + n]);
      SliceOfDrop(data, at, 0, n);
    }
    if n == 2 * |xs| && U16s(xs) <= data[at..] {
      U16sRoundTrip(xs);
      SliceOfDrop(data, at, 0, n);
      assert data[at..][0..n] == U16s(xs);
    }
  }

  lemma Starts(data: Bytes, head: Bytes, body: Bytes)
    requires head + body <= data
    ensures data[..|head|] == head && data[|head|..|head| + |body|] == body && |data| >= |head| + |body|
    ensures |head| == 2 ==> ReadU16(data) == ReadU16(head)
  {
    assert data[..|head + body|] == head + body;
    assert data[|head|..|head| + |body|] == data[..|head + body|][|head|..];
  }

  /** supported_versions of a ClientHello: a length of one byte, then the list. */
  lemma VersionsExactly(data: Bytes, xs: seq<u16>)
    ensures ParseVersions(data) == Success(xs) <==> data != [] && data[0] == 2 * |xs| && U16s(xs) <= data[1..]
  {
    if data != [] {
      ListAt(data, 1, data[0] as int, xs);
    }
  }

  lemma StartsWithByte(data: Bytes, n: byte, body: Bytes)
    requires [n] + body <= data
    ensures |data| >= 1 + |body| && data[0] == n && data[1..1 + |body|] == body
  {
    assert data[..1 + |body|] == [n] + body;
    assert data[1..1 + |body|] == data[..1 + |body|][1..];
  }

  /** key_share of a ClientHello. */
  lemma KeyShareClientExactly(data: Bytes, entries: seq<KeyShareEntry>)
    ensures ParseKeyShareClient(data) == Success(entries) <==>
      EntriesFit(entries) && |EntriesBytes(entries)| < 0x1_0000 && Block(entries) <= data
  {
    hide EntriesBytes, ParseEntries, EntriesFit;
    BlockExactly(data, entries);
  }

  /** A list of tagged entries behind its length, at the front of a byte string. */
  lemma BlockExactly(data: Bytes, entries: seq<Tagged>)
    ensures |data| >= 2 && |data| - 2 >= ReadU16(data) && ParseEntries(data[2..2 + ReadU16(data)]) == Some(entries) <==>
      EntriesFit(entries) && |EntriesBytes(entries)| < 0x1_0000 && Block(entries) <= data
  {
    hide EntriesBytes, ParseEntries, EntriesFit;
    if |data| >= 2 && |data| - 2 >= ReadU16(data) && ParseEntries(data[2..2 + ReadU16(data)]) == Some(entries) {
      var n := ReadU16(data);
      EntriesPrint(data[2..2 + n]);
      U16Print(data[..2]);
      assert data[..2 + n] == data[..2] + data[2..2 + n];
    }
    if EntriesFit(entries) && |EntriesBytes(entries)| < 0x1_0000 && Block(entries) <= data {
      Starts(data, U16(|EntriesBytes(entries)|), EntriesBytes(entries));
      U16RoundTrip(|EntriesBytes(entries)|);
      EntriesRoundTrip(entries);
    }
  }

  /** key_share of a ServerHello: one entry. */
  lemma KeyShareServerExactly(data: Bytes, entry: KeyShareEntry)
    ensures ParseKeyShareServer(data) == Success(entry) <==> |entry.data| < 0x1_0000 && EntryBytes(entry) <= data
  {
    hide EntryBytes;
    if ParseKeyShareServer(data) == Success(entry) {
      EntryPrint(data);
    }
    if |entry.data| < 0x1_0000 && EntryBytes(entry) <= data {
      assert data == EntryBytes(entry) + data[|EntryBytes(entry)|..];
      EntryHead(entry, data[|EntryBytes(entry)|..]);
    }
  }

  // ----- ALPN -----

  lemma {:induction false} AlpnEntriesExactly(s: Bytes, listLen: int, protos: seq<Bytes>)
    ensures ParseAlpnEntries(s, listLen) == Some(protos) <==> AlpnShape(s, listLen, protos)
    decreases |protos|
  {
    if protos != [] && listLen > 0 {
      NameExactly(s, protos[0]);
      if s != [] && |s| - 1 >= s[0] && s[1..1 + s[0]] == protos[0] {
        AlpnEntriesExactly(s[1 + s[0]..], listLen - 1 - s[0], protos[1..]);
        assert [protos[0]] + protos[1..] == protos;
      }
      if ParseAlpnEntries(s, listLen) == Some(protos) {
        assert protos[0] == s[1..1 + s[0]];
        assert protos[1..] == ParseAlpnEntries(s[1 + s[0]..], listLen - 1 - s[0]).value;
      }
    }
  }

  lemma NameExactly(s: Bytes, name: Bytes)
    ensures s != [] && |s| - 1 >= s[0] && s[1..1 + s[0]] == name <==> |name| < 0x100 && [|name|] + name <= s
  {
    if s != [] && |s| - 1 >= s[0] && s[1..1 + s[0]] == name {
      assert s[..1 + s[0]] == [s[0]] + name;
    }
    if |name| < 0x100 && [|name|] + name <= s {
      StartsWithByte(s, |name|, name);
    }
  }

  /** Names behind their lengths, as many as start before the list is over. */
  ghost predicate AlpnShape(s: Bytes, listLen: int, protos: seq<Bytes>) {
    if listLen <= 0 then protos == []
    else
      && protos != [] && |protos[0]| < 0x100 && [|protos[0]|] + protos[0] <= s
      && AlpnShape(s[1 + |protos[0]|..], listLen - 1 - |protos[0]|, protos[1..])
  }

  /** ALPN: the last name may run past the end of the list, but not of the extension. */
  lemma AlpnExactly(data: Bytes, protos: seq<Bytes>)
    ensures ParseAlpn(data) == Success(protos) <==>
      |data| >= 2 && |data| - 2 >= data[0] as int * 256 + data[1] as int
      && AlpnShape(data[2..], data[0] as int * 256 + data[1] as int, protos)
  {
    hide ParseAlpnEntries, AlpnShape;
    if |data| >= 2 {
      AlpnEntriesExactly(data[2..], ReadU16(data), protos);
    }
  }

  // ----- hellos -----

  /** The extensions at the end of a hello: a list that is there in full, or none. */
  ghost predicate Trailing(s: Bytes, es: seq<Extension>) {
    if |s| >= 2 && |s| - 2 >= s[0] as int * 256 + s[1] as int then
      EntriesFit(es) && |EntriesBytes(es)| < 0x1_0000 && Block(es) <= s
    else es == []
  }

  lemma TrailingExactly(s: Bytes, es: seq<Extension>, error: Error)
    ensures ParseTrailingBlock(s, error) == Success(es) <==> Trailing(s, es)
  {
    hide EntriesBytes, ParseEntries, EntriesFit;
    BlockExactly(s, es);
  }

  /** Type, a length that is not looked at, version, random and session ID; then the rest. */
  ghost predicate HelloStarts(data: Bytes, typ: byte, version: u16, random: Bytes, sessionID: Bytes, rest: Bytes) {
    && |random| == 32 && |sessionID| < 0x100 && |data| >= 4
    && data == [typ] + data[1..4] + [version / 256, version % 256] + random + [|sessionID|] + sessionID + rest
  }

  lemma HelloStartsExactly(data: Bytes, typ: byte, version: u16, random: Bytes, sessionID: Bytes, rest: Bytes)
    ensures HelloStarts(data, typ, version, random, sessionID, rest) <==>
      && |data| >= 39 && data[0] == typ && |data| - 39 >= data[38] && ReadU16(data[4..]) == version
      && data[6..38] == random && data[39..39 + data[38]] == sessionID && data[39 + data[38]..] == rest
  {
    if HelloStarts(data, typ, version, random, sessionID, rest) {
      assert data[38] == |sessionID|;
    }
    if |data| >= 39 && data[0] == typ && |data| - 39 >= data[38] && ReadU16(data[4..]) == version
      && data[6..38] == random && data[39..39 + data[38]] == sessionID && data[39 + data[38]..] == rest {
      assert [version / 256, version % 256] == data[4..6];
      HelloParts(data, data[38] as int);
    }
  }

  lemma HelloParts(data: Bytes, n: nat)
    requires |data| >= 39 + n && data[38] == n
    ensures data == [data[0]] + data[1..4] + data[4..6] + data[6..38] + [n] + data[39..39 + n] + data[39 + n..]
  {
  }

  /** A ServerHello: then the suite, the compression method and the extensions. */
  lemma ServerHelloExactly(data: Bytes, m: ServerHello)
    ensures ParseServerHello(data) == Success(m) <==>
      exists rest :: HelloStarts(data, 2, m.version, m.random, m.sessionID, rest) && ServerHelloEnds(rest, m)
  {
    hide ParseTrailingBlock, HelloStarts, Trailing;
    if |data| >= 39 && |data| - 39 >= data[38] {
      var rest := data[39 + data[38]..];
      HelloStartsExactly(data, 2, m.version, m.random, m.sessionID, rest);
      if |rest| >= 3 {
        TrailingExactly(rest[3..], m.extensions, BadServerHello);
      }
    }
    forall rest | HelloStarts(data, 2, m.version, m.random, m.sessionID, rest) && ServerHelloEnds(rest, m)
      ensures ParseServerHello(data) == Success(m)
    {
      HelloStartsExactly(data, 2, m.version, m.random, m.sessionID, rest);
    }
  }

  ghost predicate ServerHelloEnds(s: Bytes, m: ServerHello) {
    |s| >= 3 && m.suite == s[0] as int * 256 + s[1] as int && m.compression == s[2] && Trailing(s[3..], m.extensions)
  }

  /** A ClientHello: then the suites, of whose length an odd half is ignored, the compression methods and the
      extensions. */
  lemma ClientHelloExactly(data: Bytes, m: ClientHello)
    ensures ParseClientHello(data) == Success(m) <==>
      exists rest :: HelloStarts(data, 1, m.version, m.random, m.sessionID, rest) && ClientHelloEnds(rest, m)
  {
    hide ParseSuitesPart, HelloStarts, ClientHelloEnds;
    if |data| >= 39 && |data| - 39 >= data[38] {
      var rest := data[39 + data[38]..];
      HelloStartsExactly(data, 1, m.version, m.random, m.sessionID, rest);
      SuitesPartExactly(rest, m);
    }
    forall rest | HelloStarts(data, 1, m.version, m.random, m.sessionID, rest) && ClientHelloEnds(rest, m)
      ensures ParseClientHello(data) == Success(m)
    {
      HelloStartsExactly(data, 1, m.version, m.random, m.sessionID, rest);
    }
  }

  ghost predicate ClientHelloEnds(s: Bytes, m: ClientHello) {
    && |s| >= 2 && |s| - 2 >= s[0] as int * 256 + s[1] as int && (s[0] as int * 256 + s[1] as int) / 2 == |m.suites|
    && U16s(m.suites) <= s[2..] && |m.compression| < 0x100
    && var t := s[2 + 2 * |m.suites|..];
      [|m.compression|] + m.compression <= t && Trailing(t[1 + |m.compression|..], m.extensions)
  }

  lemma SuitesPartExactly(s: Bytes, m: ClientHello)
    ensures ParseSuitesPart(s) == Success((m.suites, m.compression, m.extensions)) <==> ClientHelloEnds(s, m)
    ensures ClientHelloEnds(s, m) ==> |s| >= 3
  {
    hide ParseTrailingBlock, Trailing, U16s, ReadU16s;
    if |s| >= 2 && |s| - 2 >= ReadU16(s) {
      var n := ReadU16(s) / 2;
      ListAt(s, 2, 2 * n, m.suites);
      CompressionExactly(s[2 + 2 * n..], m.compression, m.extensions);
      if n == |m.suites| {
        assert U16s(m.suites) <= s[2..] <==> s[2..2 + 2 * n] == U16s(m.suites);
      }
    }
  }

  lemma CompressionExactly(t: Bytes, compression: Bytes, es: seq<Extension>)
    ensures ParseCompressionPart(t) == Success((compression, es)) <==>
      |compression| < 0x100 && [|compression|] + compression <= t && Trailing(t[1 + |compression|..], es)
  {
    hide ParseTrailingBlock, Trailing;
    if t != [] && |t| - 1 >= t[0] {
      TrailingExactly(t[1 + t[0]..], es, BadClientHello);
      assert t[..1 + t[0]] == [t[0]] + t[1..1 + t[0]];
    }
    if |compression| < 0x100 && [|compression|] + compression <= t {
      Starts(t, [|compression|], compression);
    }
  }

  /** EncryptedExtensions. */
  lemma EncryptedExtensionsExactly(data: Bytes, es: seq<Extension>)
    ensures ParseEncryptedExtensions(data) == Success(es) <==>
      EntriesFit(es) && |EntriesBytes(es)| < 0x1_0000 && EncryptedExtensionsBytes(es) <= data
  {
    hide EntriesBytes, ParseEntries, EntriesFit;
    if ParseEncryptedExtensions(data) == Success(es) {
      ExtensionsPrint(data, es);
    }
    if EntriesFit(es) && |EntriesBytes(es)| < 0x1_0000 && EncryptedExtensionsBytes(es) <= data {
      ExtensionsBehind(data, es);
    }
  }

  lemma ExtensionsPrint(data: Bytes, es: seq<Extension>)
    requires ParseEncryptedExtensions(data) == Success(es)
    ensures EntriesFit(es) && |EntriesBytes(es)| < 0x1_0000 && EncryptedExtensionsBytes(es) <= data
  {
    hide EntriesBytes, ParseEntries, EntriesFit;
    var n := ReadU24(data[1..]);
    SliceOfDrop(data, 4, 2, n);
    BlockExactly(data[4..], es);
    U24Print(data[1..4]);
    assert data[..4 + n] == [data[0]] + data[1..4] + data[4..4 + n];
    assert data[4..4 + n] == Block(es);
  }

  lemma ExtensionsBehind(data: Bytes, es: seq<Extension>)
    requires EntriesFit(es) && |EntriesBytes(es)| < 0x1_0000 && EncryptedExtensionsBytes(es) <= data
    ensures ParseEncryptedExtensions(data) == Success(es)
  {
    hide EntriesBytes, ParseEntries, EntriesFit;
    var rest, n := data[|EncryptedExtensionsBytes(es)|..], |Block(es)|;
    assert data == EncryptedExtensionsBytes(es) + rest;
    MessageSplits(ENCRYPTED_EXTENSIONS, Block(es), rest);
    assert data[4..4 + n] == Block(es);
    SliceOfDrop(data, 4, 2, n);
    BlockExactly(data[4..], es);
    BlockFields(es);
    assert ReadU16(data[4..]) == ReadU16(Block(es));
  }

  // ----- certificates and proofs -----

  /** Certificates behind their lengths, each followed by extensions that are skipped. */
  ghost predicate ChainShape(s: Bytes, chain: seq<Bytes>)
    decreases |chain|
  {
    if s == [] || chain == [] then s == [] && chain == []
    else
      var n := |chain[0]|;
      && n < 0x100_0000 && U24(n) + chain[0] <= s && |s| >= 5 + n
      && var skipped := s[3 + n] as int * 256 + s[4 + n] as int;
        |s| >= 5 + n + skipped && ChainShape(s[5 + n + skipped..], chain[1..])
  }

  lemma {:induction false} ChainExactly(s: Bytes, chain: seq<Bytes>)
    ensures ParseCertificateEntries(s) == Some(chain) <==> ChainShape(s, chain)
    decreases |chain|
  {
    hide ParseCertificateEntry;
    if s != [] && chain != [] {
      if ParseCertificateEntries(s) == Some(chain) {
        var (der, rest) := ParseCertificateEntry(s).value;
        assert chain[0] == der && chain[1..] == ParseCertificateEntries(rest).value;
        CertificatePrint(s);
        ChainExactly(rest, chain[1..]);
      }
      if ChainShape(s, chain) {
        CertificateBehind(s, chain[0]);
        ChainExactly(ParseCertificateEntry(s).value.1, chain[1..]);
        assert [chain[0]] + chain[1..] == chain;
      }
    }
  }

  lemma CertificatePrint(s: Bytes)
    requires ParseCertificateEntry(s).Some?
    ensures var (der, rest) := ParseCertificateEntry(s).value; var n := |der|;
      && n < 0x100_0000 && U24(n) + der <= s && |s| >= 5 + n
      && var skipped := s[3 + n] as int * 256 + s[4 + n] as int;
        |s| >= 5 + n + skipped && rest == s[5 + n + skipped..]
  {
    var n := ReadU24(s);
    U24Print(s[..3]);
    assert s[..3 + n] == s[..3] + s[3..3 + n];
  }

  lemma CertificateBehind(s: Bytes, der: Bytes)
    requires var n := |der|;
      && n < 0x100_0000 && U24(n) + der <= s && |s| >= 5 + n
      && |s| >= 5 + n + (s[3 + n] as int * 256 + s[4 + n] as int)
    ensures var n := |der|;
      ParseCertificateEntry(s) == Some((der, s[5 + n + (s[3 + n] as int * 256 + s[4 + n] as int)..]))
  {
    Starts(s, U24(|der|), der);
    U24RoundTrip(|der|);
    assert ReadU24(s) == ReadU24(s[..3]);
  }

  /** Certificate: type, a length that is not looked at, a context that is not either, and the list. */
  lemma CertificateExactly(cr: Crypto, data: Bytes, cert: Certificate)
    ensures ParseCertificate(cr, data) == Success(cert) <==>
      |data| >= 5 && data[0] == 11 && |data| - 8 >= data[4]
      && var s := data[5 + data[4]..]; var n := s[0] as int * 65536 + s[1] as int * 256 + s[2] as int;
        |s| - 3 >= n && ChainShape(s[3..3 + n], cert.chain)
        && cert == (if cert.chain == [] then Certificate([], [], None)
                    else Certificate(cert.chain[0], cert.chain, cr.certificateKey(cert.chain[0])))
  {
    hide ParseCertificateEntries;
    if |data| >= 5 && data[0] == 11 && |data| - 8 >= data[4] {
      var s := data[5 + data[4]..];
      var n := ReadU24(s);
      if |s| - 3 >= n {
        ChainExactly(s[3..3 + n], cert.chain);
        if n == 0 {
          ChainExactly([], cert.chain);
        } else {
          SomeCertificate(s[3..3 + n]);
          NoShape(s[3..3 + n]);
        }
      }
    }
  }

  lemma NoShape(s: Bytes)
    requires s != []
    ensures !ChainShape(s, [])
  {
  }

  /** CertificateRequest: only the context is read, but there must be two bytes behind it. */
  lemma CertificateRequestExactly(data: Bytes, context: Bytes)
    ensures ParseCertificateRequest(data) == Success(context) <==>
      |data| >= 7 + |context| && data[0] == 13 && |context| < 0x100 && [|context|] + context <= data[4..]
  {
    if |data| >= 5 + |context| && |context| < 0x100 {
      assert data[4..][..1 + |context|] == [data[4]] + data[5..5 + |context|];
      if [|context|] + context <= data[4..] {
        Starts(data[4..], [|context|], context);
      }
    }
  }

  /** CertificateVerify: the length is taken modulo 2^16, and so is the place where the signature ends. */
  lemma CertificateVerifyExactly(data: Bytes, m: CertificateVerify)
    ensures ParseCertificateVerify(data) == Success(m) <==>
      |data| >= 8 && data[0] == 15 && |m.signature| <= 65527 && 8 + |m.signature| <= |data| % 0x1_0000
      && [m.algorithm / 256, m.algorithm % 256, |m.signature| / 256, |m.signature| % 256] + m.signature <= data[4..]
  {
    if |data| >= 8 && |m.signature| <= 65527 {
      var n := |m.signature|;
      VerifyHead(data, m.algorithm, n);
      if |data| >= 8 + n {
        var head := [m.algorithm / 256, m.algorithm % 256, n / 256, n % 256];
        assert data[4..][..4 + n] == data[4..8] + data[8..8 + n];
        if head + m.signature <= data[4..] {
          Starts(data[4..], head, m.signature);
        }
      }
    }
  }

  lemma VerifyHead(data: Bytes, algorithm: u16, n: u16)
    requires |data| >= 8
    ensures data[4..8] == [algorithm / 256, algorithm % 256, n / 256, n % 256] <==>
      ReadU16(data[4..]) == algorithm && ReadU16(data[6..]) == n
  {
    var four := data[4..8];
    assert four == [data[4], data[5], data[6], data[7]];
    TwoBytes(data[4], data[5], algorithm);
    TwoBytes(data[6], data[7], n);
  }

  lemma TwoBytes(high: byte, low: byte, n: u16)
    ensures high == n / 256 && low == n % 256 <==> high * 256 + low == n
  {
  }

  /** Finished: everything behind a header whose length is not looked at. */
  lemma FinishedExactly(data: Bytes, verifyData: Bytes)
    ensures ParseFinished(data) == Success(verifyData) <==> |data| >= 4 && data[0] == 20 && data[4..] == verifyData
  {
  }

  // ----- tickets -----

  /** NewSessionTicket: lifetime, age offset, nonce, ticket and extensions, which are skipped. */
  lemma TicketExactly(body: Bytes, t: Ticket)
    ensures ParseTicket(body) == Success(t) <==>
      t.psk == [] && t.receivedAt == 0 && |t.nonce| < 0x100 && |t.ticket| < 0x1_0000
      && exists extensions: Bytes :: |extensions| < 0x1_0000 && TicketBody(t, extensions) <= body
  {
    hide TicketBody;
    if ParseTicket(body) == Success(t) {
      var extensions := TicketPrint(body, t);
    }
    forall extensions: Bytes | TicketFits(t, extensions) && TicketBody(t, extensions) <= body
      ensures ParseTicket(body) == Success(t)
    {
      TicketBehind(body, t, extensions);
    }
  }

  lemma TicketPrint(body: Bytes, t: Ticket) returns (extensions: Bytes)
    requires ParseTicket(body) == Success(t)
    ensures TicketFits(t, extensions) && TicketBody(t, extensions) <= body
  {
    var k := body[8] as int;
    var s := body[9 + k..];
    extensions := TailPrint(s, t.ticket);
    HeadPrint(body, k);
    assert body[..9 + k] + s == body;
    var tail := U16(|t.ticket|) + t.ticket + (U16(|extensions|) + extensions);
    assert TicketBody(t, extensions) == body[..9 + k] + tail;
    assert body[..9 + k] + tail <= body[..9 + k] + s;
  }

  lemma HeadPrint(body: Bytes, k: nat)
    requires |body| >= 9 + k && body[8] == k
    ensures U32(ReadU32(body)) + U32(ReadU32(body[4..])) + [k % 0x100] + body[9..9 + k] == body[..9 + k]
  {
    hide U32, ReadU32;
    U32Print(body[0..4]);
    U32Print(body[4..8]);
    Numbers(body);
    assert body[..9 + k] == body[0..4] + body[4..8] + [body[8]] + body[9..9 + k];
  }

  lemma TailPrint(s: Bytes, ticket: Bytes) returns (extensions: Bytes)
    requires var n := |ticket|;
      |s| >= 4 + n && ReadU16(s) == n && |s| - 4 - n >= ReadU16(s[2 + n..]) && s[2..2 + n] == ticket
    ensures |extensions| < 0x1_0000 && U16(|ticket|) + ticket + (U16(|extensions|) + extensions) <= s
  {
    var n := |ticket|;
    var m := ReadU16(s[2 + n..]);
    extensions := s[4 + n..4 + n + m];
    U16Print(s[..2]);
    U16Print(s[2 + n..4 + n]);
    assert s[..4 + n + m] == s[..2] + s[2..2 + n] + (s[2 + n..4 + n] + extensions);
  }

  lemma U32Print(s: Bytes)
    requires |s| == 4
    ensures U32(ReadU32(s)) == s
  {
    var high, low := ReadU16(s), ReadU16(s[2..]);
    U16Low(high, low);
    U16Print(s[..2]);
    U16Print(s[2..]);
    assert (high * 0x1_0000 + low) / 0x1_0000 == high;
    assert s == s[..2] + s[2..];
  }

  lemma TicketBehind(body: Bytes, t: Ticket, extensions: Bytes)
    requires TicketFits(t, extensions) && TicketBody(t, extensions) <= body
    ensures ParseTicket(body) == Success(t)
  {
    hide U32, ReadU32;
    var tail := U16(|t.ticket|) + t.ticket + (U16(|extensions|) + extensions);
    var rest := body[|TicketBody(t, extensions)|..];
    assert body == U32(t.lifetime) + U32(t.ageAdd) + [|t.nonce| % 0x100] + t.nonce + (tail + rest);
    TicketHead(t, tail + rest);
    TicketTail(t.ticket, extensions);
    TailBehind(tail, rest, |t.ticket|);
  }

  lemma TailBehind(tail: Bytes, rest: Bytes, n: nat)
    requires |tail| >= 4 + n
    ensures ReadU16(tail + rest) == ReadU16(tail) && (tail + rest)[2..2 + n] == tail[2..2 + n]
    ensures ReadU16((tail + rest)[2 + n..]) == ReadU16(tail[2 + n..])
  {
  }
}
