/** handshake.go: the handshake messages. Printers append to a buffer and patch the length in place;
    parsers move an offset. Each is proved equal to a function, and the lemmas relate the functions. */
module HandshakeMessages {
  import opened Prelude
  import opened Extensions

  const CLIENT_HELLO: byte := 1
  const SERVER_HELLO: byte := 2
  const NEW_SESSION_TICKET: byte := 4
  const ENCRYPTED_EXTENSIONS: byte := 8
  const CERTIFICATE: byte := 11
  const CERTIFICATE_REQUEST: byte := 13
  const CERTIFICATE_VERIFY: byte := 15
  const FINISHED: byte := 20
  const MESSAGE_HASH: byte := 254

  /** A handshake message: type, three-byte length, body. */
  function Message(typ: byte, body: Bytes): (m: Bytes)
    ensures |m| == 4 + |body|
  {
    [typ] + U24(|body|) + body
  }

  lemma MessageFields(typ: byte, body: Bytes)
    requires |body| < 0x100_0000
    ensures var m := Message(typ, body); m[0] == typ && ReadU24(m[1..]) == |body| && m[4..] == body
  {
    U24RoundTrip(|body|);
    assert Message(typ, body)[1..4] == U24(|body|);
    ReadAt(Message(typ, body), 1, 4 + |body|);
  }

  /** writeUint24(data[1:4], len(data)-4), done when the buffer is complete. */
  method PatchLength(buf: Bytes) returns (data: Bytes)
    requires |buf| >= 4
    ensures data == Message(buf[0], buf[4..])
  {
    var length := |buf| - 4;
    data := buf[1 := length / 0x1_0000 % 0x100][2 := length / 0x100 % 0x100][3 := length % 0x100];
    assert data == [buf[0]] + U24(length) + buf[4..];
  }

  datatype ClientHello = ClientHello(
    version: u16,
    random: Bytes,
    sessionID: Bytes,
    suites: seq<u16>,
    compression: Bytes,
    extensions: seq<Extension>)

  datatype ServerHello = ServerHello(
    version: u16,
    random: Bytes,
    sessionID: Bytes,
    suite: u16,
    compression: byte,
    extensions: seq<Extension>)

  function Vec8(s: Bytes): (v: Bytes)
    ensures |v| == 1 + |s|
  {
    [|s| % 0x100] + s
  }

  /** The extension block that may end a hello. A missing or truncated block is read as no extensions. */
  function ParseTrailingBlock(s: Bytes, error: Error): Result<seq<Extension>> {
    if |s| < 2 || |s| - 2 < ReadU16(s) then Success([])
    else
      match ParseEntries(s[2..2 + ReadU16(s)])
      case None => Failure(error)
      case Some(es) => Success(es)
  }

  lemma TrailingBlockRoundTrip(es: seq<Extension>, error: Error)
    requires EntriesFit(es) && |EntriesBytes(es)| < 0x1_0000
    ensures ParseTrailingBlock(Block(es), error) == Success(es)
  {
    BlockFields(es);
    EntriesRoundTrip(es);
  }

  method ReadTrailingBlock(data: Bytes, offset: nat, error: Error) returns (r: Result<seq<Extension>>)
    requires offset <= |data|
    ensures r == ParseTrailingBlock(data[offset..], error)
  {
    if offset + 2 > |data| {
      return Success([]);
    }
    var extLen := ReadU16(data[offset..offset + 2]);
    var start := offset + 2;
    if start + extLen > |data| {
      return Success([]);
    }
    assert data[offset..][2..2 + extLen] == data[start..start + extLen];
    var es := ParseEntriesFrom(data, start, start + extLen);
    match es {
      case None => r := Failure(error);
      case Some(v) => r := Success(v);
    }
  }

  // ----- ClientHello -----

  function CompressionPart(m: ClientHello): Bytes { Vec8(m.compression) + Block(m.extensions) }

  function SuitesPart(m: ClientHello): Bytes { U16(2 * |m.suites|) + U16s(m.suites) + CompressionPart(m) }

  function ClientHelloBody(m: ClientHello): Bytes {
    U16(m.version) + m.random + (Vec8(m.sessionID) + SuitesPart(m))
  }

  function ClientHelloBytes(m: ClientHello): Bytes { Message(CLIENT_HELLO, ClientHelloBody(m)) }

  predicate ClientHelloFits(m: ClientHello) {
    && |m.random| == 32
    && |m.sessionID| < 0x100
    && |m.suites| < 0x8000
    && |m.compression| < 0x100
    && EntriesFit(m.extensions)
    && |EntriesBytes(m.extensions)| < 0x1_0000
  }

  function ParseCompressionPart(t: Bytes): Result<(Bytes, seq<Extension>)> {
    if t == [] || |t| - 1 < t[0] then Failure(BadClientHello)
    else
      var es :- ParseTrailingBlock(t[1 + t[0]..], BadClientHello);
      Success((t[1..1 + t[0]], es))
  }

  /** What follows the session ID. An odd suite length leaves its last byte to be read as the compression length. */
  function ParseSuitesPart(s: Bytes): Result<(seq<u16>, Bytes, seq<Extension>)> {
    if |s| < 2 || |s| - 2 < ReadU16(s) then Failure(BadClientHello)
    else
      var n := ReadU16(s) / 2;
      var p :- ParseCompressionPart(s[2 + 2 * n..]);
      Success((ReadU16s(s[2..2 + 2 * n]), p.0, p.1))
  }

  /** The message length is not looked at. */
  function ParseClientHello(data: Bytes): Result<ClientHello> {
    if |data| < 42 || data[0] != CLIENT_HELLO || |data| - 39 < data[38] then Failure(BadClientHello)
    else
      var p :- ParseSuitesPart(data[39 + data[38]..]);
      Success(ClientHello(ReadU16(data[4..]), data[6..38], data[39..39 + data[38]], p.0, p.1, p.2))
  }

  lemma SplitVec8(v: Bytes, tail: Bytes)
    requires |v| < 0x100
    ensures var s := Vec8(v) + tail;
      s[0] == |v| && s[1..1 + |v|] == v && s[1 + |v|..] == tail
  {
  }

  /** Both hellos start the same way: type, length, version, random, then a session ID vector. */
  lemma HelloHead(typ: byte, version: u16, random: Bytes, sessionID: Bytes, tail: Bytes)
    requires |random| == 32 && |sessionID| < 0x100
    ensures var data := Message(typ, U16(version) + random + (Vec8(sessionID) + tail));
      && data[0] == typ && ReadU16(data[4..]) == version && data[6..38] == random
      && |data| == 39 + |sessionID| + |tail| && data[38] == |sessionID|
      && data[39..39 + |sessionID|] == sessionID && data[39 + |sessionID|..] == tail
  {
    var body := U16(version) + random + (Vec8(sessionID) + tail);
    var data := Message(typ, body);
    U16RoundTrip(version);
    assert data[4..] == body;
    assert body[..2] == U16(version) && body[2..34] == random && body[34..] == Vec8(sessionID) + tail;
    assert data[38..] == body[34..] && data[6..38] == body[2..34];
    SplitVec8(sessionID, tail);
  }

  lemma SuitesPartParses(m: ClientHello)
    requires ClientHelloFits(m)
    ensures ParseSuitesPart(SuitesPart(m)) == Success((m.suites, m.compression, m.extensions))
  {
    var s, t, n := SuitesPart(m), CompressionPart(m), |m.suites|;
    U16RoundTrip(2 * n);
    assert s[..2] == U16(2 * n) && ReadU16(s) == ReadU16(s[..2]);
    assert s[2..2 + 2 * n] == U16s(m.suites) && s[2 + 2 * n..] == t;
    U16sRoundTrip(m.suites);
    SplitVec8(m.compression, Block(m.extensions));
    TrailingBlockRoundTrip(m.extensions, BadClientHello);
  }

  lemma ClientHelloRoundTrip(m: ClientHello)
    requires ClientHelloFits(m)
    ensures ParseClientHello(ClientHelloBytes(m)) == Success(m)
  {
    HelloHead(CLIENT_HELLO, m.version, m.random, m.sessionID, SuitesPart(m));
    SuitesPartParses(m);
  }

  /** Type, placeholder length, version, random and session ID: how both printers begin. */
  method WriteHelloHead(typ: byte, version: u16, random: Bytes, sessionID: Bytes) returns (buf: Bytes)
    ensures buf == [typ, 0, 0, 0] + (U16(version) + random) + Vec8(sessionID)
  {
    buf := [typ, 0, 0, 0];
    buf := buf + (U16(version) + random);
    if |sessionID| == 0 {
      buf := buf + [0];
    } else {
      buf := buf + [|sessionID| % 0x100];
      buf := buf + sessionID;
    }
  }

  method MarshalClientHello(m: ClientHello) returns (data: Bytes)
    ensures data == ClientHelloBytes(m)
  {
    var front := WriteHelloHead(CLIENT_HELLO, m.version, m.random, m.sessionID);
    var buf := AppendU16s(front + U16(2 * |m.suites|), m.suites);
    Assoc(front, U16(2 * |m.suites|), U16s(m.suites));
    ghost var afterSuites := buf;
    buf := buf + [|m.compression| % 0x100];
    for i := 0 to |m.compression|
      invariant buf == afterSuites + ([|m.compression| % 0x100] + m.compression[..i])
    {
      buf := buf + [m.compression[i]];
    }
    assert buf == afterSuites + Vec8(m.compression);
    var block := WriteBlock(m.extensions);
    buf := buf + block;
    JoinClientHello(m, front, afterSuites, buf);
    data := PatchLength(buf);
  }

  lemma JoinClientHello(m: ClientHello, front: Bytes, afterSuites: Bytes, buf: Bytes)
    requires front == [CLIENT_HELLO, 0, 0, 0] + (U16(m.version) + m.random) + Vec8(m.sessionID)
    requires afterSuites == front + (U16(2 * |m.suites|) + U16s(m.suites))
    requires buf == afterSuites + Vec8(m.compression) + Block(m.extensions)
    ensures |buf| >= 4 && buf[0] == CLIENT_HELLO && buf[4..] == ClientHelloBody(m)
  {
    var head := [CLIENT_HELLO, 0, 0, 0] + (U16(m.version) + m.random);
    Assoc(afterSuites, Vec8(m.compression), Block(m.extensions));
    Assoc(front, U16(2 * |m.suites|) + U16s(m.suites), CompressionPart(m));
    Assoc(head, Vec8(m.sessionID), SuitesPart(m));
    Assoc([CLIENT_HELLO, 0, 0, 0], U16(m.version) + m.random, Vec8(m.sessionID) + SuitesPart(m));
  }

  method ReadCompressionPart(data: Bytes, start: nat) returns (r: Result<(Bytes, seq<Extension>)>)
    requires start <= |data|
    ensures r == ParseCompressionPart(data[start..])
  {
    if start >= |data| {
      return Failure(BadClientHello);
    }
    var compressionLen := data[start] as int;
    var offset := start + 1;
    if offset + compressionLen > |data| {
      return Failure(BadClientHello);
    }
    var compression: Bytes := [];
    for i := 0 to compressionLen
      invariant compression == data[offset..offset + i]
    {
      compression := compression + [data[offset + i]];
    }
    SliceOfDrop(data, start, 1, 1 + compressionLen);
    offset := offset + compressionLen;
    SliceOfDrop(data, start, 1 + compressionLen, |data| - start);
    var es := ReadTrailingBlock(data, offset, BadClientHello);
    match es {
      case Failure(e) => r := Failure(e);
      case Success(v) => r := Success((compression, v));
    }
  }

  method ReadSuitesPart(data: Bytes, start: nat) returns (r: Result<(seq<u16>, Bytes, seq<Extension>)>)
    requires start <= |data|
    ensures r == ParseSuitesPart(data[start..])
  {
    var offset := start;
    if offset + 2 > |data| {
      return Failure(BadClientHello);
    }
    var suiteLen := ReadU16(data[offset..offset + 2]);
    assert suiteLen == ReadU16(data[start..]);
    offset := offset + 2;
    if offset + suiteLen > |data| {
      return Failure(BadClientHello);
    }
    var n := suiteLen / 2;
    var suites := ReadU16sFrom(data, offset, n);
    SliceOfDrop(data, start, 2, 2 + 2 * n);
    SliceOfDrop(data, start, 2 + 2 * n, |data| - start);
    offset := offset + 2 * n;
    var p := ReadCompressionPart(data, offset);
    match p {
      case Failure(e) => r := Failure(e);
      case Success((compression, es)) => r := Success((suites, compression, es));
    }
  }

  method UnmarshalClientHello(data: Bytes) returns (r: Result<ClientHello>)
    ensures r == ParseClientHello(data)
  {
    if |data| < 42 || data[0] != CLIENT_HELLO {
      return Failure(BadClientHello);
    }
    var version, random := ReadU16(data[4..6]), data[6..38];
    assert version == ReadU16(data[4..]);
    var offset := 38;
    var idLen := data[offset] as int;
    offset := offset + 1;
    if offset + idLen > |data| {
      return Failure(BadClientHello);
    }
    var sessionID := data[offset..offset + idLen];
    offset := offset + idLen;
    var p := ReadSuitesPart(data, offset);
    match p {
      case Failure(e) => r := Failure(e);
      case Success((suites, compression, es)) =>
        r := Success(ClientHello(version, random, sessionID, suites, compression, es));
    }
  }

  // ----- ServerHello -----

  function ServerHelloBody(m: ServerHello): Bytes {
    U16(m.version) + m.random + (Vec8(m.sessionID) + (U16(m.suite) + [m.compression] + Block(m.extensions)))
  }

  function ServerHelloBytes(m: ServerHello): Bytes { Message(SERVER_HELLO, ServerHelloBody(m)) }

  predicate ServerHelloFits(m: ServerHello) {
    && |m.random| == 32
    && |m.sessionID| < 0x100
    && EntriesFit(m.extensions)
    && |EntriesBytes(m.extensions)| < 0x1_0000
  }

  function ParseServerHello(data: Bytes): Result<ServerHello> {
    if |data| < 42 || data[0] != SERVER_HELLO || |data| - 39 < data[38] then Failure(BadServerHello)
    else
      var s := data[39 + data[38]..];
      if |s| < 3 then Failure(BadServerHello)
      else
        var es :- ParseTrailingBlock(s[3..], BadServerHello);
        Success(ServerHello(ReadU16(data[4..]), data[6..38], data[39..39 + data[38]], ReadU16(s), s[2], es))
  }

  lemma ServerHelloRoundTrip(m: ServerHello)
    requires ServerHelloFits(m)
    ensures ParseServerHello(ServerHelloBytes(m)) == Success(m)
  {
    var s := U16(m.suite) + [m.compression] + Block(m.extensions);
    HelloHead(SERVER_HELLO, m.version, m.random, m.sessionID, s);
    U16RoundTrip(m.suite);
    assert s[..2] == U16(m.suite) && s[2] == m.compression && s[3..] == Block(m.extensions);
    TrailingBlockRoundTrip(m.extensions, BadServerHello);
  }

  method MarshalServerHello(m: ServerHello) returns (data: Bytes)
    ensures data == ServerHelloBytes(m)
  {
    var front := WriteHelloHead(SERVER_HELLO, m.version, m.random, m.sessionID);
    var buf := front + (U16(m.suite) + [m.compression]);
    var block := WriteBlock(m.extensions);
    buf := buf + block;
    Assoc(front, U16(m.suite) + [m.compression], block);
    Assoc([SERVER_HELLO, 0, 0, 0] + (U16(m.version) + m.random), Vec8(m.sessionID),
      U16(m.suite) + [m.compression] + block);
    Assoc([SERVER_HELLO, 0, 0, 0], U16(m.version) + m.random,
      Vec8(m.sessionID) + (U16(m.suite) + [m.compression] + block));
    data := PatchLength(buf);
  }

  method UnmarshalServerHello(data: Bytes) returns (r: Result<ServerHello>)
    ensures r == ParseServerHello(data)
  {
    if |data| < 42 || data[0] != SERVER_HELLO {
      return Failure(BadServerHello);
    }
    var version, random := ReadU16(data[4..6]), data[6..38];
    var offset := 38;
    var idLen := data[offset] as int;
    offset := offset + 1;
    if offset + idLen > |data| {
      return Failure(BadServerHello);
    }
    var sessionID := data[offset..offset + idLen];
    offset := offset + idLen;
    ghost var s := data[offset..];
    if offset + 2 > |data| {
      return Failure(BadServerHello);
    }
    var suite := ReadU16(data[offset..offset + 2]);
    assert suite == ReadU16(s);
    offset := offset + 2;
    if offset >= |data| {
      return Failure(BadServerHello);
    }
    var compression := data[offset];
    offset := offset + 1;
    assert s[3..] == data[offset..];
    var es := ReadTrailingBlock(data, offset, BadServerHello);
    match es {
      case Failure(e) => r := Failure(e);
      case Success(v) => r := Success(ServerHello(version, random, sessionID, suite, compression, v));
    }
  }

  // ----- EncryptedExtensions -----

  function EncryptedExtensionsBytes(es: seq<Extension>): Bytes { Message(ENCRYPTED_EXTENSIONS, Block(es)) }

  function ParseEncryptedExtensions(data: Bytes): Result<seq<Extension>> {
    if data == [] then Failure(Panic)
    else if data[0] != ENCRYPTED_EXTENSIONS || |data| < 4 || |data| - 4 < ReadU24(data[1..])
            || ReadU24(data[1..]) < 2 || ReadU24(data[1..]) != 2 + ReadU16(data[4..])
      then Failure(BadEncryptedExtensions)
    else
      match ParseEntries(data[6..6 + ReadU16(data[4..])])
      case None => Failure(BadEncryptedExtensions)
      case Some(es) => Success(es)
  }

  lemma EncryptedExtensionsRoundTrip(es: seq<Extension>)
    requires EntriesFit(es) && |EntriesBytes(es)| < 0x1_0000
    ensures ParseEncryptedExtensions(EncryptedExtensionsBytes(es)) == Success(es)
  {
    var data, n := EncryptedExtensionsBytes(es), |EntriesBytes(es)|;
    hide EntriesBytes, ParseEntries, U16, U24;
    MessageFields(ENCRYPTED_EXTENSIONS, Block(es));
    BlockFields(es);
    SliceOfDrop(data, 4, 2, 2 + n);
    EntriesRoundTrip(es);
  }

  /** The converse: on a message as long as its header says, which is what readTLS13HandshakeMsg hands
      over, printing the parsed extensions gives the same bytes. */
  lemma EncryptedExtensionsPrint(data: Bytes)
    requires |data| >= 4 && |data| == 4 + ReadU24(data[1..])
    requires ParseEncryptedExtensions(data).Success?
    ensures EncryptedExtensionsBytes(ParseEncryptedExtensions(data).value) == data
  {
    assert data[4..][2..] == data[6..] == data[6..6 + ReadU16(data[4..])];
    BlockPrint(data[4..]);
    SplitPrints(data);
    assert data[4..4 + ReadU24(data[1..])] == data[4..];
  }

  method MarshalEncryptedExtensions(es: seq<Extension>) returns (data: Bytes)
    ensures data == EncryptedExtensionsBytes(es)
  {
    var buf: Bytes := [ENCRYPTED_EXTENSIONS, 0, 0, 0];
    var block := WriteBlock(es);
    buf := buf + block;
    assert buf[4..] == block;
    data := PatchLength(buf);
  }

  method UnmarshalEncryptedExtensions(data: Bytes) returns (r: Result<seq<Extension>>)
    ensures r == ParseEncryptedExtensions(data)
  {
    if |data| == 0 {
      return Failure(Panic);
    }
    if data[0] != ENCRYPTED_EXTENSIONS || |data| < 4 {
      return Failure(BadEncryptedExtensions);
    }
    var msgLen := ReadU24(data[1..4]);
    assert msgLen == ReadU24(data[1..]);
    if |data| < 4 + msgLen || msgLen < 2 {
      return Failure(BadEncryptedExtensions);
    }
    var extLen := ReadU16(data[4..6]);
    assert extLen == ReadU16(data[4..]);
    if msgLen != 2 + extLen {
      return Failure(BadEncryptedExtensions);
    }
    var es := ParseEntriesFrom(data, 6, 6 + extLen);
    match es {
      case None => r := Failure(BadEncryptedExtensions);
      case Some(v) => r := Success(v);
    }
  }

  // ----- CertificateVerify -----

  datatype CertificateVerify = CertificateVerify(algorithm: u16, signature: Bytes)

  function CertificateVerifyBytes(m: CertificateVerify): Bytes {
    Message(CERTIFICATE_VERIFY, U16(m.algorithm) + U16(|m.signature|) + m.signature)
  }

  /** All of the length check is uint16 arithmetic: the message length is truncated and 8 + sigLen wraps. When it
      wraps, the slice data[8:8+sigLen] ends before it starts, which panics. */
  function ParseCertificateVerify(data: Bytes): Result<CertificateVerify> {
    if data == [] then Failure(Panic)
    else if data[0] != CERTIFICATE_VERIFY || |data| < 8 then Failure(BadCertificateVerify)
    else
      var end := (8 + ReadU16(data[6..])) % 0x1_0000;
      if |data| % 0x1_0000 < end then Failure(BadCertificateVerify)
      else if end < 8 then Failure(Panic)
      else Success(CertificateVerify(ReadU16(data[4..]), data[8..end]))
  }

  lemma CertificateVerifyFields(m: CertificateVerify)
    ensures var data := CertificateVerifyBytes(m);
      && |data| == 8 + |m.signature| && data[0] == CERTIFICATE_VERIFY
      && ReadU16(data[4..]) == m.algorithm && ReadU16(data[6..]) == |m.signature| % 0x1_0000
      && data[8..] == m.signature
  {
    var data := CertificateVerifyBytes(m);
    var n := |m.signature|;
    U16RoundTrip(m.algorithm);
    assert ReadU16(data[4..]) == ReadU16(U16(m.algorithm));
    U16Low(n / 0x1_0000, n % 0x1_0000);
    U16RoundTrip(n % 0x1_0000);
    assert ReadU16(data[6..]) == ReadU16(U16(n));
  }

  /** A CertificateVerify comes back intact exactly up to 65527 signature bytes. */
  lemma CertificateVerifyRoundTrip(m: CertificateVerify)
    ensures ParseCertificateVerify(CertificateVerifyBytes(m)) == Success(m) <==> |m.signature| <= 65527
  {
    CertificateVerifyFields(m);
    var data, n := CertificateVerifyBytes(m), |m.signature|;
    var end := (8 + n % 0x1_0000) % 0x1_0000;
    if n <= 65527 {
      assert end == |data|;
      assert data[8..end] == m.signature;
    } else if 8 <= end {
      assert |data[8..end]| < n;
    }
  }

  method MarshalCertificateVerify(m: CertificateVerify) returns (data: Bytes)
    ensures data == CertificateVerifyBytes(m)
  {
    var buf: Bytes := [CERTIFICATE_VERIFY, 0, 0, 0];
    buf := buf + U16(m.algorithm) + U16(|m.signature|) + m.signature;
    assert buf[4..] == U16(m.algorithm) + U16(|m.signature|) + m.signature;
    data := PatchLength(buf);
  }

  method UnmarshalCertificateVerify(data: Bytes) returns (r: Result<CertificateVerify>)
    ensures r == ParseCertificateVerify(data)
  {
    if |data| == 0 {
      return Failure(Panic);
    }
    if data[0] != CERTIFICATE_VERIFY || |data| < 8 {
      return Failure(BadCertificateVerify);
    }
    var algorithm, sigLen := ReadU16(data[4..6]), ReadU16(data[6..8]);
    assert sigLen == ReadU16(data[6..]) && algorithm == ReadU16(data[4..]);
    var end := (8 + sigLen) % 0x1_0000;
    if |data| % 0x1_0000 < end {
      return Failure(BadCertificateVerify);
    }
    if end < 8 {
      return Failure(Panic);
    }
    r := Success(CertificateVerify(algorithm, data[8..end]));
  }

  // ----- Finished -----

  function FinishedBytes(verifyData: Bytes): Bytes { Message(FINISHED, verifyData) }

  function ParseFinished(data: Bytes): Result<Bytes> {
    if data == [] then Failure(Panic)
    else if data[0] != FINISHED then Failure(BadFinished)
    else if |data| < 4 then Failure(Panic)
    else Success(data[4..])
  }

  method MarshalFinished(verifyData: Bytes) returns (data: Bytes)
    ensures data == FinishedBytes(verifyData)
  {
    var buf: Bytes := [FINISHED, 0, 0, 0];
    buf := buf + verifyData;
    assert buf[4..] == verifyData;
    data := PatchLength(buf);
  }

  // ----- splitting a stream of messages -----

  datatype Split = Split(typ: byte, body: Bytes, rest: Bytes)

  /** parseHandshakeMessage: the first message of a byte stream, if all of it is there. */
  function ParseMessage(data: Bytes): Result<Split> {
    if |data| < 4 || |data| - 4 < ReadU24(data[1..]) then Failure(BadHandshakeHeader)
    else Success(Split(data[0], data[4..4 + ReadU24(data[1..])], data[4 + ReadU24(data[1..])..]))
  }

  lemma MessageSplits(typ: byte, body: Bytes, rest: Bytes)
    requires |body| < 0x100_0000
    ensures ParseMessage(Message(typ, body) + rest) == Success(Split(typ, body, rest))
  {
    var data := Message(typ, body) + rest;
    U24RoundTrip(|body|);
    assert ReadU24(data[1..]) == ReadU24(U24(|body|));
  }

  lemma SplitPrints(data: Bytes)
    requires ParseMessage(data).Success?
    ensures var p := ParseMessage(data).value; Message(p.typ, p.body) + p.rest == data
  {
    U24Print(data[1..4]);
    assert ReadU24(data[1..]) == ReadU24(data[1..4]);
    var n := ReadU24(data[1..]);
    assert data == [data[0]] + data[1..4] + data[4..4 + n] + data[4 + n..];
  }
}
