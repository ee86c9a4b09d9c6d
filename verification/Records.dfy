/** The record layer of conn.go on values: what one call of writeRecord, readRecord, readTLS13HandshakeMsg,
    Read or Write makes of the fields it uses. The methods of `Conn` are proved to do exactly this. */
module Records {
  import opened Prelude
  import opened Crypto
  import opened RecordCipher
  import opened Tickets

  /** A result together with the state it leaves. */
  datatype Step<S, +T> = Step(state: S, result: Result<T>)

  /** One use of an AEAD: which keys, which sequence number, which additional data. */
  datatype Use = Use(epoch: Epoch, key: Bytes, iv: Iv, seqNo: u64, ad: Bytes)

  /** The fields of a Conn that the record layer works on. `inbound` is what the transport still has to give,
      `outbound` what was written to it. The last three are logs kept for the proofs: each installation of a
      sending cipher, each sealed record and each opened one. */
  datatype RecordState = RecordState(
    isClient: bool,
    inbound: Bytes,
    outbound: Bytes,
    inCipher: Option<Cipher>,
    outCipher: Option<Cipher>,
    clientEncrypted: bool,
    serverEncrypted: bool,
    complete: bool,
    nextVersion: u16,
    handshakeBuf: Bytes,
    appReadBuf: Bytes,
    installs: seq<Epoch>,
    seals: seq<Use>,
    opens: seq<Use>)

  datatype Record = Record(typ: byte, version: u16, length: u16, data: Bytes)

  const RECORD_VERSION: u16 := 0x0303

  function Fresh(isClient: bool, inbound: Bytes): RecordState {
    RecordState(isClient, inbound, [], None, None, false, false, false, 0, [], [], [], [], [])
  }

  predicate Sending(r: RecordState) {
    (if r.isClient then r.clientEncrypted else r.serverEncrypted) && r.outCipher.Some?
  }

  predicate Receiving(r: RecordState) {
    (if r.isClient then r.serverEncrypted else r.clientEncrypted) && r.inCipher.Some?
  }

  // ----- writing -----

  /** The length field holds 16 bits; nothing is fragmented. */
  function RecordBytes(typ: byte, version: u16, payload: Bytes): (s: Bytes)
    ensures |s| == 5 + |payload|
  {
    [typ] + U16(version) + U16(|payload|) + payload
  }

  function UseOf(k: Cipher, seqNo: u64, length: nat): Use { Use(k.epoch, k.key, k.iv, seqNo, AdditionalData(length)) }

  function WriteRecord(cr: Crypto, r: RecordState, typ: byte, data: Bytes): (w: RecordState)
    ensures w.isClient == r.isClient && w.inbound == r.inbound && r.outbound <= w.outbound
  {
    var version := if r.nextVersion != 0 then r.nextVersion else RECORD_VERSION;
    if Sending(r) then
      var k := r.outCipher.value;
      r.(outbound := r.outbound + RecordBytes(APPLICATION_DATA, version, SealRecord(cr, k, typ, data)),
         nextVersion := 0,
         outCipher := Some(AfterSeal(k)),
         seals := r.seals + [UseOf(k, k.writeSeq, |data| + 17)])
    else
      r.(outbound := r.outbound + RecordBytes(typ, version, data), nextVersion := 0)
  }

  // ----- the inner content type -----

  /** The length without trailing zeros. */
  function Trimmed(data: Bytes): (n: nat)
    ensures n <= |data| && (n > 0 ==> data[n - 1] != 0) && forall i :: n <= i < |data| ==> data[i] == 0
  {
    if data == [] || data[|data| - 1] != 0 then |data| else Trimmed(data[..|data| - 1])
  }

  /** stripTLS13InnerContentType: content and type of a TLSInnerPlaintext (section 5.2 of RFC 8446). */
  function StripInner(data: Bytes): Result<(Bytes, byte)> {
    var end := Trimmed(data);
    if end == 0 then Failure(EmptyInner) else Success((data[..end - 1], data[end - 1]))
  }

  method StripInnerContentType(data: Bytes) returns (r: Result<(Bytes, byte)>)
    ensures r == StripInner(data)
  {
    if |data| == 0 {
      return Failure(EmptyInner);
    }
    var end := |data|;
    while end > 0 && data[end - 1] == 0
      invariant 0 <= end <= |data| && Trimmed(data) == Trimmed(data[..end])
    {
      assert data[..end][..end - 1] == data[..end - 1];
      end := end - 1;
    }
    assert Trimmed(data[..end]) == end;
    if end == 0 {
      return Failure(EmptyInner);
    }
    r := Success((data[..end - 1], data[end - 1]));
  }

  /** Stripping undoes wrapping, for any nonzero type and any zero padding. */
  lemma StripInnerWrapped(content: Bytes, typ: byte, padding: nat)
    requires typ != 0
    ensures StripInner(content + [typ] + Zeros(padding)) == Success((content, typ))
  {
    var data := content + [typ] + Zeros(padding);
    var end := Trimmed(data);
    assert data[|content|] == typ;
    assert forall i :: |content| < i < |data| ==> data[i] == Zeros(padding)[i - 1 - |content|];
    assert end == |content| + 1;
    assert data[..end - 1] == content;
  }

  // ----- reading -----

  /** Change-cipher-spec and alert records are taken as they come; the rest is opened once a cipher is in place. After
      the handshake an alert is recognised here and the type byte of application data is taken off; anything else
      keeps its type byte. */
  function ReadRecord(cr: Crypto, r: RecordState): (s: Step<RecordState, Record>)
    ensures s.result.Success? ==> |s.state.inbound| < |r.inbound|
    ensures s.state.isClient == r.isClient
  {
    if |r.inbound| < 5 || |r.inbound| - 5 < ReadU16(r.inbound[3..]) then Step(r.(inbound := []), Failure(Eof))
    else
      var typ, version, length := r.inbound[0], ReadU16(r.inbound[1..]), ReadU16(r.inbound[3..]);
      var data := r.inbound[5..5 + length];
      var r1 := r.(inbound := r.inbound[5 + length..]);
      if typ == CHANGE_CIPHER_SPEC || typ == ALERT || !Receiving(r) then
        Step(r1, Success(Unwrap(r, typ, version, length, data)))
      else
        match OpenRecord(cr, r.inCipher.value, data)
        case None => Step(r1, Failure(OpenFailed))
        case Some(plain) =>
          Step(Opened(r1, length), Success(Unwrap(r, typ, version, length, plain)))
  }

  /** The receiving cipher after a ciphertext of this length. */
  function Opened(r: RecordState, length: u16): RecordState
    requires r.inCipher.Some?
  {
    var k := r.inCipher.value;
    r.(inCipher := Some(AfterOpen(k)), opens := r.opens + [UseOf(k, k.readSeq, length)])
  }

  function Unwrap(r: RecordState, typ: byte, version: u16, length: u16, payload: Bytes): Record {
    if typ == APPLICATION_DATA && r.complete then
      match StripInner(payload)
      case Failure(_) => Record(typ, version, length, payload)
      case Success((content, inner)) =>
        if inner == ALERT then Record(ALERT, version, |content| % 0x1_0000, content)
        else Record(typ, version, length, if inner == APPLICATION_DATA then content else payload)
    else Record(typ, version, length, payload)
  }

  function AlertError(data: Bytes): Error { if |data| < 2 then AlertMalformed else AlertReceived(data[0], data[1]) }

  /** Every message read uses up input. */
  predicate Consumed(before: RecordState, after: RecordState) {
    |after.inbound| < |before.inbound|
      || (after.inbound == before.inbound && |after.handshakeBuf| < |before.handshakeBuf|)
  }

  /** A whole message at the front of the handshake buffer. */
  predicate HasMessage(buf: Bytes) { |buf| >= 4 && |buf| - 4 >= ReadU24(buf[1..]) }

  /** readTLS13HandshakeMsg */
  function ReadHandshakeMsg(cr: Crypto, r: RecordState): (s: Step<RecordState, Bytes>)
    ensures s.result.Success? ==> |s.result.value| >= 4 && Consumed(r, s.state)
    ensures s.state.isClient == r.isClient
    decreases |r.inbound|
  {
    if HasMessage(r.handshakeBuf) then
      var total := 4 + ReadU24(r.handshakeBuf[1..]);
      Step(r.(handshakeBuf := r.handshakeBuf[total..]), Success(r.handshakeBuf[..total]))
    else
      var s := ReadRecord(cr, r);
      match s.result
      case Failure(e) => Step(s.state, Failure(e))
      case Success(record) =>
        if record.typ == CHANGE_CIPHER_SPEC then ReadHandshakeMsg(cr, s.state)
        else
          match HandshakeContent(record)
          case Failure(e) => Step(s.state, Failure(e))
          case Success(content) => ReadHandshakeMsg(cr, s.state.(handshakeBuf := s.state.handshakeBuf + content))
  }

  /** What a record that is not change-cipher-spec adds to the handshake buffer. */
  function HandshakeContent(record: Record): Result<Bytes> {
    if record.typ == ALERT then Failure(AlertError(record.data))
    else if record.typ != APPLICATION_DATA then Failure(UnexpectedRecord(record.typ))
    else
      var p :- StripInner(record.data);
      if p.1 == ALERT then Failure(AlertError(p.0))
      else if p.1 != HANDSHAKE then Failure(UnexpectedInner(p.1))
      else Success(p.0)
  }

  /** The reads before any cipher is in place skip change-cipher-spec records. */
  function ReadSkippingCcs(cr: Crypto, r: RecordState): (s: Step<RecordState, Record>)
    ensures s.result.Success? ==> |s.state.inbound| < |r.inbound|
    ensures s.state.isClient == r.isClient
    decreases |r.inbound|
  {
    var s := ReadRecord(cr, r);
    if s.result.Success? && s.result.value.typ == CHANGE_CIPHER_SPEC then ReadSkippingCcs(cr, s.state) else s
  }

  // ----- application data -----

  function Write(cr: Crypto, r: RecordState, b: Bytes): (s: Step<RecordState, nat>)
    ensures s.state.isClient == r.isClient
  {
    if !r.complete then Step(r, Failure(NotComplete))
    else Step(WriteRecord(cr, r, APPLICATION_DATA, b), Success(|b|))
  }

  predicate InnerTypeByte(b: byte) { b == CHANGE_CIPHER_SPEC || b == ALERT || b == HANDSHAKE || b == APPLICATION_DATA }

  function CloseOrAlert(data: Bytes): Error {
    if |data| >= 2 && data[0] == 1 && data[1] == 0 then CloseNotify else AlertError(data)
  }

  datatype Unwrapped = Payload(data: Bytes) | NewTickets(data: Bytes) | Refused(error: Error)

  /** unwrapTLS13ApplicationData: a second look for a type byte, which readRecord has already taken off application
      data. */
  function UnwrapApplicationData(complete: bool, data: Bytes): Unwrapped {
    if data == [] || !InnerTypeByte(data[|data| - 1]) then Payload(data)
    else
      var content, inner := data[..|data| - 1], data[|data| - 1];
      if inner == APPLICATION_DATA then Payload(content)
      else if inner == ALERT then Refused(CloseOrAlert(content))
      else if inner == HANDSHAKE && complete && ConsumesTickets(content) then NewTickets(content)
      else Refused(UnexpectedInner(inner))
  }

  /** Where tickets go and how they are keyed. */
  datatype TicketContext = TicketContext(clock: nat -> nat, limit: int, secret: Bytes)

  datatype AppState = AppState(rec: RecordState, tickets: TicketState)

  /** Read into a buffer of n bytes: the bytes copied. */
  function Read(cr: Crypto, tc: TicketContext, a: AppState, n: nat): (s: Step<AppState, Bytes>)
    ensures s.state.rec.isClient == a.rec.isClient
    decreases |a.rec.inbound|
  {
    if !a.rec.complete then Step(a, Failure(NotComplete))
    else if a.rec.appReadBuf != [] then
      Step(a.(rec := Deliver(a.rec, a.rec.appReadBuf, n)), Success(Take(a.rec.appReadBuf, n)))
    else
      var s := ReadRecord(cr, a.rec);
      var a1 := a.(rec := s.state);
      match s.result
      case Failure(e) => Step(a1, Failure(e))
      case Success(record) =>
        if record.typ == ALERT then Step(a1, Failure(CloseOrAlert(record.data)))
        else if record.typ != APPLICATION_DATA then Step(a1, Failure(UnexpectedRecord(record.typ)))
        else
          match UnwrapApplicationData(true, record.data)
          case Refused(e) => Step(a1, Failure(e))
          case NewTickets(data) =>
            Read(cr, tc, a1.(tickets := ParseAndStore(cr, tc.clock, tc.limit, tc.secret, a.tickets, data)), n)
          case Payload(data) => Step(a1.(rec := Deliver(s.state, data, n)), Success(Take(data, n)))
  }

  /** What does not fit the caller's buffer is kept for the next call. */
  function Deliver(r: RecordState, data: Bytes, n: nat): RecordState {
    r.(appReadBuf := if n < |data| then data[n..] else [])
  }
}
