/** What the record layer makes of every record, by its type, the type inside it and its padding (sections 5.1 to 5.4
    and 6 of RFC 8446): which records are opened, which end a read, and with what error. */
module RecordLayer {
  import opened Prelude
  import opened Crypto
  import opened RecordCipher
  import opened Tickets
  import opened Records
  import opened Fragmentation
  import opened Wire

  /** A record off the transport: five bytes of header, then as many bytes as they say. Change-cipher-spec (20) and
      alerts (21) are never opened, and nothing is while the peer's direction is not encrypted; everything else must
      open under the next read number, over a header of type 23 and version 0x0303, or the read fails. */
  lemma ReadsFrame(cr: Crypto, r: RecordState, typ: byte, version: u16, data: Bytes, rest: Bytes)
    requires |data| < 0x1_0000 && !r.complete
    requires r.inbound == [typ, version / 256, version % 256, |data| / 256, |data| % 256] + data + rest
    ensures var r1, s := r.(inbound := rest), ReadRecord(cr, r);
      var encrypted := if r.isClient then r.serverEncrypted else r.clientEncrypted;
      if typ == 20 || typ == 21 || !encrypted || r.inCipher.None? then
        s == Step(r1, Success(Record(typ, version, |data|, data)))
      else
        var k := r.inCipher.value;
        var plain := cr.open(k.key, Nonce(k.iv, k.readSeq), [23, 3, 3, |data| / 256, |data| % 256], data);
        if plain == None then s == Step(r1, Failure(OpenFailed))
        else
          && s.result == Success(Record(typ, version, |data|, plain.value))
          && s.state == r1.(inCipher := Some(k.(readSeq := (k.readSeq + 1) % 0x1_0000_0000_0000_0000)),
                            opens := s.state.opens)
          && |s.state.opens| == |r.opens| + 1
  {
    hide Nonce, RecordBytes, U16;
    RecordOnTheWire(typ, version, data);
    RecordSplits(typ, version, data, rest);
    if r.inCipher.Some? {
      OpensOverHeader(cr, r.inCipher.value, data);
    }
  }

  /** A record onto the transport: as it is while this end's direction is not encrypted; after that with its type byte
      sealed under the next write number, over a header of type 23 and version 0x0303, behind a header of type 23. The
      one-shot version is used up. */
  lemma WritesFrame(cr: Crypto, r: RecordState, typ: byte, data: Bytes)
    requires Lawful(cr) && |data| + 17 < 0x1_0000
    ensures var w, v := WriteRecord(cr, r, typ, data), if r.nextVersion != 0 then r.nextVersion else 0x0303;
      var encrypted, n := if r.isClient then r.clientEncrypted else r.serverEncrypted, |data| + 1 + 16;
      if !encrypted || r.outCipher.None? then
        w == r.(outbound := r.outbound + ([typ, v / 256, v % 256, |data| / 256, |data| % 256] + data), nextVersion := 0)
      else
        var k := r.outCipher.value;
        var sealed := cr.seal(k.key, Nonce(k.iv, k.writeSeq), [23, 3, 3, n / 256, n % 256], data + [typ]);
        && w == r.(outbound := r.outbound + ([23, v / 256, v % 256, n / 256, n % 256] + sealed), nextVersion := 0,
                   outCipher := Some(k.(writeSeq := (k.writeSeq + 1) % 0x1_0000_0000_0000_0000)), seals := w.seals)
        && |w.seals| == |r.seals| + 1
  {
    hide Nonce, RecordBytes, U16;
    var v := if r.nextVersion != 0 then r.nextVersion else 0x0303;
    RecordOnTheWire(typ, v, data);
    if r.outCipher.Some? {
      var k := r.outCipher.value;
      SealedOverHeader(cr, k, typ, data);
      RecordOnTheWire(23, v, SealRecord(cr, k, typ, data));
    }
  }

  /** Change-cipher-spec records before a hello are passed over. */
  lemma SkippingTurn(cr: Crypto, r: RecordState)
    ensures var s := ReadRecord(cr, r);
      ReadSkippingCcs(cr, r) ==
      if s.result.Success? && s.result.value.typ == 20 then ReadSkippingCcs(cr, s.state) else s
  {
    hide ReadRecord;
  }

  /** Less than a whole record is end-of-file. */
  lemma ShortInputEnds(cr: Crypto, r: RecordState)
    requires |r.inbound| < 5 || |r.inbound| - 5 < r.inbound[3] as int * 256 + r.inbound[4] as int
    ensures ReadRecord(cr, r) == Step(r.(inbound := []), Failure(Eof))
  {
  }

  // ----- alerts -----

  /** What an alert is reported as: its level and description, with close_notify (1, 0) told apart where data is read.
      */
  lemma AlertsAreReported(data: Bytes)
    ensures AlertError(data) == (if |data| >= 2 then AlertReceived(data[0], data[1]) else AlertMalformed)
    ensures CloseOrAlert(data) == CloseNotify <==> |data| >= 2 && data[0] == 1 && data[1] == 0
    ensures CloseOrAlert(data) != CloseNotify ==> CloseOrAlert(data) == AlertError(data)
  {
  }

  // ----- during the handshake -----

  /** A sealed record during the handshake: handshake content (22) is added to the buffer, an alert ends the read, and
      so does any other type. */
  lemma HandshakeRecordExactly(record: Record, content: Bytes, typ: byte, padding: nat)
    requires typ != 0 && record.typ == 23 && record.data == content + [typ] + Zeros(padding)
    ensures HandshakeContent(record) ==
      if typ == 22 then Success(content)
      else if typ == 21 then Failure(AlertError(content))
      else Failure(UnexpectedInner(typ))
  {
    hide StripInner, AlertError;
    StripInnerWrapped(content, typ, padding);
  }

  /** Any other record: padding alone has no type, a plain alert is an alert, and nothing else is taken. */
  lemma OtherRecordsExactly(record: Record)
    ensures record.typ == 21 ==> HandshakeContent(record) == Failure(AlertError(record.data))
    ensures record.typ != 21 && record.typ != 23 ==> HandshakeContent(record) == Failure(UnexpectedRecord(record.typ))
    ensures record.typ == 23 && (forall i :: 0 <= i < |record.data| ==> record.data[i] == 0) ==>
      HandshakeContent(record) == Failure(EmptyInner)
  {
    hide AlertError;
  }

  /** One turn of a read that has no whole message in its buffer. */
  lemma HandshakeTurn(cr: Crypto, r: RecordState)
    requires var buf := r.handshakeBuf;
      |buf| < 4 || |buf| - 4 < buf[1] as int * 65536 + buf[2] as int * 256 + buf[3] as int
    ensures var s, m := ReadRecord(cr, r), ReadHandshakeMsg(cr, r);
      if s.result.Failure? then m == Step(s.state, Failure(s.result.error))
      else if s.result.value.typ == 20 then m == ReadHandshakeMsg(cr, s.state)
      else
        var content := HandshakeContent(s.result.value);
        if content.Failure? then m == Step(s.state, Failure(content.error))
        else
          m == ReadHandshakeMsg(cr, s.state.(handshakeBuf := s.state.handshakeBuf + content.value))
  {
    hide ReadRecord, HandshakeContent;
  }

  // ----- after the handshake -----

  /** The next record of a complete end with nothing buffered: content of some type, with this padding. */
  ghost predicate Arrives(cr: Crypto, r: RecordState, k: Cipher, version: u16, inner: Bytes, rest: Bytes) {
    && Receiving(r) && r.complete && r.appReadBuf == [] && Aligned(r.inCipher.value, k)
    && |inner| + 16 < 0x1_0000
    && r.inbound == RecordBytes(APPLICATION_DATA, version, Sealed(cr, k, inner)) + rest
  }

  /** An alert, padded or not, ends the read: with end of data if it is close_notify. */
  lemma AlertsEndReads(cr: Crypto, tc: TicketContext, r: RecordState, k: Cipher, version: u16, content: Bytes,
          padding: nat, rest: Bytes, tickets: TicketState, n: nat)
    requires Lawful(cr) && Arrives(cr, r, k, version, content + [21] + Zeros(padding), rest)
    ensures Read(cr, tc, AppState(r, tickets), n).result == Failure(CloseOrAlert(content))
    ensures Read(cr, tc, AppState(r, tickets), n).state.tickets == tickets
  {
    hide RecordBytes, Sealed, ReadRecord, StripInner, CloseOrAlert, UnwrapApplicationData;
    var inner := content + [21] + Zeros(padding);
    ReadsSealed(cr, r, k, version, inner, rest);
    StripInnerWrapped(content, 21, padding);
  }

  /** Application data (23), padded or not: the padding and the type go; what is left is handed over unless it ends in a
      byte 20 to 23 itself. */
  lemma DataIsHandedOver(cr: Crypto, tc: TicketContext, r: RecordState, k: Cipher, version: u16, content: Bytes,
          padding: nat, rest: Bytes, tickets: TicketState, n: nat)
    requires Lawful(cr) && Arrives(cr, r, k, version, content + [23] + Zeros(padding), rest)
    requires content == [] || content[|content| - 1] !in {20, 21, 22, 23}
    ensures var s := Read(cr, tc, AppState(r, tickets), n);
      && s.result == Success(if n < |content| then content[..n] else content)
      && s.state.tickets == tickets && s.state.rec.inbound == rest
      && s.state.rec.appReadBuf == if n < |content| then content[n..] else []
  {
    hide RecordBytes, Sealed, ReadRecord, StripInner;
    ReadsSealed(cr, r, k, version, content + [23] + Zeros(padding), rest);
    StripInnerWrapped(content, 23, padding);
    assert Take(content, n) == if n < |content| then content[..n] else content;
    assert content[|Take(content, n)|..] == if n < |content| then content[n..] else [];
  }

  /** A type the library does not know, or change-cipher-spec: refused only if it is 20 without padding; otherwise all
      of the inner plaintext, type and padding included, is handed over as data. */
  lemma UnknownTypesAreData(cr: Crypto, tc: TicketContext, r: RecordState, k: Cipher, version: u16, content: Bytes,
          typ: byte, padding: nat, rest: Bytes, tickets: TicketState, n: nat)
    requires Lawful(cr) && typ !in {0, 21, 22, 23}
    requires Arrives(cr, r, k, version, content + [typ] + Zeros(padding), rest)
    ensures var s, inner := Read(cr, tc, AppState(r, tickets), n), content + [typ] + Zeros(padding);
      if typ == 20 && padding == 0 then s.result == Failure(UnexpectedInner(20))
      else s.result == Success(if n < |inner| then inner[..n] else inner)
  {
    hide RecordBytes, Sealed, ReadRecord, StripInner;
    var inner := content + [typ] + Zeros(padding);
    ReadsSealed(cr, r, k, version, inner, rest);
    StripInnerWrapped(content, typ, padding);
    assert inner[|inner| - 1] == if padding == 0 then typ else Zeros(padding)[padding - 1];
    assert Take(inner, n) == if n < |inner| then inner[..n] else inner;
  }

  /** What passes for tickets: nothing at all, or anything that starts with the type of NewSessionTicket (4). */
  lemma TicketsAreKnownByType(data: Bytes)
    ensures ConsumesTickets(data) <==> data == [] || data[0] == 4
  {
  }
}
