/** Handshake records after the handshake: NewSessionTicket messages as an arbitrary peer may send them, with any zero
    padding (section 5.4 of RFC 8446). Only a record without padding is recognised. */
module PostHandshake {
  import opened Prelude
  import opened Crypto
  import opened RecordCipher
  import opened Tickets
  import opened Records
  import opened Fragmentation

  /** The next record of a complete end with nothing buffered carries handshake content with this padding. */
  ghost predicate Posted(cr: Crypto, r: RecordState, k: Cipher, version: u16, content: Bytes, padding: nat,
          rest: Bytes) {
    && Receiving(r) && r.complete && r.appReadBuf == [] && Aligned(r.inCipher.value, k)
    && |Inner(content, padding)| + 16 < 0x1_0000
    && r.inbound == RecordBytes(APPLICATION_DATA, version, Sealed(cr, k, Inner(content, padding))) + rest
  }

  /** The end after that record. */
  function Past(r: RecordState, content: Bytes, padding: nat, rest: Bytes): RecordState
    requires r.inCipher.Some? && |Inner(content, padding)| + 16 < 0x1_0000
  {
    Opened(r.(inbound := rest), |Inner(content, padding)| + 16)
  }

  /** The record keeps its type byte and its padding, and is still application data. */
  lemma ReadsPosted(cr: Crypto, r: RecordState, k: Cipher, version: u16, content: Bytes, padding: nat, rest: Bytes)
    requires Lawful(cr) && Posted(cr, r, k, version, content, padding, rest)
    ensures var inner := Inner(content, padding);
      ReadRecord(cr, r) ==
      Step(Past(r, content, padding, rest), Success(Record(APPLICATION_DATA, version, |inner| + 16, inner)))
  {
    hide RecordBytes, Sealed, ReadRecord, StripInner;
    ReadsSealed(cr, r, k, version, Inner(content, padding), rest);
    StripInnerWrapped(content, HANDSHAKE, padding);
  }

  /** The guard of unwrapTLS13ApplicationData looks at the last byte only, which padding makes zero. */
  lemma UnwrapsPosted(content: Bytes, padding: nat)
    ensures UnwrapApplicationData(true, Inner(content, padding)) ==
      if padding > 0 then Payload(Inner(content, padding))
      else if ConsumesTickets(content) then NewTickets(content)
      else Refused(UnexpectedInner(HANDSHAKE))
  {
    var inner := Inner(content, padding);
    if padding > 0 {
      assert inner[|inner| - 1] == Zeros(padding)[padding - 1];
    } else {
      assert inner == content + [HANDSHAKE];
      assert inner[..|inner| - 1] == content;
    }
  }

  /** What Read makes of such a record, exactly. With any padding all of it, type byte and zeros included, is handed to
      the application as data. Without, tickets are stored and the read goes on, and anything else is refused. */
  lemma PostedExactly(cr: Crypto, tc: TicketContext, r: RecordState, k: Cipher, version: u16, content: Bytes,
          padding: nat, rest: Bytes, tickets: TicketState, n: nat)
    requires Lawful(cr) && Posted(cr, r, k, version, content, padding, rest)
    ensures var inner, past := Inner(content, padding), Past(r, content, padding, rest);
      Read(cr, tc, AppState(r, tickets), n) ==
      if padding > 0 then Step(AppState(Deliver(past, inner, n), tickets), Success(Take(inner, n)))
      else if ConsumesTickets(content) then
        Read(cr, tc, AppState(past, ParseAndStore(cr, tc.clock, tc.limit, tc.secret, tickets, content)), n)
      else Step(AppState(past, tickets), Failure(UnexpectedInner(HANDSHAKE)))
  {
    hide ReadRecord, UnwrapApplicationData, ConsumesTickets, ParseAndStore, Sealed, RecordBytes, Deliver, Take, Inner;
    ReadsPosted(cr, r, k, version, content, padding, rest);
    UnwrapsPosted(content, padding);
  }

  /** So content that would be taken for tickets is taken for them exactly if it is not padded; padded, it is a payload,
      and the tickets stay as they were. */
  lemma TicketsOnlyUnpadded(cr: Crypto, tc: TicketContext, r: RecordState, k: Cipher, version: u16, content: Bytes,
          padding: nat, tickets: TicketState, n: nat)
    requires Lawful(cr) && Posted(cr, r, k, version, content, padding, []) && ConsumesTickets(content)
    ensures var s := Read(cr, tc, AppState(r, tickets), n);
      && s.state.tickets ==
         (if padding == 0 then ParseAndStore(cr, tc.clock, tc.limit, tc.secret, tickets, content) else tickets)
      && (s.result == Failure(Eof) <==> padding == 0)
      && (n >= |Inner(content, padding)| ==> (s.result == Success(Inner(content, padding)) <==> padding > 0))
  {
    hide ConsumesTickets, ParseAndStore, Sealed, RecordBytes, Inner, Read;
    PostedExactly(cr, tc, r, k, version, content, padding, [], tickets, n);
    var past, inner := Past(r, content, padding, []), Inner(content, padding);
    assert n >= |inner| ==> Take(inner, n) == inner;
    NothingMore(cr, tc, past, ParseAndStore(cr, tc.clock, tc.limit, tc.secret, tickets, content), n);
  }

  lemma NothingMore(cr: Crypto, tc: TicketContext, r: RecordState, tickets: TicketState, n: nat)
    requires r.complete && r.appReadBuf == [] && r.inbound == []
    ensures Read(cr, tc, AppState(r, tickets), n) == Step(AppState(r, tickets), Failure(Eof))
  {
  }

  /** A NewSessionTicket message with one byte of padding or more is lost, and read as data. */
  lemma PaddedTicketIsLost(cr: Crypto, tc: TicketContext, r: RecordState, k: Cipher, version: u16, t: Ticket,
          extensions: Bytes, padding: nat, tickets: TicketState, n: nat)
    requires Lawful(cr) && TicketFits(t, extensions)
    requires Posted(cr, r, k, version, TicketMessage(t, extensions), padding, [])
    requires n >= |Inner(TicketMessage(t, extensions), padding)|
    ensures var s, message := Read(cr, tc, AppState(r, tickets), n), TicketMessage(t, extensions);
      if padding == 0 then
        s.result == Failure(Eof) &&
        s.state.tickets.received == tickets.received + [Receive(cr, tc.secret, t, tc.clock(tickets.ticks))]
      else
        s.result == Success(message + [HANDSHAKE] + Zeros(padding)) && s.state.tickets == tickets
  {
    hide TicketBody, Sealed, RecordBytes, Receive, Read, ParseTicket;
    var message := TicketMessage(t, extensions);
    TicketsOnlyUnpadded(cr, tc, r, k, version, message, padding, tickets, n);
    var ts := [(t, extensions)];
    assert ts[1..] == [] && TicketStream(ts[1..]) == [];
    assert TicketStream(ts) == message + [] == message;
    StreamIsStored(cr, tc.clock, tc.secret, tickets.ticks, ts);
    assert StoresFor(cr, tc.clock, tc.secret, tickets.ticks + 2, ts[1..]) == [];
  }
}
