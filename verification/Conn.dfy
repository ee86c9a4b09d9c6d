/** conn.go: the connection object. Its methods update its fields in place, as the source does, and each is proved to
    make of them exactly what the functions of `Records` and `Steps` say. */
module Connections {
  import opened Prelude
  import opened Crypto
  import opened Extensions
  import opened HandshakeMessages
  import opened Certificates
  import opened KeySchedule
  import opened Suites
  import opened RecordCipher
  import opened Tickets
  import opened Records
  import opened Offer
  import opened Steps
  import opened Runs

  /** The transport is the bytes it has yet to give and the bytes it was given; the fields that only the handshake uses
      are kept together in `hs`. */
  class Conn {
    const e: Env
    const isClient: bool
    const cache: TicketCache
    var inbound: Bytes
    var outbound: Bytes
    var inCipher: SM4GCMMode?
    var outCipher: SM4GCMMode?
    var clientEncrypted: bool
    var serverEncrypted: bool
    var handshakeComplete: bool
    var nextRecordVersion: u16
    var handshakeBuf: Bytes
    var appReadBuf: Bytes
    var received: seq<Ticket>
    var ticks: nat
    var hs: HandshakeState
    /** Not in the source: the logs of the record layer. */
    ghost var installs: seq<Epoch>
    ghost var seals: seq<Use>
    ghost var opens: seq<Use>

    /** One object never serves both directions. */
    ghost predicate Valid()
      reads this, cache
    {
      && (inCipher != null ==> inCipher.crypto == e.crypto)
      && (outCipher != null ==> outCipher.crypto == e.crypto)
      && (inCipher != null ==> inCipher != outCipher)
      && cache.Valid() && cache.limit == e.config.ticketLimit
    }

    ghost function Ciphers(): (ciphers: (Option<Cipher>, Option<Cipher>))
      reads this`inCipher, this`outCipher, inCipher, outCipher
    {
      (if inCipher == null then None else Some(inCipher.Value()),
        if outCipher == null then None else Some(outCipher.Value()))
    }

    ghost function Rec(): RecordState
      reads this`inbound, this`outbound, this`inCipher, this`outCipher, this`clientEncrypted, this`serverEncrypted
      reads this`handshakeComplete, this`nextRecordVersion, this`handshakeBuf, this`appReadBuf
      reads this`installs, this`seals, this`opens, inCipher, outCipher
    {
      RecordState(isClient, inbound, outbound, Ciphers().0, Ciphers().1, clientEncrypted, serverEncrypted,
        handshakeComplete,
                  nextRecordVersion, handshakeBuf, appReadBuf, installs, seals, opens)
    }

    ghost function TicketsNow(): TicketState
      reads this`received, this`ticks, cache, cache.slots
      requires cache.Valid()
    {
      TicketState(cache.Contents(), received, ticks)
    }

    ghost function State(): ConnState
      reads this, inCipher, outCipher, cache, cache.slots
      requires cache.Valid()
    {
      ConnState(Rec(), hs, TicketsNow())
    }

    /** Client: the client random is drawn when the connection is made. */
    constructor Client(e: Env, inbound: Bytes, cache: TicketCache, received: seq<Ticket>, ticks: nat)
      requires cache.Valid() && cache.limit == e.config.ticketLimit
      ensures Valid() && this.e == e && this.cache == cache && inCipher == null && outCipher == null
      ensures State() == NewClient(e, inbound, TicketState(cache.Contents(), received, ticks))
    {
      this.e, this.cache, this.isClient := e, cache, true;
      this.inbound, this.outbound := inbound, [];
      inCipher, outCipher, clientEncrypted, serverEncrypted, handshakeComplete := null, null, false, false, false;
      nextRecordVersion, handshakeBuf, appReadBuf := 0, [], [];
      this.received, this.ticks := received, ticks;
      hs := Blank(e.rnd.clientRandom, e.config.nextProtos);
      installs, seals, opens := [], [], [];
    }

    constructor Server(e: Env, inbound: Bytes, cache: TicketCache, received: seq<Ticket>, ticks: nat)
      requires cache.Valid() && cache.limit == e.config.ticketLimit
      ensures Valid() && this.e == e && this.cache == cache && inCipher == null && outCipher == null
      ensures State() == NewServer(inbound, TicketState(cache.Contents(), received, ticks))
    {
      this.e, this.cache, this.isClient := e, cache, false;
      this.inbound, this.outbound := inbound, [];
      inCipher, outCipher, clientEncrypted, serverEncrypted, handshakeComplete := null, null, false, false, false;
      nextRecordVersion, handshakeBuf, appReadBuf := 0, [], [];
      this.received, this.ticks := received, ticks;
      hs := Blank([], []);
      installs, seals, opens := [], [], [];
    }

    method WriteRecord(typ: byte, data: Bytes)
      requires Valid()
      modifies this`outbound, this`nextRecordVersion, this`seals, outCipher
      ensures Valid() && Rec() == Records.WriteRecord(e.crypto, old(Rec()), typ, data)
    {
      hide SealRecord, AdditionalData, Nonce, U16;
      var payload := data;
      var outType := typ;
      if (if isClient then clientEncrypted else serverEncrypted) && outCipher != null {
        seals := seals + [UseOf(outCipher.Value(), outCipher.writeSeq, |data| + 17)];
        payload := outCipher.Encrypt(typ, data);
        outType := APPLICATION_DATA;
      }
      var record: Bytes := [outType];
      var version := RECORD_VERSION;
      if nextRecordVersion != 0 {
        version := nextRecordVersion;
        nextRecordVersion := 0;
      }
      record := record + U16(version);
      record := record + U16(|payload|);
      record := record + payload;
      outbound := outbound + record;
    }

    /** io.ReadFull on the transport: n bytes, or the end of the stream. */
    method ReadFull(n: nat) returns (data: Option<Bytes>)
      modifies this`inbound
      ensures if n <= |old(inbound)| then data == Some(old(inbound)[..n]) && inbound == old(inbound)[n..]
              else data == None && inbound == []
    {
      if n <= |inbound| {
        data := Some(inbound[..n]);
        inbound := inbound[n..];
      } else {
        data := None;
        inbound := [];
      }
    }

    /** Change-cipher-spec and alerts are not decrypted, nor is anything before the receiving cipher is in place. */
    method DecryptPayload(typ: byte, data: Bytes) returns (payload: Option<Bytes>)
      requires Valid() && |data| < 0x1_0000
      modifies this`opens, inCipher
      ensures Valid()
      ensures var r := old(Rec());
        if typ == CHANGE_CIPHER_SPEC || typ == ALERT || !Receiving(r) then payload == Some(data) && Rec() == r
        else
          && payload == OpenRecord(e.crypto, r.inCipher.value, data)
          && Rec() == if payload.Some? then Opened(r, |data|) else r
    {
      hide OpenRecord, AdditionalData, Nonce;
      payload := Some(data);
      var shouldDecrypt := typ != CHANGE_CIPHER_SPEC && typ != ALERT;
      if shouldDecrypt && (if isClient then serverEncrypted else clientEncrypted) && inCipher != null {
        ghost var use := UseOf(inCipher.Value(), inCipher.readSeq, |data|);
        payload := inCipher.Decrypt(data);
        if payload.Some? {
          opens := opens + [use];
        }
      }
    }

    /** The header and the data of the next record. */
    method ReadFrame() returns (r: Option<(byte, u16, Bytes)>)
      modifies this`inbound
      ensures var s := old(inbound);
        if |s| < 5 || |s| - 5 < ReadU16(s[3..]) then r == None && inbound == []
        else r == Some((s[0], ReadU16(s[1..]), s[5..5 + ReadU16(s[3..])])) && inbound == s[5 + ReadU16(s[3..])..]
    {
      ghost var before := inbound;
      var header := ReadFull(5);
      if header == None {
        return None;
      }
      var typ := header.value[0];
      var vers := ReadU16(header.value[1..3]);
      var length := ReadU16(header.value[3..5]);
      HeaderFields(before, header.value);
      var data := ReadFull(length);
      if data == None {
        return None;
      }
      assert data.value == before[5..5 + length] && inbound == before[5 + length..];
      r := Some((typ, vers, data.value));
    }

    method OpenFrame(typ: byte, vers: u16, data: Bytes) returns (r: Result<Record>)
      requires Valid() && |data| < 0x1_0000
      modifies this`opens, inCipher
      ensures Valid() && Step(Rec(), r) == Framed(e.crypto, old(Rec()), typ, vers, data)
    {
      hide OpenRecord, Unwrap, Receiving, AdditionalData;
      var payload := DecryptPayload(typ, data);
      if payload == None {
        return Failure(OpenFailed);
      }
      var record := UnwrapRecord(typ, vers, |data|, payload.value);
      UnwrapSame(Rec(), old(Rec()), typ, vers, |data|, payload.value);
      r := Success(record);
    }

    method ReadRecord() returns (r: Result<Record>)
      requires Valid()
      modifies this`inbound, this`opens, inCipher
      ensures Valid() && Step(Rec(), r) == Records.ReadRecord(e.crypto, old(Rec()))
    {
      hide Records.ReadRecord, Framed;
      ghost var before := Rec();
      RecordCases(e.crypto, before);
      var frame := ReadFrame();
      assert before.inbound == old(inbound) && Rec() == before.(inbound := inbound);
      if frame == None {
        return Failure(Eof);
      }
      r := OpenFrame(frame.value.0, frame.value.1, frame.value.2);
    }

    /** After the handshake, alerts and application data are recognised by their inner type. */
    method UnwrapRecord(typ: byte, vers: u16, length: u16, payload: Bytes) returns (record: Record)
      requires Valid()
      ensures record == Unwrap(Rec(), typ, vers, length, payload)
    {
      record := Record(typ, vers, length, payload);
      if typ == APPLICATION_DATA && handshakeComplete {
        var stripped := StripInnerContentType(payload);
        if stripped.Success? {
          if stripped.value.1 == ALERT {
            record := Record(ALERT, vers, |stripped.value.0| % 0x1_0000, stripped.value.0);
          } else if stripped.value.1 == APPLICATION_DATA {
            record := Record(typ, vers, length, stripped.value.0);
          }
        }
      }
    }

    /** A whole message off the front of the handshake buffer, if there is one. */
    method TakeMessage() returns (r: Option<Bytes>)
      requires Valid()
      modifies this`handshakeBuf
      ensures Valid()
      ensures var buf := old(handshakeBuf);
        if HasMessage(buf) then r == Some(buf[..4 + ReadU24(buf[1..])]) && handshakeBuf == buf[4 + ReadU24(buf[1..])..]
        else r == None && handshakeBuf == buf
    {
      if |handshakeBuf| >= 4 {
        var total := 4 + ReadU24(handshakeBuf[1..4]);
        ReadAt(handshakeBuf, 1, |handshakeBuf|);
        assert handshakeBuf[1..|handshakeBuf|] == handshakeBuf[1..];
        if |handshakeBuf| >= total {
          r := Some(handshakeBuf[..total]);
          handshakeBuf := handshakeBuf[total..];
          return;
        }
      }
      r := None;
    }

    /** The loop that collects records until the buffer holds a whole message. */
    method ReadHandshakeMsg() returns (r: Result<Bytes>)
      requires Valid()
      modifies this`inbound, this`opens, this`handshakeBuf, inCipher
      ensures Valid() && Step(Rec(), r) == Records.ReadHandshakeMsg(e.crypto, old(Rec()))
    {
      hide Records.ReadRecord, HandshakeContent, HasMessage;
      while true
        invariant Valid()
        invariant Records.ReadHandshakeMsg(e.crypto, Rec()) == Records.ReadHandshakeMsg(e.crypto, old(Rec()))
        decreases |inbound|
      {
        ghost var now := Rec();
        var msg := TakeMessage();
        if msg.Some? {
          return Success(msg.value);
        }
        assert Rec() == now;
        var rec := ReadRecord();
        if rec.Failure? {
          return Failure(rec.error);
        }
        if rec.value.typ == CHANGE_CIPHER_SPEC {
          continue;
        }
        var content := UnwrapHandshake(rec.value);
        if content.Failure? {
          return Failure(content.error);
        }
        handshakeBuf := handshakeBuf + content.value;
      }
    }

    method UnwrapHandshake(record: Record) returns (r: Result<Bytes>)
      ensures r == HandshakeContent(record)
    {
      if record.typ == ALERT {
        return Failure(AlertError(record.data));
      }
      if record.typ != APPLICATION_DATA {
        return Failure(UnexpectedRecord(record.typ));
      }
      var stripped := StripInnerContentType(record.data);
      if stripped.Failure? {
        return Failure(stripped.error);
      }
      if stripped.value.1 == ALERT {
        return Failure(AlertError(stripped.value.0));
      }
      if stripped.value.1 != HANDSHAKE {
        return Failure(UnexpectedInner(stripped.value.1));
      }
      r := Success(stripped.value.0);
    }

    /** The hello readers skip change-cipher-spec records. */
    method ReadSkippingCcs() returns (r: Result<Record>)
      requires Valid()
      modifies this`inbound, this`opens, inCipher
      ensures Valid() && Step(Rec(), r) == Records.ReadSkippingCcs(e.crypto, old(Rec()))
    {
      hide Records.ReadRecord;
      while true
        invariant Valid()
        invariant Records.ReadSkippingCcs(e.crypto, Rec()) == Records.ReadSkippingCcs(e.crypto, old(Rec()))
        decreases |inbound|
      {
        r := ReadRecord();
        if r.Failure? || r.value.typ != CHANGE_CIPHER_SPEC {
          return;
        }
      }
    }

    // ----- application data -----

    method Write(b: Bytes) returns (r: Result<nat>)
      requires Valid()
      modifies this`outbound, this`nextRecordVersion, this`seals, outCipher
      ensures Valid() && Step(Rec(), r) == Records.Write(e.crypto, old(Rec()), b)
    {
      hide Records.WriteRecord;
      if !handshakeComplete {
        return Failure(NotComplete);
      }
      WriteRecord(APPLICATION_DATA, b);
      r := Success(|b|);
    }

    /** The same cache object, in the same array or a new one. */
    twostate predicate SlotsKept()
      reads this, cache
    {
      cache.slots == old(cache.slots) || fresh(cache.slots)
    }

    /** tls13ParseAndStoreTickets, up to the first thing that is not a ticket. */
    method ParseAndStoreTickets(bytes: Bytes)
      requires Valid()
      modifies this`received, this`ticks, cache, cache.slots
      ensures Valid() && SlotsKept()
      ensures TicketsNow() ==
        ParseAndStore(e.crypto, e.clock, e.config.ticketLimit, hs.keys.resumptionSecret, old(TicketsNow()), bytes)
    {
      hide ParseAndStore, ParseMessage, ParseTicket, Store, Receive;
      var data := bytes;
      var secret := hs.keys.resumptionSecret;
      while |data| > 0
        invariant Valid() && SlotsKept() && hs.keys.resumptionSecret == secret
        invariant ParseAndStore(e.crypto, e.clock, e.config.ticketLimit, secret, TicketsNow(), data)
               == ParseAndStore(e.crypto, e.clock, e.config.ticketLimit, secret, old(TicketsNow()), bytes)
        decreases |data|
      {
        ParseAndStoreTurn(e.crypto, e.clock, e.config.ticketLimit, secret, TicketsNow(), data);
        var m := ParseMessage(data);
        if m.Failure? || m.value.typ != NEW_SESSION_TICKET {
          return;
        }
        RestIsShorter(data);
        data := m.value.rest;
        var t := ReadTicket(m.value.body);
        if t.Failure? {
          return;
        }
        var ticket := Receive(e.crypto, secret, t.value, e.clock(ticks));
        received := received + [ticket];
        cache.StoreSessionTicket(ticket, e.clock(ticks + 1));
        ticks := ticks + 2;
      }
      NothingToStore(e.crypto, e.clock, e.config.ticketLimit, secret, TicketsNow());
    }

    /** unwrapTLS13ApplicationData; the tickets it finds are stored by the caller. */
    method UnwrapAppData(data: Bytes) returns (u: Unwrapped)
      requires Valid()
      ensures u == UnwrapApplicationData(handshakeComplete, data)
    {
      hide ConsumesTickets;
      if |data| == 0 {
        return Payload(data);
      }
      if !InnerTypeByte(data[|data| - 1]) {
        return Payload(data);
      }
      var stripped := StripInnerContentType(data);
      TypeByteStrips(data);
      if stripped.value.1 == APPLICATION_DATA {
        return Payload(stripped.value.0);
      }
      if stripped.value.1 == ALERT {
        return Refused(CloseOrAlert(stripped.value.0));
      }
      if stripped.value.1 == HANDSHAKE && handshakeComplete {
        var consumed := LooksLikeTickets(stripped.value.0);
        if consumed {
          return NewTickets(stripped.value.0);
        }
      }
      u := Refused(UnexpectedInner(stripped.value.1));
    }

    /** copy: as much of src as fits into b. */
    static method Copy(b: array<byte>, src: Bytes) returns (n: nat)
      modifies b
      ensures n == |Take(src, b.Length)| <= b.Length && b[..] == Take(src, b.Length) + old(b[..])[n..]
    {
      n := if |src| < b.Length then |src| else b.Length;
      ghost var was := b[..];
      for i := 0 to n
        invariant b[..i] == src[..i] && b[i..] == was[i..]
      {
        ghost var rest := b[i + 1..];
        b[i] := src[i];
        assert b[i + 1..] == rest == was[i + 1..];
        assert b[..i + 1] == b[..i] + [src[i]];
      }
      assert b[..] == b[..n] + b[n..];
    }

    /** What fits is handed over, the rest is kept for the next call. */
    method DeliverTo(b: array<byte>, payload: Bytes) returns (n: nat)
      requires Valid()
      modifies this`appReadBuf, b
      ensures Valid() && Rec() == Deliver(old(Rec()), payload, b.Length)
      ensures Returned(old(b[..]), b[..], Success(n), Success(Take(payload, b.Length)))
    {
      n := Copy(b, payload);
      if |payload| > b.Length {
        appReadBuf := payload[n..];
      } else {
        appReadBuf := [];
      }
    }

    method JudgeRecord(record: Record) returns (v: Result<Unwrapped>)
      requires Valid()
      ensures v == Verdict(handshakeComplete, record)
    {
      hide UnwrapApplicationData, CloseOrAlert;
      if record.typ == ALERT {
        return Failure(CloseOrAlert(record.data));
      }
      if record.typ != APPLICATION_DATA {
        return Failure(UnexpectedRecord(record.typ));
      }
      var u := UnwrapAppData(record.data);
      if u.Refused? {
        return Failure(u.error);
      }
      v := Success(u);
    }

    /** The loop of Read, up to the record that has something to hand over. */
    method ReadPayload() returns (r: Result<Bytes>)
      requires Valid()
      modifies this`inbound, this`opens, this`received, this`ticks, inCipher, cache, cache.slots
      ensures Valid() && SlotsKept()
      ensures Step(AppState(Rec(), TicketsNow()), r) ==
        NextPayload(e.crypto, TicketsFor(e, hs), AppState(old(Rec()), old(TicketsNow())))
    {
      hide Records.ReadRecord, ParseAndStore, Verdict, Rec, TicketsNow;
      ghost var tc := TicketsFor(e, hs);
      while true
        invariant Valid() && SlotsKept()
        invariant NextPayload(e.crypto, tc, AppState(Rec(), TicketsNow())) ==
          NextPayload(e.crypto, tc, AppState(old(Rec()), old(TicketsNow())))
        decreases |inbound|
      {
        Lengths();
        var rec := ReadRecord();
        Lengths();
        if rec.Failure? {
          return Failure(rec.error);
        }
        var v := JudgeRecord(rec.value);
        if v.Failure? {
          return Failure(v.error);
        }
        if !v.value.NewTickets? {
          return Success(v.value.data);
        }
        ParseAndStoreTickets(v.value.data);
      }
    }

    method Read(b: array<byte>) returns (r: Result<nat>)
      requires Valid()
      modifies this`inbound, this`opens, this`appReadBuf, this`received, this`ticks, inCipher, cache, cache.slots, b
      ensures Valid() && SlotsKept()
      ensures var s := Records.Read(e.crypto, TicketsFor(e, hs), AppState(old(Rec()), old(TicketsNow())), b.Length);
        AppState(Rec(), TicketsNow()) == s.state && Returned(old(b[..]), b[..], r, s.result)
    {
      hide Records.ReadRecord, ParseAndStore, UnwrapApplicationData, CloseOrAlert, Deliver, Returned, NextPayload;
      if !handshakeComplete {
        NothingReturned(b[..]);
        return Failure(NotComplete);
      }
      if |appReadBuf| > 0 {
        var n := DeliverTo(b, appReadBuf);
        return Success(n);
      }
      ReadDelivers(e.crypto, TicketsFor(e, hs), AppState(Rec(), TicketsNow()), b.Length);
      NothingReturned(b[..]);
      var payload := ReadPayload();
      if payload.Failure? {
        return Failure(payload.error);
      }
      var n := DeliverTo(b, payload.value);
      r := Success(n);
    }

    // ----- the handshake: common parts -----

    /** Each cipher is the one there was, or a new one. */
    twostate predicate CiphersKept()
      reads this
    {
      && (inCipher == old(inCipher) || (inCipher != null && fresh(inCipher)))
      && (outCipher == old(outCipher) || (outCipher != null && fresh(outCipher)))
    }

    method SendMessage(data: Bytes)
      requires Valid()
      modifies this, outCipher
      ensures Valid() && inCipher == old(inCipher) && outCipher == old(outCipher)
      ensures State() == Steps.SendMessage(e, old(State()), data)
    {
      hide Records.WriteRecord, Rec, TicketsNow;
      hs := hs.(transcript := hs.transcript + data);
      WriteRecord(HANDSHAKE, data);
    }

    method ReadMessage() returns (r: Result<Bytes>)
      requires Valid()
      modifies this, inCipher
      ensures Valid() && inCipher == old(inCipher) && outCipher == old(outCipher)
      ensures Step(State(), r) == Steps.ReadMessage(e, old(State()))
    {
      hide Records.ReadHandshakeMsg, Rec, TicketsNow;
      r := ReadHandshakeMsg();
    }

    /** NewSM4GCMMode */
    method NewGcm(ghost epoch: Epoch, t: Traffic) returns (r: Result<SM4GCMMode>)
      ensures match NewCipher(epoch, t)
        case Failure(error) => r == Failure(error)
        case Success(k) => r.Success? && fresh(r.value) && r.value.Value() == k && r.value.crypto == e.crypto
    {
      if |t.key| != 16 || |t.iv| != 12 {
        return Failure(InvalidKey);
      }
      var gcm := new SM4GCMMode(e.crypto, epoch, t.key, t.iv);
      r := Success(gcm);
    }

    /** deriveTLS13Keys */
    method DeriveKeys()
      requires Valid() && hs.suite.Some?
      modifies this`hs
      ensures Valid() && hs == DeriveHandshakeKeys(e.crypto, old(hs))
    {
      hide AllKeys;
      if |hs.keys.sharedSecret| == 0 {
        hs := hs.(keys := hs.keys.(sharedSecret := Zeros(HASH_SIZE)));
      }
      var digest, suite := e.crypto.hash(hs.transcript), hs.suite.value;
      var km := DeriveAllKeys(e.crypto, hs.keys.sharedSecret, digest, None, suite.keyLen, suite.ivLen);
      km := km.(sharedSecret := hs.keys.sharedSecret);
      hs := hs.(keys := km);
    }

    /** The server's handshake key for what comes in. */
    method StartReceiving() returns (r: Result<()>)
      requires Valid() && hs.suite.Some?
      modifies this
      ensures Valid() && CiphersKept() && Step(State(), r) == Steps.StartReceiving(e, old(State()))
    {
      hide DeriveHandshakeKeys, NewCipher;
      DeriveKeys();
      serverEncrypted := true;
      r := InstallReceiving(HandshakeKeys, hs.keys.serverHandshake);
    }

    /** A HelloRetryRequest restarts the transcript with the hash of the first hello. */
    method HandleRetry(hello: ServerHello, data: Bytes) returns (r: Result<()>)
      requires Valid()
      modifies this
      ensures Valid() && CiphersKept() && Step(State(), r) == Steps.HandleRetry(e, old(State()), hello, data)
    {
      hide RetryGroup, MessageHash;
      var group := ReadRetryGroup(hello.extensions);
      if group.Failure? {
        return Failure(group.error);
      }
      if |hs.lastClientHello| == 0 {
        return Failure(BadServerHello);
      }
      hs := hs.(transcript := MessageHash(e.crypto, hs.lastClientHello) + data);
      hs := hs.(helloRetry := true, requestedGroup := group.value);
      r := Failure(HelloRetry);
    }

    /** Random, suite, key share and version of a ServerHello. */
    method NoteServerHello(hello: ServerHello) returns (r: Result<KeyShareEntry>)
      requires Valid()
      modifies this`hs
      ensures Valid() && Step(hs, r) == Noted(old(hs), hello)
    {
      hide ChosenSuite, ServerShare, CheckVersion, Find;
      hs := hs.(serverRandom := hello.random);
      var suite := ChooseSuite(hs.clientSuites, hello.suite);
      if suite.Failure? {
        return Failure(suite.error);
      }
      hs := hs.(suite := Some(suite.value));
      var share := ReadServerShare(hello.extensions);
      if share.Failure? {
        return Failure(share.error);
      }
      if share.value.Some? {
        hs := hs.(keys := hs.keys.(serverPublicShare := share.value.value.data));
      }
      var psk := FindExtension(hello.extensions, EXT_PRE_SHARED_KEY);
      if psk.Some? && |psk.value| >= 2 {
        hs := hs.(didResume := true);
      }
      if share.value == None {
        return Failure(NoKeyShare);
      }
      var version := ReadVersion(hello.extensions);
      if version.Failure? {
        return Failure(version.error);
      }
      r := Success(share.value.value);
    }

    method AcceptServerHello(hello: ServerHello) returns (r: Result<()>)
      requires Valid()
      modifies this
      ensures Valid() && CiphersKept() && Step(State(), r) == Steps.AcceptServerHello(e, old(State()), hello)
    {
      hide Noted, Steps.AcceptServerHello, ClientSecret, Steps.StartReceiving, Rec, TicketsNow;
      AcceptIsNote(e, State(), hello);
      var share := NoteServerHello(hello);
      if share.Failure? {
        return Failure(share.error);
      }
      var secret := ClientSecret(e.crypto, hs.keys, share.value);
      if secret.Failure? {
        return Failure(secret.error);
      }
      hs := hs.(keys := hs.keys.(sharedSecret := secret.value));
      r := StartReceiving();
    }

    method ReadServerHello() returns (r: Result<()>)
      requires Valid()
      modifies this, inCipher
      ensures Valid() && CiphersKept() && Step(State(), r) == Steps.ReadServerHello(e, old(State()))
    {
      hide Records.ReadSkippingCcs, Steps.HandleRetry, Steps.AcceptServerHello, ParseServerHello, Rec, TicketsNow;
      var record := ReadSkippingCcs();
      if record.Failure? {
        return Failure(record.error);
      }
      var data := record.value.data;
      if record.value.typ != HANDSHAKE {
        return Failure(UnexpectedRecord(record.value.typ));
      }
      if |data| > 0 && data[0] == SERVER_HELLO {
        var hello := UnmarshalServerHello(data);
        if hello.Failure? {
          return Failure(hello.error);
        }
        if hello.value.random == HRR_RANDOM {
          r := HandleRetry(hello.value, data);
          return;
        }
        hs := hs.(transcript := hs.transcript + data);
        r := AcceptServerHello(hello.value);
        return;
      }
      hs := hs.(transcript := hs.transcript + data);
      r := Failure(BadServerHello);
    }

    // ----- the client's steps -----

    /** The extensions of a hello, one after the other. */
    method BuildExtensions(h: Hello) returns (extensions: seq<Extension>)
      ensures extensions == BaseExtensions(h)
    {
      hide U16ListExtension, KeyShareClient, Alpn, ServerName;
      var front: seq<Extension> := [];
      if |h.serverName| > 0 {
        front := front + [ServerName(h.serverName)];
      }
      var groups: seq<u16> := [CURVE_SM2, CURVE_X25519];
      if h.share.tag == CURVE_X25519 {
        groups := [CURVE_X25519, CURVE_SM2];
      }
      var supported := WriteU16ListExtension(EXT_SUPPORTED_CURVES, groups);
      var schemes := WriteU16ListExtension(EXT_SIGNATURE_ALGORITHMS, [SM2SM3]);
      var certSchemes := WriteU16ListExtension(EXT_SIGNATURE_ALGORITHMS_CERT, [SM2SM3]);
      var share := WriteKeyShareClient([h.share]);
      extensions := front
        + [Tagged(EXT_SUPPORTED_POINTS, [3, 0, 1, 2]),
           supported,
           Tagged(EXT_SESSION_TICKET, []),
           Tagged(EXT_ENCRYPT_THEN_MAC, []),
           Tagged(EXT_EXTENDED_MASTER_SECRET, []),
           schemes,
           certSchemes,
           Tagged(EXT_SUPPORTED_VERSIONS, [2, 3, 4]),
           Tagged(EXT_PSK_MODES, [1, 1]),
           share];
      if |h.protos| > 0 {
        var alpn := WriteAlpn(h.protos);
        extensions := extensions + [alpn];
      }
    }

    /** The hello with a zero binder first, if there is a ticket to offer, and then with the real one. */
    method BuildHello(h: Hello, tickets: seq<Ticket>, now: nat) returns (data: Bytes)
      ensures data == HelloBytes(e.crypto, h, tickets, now)
    {
      hide BaseExtensions, ClientHelloBytes, PskOffer, SetBinder, ReplacePsk;
      var extensions := BuildExtensions(h);
      var psk := BuildPskInfo(tickets, now);
      if psk.Some? {
        extensions := extensions + [psk.value.ext];
      }
      data := MarshalClientHello(HelloMessage(h, extensions));
      if psk.Some? {
        var binder := Binder(e.crypto, psk.value.psk, data);
        BinderWidth(tickets, now);
        var info := SetBinder(psk.value, binder);
        extensions := RebuildExtensions(extensions, info.ext);
        data := MarshalClientHello(HelloMessage(h, extensions));
      }
    }

    /** The key pair, the session ID and the bytes of a hello; the private key of an earlier hello is kept. */
    method PrepareHello(group: u16) returns (data: Bytes)
      requires Valid() && (group == CURVE_SM2 || group == CURVE_X25519)
      modifies this`hs
      ensures Valid()
      ensures var was := old(hs); var hello := HelloOf(e, was, ShareOf(e, group, was.helloCount));
        && data == HelloBytes(e.crypto, hello, cache.Contents(), e.clock(ticks))
        && hs == was.(keys := SharesFor(e, was.keys, group, was.helloCount), sessionID := hello.sessionID)
    {
      hide HelloBytes, ShareOf, SharesFor;
      var share := ShareOf(e, group, hs.helloCount);
      hs := hs.(keys := SharesFor(e, hs.keys, group, hs.helloCount));
      if |hs.sessionID| == 0 {
        hs := hs.(sessionID := e.rnd.sessionID);
      }
      var hello := Hello(hs.clientRandom, hs.sessionID, e.config.serverName, hs.peerProtos, share);
      data := BuildHello(hello, cache.slots[..cache.count], e.clock(ticks));
    }

    /** The hello goes into the transcript and is counted; the result is the version its record says. */
    method NoteHello(data: Bytes) returns (version: u16)
      requires Valid()
      modifies this`hs, this`ticks
      ensures Valid() && ticks == old(ticks) + 1
      ensures var was := old(hs);
        && hs == was.(lastClientHello := data, transcript := was.transcript + data, helloCount := was.helloCount + 1)
        && version == if was.helloCount == 0 then VERSION_TLS10 else RECORD_VERSION
    {
      ticks := ticks + 1;
      hs := hs.(lastClientHello := data);
      hs := hs.(transcript := hs.transcript + data);
      version := RECORD_VERSION;
      if hs.helloCount == 0 {
        version := VERSION_TLS10;
      }
      hs := hs.(helloCount := hs.helloCount + 1);
    }

    method WriteVersioned(version: u16, data: Bytes)
      requires Valid()
      modifies this`outbound, this`nextRecordVersion, this`seals, outCipher
      ensures Valid() && Rec() == Records.WriteRecord(e.crypto, old(Rec()).(nextVersion := version), HANDSHAKE, data)
    {
      hide Records.WriteRecord;
      nextRecordVersion := version;
      WriteRecord(HANDSHAKE, data);
    }

    method OfferHello(group: u16)
      requires Valid() && (group == CURVE_SM2 || group == CURVE_X25519)
      modifies this, outCipher
      ensures Valid() && inCipher == old(inCipher) && outCipher == old(outCipher)
      ensures var was := old(hs); var hello := HelloOf(e, was, ShareOf(e, group, was.helloCount));
        var data := HelloBytes(e.crypto, hello, old(TicketsNow()).cache, e.clock(old(ticks)));
        var version := if was.helloCount == 0 then VERSION_TLS10 else RECORD_VERSION;
        && Rec() == Records.WriteRecord(e.crypto, old(Rec()).(nextVersion := version), HANDSHAKE, data)
        && hs == was.(keys := SharesFor(e, was.keys, group, was.helloCount), sessionID := hello.sessionID,
                      lastClientHello := data, transcript := was.transcript + data, helloCount := was.helloCount + 1)
        && TicketsNow() == old(TicketsNow()).(ticks := old(ticks) + 1)
    {
      hide HelloBytes, ShareOf, SharesFor, HelloOf, Records.WriteRecord, TicketCache.Contents, Rec;
      var data := PrepareHello(group);
      var version := NoteHello(data);
      WriteVersioned(version, data);
    }

    method SendClientHello(group: u16) returns (r: Result<()>)
      requires Valid()
      modifies this, outCipher
      ensures Valid() && CiphersKept() && inCipher == old(inCipher) && outCipher == old(outCipher)
      ensures Step(State(), r) == Steps.SendClientHello(e, old(State()), group)
      ensures r.Failure? ==> r.error == UnsupportedGroup(group)
    {
      hide Steps.SendClientHello, HelloBytes, ShareOf, SharesFor, HelloOf, Records.WriteRecord, TicketCache.Contents,
        Rec;
      HelloSent(e, State(), group);
      hs := hs.(clientSuites := CLIENT_SUITES);
      if group != CURVE_SM2 && group != CURVE_X25519 {
        return Failure(UnsupportedGroup(group));
      }
      OfferHello(group);
      r := OK;
    }

    /** The loop over the extensions; a protocol that is taken stays, also when a later one is refused. */
    method AcceptProtocols(es: seq<Extension>) returns (r: Result<()>)
      requires Valid()
      modifies this`hs
      ensures Valid()
      ensures var was := old(hs);
        && hs == was.(negotiatedProto := ProtoSoFar(es, was.peerProtos, was.negotiatedProto))
        && match AcceptAlpn(es, was.peerProtos, was.negotiatedProto)
           case Failure(error) => r == Failure(error)
           case Success(_) => r.Success?
    {
      hide ParseAlpn;
      ghost var protos, start := hs.peerProtos, hs.negotiatedProto;
      for i := 0 to |es|
        invariant Valid() && hs == old(hs).(negotiatedProto := hs.negotiatedProto)
        invariant AcceptAlpn(es, protos, start) == AcceptAlpn(es[i..], protos, hs.negotiatedProto)
        invariant ProtoSoFar(es, protos, start) == ProtoSoFar(es[i..], protos, hs.negotiatedProto)
      {
        assert es[i..][1..] == es[i + 1..];
        if es[i].tag == EXT_ALPN {
          var list := ReadAlpn(es[i].data);
          if list.Failure? {
            return Failure(list.error);
          }
          if |list.value| == 1 {
            if |hs.peerProtos| > 0 && list.value[0] !in hs.peerProtos {
              return Failure(UnsupportedAlpn);
            }
            hs := hs.(negotiatedProto := list.value[0]);
          } else if |list.value| > 1 {
            return Failure(UnsupportedAlpn);
          }
        }
      }
      r := OK;
    }

    method ReadEncryptedExtensions() returns (r: Result<()>)
      requires Valid()
      modifies this, inCipher
      ensures Valid() && CiphersKept() && Step(State(), r) == Steps.ReadEncryptedExtensions(e, old(State()))
    {
      hide Steps.ReadMessage, ParseEncryptedExtensions, AcceptAlpn, ProtoSoFar, Rec, TicketsNow;
      var msg := ReadMessage();
      if msg.Failure? {
        return Failure(msg.error);
      }
      var es := UnmarshalEncryptedExtensions(msg.value);
      if es.Failure? {
        return Failure(es.error);
      }
      r := AcceptProtocols(es.value);
      if r.Success? {
        hs := hs.(transcript := hs.transcript + msg.value);
        r := OK;
      }
    }

    /** One turn of readCertificateTLS13's loop. */
    method ReadServerCertificate() returns (r: Result<bool>)
      requires Valid()
      modifies this, inCipher
      ensures Valid() && CiphersKept() && Step(State(), r) == Steps.ReadServerCertificate(e, old(State()))
    {
      hide Steps.ReadMessage, ParseCertificateRequest, ParseCertificate, VerifyChain, Rec, TicketsNow;
      var msg := ReadMessage();
      if msg.Failure? {
        return Failure(msg.error);
      }
      if msg.value[0] == CERTIFICATE_REQUEST {
        hs := hs.(certRequested := true);
        var context := ReadCertificateRequest(msg.value);
        if context.Failure? {
          return Failure(context.error);
        }
        hs := hs.(certReqContext := context.value);
        hs := hs.(transcript := hs.transcript + msg.value);
        return Success(false);
      }
      if msg.value[0] != CERTIFICATE {
        return Failure(UnexpectedMessage(msg.value[0]));
      }
      var cert := ReadCertificate(e.crypto, msg.value);
      if cert.Failure? {
        return Failure(cert.error);
      }
      hs := hs.(peerCert := Some(cert.value));
      if !e.config.insecureSkipVerify {
        var chain := VerifyChain(e, cert.value);
        if chain.Failure? {
          return Failure(chain.error);
        }
      }
      hs := hs.(transcript := hs.transcript + msg.value);
      r := Success(true);
    }

    // ----- the steps of both ends -----

    /** A sending key, counting from zero. */
    method InstallOut(ghost epoch: Epoch, t: Traffic) returns (r: Result<()>)
      requires Valid()
      modifies this`outCipher, this`installs
      ensures Valid() && CiphersKept()
      ensures match NewCipher(epoch, t)
        case Failure(error) => r == Failure(error) && Rec() == old(Rec())
        case Success(k) => r == OK && Rec() == Install(old(Rec()), k)
    {
      var gcm := NewGcm(epoch, t);
      if gcm.Failure? {
        return Failure(gcm.error);
      }
      outCipher := gcm.value;
      installs := installs + [epoch];
      r := OK;
    }

    method InstallSending(t: Traffic) returns (r: Result<()>)
      requires Valid()
      modifies this`outCipher, this`installs, this`clientEncrypted, this`serverEncrypted
      ensures Valid() && CiphersKept()
      ensures match NewCipher(HandshakeKeys, t)
        case Failure(error) => r == Failure(error) && Rec() == old(Rec())
        case Success(k) => r == OK && Rec() == Install(MarkSending(old(Rec())), k)
    {
      hide NewCipher;
      r := InstallOut(HandshakeKeys, t);
      if r.Failure? {
        return;
      }
      if isClient {
        clientEncrypted := true;
      } else {
        serverEncrypted := true;
      }
    }

    method PrepareClientCertificate() returns (r: Result<()>)
      requires Valid() && isClient
      modifies this
      ensures Valid() && CiphersKept() && Step(State(), r) == Steps.PrepareClientCertificate(e, old(State()))
    {
      hide NewCipher, Install, TicketsNow;
      if e.config.localCert == None || e.config.localKey == None {
        return Failure(CertificateMissing);
      }
      if !clientEncrypted {
        r := InstallSending(hs.keys.clientHandshake);
        return;
      }
      r := OK;
    }

    method SendCertificate() returns (r: Result<()>)
      requires Valid()
      modifies this, outCipher
      ensures Valid() && CiphersKept() && Step(State(), r) == Steps.SendCertificate(e, old(State()))
    {
      hide Steps.SendMessage, CertificateBytes, Rec, TicketsNow;
      if e.config.localCert == None {
        return Failure(CertificateMissing);
      }
      var data := MarshalCertificate(e.config.localCert.value, hs.certReqContext);
      SendMessage(data);
      r := OK;
    }

    method SendCertificateRequest() returns (r: Result<()>)
      requires Valid()
      modifies this, outCipher
      ensures Valid() && CiphersKept() && Step(State(), r) == Steps.SendCertificateRequest(e, old(State()))
    {
      hide Steps.SendMessage, CertificateRequestBytes, Rec, TicketsNow;
      var schemes: seq<u16> := [SM2SM3];
      if |hs.clientSigSchemes| > 0 {
        schemes := hs.clientSigSchemes;
      }
      var data := MarshalCertificateRequest(schemes);
      SendMessage(data);
      r := OK;
    }

    method SendCertificateVerify() returns (r: Result<()>)
      requires Valid()
      modifies this, outCipher
      ensures Valid() && CiphersKept() && Step(State(), r) == Steps.SendCertificateVerify(e, old(State()))
    {
      hide Steps.SendMessage, CertificateVerifyBytes, SignedContent, SignatureContext, TicketsNow;
      if e.config.localKey == None {
        return Failure(PrivateKeyMissing);
      }
      var signed := SignedContent(SignatureContext(isClient), e.crypto.hash(hs.transcript));
      var data := MarshalCertificateVerify(CertificateVerify(SM2SM3,
        e.crypto.sign(e.config.localKey.value, signed, e.rnd.signing)));
      SendMessage(data);
      r := OK;
    }

    method ReadCertificateVerify() returns (r: Result<()>)
      requires Valid()
      modifies this, inCipher
      ensures Valid() && CiphersKept() && Step(State(), r) == Steps.ReadCertificateVerify(e, old(State()))
    {
      hide Steps.ReadMessage, ParseCertificateVerify, VerifySignature, TicketsNow;
      var msg := ReadMessage();
      if msg.Failure? {
        return Failure(msg.error);
      }
      var cv := UnmarshalCertificateVerify(msg.value);
      if cv.Failure? {
        return Failure(cv.error);
      }
      if cv.value.algorithm != SM2SM3 {
        return Failure(UnsupportedSignature);
      }
      if !e.config.insecureSkipVerify {
        var valid := CheckSignature(!isClient, cv.value.signature);
        if valid.Failure? {
          return Failure(valid.error);
        }
      }
      hs := hs.(transcript := hs.transcript + msg.value);
      r := OK;
    }

    method CheckSignature(byClient: bool, signature: Bytes) returns (r: Result<()>)
      requires Valid()
      ensures r == VerifySignature(e, State(), byClient, signature)
    {
      hide SignedContent, SignatureContext, Rec, TicketsNow;
      if hs.peerCert == None || hs.peerCert.value.publicKey == None {
        return Failure(PeerKeyMissing);
      }
      var signed := SignedContent(SignatureContext(byClient), e.crypto.hash(hs.transcript));
      if !e.crypto.verify(hs.peerCert.value.publicKey.value, signed, signature) {
        return Failure(SignatureRejected);
      }
      r := OK;
    }

    method RestartReceiving(peer: Traffic) returns (r: Result<()>)
      requires Valid()
      modifies this
      ensures Valid() && CiphersKept() && Step(State(), r) == Steps.RestartReceiving(e, old(State()), peer)
    {
      hide NewCipher, TicketsNow;
      if isClient {
        hs := hs.(serverFinishedHash := Some(e.crypto.hash(hs.transcript)));
        serverEncrypted := true;
      } else {
        clientEncrypted := true;
      }
      r := InstallReceiving(HandshakeKeys, peer);
    }

    method ReadFinished() returns (r: Result<()>)
      requires Valid()
      modifies this, inCipher
      ensures Valid() && CiphersKept() && Step(State(), r) == Steps.ReadFinished(e, old(State()))
    {
      hide Steps.ReadMessage, ParseFinished, VerifyData, Steps.RestartReceiving, TicketsNow;
      var msg := ReadMessage();
      if msg.Failure? {
        return Failure(msg.error);
      }
      var verifyData := ParseFinished(msg.value);
      if verifyData.Failure? {
        return Failure(verifyData.error);
      }
      var peer := if isClient then hs.keys.serverHandshake else hs.keys.clientHandshake;
      if !e.config.insecureSkipVerify && verifyData.value != VerifyData(e.crypto, peer.secret, hs.transcript) {
        return Failure(FinishedMismatch);
      }
      hs := hs.(transcript := hs.transcript + msg.value);
      r := RestartReceiving(peer);
    }

    /** Installs the sending key unless this end sends encrypted already. */
    method EnsureSending(own: Traffic) returns (r: Result<()>)
      requires Valid()
      modifies this
      ensures Valid() && CiphersKept() && hs == old(hs) && TicketsNow() == old(TicketsNow())
      ensures Step(Rec(), r) == Steps.EnsureSending(old(Rec()), own)
    {
      hide NewCipher, Install, TicketsNow;
      if (if isClient then clientEncrypted else serverEncrypted) && outCipher != null {
        return OK;
      }
      r := InstallSending(own);
    }

    method NoteFinished(data: Bytes)
      requires Valid()
      modifies this`hs
      ensures Valid()
      ensures var was := old(hs).(transcript := old(hs).transcript + data);
        hs == if isClient then was else was.(serverFinishedHash := Some(e.crypto.hash(was.transcript)))
    {
      hs := hs.(transcript := hs.transcript + data);
      if !isClient {
        hs := hs.(serverFinishedHash := Some(e.crypto.hash(hs.transcript)));
      }
    }

    method SendFinished() returns (r: Result<()>)
      requires Valid()
      modifies this, outCipher
      ensures Valid() && CiphersKept() && Step(State(), r) == Steps.SendFinished(e, old(State()))
    {
      hide Steps.SendFinished, VerifyData, FinishedBytes, Steps.EnsureSending, Records.WriteRecord, TicketsNow, Rec;
      Role();
      FinishedSent(e, State());
      var own := if isClient then hs.keys.clientHandshake else hs.keys.serverHandshake;
      var data := MarshalFinished(VerifyData(e.crypto, own.secret, hs.transcript));
      NoteFinished(data);
      r := EnsureSending(own);
      if r.Success? {
        WriteRecord(HANDSHAKE, data);
        r := OK;
      }
    }

    lemma Role()
      ensures Rec().isClient == isClient
    {
    }

    /** The receiving key, counting from zero. */
    method InstallReceiving(ghost epoch: Epoch, t: Traffic) returns (r: Result<()>)
      requires Valid()
      modifies this`inCipher
      ensures Valid() && CiphersKept()
      ensures match NewCipher(epoch, t)
        case Failure(error) => r == Failure(error) && Rec() == old(Rec()) && inCipher == old(inCipher)
        case Success(k) => r == OK && Rec() == old(Rec()).(inCipher := Some(k))
    {
      hide NewCipher;
      var gcm := NewGcm(epoch, t);
      if gcm.Failure? {
        return Failure(gcm.error);
      }
      inCipher := gcm.value;
      r := OK;
    }

    /** deriveTLS13ServerAppKeys and setupServerApplicationTrafficKeysForClient */
    method EarlySwitch()
      requires Valid() && hs.suite.Some?
      modifies this
      ensures Valid() && CiphersKept() && outCipher == old(outCipher) && State() == Steps.EarlySwitch(e, old(State()))
    {
      hide ServerAppTraffic, TicketsNow, NewCipher, Rec;
      if |hs.keys.masterSecret| == 0 {
        return;
      }
      var t := ServerAppTraffic(e.crypto, hs);
      hs := hs.(keys := hs.keys.(serverApp := t));
      var ignored := InstallReceiving(ApplicationKeys, t);
    }

    /** deriveTLS13ApplicationKeys */
    method DeriveApplicationKeys()
      requires Valid() && hs.suite.Some?
      modifies this`hs
      ensures Valid()
      ensures hs == old(hs).(keys := AppKeys(e.crypto, old(hs)))
    {
      hide ServerAppTraffic, ClientAppTraffic;
      if |hs.keys.masterSecret| == 0 {
        return;
      }
      var clientApp, serverApp := ClientAppTraffic(e.crypto, hs), ServerAppTraffic(e.crypto, hs);
      hs := hs.(keys := hs.keys.(clientApp := clientApp));
      hs := hs.(keys := hs.keys.(serverApp := serverApp));
    }

    /** setupApplicationTrafficKeys, which gives up silently on a bad key. */
    method SetupApplicationKeys()
      requires Valid()
      modifies this
      ensures Valid() && CiphersKept() && hs == old(hs) && TicketsNow() == old(TicketsNow())
      ensures Rec() == Switched(old(Rec()), hs.keys)
    {
      hide NewCipher, Install, Rec, TicketsNow;
      Role();
      var peer, own := hs.keys.clientApp, hs.keys.serverApp;
      if isClient {
        peer, own := own, peer;
      }
      var received := InstallReceiving(ApplicationKeys, peer);
      if received.Success? {
        var sending := InstallOut(ApplicationKeys, own);
      }
    }

    /** The end of both handshakes. */
    method Complete()
      requires Valid() && hs.suite.Some?
      modifies this
      ensures Valid() && CiphersKept() && State() == Steps.Complete(e, old(State()))
    {
      hide AppKeys, Switched, Steps.FinalSwitch, TicketsNow;
      FinalSwitchIs(e, State());
      DeriveApplicationKeys();
      SetupApplicationKeys();
      handshakeComplete := true;
    }

    // ----- the server's steps -----

    /** The loop over the extensions of a ClientHello; what the good ones say stays, also when a later one is bad. */
    method ReadExtensions(es: seq<Extension>) returns (r: Result<ClientOffer>)
      requires Valid()
      modifies this`hs
      ensures Valid()
      ensures var was := old(hs);
        var before := ClientOffer([], [], was.clientCurves, was.clientSigSchemes, was.peerProtos);
        r == ReadOffer(es, before) && hs == NoteOffer(was, OfferSoFar(es, before))
    {
      hide ReadOne;
      var o := ClientOffer([], [], hs.clientCurves, hs.clientSigSchemes, hs.peerProtos);
      ghost var before := o;
      for i := 0 to |es|
        invariant Valid() && hs == NoteOffer(old(hs), o)
        invariant ReadOffer(es, before) == ReadOffer(es[i..], o) && OfferSoFar(es, before) == OfferSoFar(es[i..], o)
      {
        assert es[i..][1..] == es[i + 1..];
        var next := ReadExtension(es[i], o);
        if next.Failure? {
          return Failure(next.error);
        }
        o := next.value;
        hs := hs.(clientCurves := o.curves, clientSigSchemes := o.schemes, peerProtos := o.protos);
      }
      r := Success(o);
    }

    method ReadExtension(ext: Extension, o: ClientOffer) returns (r: Result<ClientOffer>)
      ensures r == ReadOne(ext, o)
    {
      hide ParseKeyShareClient, ParseU16List, ParseAlpn, ParseVersions;
      if ext.tag == EXT_KEY_SHARE {
        var shares := ReadKeyShareClient(ext.data);
        return if shares.Failure? then Failure(shares.error) else Success(o.(shares := shares.value));
      }
      if ext.tag == EXT_SUPPORTED_CURVES {
        var curves := ReadU16List(ext.data);
        return if curves.Failure? then Failure(curves.error) else Success(o.(curves := curves.value));
      }
      if ext.tag == EXT_SIGNATURE_ALGORITHMS {
        var schemes := ReadU16List(ext.data);
        return if schemes.Failure? then Failure(schemes.error) else Success(o.(schemes := schemes.value));
      }
      if ext.tag == EXT_ALPN {
        var protos := ReadAlpn(ext.data);
        return if protos.Failure? then Failure(protos.error) else Success(o.(protos := protos.value));
      }
      if ext.tag == EXT_SUPPORTED_VERSIONS {
        var versions := ReadVersions(ext.data);
        return if versions.Failure? then Failure(versions.error) else Success(o.(versions := versions.value));
      }
      r := Success(o);
    }

    /** The key share and the protocol, once there is a suite. */
    method NegotiateShare(o: ClientOffer) returns (r: Result<()>)
      requires Valid()
      modifies this`hs
      ensures Valid()
      ensures var was, share, protos := old(hs), PreferredShare(o.shares), e.config.nextProtos;
        if o.shares == [] then r == Failure(NoKeyShare) && hs == was
        else if share == None then r == Failure(NoKeyShare) && hs == was.(clientShare := None)
        else
          && r == OK
          && hs == was.(clientShare := share, negotiatedProto := if protos != [] && o.protos != []
                                                                 then SelectAlpn(protos, o.protos)
                                                                 else was.negotiatedProto)
    {
      hide PreferredShare, SelectAlpn;
      if |o.shares| == 0 {
        return Failure(NoKeyShare);
      }
      var share := PreferShare(o.shares);
      hs := hs.(clientShare := share);
      if hs.clientShare == None {
        return Failure(NoKeyShare);
      }
      if |e.config.nextProtos| > 0 && |o.protos| > 0 {
        var proto := SelectProtocol(e.config.nextProtos, o.protos);
        hs := hs.(negotiatedProto := proto);
      }
      r := OK;
    }

    method Negotiate(o: ClientOffer) returns (r: Result<()>)
      requires Valid()
      modifies this`hs
      ensures Valid() && Step(State(), r) == Steps.Negotiate(e, old(State()), o)
    {
      hide Select, PreferredShare, SelectAlpn, ServerSuites, Rec, TicketsNow;
      if VERSION_TLS13 !in o.versions {
        return Failure(UnsupportedVersion);
      }
      if |o.schemes| > 0 && !SupportsSM2(o.schemes) {
        return Failure(UnsupportedSignature);
      }
      var suite := SelectCipherSuite(hs.clientSuites, ServerSuites(e.config), VERSION_TLS13, o.curves, o.schemes);
      hs := hs.(suite := suite);
      if suite == None {
        return Failure(UnsupportedSuite(0));
      }
      r := NegotiateShare(o);
    }

    method ReadClientHello() returns (r: Result<()>)
      requires Valid()
      modifies this, inCipher
      ensures Valid() && CiphersKept() && Step(State(), r) == Steps.ReadClientHello(e, old(State()))
    {
      hide Records.ReadRecord, ParseClientHello, ReadOffer, OfferSoFar, Steps.Negotiate, Rec, TicketsNow;
      var record := ReadRecord();
      if record.Failure? {
        return Failure(record.error);
      }
      if record.value.typ != HANDSHAKE {
        return Failure(UnexpectedRecord(record.value.typ));
      }
      var data := record.value.data;
      hs := hs.(transcript := hs.transcript + data);
      var hello := UnmarshalClientHello(data);
      if hello.Failure? {
        return Failure(hello.error);
      }
      hs := hs.(clientRandom := hello.value.random, sessionID := hello.value.sessionID,
        clientSuites := hello.value.suites);
      var o := ReadExtensions(hello.value.extensions);
      if o.Failure? {
        return Failure(o.error);
      }
      r := Negotiate(o.value);
    }

    /** The server's key pair, the shared secret, and the hello that carries its share. */
    method PrepareServerHello(clientShare: KeyShareEntry) returns (r: Result<Bytes>)
      requires Valid() && hs.suite.Some?
      modifies this`hs
      ensures Valid() && Step(hs, r) == ServerHelloReady(e, old(hs), clientShare)
    {
      hide ServerSecret, ShareOf, ServerHelloBytes, ServerHelloExtensions;
      var secret := ServerSecret(e, clientShare);
      if secret.Failure? {
        return Failure(secret.error);
      }
      var share := ShareOf(e, clientShare.tag, 0);
      if clientShare.tag == CURVE_SM2 {
        hs := hs.(keys := hs.keys.(clientPrivateShare := Some(e.rnd.sm2Key(0))));
      } else {
        hs := hs.(keys := hs.keys.(clientX25519Key := Some(e.rnd.x25519Key(0))));
      }
      hs := hs.(keys := hs.keys.(sharedSecret := secret.value, serverPublicShare := share.data));
      var data := MarshalServerHello(ServerHelloOf(e, hs, share));
      r := Success(data);
    }

    /** The handshake keys, and the server's own for what goes out. */
    method StartSending() returns (r: Result<()>)
      requires Valid() && hs.suite.Some?
      modifies this
      ensures Valid() && CiphersKept() && inCipher == old(inCipher) && TicketsNow() == old(TicketsNow())
      ensures hs == DeriveHandshakeKeys(e.crypto, old(hs))
      ensures match NewCipher(HandshakeKeys, hs.keys.serverHandshake)
        case Failure(error) => r == Failure(error) && Rec() == old(Rec())
        case Success(k) => r == OK && Rec() == Install(MarkSending(old(Rec())), k)
    {
      hide DeriveHandshakeKeys, NewCipher, Install;
      DeriveKeys();
      r := InstallSending(hs.keys.serverHandshake);
    }

    method SendServerHello() returns (r: Result<()>)
      requires Valid() && !isClient && hs.suite.Some?
      modifies this, outCipher
      ensures Valid() && CiphersKept() && Step(State(), r) == Steps.SendServerHello(e, old(State()))
    {
      hide Steps.SendServerHello, ServerHelloReady, Records.WriteRecord, DeriveHandshakeKeys, NewCipher, Install, Rec,
        TicketsNow;
      HelloSentBy(e, State());
      hs := hs.(serverRandom := e.rnd.serverRandom);
      if hs.clientShare == None {
        return Failure(NoKeyShare);
      }
      var data := PrepareServerHello(hs.clientShare.value);
      if data.Failure? {
        return Failure(data.error);
      }
      SendMessage(data.value);
      Role();
      r := StartSending();
    }

    method SendEncryptedExtensions() returns (r: Result<()>)
      requires Valid()
      modifies this, outCipher
      ensures Valid() && CiphersKept() && Step(State(), r) == Steps.SendEncryptedExtensions(e, old(State()))
    {
      hide Steps.SendMessage, EncryptedExtensionsBytes, Alpn, Rec, TicketsNow;
      var extensions: seq<Extension> := [];
      if |hs.negotiatedProto| > 0 {
        var alpn := WriteAlpn([hs.negotiatedProto]);
        extensions := [alpn];
      }
      var data := MarshalEncryptedExtensions(extensions);
      SendMessage(data);
      r := OK;
    }

    method ServerStartReceiving() returns (r: Result<()>)
      requires Valid()
      modifies this
      ensures Valid() && CiphersKept() && Step(State(), r) == Steps.ServerStartReceiving(old(State()))
    {
      hide NewCipher, TicketsNow;
      if clientEncrypted && inCipher != null {
        return OK;
      }
      r := InstallReceiving(HandshakeKeys, hs.keys.clientHandshake);
      if r.Success? {
        clientEncrypted := true;
      }
    }

    method ReadClientCertificate() returns (r: Result<()>)
      requires Valid()
      modifies this, inCipher
      ensures Valid() && CiphersKept() && Step(State(), r) == Steps.ReadClientCertificate(e, old(State()))
    {
      hide Steps.ReadMessage, ParseCertificate, VerifyChain, Rec, TicketsNow;
      var msg := ReadMessage();
      if msg.Failure? {
        return Failure(msg.error);
      }
      if msg.value[0] != CERTIFICATE {
        return Failure(UnexpectedMessage(msg.value[0]));
      }
      var cert := ReadCertificate(e.crypto, msg.value);
      if cert.Failure? {
        return Failure(cert.error);
      }
      hs := hs.(peerCert := Some(cert.value));
      if e.config.requireClientCert && |cert.value.raw| == 0 {
        return Failure(CertificateMissing);
      }
      if !e.config.insecureSkipVerify && e.config.hasClientCAs && |cert.value.raw| > 0 {
        var chain := VerifyChain(e, cert.value);
        if chain.Failure? {
          return Failure(chain.error);
        }
      }
      hs := hs.(transcript := hs.transcript + msg.value);
      r := OK;
    }

    // ----- whole handshakes -----

    /** The first hello and its answer. */
    method Greet() returns (r: Result<()>, ghost pc: ClientPc)
      requires Valid() && isClient
      modifies this, inCipher, outCipher
      ensures Valid() && CiphersKept() && ClientReady(pc, State()) && Reports(pc, r)
      ensures pc == CReadExtensions || pc == CRetryHello || pc.CFailed?
      ensures pc == CRetryHello <==> r == Failure(HelloRetry) && hs.helloRetry
      ensures ClientGoes(e, CSendHello, old(State()), pc, State())
    {
      hide Steps.SendClientHello, Steps.ReadServerHello, RunClient, ClientStep, Rec, TicketsNow;
      Role();
      ClientRuns(e, CSendHello, State());
      HelloTurns(e, State());
      r := SendClientHello(CURVE_SM2);
      if r.Failure? {
        return r, CFailed(CSendHello, r.error);
      }
      ClientRuns(e, CReadHello, State());
      HelloTurns(e, State());
      r := ReadServerHello();
      pc := if r.Success? then CReadExtensions
            else if r.error == HelloRetry && hs.helloRetry then CRetryHello else CFailed(CReadHello, r.error);
    }

    /** The second hello, after a retry request, and its answer. */
    method GreetAgain() returns (r: Result<()>, ghost pc: ClientPc)
      requires Valid() && isClient
      modifies this, inCipher, outCipher
      ensures Valid() && CiphersKept() && ClientReady(pc, State()) && Reports(pc, r)
      ensures pc == CReadExtensions || pc.CFailed?
      ensures ClientGoes(e, CRetryHello, old(State()), pc, State())
    {
      hide Steps.SendClientHello, Steps.ReadServerHello, Records.WriteRecord, RunClient, ClientStep, Rec, TicketsNow;
      Role();
      ClientRuns(e, CRetryHello, State());
      RetryTurns(e, State());
      WriteRecord(CHANGE_CIPHER_SPEC, [1]);
      r := SendClientHello(hs.requestedGroup);
      if r.Failure? {
        return r, CFailed(CRetryHello, r.error);
      }
      ClientRuns(e, CReadSecondHello, State());
      RetryTurns(e, State());
      r := ReadServerHello();
      pc := if r.Success? then CReadExtensions else CFailed(CReadSecondHello, r.error);
    }

    /** EncryptedExtensions, then the messages up to the server's Certificate. */
    method ReadCredentials() returns (r: Result<()>, ghost pc: ClientPc)
      requires Valid() && ClientReady(CReadExtensions, State())
      modifies this, inCipher
      ensures Valid() && CiphersKept() && ClientReady(pc, State()) && Reports(pc, r)
      ensures pc == CReadVerify || pc.CFailed?
      ensures ClientGoes(e, CReadExtensions, old(State()), pc, State())
    {
      hide Steps.ReadEncryptedExtensions, Steps.ReadServerCertificate, RunClient, ClientStep, Rec, TicketsNow;
      ClientRuns(e, CReadExtensions, State());
      ReadTurns(e, State());
      r := ReadEncryptedExtensions();
      if r.Failure? {
        return r, CFailed(CReadExtensions, r.error);
      }
      while true
        invariant Valid() && CiphersKept() && ClientReady(CReadCertificate, State())
        invariant RunClient(e, CReadExtensions, old(State())) == RunClient(e, CReadCertificate, State())
        decreases |inbound|, |handshakeBuf|
      {
        Lengths();
        ClientRuns(e, CReadCertificate, State());
        ReadTurns(e, State());
        var done := ReadServerCertificate();
        Lengths();
        if done.Failure? {
          return Failure(done.error), CFailed(CReadCertificate, done.error);
        }
        if done.value {
          return OK, CReadVerify;
        }
      }
    }

    lemma Lengths()
      ensures Rec().inbound == inbound && Rec().handshakeBuf == handshakeBuf && Rec().complete == handshakeComplete
    {
    }

    /** CertificateVerify and Finished, and the switch to the server's application key. */
    method ReadProofs() returns (r: Result<()>, ghost pc: ClientPc)
      requires Valid() && ClientReady(CReadVerify, State())
      modifies this, inCipher
      ensures Valid() && CiphersKept() && ClientReady(pc, State()) && Reports(pc, r)
      ensures pc.CFailed? || pc == (if hs.certRequested then CSendCertificate else CSendFinished)
      ensures ClientGoes(e, CReadVerify, old(State()), pc, State())
    {
      hide Steps.ReadCertificateVerify, Steps.ReadFinished, Steps.EarlySwitch, RunClient, ClientStep, Rec, TicketsNow;
      ClientRuns(e, CReadVerify, State());
      ReadTurns(e, State());
      r := ReadCertificateVerify();
      if r.Failure? {
        return r, CFailed(CReadVerify, r.error);
      }
      ClientRuns(e, CReadFinished, State());
      ReadTurns(e, State());
      r := ReadFinished();
      if r.Failure? {
        return r, CFailed(CReadFinished, r.error);
      }
      EarlySwitch();
      pc := if hs.certRequested then CSendCertificate else CSendFinished;
    }

    /** The client's Certificate and CertificateVerify. */
    method SendCredentials() returns (r: Result<()>, ghost pc: ClientPc)
      requires Valid() && isClient && ClientReady(CSendCertificate, State())
      modifies this, outCipher
      ensures Valid() && CiphersKept() && ClientReady(pc, State()) && Reports(pc, r)
      ensures pc == CSendFinished || pc.CFailed?
      ensures ClientGoes(e, CSendCertificate, old(State()), pc, State())
    {
      hide Steps.PrepareClientCertificate, Steps.SendCertificate, Steps.SendCertificateVerify, RunClient, ClientStep,
        Rec, TicketsNow;
      ClientRuns(e, CSendCertificate, State());
      SendTurns(e, State());
      r := PrepareClientCertificate();
      if r.Failure? {
        return r, CFailed(CSendCertificate, r.error);
      }
      r := SendCertificate();
      if r.Failure? {
        return r, CFailed(CSendCertificate, r.error);
      }
      ClientRuns(e, CSendVerify, State());
      SendTurns(e, State());
      r := SendCertificateVerify();
      pc := if r.Success? then CSendFinished else CFailed(CSendVerify, r.error);
    }

    method FinishClient() returns (r: Result<()>, ghost pc: ClientPc)
      requires Valid() && ClientReady(CSendFinished, State())
      modifies this, outCipher
      ensures Valid() && CiphersKept() && ClientReady(pc, State()) && Reports(pc, r) && (pc == CDone || pc.CFailed?)
      ensures ClientGoes(e, CSendFinished, old(State()), pc, State())
    {
      hide Steps.SendFinished, Steps.Complete, RunClient, ClientStep, Rec, TicketsNow;
      ClientRuns(e, CSendFinished, State());
      SendTurns(e, State());
      r := SendFinished();
      if r.Failure? {
        return r, CFailed(CSendFinished, r.error);
      }
      Complete();
      pc := CDone;
    }

    method ExchangeHellos() returns (r: Result<()>, ghost pc: ClientPc)
      requires Valid() && isClient
      modifies this, inCipher, outCipher
      ensures Valid() && CiphersKept() && ClientReady(pc, State()) && Reports(pc, r)
        && (pc == CReadExtensions || pc.CFailed?)
      ensures ClientGoes(e, CSendHello, old(State()), pc, State())
    {
      hide ClientGoes, RunClient, Rec, TicketsNow;
      ghost var c0 := State();
      Role();
      r, pc := Greet();
      ghost var pc1, c1 := pc, State();
      if r == Failure(HelloRetry) && hs.helloRetry {
        Role();
        r, pc := GreetAgain();
      }
      GoesTwice(e, CSendHello, c0, pc1, c1, pc, State());
    }

    method ReadServerFlight() returns (r: Result<()>, ghost pc: ClientPc)
      requires Valid() && ClientReady(CReadExtensions, State())
      modifies this, inCipher
      ensures Valid() && CiphersKept() && ClientReady(pc, State()) && Reports(pc, r)
      ensures pc.CFailed? || pc == (if hs.certRequested then CSendCertificate else CSendFinished)
      ensures ClientGoes(e, CReadExtensions, old(State()), pc, State())
    {
      hide ClientGoes, RunClient, Rec, TicketsNow;
      ghost var c0 := State();
      r, pc := ReadCredentials();
      ghost var pc1, c1 := pc, State();
      if r.Success? {
        r, pc := ReadProofs();
      }
      GoesTwice(e, CReadExtensions, c0, pc1, c1, pc, State());
    }

    method SendClientFlight() returns (r: Result<()>, ghost pc: ClientPc)
      requires Valid() && isClient && ClientReady(if hs.certRequested then CSendCertificate else CSendFinished, State())
      modifies this, outCipher, inCipher
      ensures Valid() && CiphersKept() && ClientReady(pc, State()) && Reports(pc, r) && (pc == CDone || pc.CFailed?)
      ensures ClientGoes(e, if old(hs).certRequested then CSendCertificate else CSendFinished, old(State()), pc,
        State())
    {
      hide ClientGoes, RunClient, Rec, TicketsNow;
      ghost var c0 := State();
      ghost var pc0 := if hs.certRequested then CSendCertificate else CSendFinished;
      ghost var pc1, c1 := pc0, c0;
      r, pc := OK, pc0;
      if hs.certRequested {
        r, pc := SendCredentials();
        pc1, c1 := pc, State();
      }
      if r.Success? {
        r, pc := FinishClient();
      }
      GoesTwice(e, pc0, c0, pc1, c1, pc, State());
    }

    /** clientHandshakeTLS13: the run of the client machine to its end, on the fields of the connection. */
    method ClientHandshake() returns (r: Result<()>)
      requires Valid() && isClient
      modifies this, inCipher, outCipher
      ensures Valid() && CiphersKept() && ClientRan(e, old(State()), State(), r)
    {
      hide ClientGoes, RunClient, Rec, TicketsNow;
      ghost var c0 := State();
      Role();
      ghost var pc: ClientPc;
      r, pc := ExchangeHellos();
      ghost var pc1, c1 := pc, State();
      if r.Success? {
        r, pc := ReadServerFlight();
      }
      ghost var pc2, c2 := pc, State();
      GoesTwice(e, CSendHello, c0, pc1, c1, pc2, c2);
      if r.Success? {
        Role();
        r, pc := SendClientFlight();
      }
      GoesTwice(e, CSendHello, c0, pc2, c2, pc, State());
      GoesToEnd(e, CSendHello, c0, pc, State());
    }

    method ServerHellos() returns (r: Result<()>, ghost pc: ServerPc)
      requires Valid() && !isClient
      modifies this, inCipher, outCipher
      ensures Valid() && CiphersKept() && ServerReady(pc, State()) && ServerReports(pc, r)
        && (pc == SSendExtensions || pc.SFailed?)
      ensures ServerGoes(e, SReadHello, old(State()), pc, State())
    {
      hide Steps.ReadClientHello, Steps.SendServerHello, RunServer, ServerStep, Rec, TicketsNow;
      Role();
      ServerRuns(e, SReadHello, State());
      FlightTurns(e, State());
      r := ReadClientHello();
      if r.Failure? {
        return r, SFailed(SReadHello, r.error);
      }
      ServerRuns(e, SSendHello, State());
      FlightTurns(e, State());
      r := SendServerHello();
      pc := if r.Success? then SSendExtensions else SFailed(SSendHello, r.error);
    }

    /** The server's certificate, behind its extensions. */
    method ServerCertificate() returns (r: Result<()>, ghost pc: ServerPc)
      requires Valid() && ServerReady(SSendCertificate, State())
      modifies this, outCipher
      ensures Valid() && CiphersKept() && ServerReady(pc, State()) && ServerReports(pc, r)
        && (pc == SSendVerify || pc.SFailed?)
      ensures ServerGoes(e, SSendCertificate, old(State()), pc, State())
    {
      hide Steps.SendCertificate, RunServer, ServerStep, Rec, TicketsNow;
      ServerRuns(e, SSendCertificate, State());
      FlightTurns(e, State());
      r := SendCertificate();
      pc := if r.Success? then SSendVerify else SFailed(SSendCertificate, r.error);
    }

    /** EncryptedExtensions, and CertificateRequest if a client certificate is wanted. */
    method ServerExtensions() returns (r: Result<()>, ghost pc: ServerPc)
      requires Valid() && ServerReady(SSendExtensions, State())
      modifies this, outCipher
      ensures Valid() && CiphersKept() && ServerReady(pc, State()) && ServerReports(pc, r)
      ensures pc == SSendCertificate || pc.SFailed?
      ensures ServerGoes(e, SSendExtensions, old(State()), pc, State())
    {
      hide Steps.SendEncryptedExtensions, Steps.SendCertificateRequest, RunServer, ServerStep, Rec, TicketsNow;
      ServerRuns(e, SSendExtensions, State());
      FlightTurns(e, State());
      r := SendEncryptedExtensions();
      if r.Failure? {
        return r, SFailed(SSendExtensions, r.error);
      }
      if e.config.requireClientCert || e.config.hasClientCAs {
        ServerRuns(e, SSendRequest, State());
        FlightTurns(e, State());
        r := SendCertificateRequest();
        if r.Failure? {
          return r, SFailed(SSendRequest, r.error);
        }
      }
      pc := SSendCertificate;
    }

    /** CertificateVerify and Finished, and the client's handshake key for what comes in. */
    method ServerProofs() returns (r: Result<()>, ghost pc: ServerPc)
      requires Valid() && ServerReady(SSendVerify, State())
      modifies this, outCipher
      ensures Valid() && CiphersKept() && ServerReady(pc, State()) && ServerReports(pc, r)
      ensures pc.SFailed? || pc == (if RequestsCertificate(e.config) then SReadCertificate else SReadFinished)
      ensures ServerGoes(e, SSendVerify, old(State()), pc, State())
    {
      hide Steps.SendCertificateVerify, Steps.SendFinished, Steps.ServerStartReceiving, RunServer, ServerStep, Rec,
        TicketsNow;
      ServerRuns(e, SSendVerify, State());
      ProofTurns(e, State());
      r := SendCertificateVerify();
      if r.Failure? {
        return r, SFailed(SSendVerify, r.error);
      }
      ServerRuns(e, SSendFinished, State());
      ProofTurns(e, State());
      r := SendFinished();
      if r.Failure? {
        return r, SFailed(SSendFinished, r.error);
      }
      r := ServerStartReceiving();
      pc := if r.Failure? then SFailed(SSendFinished, r.error)
            else if RequestsCertificate(e.config) then SReadCertificate else SReadFinished;
    }

    method ReadClientCredentials() returns (r: Result<()>, ghost pc: ServerPc)
      requires Valid() && ServerReady(SReadCertificate, State())
      modifies this, inCipher
      ensures Valid() && CiphersKept() && ServerReady(pc, State()) && ServerReports(pc, r)
      ensures pc == SReadFinished || pc.SFailed?
      ensures ServerGoes(e, SReadCertificate, old(State()), pc, State())
    {
      hide Steps.ReadClientCertificate, Steps.ReadCertificateVerify, RunServer, ServerStep, Rec, TicketsNow;
      ServerRuns(e, SReadCertificate, State());
      AnswerTurns(e, State());
      r := ReadClientCertificate();
      if r.Failure? {
        return r, SFailed(SReadCertificate, r.error);
      }
      ServerRuns(e, SReadVerify, State());
      AnswerTurns(e, State());
      r := ReadCertificateVerify();
      pc := if r.Success? then SReadFinished else SFailed(SReadVerify, r.error);
    }

    method FinishServer() returns (r: Result<()>, ghost pc: ServerPc)
      requires Valid() && ServerReady(SReadFinished, State())
      modifies this, inCipher
      ensures Valid() && CiphersKept() && ServerReady(pc, State()) && ServerReports(pc, r)
        && (pc == SDone || pc.SFailed?)
      ensures ServerGoes(e, SReadFinished, old(State()), pc, State())
    {
      hide Steps.ReadFinished, Steps.Complete, RunServer, ServerStep, Rec, TicketsNow;
      ServerRuns(e, SReadFinished, State());
      AnswerTurns(e, State());
      r := ReadFinished();
      if r.Failure? {
        return r, SFailed(SReadFinished, r.error);
      }
      Complete();
      pc := SDone;
    }

    /** Everything the server sends. */
    method SendServerFlight() returns (r: Result<()>, ghost pc: ServerPc)
      requires Valid() && ServerReady(SSendExtensions, State())
      modifies this, outCipher
      ensures Valid() && CiphersKept() && ServerReady(pc, State()) && ServerReports(pc, r)
      ensures pc.SFailed? || pc == (if RequestsCertificate(e.config) then SReadCertificate else SReadFinished)
      ensures ServerGoes(e, SSendExtensions, old(State()), pc, State())
    {
      hide ServerGoes, RunServer, Rec, TicketsNow;
      ghost var c0 := State();
      r, pc := ServerExtensions();
      ghost var pc1, c1 := pc, State();
      if r.Success? {
        r, pc := ServerCertificate();
      }
      ghost var pc2, c2 := pc, State();
      ServerGoesTwice(e, SSendExtensions, c0, pc1, c1, pc2, c2);
      if r.Success? {
        r, pc := ServerProofs();
      }
      ServerGoesTwice(e, SSendExtensions, c0, pc2, c2, pc, State());
    }

    method ReadClientFlight() returns (r: Result<()>, ghost pc: ServerPc)
      requires Valid() && ServerReady(if RequestsCertificate(e.config) then SReadCertificate else SReadFinished,
        State())
      modifies this, inCipher
      ensures Valid() && CiphersKept() && ServerReady(pc, State()) && ServerReports(pc, r)
        && (pc == SDone || pc.SFailed?)
      ensures ServerGoes(e, if RequestsCertificate(e.config) then SReadCertificate else SReadFinished, old(State()), pc,
        State())
    {
      hide ServerGoes, RunServer, Rec, TicketsNow;
      ghost var c0 := State();
      ghost var pc0 := if RequestsCertificate(e.config) then SReadCertificate else SReadFinished;
      ghost var pc1, c1 := pc0, c0;
      r, pc := OK, pc0;
      if e.config.requireClientCert || e.config.hasClientCAs {
        r, pc := ReadClientCredentials();
        pc1, c1 := pc, State();
      }
      if r.Success? {
        r, pc := FinishServer();
      }
      ServerGoesTwice(e, pc0, c0, pc1, c1, pc, State());
    }

    /** serverHandshakeTLS13: the run of the server machine to its end. */
    method ServerHandshake() returns (r: Result<()>)
      requires Valid() && !isClient
      modifies this, inCipher, outCipher
      ensures Valid() && CiphersKept() && ServerRan(e, old(State()), State(), r)
    {
      hide ServerGoes, RunServer, Rec, TicketsNow;
      ghost var c0 := State();
      Role();
      ghost var pc: ServerPc;
      r, pc := ServerHellos();
      ghost var pc1, c1 := pc, State();
      if r.Success? {
        r, pc := SendServerFlight();
      }
      ghost var pc2, c2 := pc, State();
      ServerGoesTwice(e, SReadHello, c0, pc1, c1, pc2, c2);
      if r.Success? {
        r, pc := ReadClientFlight();
      }
      ServerGoesTwice(e, SReadHello, c0, pc2, c2, pc, State());
      ServerGoesToEnd(e, SReadHello, c0, pc, State());
    }
  }

  // ----- the loops over extensions and shares -----

  method FindExtension(es: seq<Extension>, tag: u16) returns (data: Option<Bytes>)
    ensures data == Find(es, tag)
  {
    for i := 0 to |es|
      invariant Find(es, tag) == Find(es[i..], tag)
    {
      assert es[i..][1..] == es[i + 1..];
      if es[i].tag == tag {
        return Some(es[i].data);
      }
    }
    data := None;
  }

  /** The group a HelloRetryRequest asks for: two bytes, or a whole key share. */
  method ReadRetryGroup(es: seq<Extension>) returns (r: Result<u16>)
    ensures r == RetryGroup(es)
  {
    hide Find, ParseKeyShareServer;
    var data := FindExtension(es, EXT_KEY_SHARE);
    if data == None {
      return Failure(NoRetryGroup);
    }
    var group: u16;
    if |data.value| == 2 {
      group := ReadU16(data.value);
    } else {
      var share := ParseKeyShareServer(data.value);
      if share.Failure? {
        return Failure(share.error);
      }
      group := share.value.tag;
    }
    if group == 0 {
      return Failure(NoRetryGroup);
    }
    r := Success(group);
  }

  method ChooseSuite(offered: seq<u16>, id: u16) returns (r: Result<Suite>)
    ensures r == ChosenSuite(offered, id)
  {
    hide SuiteByID, Offered;
    var known := ClientOffered(offered, id);
    if |offered| > 0 && !known {
      return Failure(UnsupportedSuite(id));
    }
    var suite := SuiteByID(id);
    if suite == None {
      return Failure(UnsupportedSuite(id));
    }
    if !ForVersion(suite.value, VERSION_TLS13) {
      return Failure(UnsupportedVersion);
    }
    r := Success(suite.value);
  }

  method ReadServerShare(es: seq<Extension>) returns (r: Result<Option<KeyShareEntry>>)
    ensures r == ServerShare(es)
  {
    hide Find, ParseKeyShareServer;
    var data := FindExtension(es, EXT_KEY_SHARE);
    if data == None {
      return Success(None);
    }
    var share := ParseKeyShareServer(data.value);
    if share.Failure? {
      return Failure(share.error);
    }
    r := Success(Some(share.value));
  }

  method ReadVersion(es: seq<Extension>) returns (r: Result<()>)
    ensures r == CheckVersion(es)
  {
    hide Find;
    var data := FindExtension(es, EXT_SUPPORTED_VERSIONS);
    if data == None {
      return Failure(UnsupportedVersion);
    }
    if |data.value| != 2 {
      return Failure(BadExtension);
    }
    if ReadU16(data.value) != VERSION_TLS13 {
      return Failure(UnsupportedVersion);
    }
    r := OK;
  }

  method FindShare(shares: seq<KeyShareEntry>, group: u16) returns (share: Option<KeyShareEntry>)
    ensures share == FirstShare(shares, group)
  {
    for i := 0 to |shares|
      invariant FirstShare(shares, group) == FirstShare(shares[i..], group)
    {
      assert shares[i..][1..] == shares[i + 1..];
      if shares[i].tag == group {
        return Some(shares[i]);
      }
    }
    share := None;
  }

  method PreferShare(shares: seq<KeyShareEntry>) returns (share: Option<KeyShareEntry>)
    ensures share == PreferredShare(shares)
  {
    hide FirstShare;
    share := FindShare(shares, CURVE_SM2);
    if share == None {
      share := FindShare(shares, CURVE_X25519);
    }
  }

  /** The run from one program counter and state comes to the other. */
  ghost predicate ClientGoes(e: Env, pc: ClientPc, c: ConnState, pc': ClientPc, c': ConnState) {
    ClientReady(pc, c) && ClientReady(pc', c') && RunClient(e, pc, c) == RunClient(e, pc', c')
  }

  ghost predicate ServerGoes(e: Env, pc: ServerPc, c: ConnState, pc': ServerPc, c': ConnState) {
    ServerReady(pc, c) && ServerReady(pc', c') && RunServer(e, pc, c) == RunServer(e, pc', c')
  }

  lemma GoesTwice(e: Env, pc: ClientPc, c: ConnState, pc1: ClientPc, c1: ConnState, pc2: ClientPc, c2: ConnState)
    requires ClientReady(pc, c)
    requires (pc == pc1 && c == c1) || ClientGoes(e, pc, c, pc1, c1)
    requires (pc1 == pc2 && c1 == c2) || ClientGoes(e, pc1, c1, pc2, c2)
    ensures ClientGoes(e, pc, c, pc2, c2)
  {
    hide RunClient, ClientReady;
  }

  lemma ServerGoesTwice(e: Env, pc: ServerPc, c: ConnState, pc1: ServerPc, c1: ConnState, pc2: ServerPc, c2: ConnState)
    requires ServerReady(pc, c)
    requires (pc == pc1 && c == c1) || ServerGoes(e, pc, c, pc1, c1)
    requires (pc1 == pc2 && c1 == c2) || ServerGoes(e, pc1, c1, pc2, c2)
    ensures ServerGoes(e, pc, c, pc2, c2)
  {
    hide RunServer, ServerReady;
  }

  /** A whole client handshake: the run of the machine from its start, and what it returns. */
  ghost predicate ClientRan(e: Env, before: ConnState, after: ConnState, r: Result<()>) {
    ClientReady(CSendHello, before) &&
    var (pc, c) := RunClient(e, CSendHello, before);
    c == after && if r.Success? then pc == CDone else pc.CFailed? && pc.error == r.error
  }

  ghost predicate ServerRan(e: Env, before: ConnState, after: ConnState, r: Result<()>) {
    ServerReady(SReadHello, before) &&
    var (pc, s) := RunServer(e, SReadHello, before);
    s == after && if r.Success? then pc == SDone else pc.SFailed? && pc.error == r.error
  }

  lemma GoesToEnd(e: Env, pc: ClientPc, c: ConnState, pc': ClientPc, c': ConnState)
    requires ClientGoes(e, pc, c, pc', c') && ClientEnded(pc')
    ensures ClientReady(pc, c) && RunClient(e, pc, c) == (pc', c')
  {
    hide RunClient;
    ClientRuns(e, pc', c');
  }

  lemma ServerGoesToEnd(e: Env, pc: ServerPc, c: ConnState, pc': ServerPc, c': ConnState)
    requires ServerGoes(e, pc, c, pc', c') && ServerEnded(pc')
    ensures ServerReady(pc, c) && RunServer(e, pc, c) == (pc', c')
  {
    hide RunServer;
    ServerRuns(e, pc', c');
  }

  ghost predicate ServerReports(pc: ServerPc, r: Result<()>) {
    if pc.SFailed? then r == Failure(pc.error) else r.Success?
  }

  /** One turn of a server's run. */
  lemma ServerRuns(e: Env, pc: ServerPc, c: ConnState)
    requires ServerReady(pc, c)
    ensures ServerEnded(pc) ==> RunServer(e, pc, c) == (pc, c)
    ensures !ServerEnded(pc) ==> var next := ServerStep(e, pc, c);
      RunServer(e, pc, c) == RunServer(e, next.0, next.1) && (ServerEnded(next.0) ==> RunServer(e, pc, c) == next)
  {
    hide ServerStep;
  }

  lemma FlightTurns(e: Env, c: ConnState)
    requires !c.rec.isClient
    ensures ClientHelloTurn(e, c)
    ensures c.hs.suite.Some? ==>
      && ServerStep(e, SSendHello, c) == GotoS(Steps.SendServerHello(e, c), SSendHello, SSendExtensions)
      && ServerStep(e, SSendExtensions, c) ==
         GotoS(Steps.SendEncryptedExtensions(e, c), SSendExtensions,
           if RequestsCertificate(e.config) then SSendRequest else SSendCertificate)
      && ServerStep(e, SSendRequest, c) == GotoS(Steps.SendCertificateRequest(e, c), SSendRequest, SSendCertificate)
      && ServerStep(e, SSendCertificate, c) == GotoS(Steps.SendCertificate(e, c), SSendCertificate, SSendVerify)
  {
    hide Steps.ReadClientHello, Steps.SendServerHello, Steps.SendEncryptedExtensions, Steps.SendCertificateRequest,
      Steps.SendCertificate, Steps.SendCertificateVerify, Steps.SendFinished, Steps.ServerStartReceiving,
      Steps.ReadClientCertificate, Steps.ReadCertificateVerify, Steps.ReadFinished, Steps.Complete;
  }

  ghost predicate ClientHelloTurn(e: Env, c: ConnState)
    requires !c.rec.isClient
  {
    ServerStep(e, SReadHello, c) == GotoS(Steps.ReadClientHello(e, c), SReadHello, SSendHello)
  }

  lemma ProofTurns(e: Env, c: ConnState)
    requires !c.rec.isClient && c.hs.suite.Some?
    ensures ServerStep(e, SSendVerify, c) == GotoS(Steps.SendCertificateVerify(e, c), SSendVerify, SSendFinished)
    ensures var s := Steps.SendFinished(e, c);
      ServerStep(e, SSendFinished, c) ==
      if s.result.Failure? then (SFailed(SSendFinished, s.result.error), s.state)
      else GotoS(Steps.ServerStartReceiving(s.state), SSendFinished,
      if RequestsCertificate(e.config) then SReadCertificate else SReadFinished)
  {
    hide Steps.ReadClientHello, Steps.SendServerHello, Steps.SendEncryptedExtensions, Steps.SendCertificateRequest,
      Steps.SendCertificate, Steps.SendCertificateVerify, Steps.SendFinished, Steps.ServerStartReceiving,
      Steps.ReadClientCertificate, Steps.ReadCertificateVerify, Steps.ReadFinished, Steps.Complete;
  }

  lemma AnswerTurns(e: Env, c: ConnState)
    requires !c.rec.isClient && c.hs.suite.Some?
    ensures ServerStep(e, SReadCertificate, c) ==
      GotoS(Steps.ReadClientCertificate(e, c), SReadCertificate, SReadVerify)
    ensures ServerStep(e, SReadVerify, c) == GotoS(Steps.ReadCertificateVerify(e, c), SReadVerify, SReadFinished)
    ensures var s := Steps.ReadFinished(e, c);
      ServerStep(e, SReadFinished, c) ==
      if s.result.Failure? then (SFailed(SReadFinished, s.result.error), s.state)
      else (SDone, Steps.Complete(e, s.state))
  {
    hide Steps.ReadClientHello, Steps.SendServerHello, Steps.SendEncryptedExtensions, Steps.SendCertificateRequest,
      Steps.SendCertificate, Steps.SendCertificateVerify, Steps.SendFinished, Steps.ServerStartReceiving,
      Steps.ReadClientCertificate, Steps.ReadCertificateVerify, Steps.ReadFinished, Steps.Complete;
  }

  /** What a handshake that is at this program counter has returned from its last step. */
  ghost predicate Reports(pc: ClientPc, r: Result<()>) {
    if pc.CFailed? then r == Failure(pc.error) else pc == CRetryHello || r.Success?
  }

  lemma ReadTurns(e: Env, c: ConnState)
    requires c.rec.isClient && c.hs.suite.Some?
    ensures ClientStep(e, CReadExtensions, c) ==
      Goto(Steps.ReadEncryptedExtensions(e, c), CReadExtensions, CReadCertificate)
    ensures var s := Steps.ReadServerCertificate(e, c);
      ClientStep(e, CReadCertificate, c) ==
      Goto(s, CReadCertificate, if s.result == Success(true) then CReadVerify else CReadCertificate)
    ensures ClientStep(e, CReadVerify, c) == Goto(Steps.ReadCertificateVerify(e, c), CReadVerify, CReadFinished)
    ensures var s := Steps.ReadFinished(e, c);
      ClientStep(e, CReadFinished, c) ==
      if s.result.Failure? then (CFailed(CReadFinished, s.result.error), s.state)
      else
        var c1 := Steps.EarlySwitch(e, s.state);
        (if c1.hs.certRequested then CSendCertificate else CSendFinished, c1)
  {
    hide Steps.SendClientHello, Steps.ReadServerHello, Steps.ReadEncryptedExtensions, Steps.ReadServerCertificate,
      Steps.ReadCertificateVerify, Steps.ReadFinished, Steps.EarlySwitch, Steps.PrepareClientCertificate,
      Steps.SendCertificate, Steps.SendCertificateVerify, Steps.SendFinished, Steps.Complete, Records.WriteRecord;
  }

  lemma SendTurns(e: Env, c: ConnState)
    requires c.rec.isClient && c.hs.suite.Some?
    ensures var s := Steps.PrepareClientCertificate(e, c);
      ClientStep(e, CSendCertificate, c) ==
      if s.result.Failure? then (CFailed(CSendCertificate, s.result.error), s.state)
      else Goto(Steps.SendCertificate(e, s.state), CSendCertificate, CSendVerify)
    ensures ClientStep(e, CSendVerify, c) == Goto(Steps.SendCertificateVerify(e, c), CSendVerify, CSendFinished)
    ensures var s := Steps.SendFinished(e, c);
      ClientStep(e, CSendFinished, c) ==
      if s.result.Failure? then (CFailed(CSendFinished, s.result.error), s.state)
      else (CDone, Steps.Complete(e, s.state))
  {
    hide Steps.SendClientHello, Steps.ReadServerHello, Steps.ReadEncryptedExtensions, Steps.ReadServerCertificate,
      Steps.ReadCertificateVerify, Steps.ReadFinished, Steps.EarlySwitch, Steps.PrepareClientCertificate,
      Steps.SendCertificate, Steps.SendCertificateVerify, Steps.SendFinished, Steps.Complete, Records.WriteRecord;
  }

  lemma HelloTurns(e: Env, c: ConnState)
    requires c.rec.isClient
    ensures ClientStep(e, CSendHello, c) == Goto(Steps.SendClientHello(e, c, CURVE_SM2), CSendHello, CReadHello)
    ensures var s := Steps.ReadServerHello(e, c);
      ClientStep(e, CReadHello, c) ==
      if s.result == Failure(HelloRetry) && s.state.hs.helloRetry then (CRetryHello, s.state)
      else Goto(s, CReadHello, CReadExtensions)
  {
    hide Steps.SendClientHello, Steps.ReadServerHello, Steps.ReadEncryptedExtensions, Steps.ReadServerCertificate,
      Steps.ReadCertificateVerify, Steps.ReadFinished, Steps.EarlySwitch, Steps.PrepareClientCertificate,
      Steps.SendCertificate, Steps.SendCertificateVerify, Steps.SendFinished, Steps.Complete, Records.WriteRecord;
  }

  lemma RetryTurns(e: Env, c: ConnState)
    requires c.rec.isClient
    ensures var c1 := c.(rec := Records.WriteRecord(e.crypto, c.rec, CHANGE_CIPHER_SPEC, [1]));
      ClientStep(e, CRetryHello, c) ==
        Goto(Steps.SendClientHello(e, c1, c.hs.requestedGroup), CRetryHello, CReadSecondHello)
    ensures ClientStep(e, CReadSecondHello, c) == Goto(Steps.ReadServerHello(e, c), CReadSecondHello, CReadExtensions)
  {
    hide Steps.SendClientHello, Steps.ReadServerHello, Steps.ReadEncryptedExtensions, Steps.ReadServerCertificate,
      Steps.ReadCertificateVerify, Steps.ReadFinished, Steps.EarlySwitch, Steps.PrepareClientCertificate,
      Steps.SendCertificate, Steps.SendCertificateVerify, Steps.SendFinished, Steps.Complete, Records.WriteRecord;
  }

  ghost function ServerHelloReady(e: Env, hs: HandshakeState,
          clientShare: KeyShareEntry): (s: Step<HandshakeState, Bytes>)
    requires hs.suite.Some?
    ensures s.state.suite == hs.suite && (s.result.Failure? ==> s.state == hs)
  {
    var secret := ServerSecret(e, clientShare);
    if secret.Failure? then Step(hs, Failure(secret.error))
    else
      var share := ShareOf(e, clientShare.tag, 0);
      var own := if clientShare.tag == CURVE_SM2 then hs.keys.(clientPrivateShare := Some(e.rnd.sm2Key(0)))
                 else hs.keys.(clientX25519Key := Some(e.rnd.x25519Key(0)));
      var hs' := hs.(keys := own.(sharedSecret := secret.value, serverPublicShare := share.data));
      Step(hs', Success(ServerHelloBytes(ServerHelloOf(e, hs', share))))
  }

  lemma HelloSentBy(e: Env, c: ConnState)
    requires c.hs.suite.Some?
    ensures var c1 := c.(hs := c.hs.(serverRandom := e.rnd.serverRandom)); var step := Steps.SendServerHello(e, c);
      if c.hs.clientShare == None then step == Step(c1, Failure(NoKeyShare))
      else
        var ready := ServerHelloReady(e, c1.hs, c.hs.clientShare.value);
        if ready.result.Failure? then step == Step(c1, Failure(ready.result.error))
        else
          var c3 := Steps.SendMessage(e, c1.(hs := ready.state), ready.result.value);
          var hs := DeriveHandshakeKeys(e.crypto, c3.hs);
          var k := NewCipher(HandshakeKeys, hs.keys.serverHandshake);
          if k.Failure? then step == Step(c3.(hs := hs), Failure(k.error))
          else step == Step(c3.(hs := hs, rec := Install(c3.rec.(serverEncrypted := true), k.value)), OK)
  {
    hide ServerSecret, ShareOf, ServerHelloBytes, ServerHelloExtensions, DeriveHandshakeKeys, NewCipher, Install,
      Records.WriteRecord;
  }

  lemma FinishedSent(e: Env, c: ConnState)
    ensures var own := if c.rec.isClient then c.hs.keys.clientHandshake else c.hs.keys.serverHandshake;
      var data := FinishedBytes(VerifyData(e.crypto, own.secret, c.hs.transcript));
      var was := c.hs.(transcript := c.hs.transcript + data);
      var hs := if c.rec.isClient then was else was.(serverFinishedHash := Some(e.crypto.hash(was.transcript)));
      var s := Steps.EnsureSending(c.rec, own);
      Steps.SendFinished(e, c) ==
      if s.result.Failure? then Step(c.(hs := hs, rec := s.state), Failure(s.result.error))
      else Step(c.(hs := hs, rec := Records.WriteRecord(e.crypto, s.state, HANDSHAKE, data)), OK)
  {
    hide VerifyData, FinishedBytes, Steps.EnsureSending, Records.WriteRecord;
  }

  /** One turn of a client's run. */
  lemma ClientRuns(e: Env, pc: ClientPc, c: ConnState)
    requires ClientReady(pc, c)
    ensures ClientEnded(pc) ==> RunClient(e, pc, c) == (pc, c)
    ensures !ClientEnded(pc) ==> var next := ClientStep(e, pc, c);
      RunClient(e, pc, c) == RunClient(e, next.0, next.1) && (ClientEnded(next.0) ==> RunClient(e, pc, c) == next)
  {
    hide ClientStep;
  }

  /** The keys after deriveTLS13ApplicationKeys. */
  ghost function AppKeys(cr: Crypto, hs: HandshakeState): KeyMaterial
    requires hs.suite.Some?
  {
    if hs.keys.masterSecret == [] then hs.keys
    else hs.keys.(clientApp := ClientAppTraffic(cr, hs), serverApp := ServerAppTraffic(cr, hs))
  }

  /** The record layer after setupApplicationTrafficKeys. */
  ghost function Switched(r: RecordState, keys: KeyMaterial): RecordState {
    var (peer, own) := if r.isClient then (keys.serverApp, keys.clientApp) else (keys.clientApp, keys.serverApp);
    match NewCipher(ApplicationKeys, peer)
    case Failure(_) => r
    case Success(k) =>
      var r1 := r.(inCipher := Some(k));
      match NewCipher(ApplicationKeys, own)
      case Failure(_) => r1
      case Success(k') => Install(r1, k')
  }

  lemma FinalSwitchIs(e: Env, c: ConnState)
    requires c.hs.suite.Some?
    ensures var keys := AppKeys(e.crypto, c.hs);
      Steps.FinalSwitch(e, c) == c.(hs := c.hs.(keys := keys), rec := Switched(c.rec, keys))
  {
    hide ServerAppTraffic, ClientAppTraffic, NewCipher, Install;
  }

  lemma HelloSent(e: Env, c: ConnState, group: u16)
    ensures var was := c.hs.(clientSuites := CLIENT_SUITES); var step := Steps.SendClientHello(e, c, group);
      if group != CURVE_SM2 && group != CURVE_X25519 then step == Step(c.(hs := was), Failure(UnsupportedGroup(group)))
      else
        var hello := HelloOf(e, was, ShareOf(e, group, was.helloCount));
        var data := HelloBytes(e.crypto, hello, c.tickets.cache, e.clock(c.tickets.ticks));
        var version := if was.helloCount == 0 then VERSION_TLS10 else RECORD_VERSION;
        step == Step(ConnState(Records.WriteRecord(e.crypto, c.rec.(nextVersion := version), HANDSHAKE, data),
                               was.(keys := SharesFor(e, was.keys, group, was.helloCount), sessionID := hello.sessionID,
                                    lastClientHello := data, transcript := was.transcript + data,
                                      helloCount := was.helloCount + 1),
                               c.tickets.(ticks := c.tickets.ticks + 1)), OK)
  {
    hide HelloBytes, ShareOf, SharesFor, HelloOf, Records.WriteRecord;
  }

  lemma BinderWidth(tickets: seq<Ticket>, now: nat)
    ensures PskOffer(tickets, now).Some? ==> PskOffer(tickets, now).value.binderLen == HASH_SIZE
  {
    hide Identity, BeforeBinder;
  }

  /** A result of Read in the caller's buffer. */
  ghost predicate Returned(before: Bytes, after: Bytes, r: Result<nat>, spec: Result<Bytes>) {
    match spec
    case Failure(error) => r == Failure(error) && after == before
    case Success(d) => r == Success(|d|) && |d| <= |before| && after == d + before[|d|..]
  }

  lemma NothingReturned(before: Bytes)
    ensures forall error: Error :: Returned(before, before, Failure(error), Failure(error))
  {
  }

  /** What Read takes a record for. */
  function Verdict(complete: bool, record: Record): (v: Result<Unwrapped>)
    ensures v.Success? ==> !v.value.Refused?
  {
    var u := UnwrapApplicationData(complete, record.data);
    if record.typ == ALERT then Failure(CloseOrAlert(record.data))
    else if record.typ != APPLICATION_DATA then Failure(UnexpectedRecord(record.typ))
    else if u.Refused? then Failure(u.error)
    else Success(u)
  }

  /** The next payload, after the tickets in front of it have been stored. */
  ghost function NextPayload(cr: Crypto, tc: TicketContext, a: AppState): Step<AppState, Bytes>
    decreases |a.rec.inbound|
  {
    var s := Records.ReadRecord(cr, a.rec);
    var a1 := a.(rec := s.state);
    if s.result.Failure? then Step(a1, Failure(s.result.error))
    else
      var v := Verdict(a1.rec.complete, s.result.value);
      if v.Failure? then Step(a1, Failure(v.error))
      else if v.value.NewTickets? then
        NextPayload(cr, tc, a1.(tickets := ParseAndStore(cr, tc.clock, tc.limit, tc.secret, a.tickets, v.value.data)))
      else Step(a1, Success(v.value.data))
  }

  lemma RecordsKeepComplete(cr: Crypto, r: RecordState)
    ensures var r' := Records.ReadRecord(cr, r).state; r'.complete == r.complete && r'.appReadBuf == r.appReadBuf
  {
    hide OpenRecord, Unwrap;
  }

  /** With nothing buffered, Read hands over the next payload. */
  lemma {:induction false} ReadDelivers(cr: Crypto, tc: TicketContext, a: AppState, n: nat)
    requires a.rec.complete && a.rec.appReadBuf == []
    ensures var s := NextPayload(cr, tc, a);
      Records.Read(cr, tc, a, n) ==
      if s.result.Failure? then s
      else Step(s.state.(rec := Deliver(s.state.rec, s.result.value, n)), Success(Take(s.result.value, n)))
    decreases |a.rec.inbound|
  {
    hide Records.ReadRecord, ParseAndStore, UnwrapApplicationData, CloseOrAlert, Deliver;
    RecordsKeepComplete(cr, a.rec);
    var s := Records.ReadRecord(cr, a.rec);
    if s.result.Success? && Verdict(true, s.result.value).Success? && Verdict(true, s.result.value).value.NewTickets? {
      var data := Verdict(true, s.result.value).value.data;
      ReadDelivers(cr, tc, AppState(s.state, ParseAndStore(cr, tc.clock, tc.limit, tc.secret, a.tickets, data)), n);
    }
  }

  /** What becomes of a record once it is off the transport. */
  ghost function Framed(cr: Crypto, r: RecordState, typ: byte, version: u16, data: Bytes): Step<RecordState, Record>
    requires |data| < 0x1_0000
  {
    if typ == CHANGE_CIPHER_SPEC || typ == ALERT || !Receiving(r) then
      Step(r, Success(Unwrap(r, typ, version, |data|, data)))
    else
      match OpenRecord(cr, r.inCipher.value, data)
      case None => Step(r, Failure(OpenFailed))
      case Some(plain) => Step(Opened(r, |data|), Success(Unwrap(r, typ, version, |data|, plain)))
  }

  lemma RecordCases(cr: Crypto, r: RecordState)
    ensures var s, step := r.inbound, Records.ReadRecord(cr, r);
      if |s| < 5 || |s| - 5 < ReadU16(s[3..]) then step == Step(r.(inbound := []), Failure(Eof))
      else
        var n := ReadU16(s[3..]);
        step == Framed(cr, r.(inbound := s[5 + n..]), s[0], ReadU16(s[1..]), s[5..5 + n])
  {
    hide OpenRecord, AdditionalData, StripInner;
  }

  /** A last byte that is a type byte is not padding. */
  lemma TypeByteStrips(data: Bytes)
    requires data != [] && InnerTypeByte(data[|data| - 1])
    ensures StripInner(data) == Success((data[..|data| - 1], data[|data| - 1]))
  {
  }

  lemma UnwrapSame(r: RecordState, r': RecordState, typ: byte, version: u16, length: u16, payload: Bytes)
    requires r.complete == r'.complete
    ensures Unwrap(r, typ, version, length, payload) == Unwrap(r', typ, version, length, payload)
  {
    hide StripInner;
  }

  lemma HeaderFields(inbound: Bytes, header: Bytes)
    requires |inbound| >= 5 && header == inbound[..5]
    ensures header[0] == inbound[0] && ReadU16(header[1..3]) == ReadU16(inbound[1..])
      && ReadU16(header[3..5]) == ReadU16(inbound[3..])
  {
  }
}
