/** Reassembly: however a stream of handshake messages is cut into encrypted records, padded and interleaved with
    change-cipher-spec records, successive reads return the messages of the stream (RFC 8446, sections 5.1 and 5.2). */
module Fragmentation {
  import opened Prelude
  import opened Crypto
  import opened HandshakeMessages
  import opened RecordCipher
  import opened Records

  /** One record on the wire: a piece of the handshake stream with zero padding, or change-cipher-spec. */
  datatype Item = Fragment(version: u16, content: Bytes, padding: nat) | Ccs(version: u16, data: Bytes)

  predicate Fits(item: Item) {
    match item
    case Fragment(_, content, padding) => |content| + 1 + padding + 16 < 0x1_0000
    case Ccs(_, data) => |data| < 0x1_0000
  }

  function ContentOf(item: Item): Bytes { if item.Fragment? then item.content else [] }

  function Content(items: seq<Item>): Bytes {
    if items == [] then [] else ContentOf(items[0]) + Content(items[1..])
  }

  function Inner(content: Bytes, padding: nat): Bytes { content + [HANDSHAKE] + Zeros(padding) }

  function Sealed(cr: Crypto, k: Cipher, inner: Bytes): Bytes {
    cr.seal(k.key, Nonce(k.iv, k.writeSeq), AdditionalData(|inner| + 16), inner)
  }

  function ItemBytes(cr: Crypto, k: Cipher, item: Item): Bytes {
    match item
    case Fragment(version, content, padding) => RecordBytes(APPLICATION_DATA, version,
      Sealed(cr, k, Inner(content, padding)))
    case Ccs(version, data) => RecordBytes(CHANGE_CIPHER_SPEC, version, data)
  }

  function NextCipher(k: Cipher, item: Item): Cipher { if item.Fragment? then AfterSeal(k) else k }

  function Wire(cr: Crypto, k: Cipher, items: seq<Item>): Bytes
    decreases |items|
  {
    if items == [] then [] else ItemBytes(cr, k, items[0]) + Wire(cr, NextCipher(k, items[0]), items[1..])
  }

  /** The receiver opens with what the sender seals with. */
  predicate Aligned(receiver: Cipher, sender: Cipher) {
    receiver.key == sender.key && receiver.iv == sender.iv && receiver.readSeq == sender.writeSeq
  }

  /** During the handshake, with a cipher in place, these items are next in the transport, then `tail`. */
  ghost predicate Feeds(cr: Crypto, r: RecordState, k: Cipher, items: seq<Item>, tail: Bytes) {
    && Receiving(r) && !r.complete && Aligned(r.inCipher.value, k)
    && r.inbound == Wire(cr, k, items) + tail
    && forall i :: 0 <= i < |items| ==> Fits(items[i])
  }

  lemma RecordSplits(typ: byte, version: u16, payload: Bytes, rest: Bytes)
    requires |payload| < 0x1_0000
    ensures var s := RecordBytes(typ, version, payload) + rest;
      && |s| >= 5 + |payload| && s[0] == typ && ReadU16(s[1..]) == version && ReadU16(s[3..]) == |payload|
      && s[5..5 + |payload|] == payload && s[5 + |payload|..] == rest
  {
    var s := RecordBytes(typ, version, payload) + rest;
    U16RoundTrip(version);
    U16RoundTrip(|payload|);
    assert s[1..3] == U16(version) && s[3..5] == U16(|payload|);
    ReadAt(s, 1, 3);
    ReadAt(s, 3, 5);
  }

  lemma ReadsCcs(cr: Crypto, r: RecordState, version: u16, data: Bytes, rest: Bytes)
    requires |data| < 0x1_0000 && r.inbound == RecordBytes(CHANGE_CIPHER_SPEC, version, data) + rest
    ensures var s := ReadRecord(cr, r);
      s.result.Success? && s.result.value.typ == CHANGE_CIPHER_SPEC && s.state == r.(inbound := rest)
  {
    hide RecordBytes;
    RecordSplits(CHANGE_CIPHER_SPEC, version, data, rest);
  }

  lemma ReadsSealed(cr: Crypto, r: RecordState, k: Cipher, version: u16, inner: Bytes, rest: Bytes)
    requires Lawful(cr) && |inner| + 16 < 0x1_0000 && Receiving(r) && Aligned(r.inCipher.value, k)
    requires r.inbound == RecordBytes(APPLICATION_DATA, version, Sealed(cr, k, inner)) + rest
    ensures var s := ReadRecord(cr, r);
      && s.result == Success(Unwrap(r, APPLICATION_DATA, version, |inner| + 16, inner))
      && s.state == Opened(r.(inbound := rest), |inner| + 16)
  {
    hide RecordBytes, AdditionalData, Nonce, Unwrap;
    RecordSplits(APPLICATION_DATA, version, Sealed(cr, k, inner), rest);
  }

  /** One item read: what it adds to the handshake buffer, and the next items are next. */
  lemma ReadsItem(cr: Crypto, r: RecordState, k: Cipher, items: seq<Item>, tail: Bytes)
    requires Lawful(cr) && items != [] && Feeds(cr, r, k, items, tail)
    ensures var s := ReadRecord(cr, r);
      && s.result.Success? && Feeds(cr, s.state, NextCipher(k, items[0]), items[1..], tail)
      && s.state.handshakeBuf == r.handshakeBuf
      && (if items[0].Ccs? then s.result.value.typ == CHANGE_CIPHER_SPEC
          else
            && s.result.value.typ != CHANGE_CIPHER_SPEC
            && HandshakeContent(s.result.value) == Success(items[0].content))
  {
    hide RecordBytes, AdditionalData, Nonce, ReadRecord;
    var rest := Wire(cr, NextCipher(k, items[0]), items[1..]) + tail;
    Assoc(ItemBytes(cr, k, items[0]), Wire(cr, NextCipher(k, items[0]), items[1..]), tail);
    assert Fits(items[0]);
    match items[0] {
      case Fragment(version, content, padding) =>
        ReadsSealed(cr, r, k, version, Inner(content, padding), rest);
        StripInnerWrapped(content, HANDSHAKE, padding);
      case Ccs(version, data) => ReadsCcs(cr, r, version, data, rest);
    }
  }

  lemma EmptyFeeds(cr: Crypto, r: RecordState, k: Cipher, items: seq<Item>, tail: Bytes)
    requires Feeds(cr, r, k, items, tail)
    ensures items[0..] == items && items[|items|..] == [] && Content([]) == []
  {
  }

  /** A message that is whole in the buffer is at the front of any longer stream. */
  lemma FrontMessage(buf: Bytes, more: Bytes)
    requires HasMessage(buf)
    ensures var total := 4 + ReadU24(buf[1..]); var p := ParseMessage(buf + more);
      && p.Success? && Message(p.value.typ, p.value.body) == buf[..total] && p.value.rest == buf[total..] + more
  {
    var total := 4 + ReadU24(buf[1..]);
    ReadAt(buf, 1, |buf|);
    ReadAt(buf + more, 1, |buf + more|);
    assert (buf + more)[1..4] == buf[1..4];
    SplitPrints(buf + more);
    assert (buf + more)[..total] == buf[..total] && (buf + more)[total..] == buf[total..] + more;
    var p := ParseMessage(buf + more).value;
    assert Message(p.typ, p.body) == (Message(p.typ, p.body) + p.rest)[..total];
  }

  /** When the stream holds a whole message, a read returns exactly the first message that parsing the stream gives, and
      what is left in the buffer and in the transport is exactly the rest of the stream. */
  lemma {:induction false} ReadsFirstMessage(cr: Crypto, r: RecordState, k: Cipher, items: seq<Item>, tail: Bytes)
    returns (used: nat, k': Cipher)
    requires Lawful(cr) && Feeds(cr, r, k, items, tail)
    requires ParseMessage(r.handshakeBuf + Content(items)).Success?
    ensures var p := ParseMessage(r.handshakeBuf + Content(items)).value; var s := ReadHandshakeMsg(cr, r);
      && s.result == Success(Message(p.typ, p.body)) && used <= |items|
      && Feeds(cr, s.state, k', items[used..], tail)
      && s.state.handshakeBuf + Content(items[used..]) == p.rest
    decreases |items|
  {
    hide ReadRecord, HandshakeContent, ParseMessage, Wire, Lawful;
    EmptyFeeds(cr, r, k, items, tail);
    NoMessage(r.handshakeBuf);
    assert r.handshakeBuf + [] == r.handshakeBuf;
    if HasMessage(r.handshakeBuf) {
      used, k' := 0, k;
      FrontMessage(r.handshakeBuf, Content(items));
    } else if items != [] {
      ReadsItem(cr, r, k, items, tail);
      var s := ReadRecord(cr, r).state;
      var r1 := s.(handshakeBuf := r.handshakeBuf + ContentOf(items[0]));
      Assoc(r.handshakeBuf, ContentOf(items[0]), Content(items[1..]));
      var n;
      n, k' := ReadsFirstMessage(cr, r1, NextCipher(k, items[0]), items[1..], tail);
      used := n + 1;
      assert items[1..][n..] == items[used..];
    }
  }

  lemma NoMessage(buf: Bytes)
    ensures ParseMessage(buf).Success? <==> HasMessage(buf)
  {
  }

  /** When it does not, and nothing else arrives, the read ends with end-of-file and the buffer holds the stream. */
  lemma {:induction false} ReadsNoMessage(cr: Crypto, r: RecordState, k: Cipher, items: seq<Item>)
    requires Lawful(cr) && Feeds(cr, r, k, items, [])
    requires ParseMessage(r.handshakeBuf + Content(items)).Failure?
    ensures var s := ReadHandshakeMsg(cr, r);
      s.result == Failure(Eof) && s.state.handshakeBuf == r.handshakeBuf + Content(items) && s.state.inbound == []
    decreases |items|
  {
    hide ReadRecord, HandshakeContent, ParseMessage, Wire, Lawful;
    if HasMessage(r.handshakeBuf) {
      FrontMessage(r.handshakeBuf, Content(items));
      assert false;
    }
    assert r.handshakeBuf + [] == r.handshakeBuf;
    if items == [] {
      NothingLeft(cr, r, k);
    } else {
      ReadsItem(cr, r, k, items, []);
      var s := ReadRecord(cr, r).state;
      Assoc(r.handshakeBuf, ContentOf(items[0]), Content(items[1..]));
      ReadsNoMessage(cr, s.(handshakeBuf := r.handshakeBuf + ContentOf(items[0])), NextCipher(k, items[0]), items[1..]);
    }
  }

  lemma NothingLeft(cr: Crypto, r: RecordState, k: Cipher)
    requires Feeds(cr, r, k, [], [])
    ensures ReadRecord(cr, r) == Step(r.(inbound := []), Failure(Eof))
  {
  }

  /** The whole messages of a byte stream, and what is left of it. */
  function Messages(stream: Bytes): (seq<Bytes>, Bytes)
    decreases |stream|
  {
    match ParseMessage(stream)
    case Failure(_) => ([], stream)
    case Success(p) =>
      var (ms, rest) := Messages(p.rest);
      ([Message(p.typ, p.body)] + ms, rest)
  }

  /** Up to n reads in a row; the first that fails is the last. */
  function ReadMany(cr: Crypto, r: RecordState, n: nat): (seq<Bytes>, RecordState)
    decreases n
  {
    if n == 0 then ([], r)
    else
      var s := ReadHandshakeMsg(cr, r);
      match s.result
      case Failure(_) => ([], s.state)
      case Success(m) =>
        var (ms, r') := ReadMany(cr, s.state, n - 1);
        ([m] + ms, r')
  }

  /** However the stream was cut up, n reads return its first n messages, and the buffer with what is still to come is
      the undelivered suffix. */
  lemma {:induction false} SuccessiveReads(cr: Crypto, r: RecordState, k: Cipher, items: seq<Item>, tail: Bytes, n: nat)
    returns (used: nat, k': Cipher)
    requires Lawful(cr) && Feeds(cr, r, k, items, tail)
    requires n <= |Messages(r.handshakeBuf + Content(items)).0|
    ensures var stream := r.handshakeBuf + Content(items); var (ms, r') := ReadMany(cr, r, n);
      && ms == Messages(stream).0[..n] && used <= |items| && Feeds(cr, r', k', items[used..], tail)
      && stream == Concat(ms) + (r'.handshakeBuf + Content(items[used..]))
    decreases n
  {
    hide ReadHandshakeMsg, ParseMessage, Feeds, Content, Lawful;
    var stream := r.handshakeBuf + Content(items);
    if n == 0 {
      used, k' := 0, k;
      assert items[0..] == items;
    } else {
      var p := ParseMessage(stream).value;
      var u;
      u, k' := ReadsFirstMessage(cr, r, k, items, tail);
      var s := ReadHandshakeMsg(cr, r).state;
      used, k' := SuccessiveReads(cr, s, k', items[u..], tail, n - 1);
      var (ms, r') := ReadMany(cr, s, n - 1);
      var m := Message(p.typ, p.body);
      SplitPrints(stream);
      assert items[u..][used..] == items[u + used..];
      used := u + used;
      assert ([m] + ms)[1..] == ms;
      Assoc(m, Concat(ms), r'.handshakeBuf + Content(items[used..]));
      assert Messages(stream).0[..n] == [m] + Messages(p.rest).0[..n - 1];
    }
  }

  /** Reading on past the last message of a finished stream returns all its messages, and what is then in the buffer is
      the incomplete rest. */
  lemma {:induction false} ReadsAll(cr: Crypto, r: RecordState, k: Cipher, items: seq<Item>, n: nat)
    requires Lawful(cr) && Feeds(cr, r, k, items, [])
    requires n > |Messages(r.handshakeBuf + Content(items)).0|
    ensures var (ms, rest) := Messages(r.handshakeBuf + Content(items));
      ReadMany(cr, r, n).0 == ms && ReadMany(cr, r, n).1.handshakeBuf == rest
    decreases n
  {
    hide ReadHandshakeMsg, ParseMessage, Feeds, Content, Lawful;
    var stream := r.handshakeBuf + Content(items);
    if ParseMessage(stream).Failure? {
      ReadsNoMessage(cr, r, k, items);
    } else {
      var u, k' := ReadsFirstMessage(cr, r, k, items, []);
      ReadsAll(cr, ReadHandshakeMsg(cr, r).state, k', items[u..], n - 1);
    }
  }
}
