/** What one direction of a connection carries: messages sealed one after another under a traffic key. */
module Channels {
  import opened Prelude
  import opened Crypto
  import opened KeySchedule
  import opened RecordCipher
  import opened Records
  import opened Fragmentation

  /** The longest plaintext whose record length fits 16 bits: one type byte and a 16-byte tag are added. */
  const MAX_PLAINTEXT: nat := 65518

  /** The sending cipher under a traffic key after i records. */
  function SealerAt(epoch: Epoch, t: Traffic, i: nat): Cipher
    requires |t.iv| == 12
  {
    Cipher(epoch, t.key, t.iv, i % TWO64, 0)
  }

  /** The receiving cipher after i records. */
  function OpenerAt(epoch: Epoch, t: Traffic, i: nat): Cipher
    requires |t.iv| == 12
  {
    Cipher(epoch, t.key, t.iv, 0, i % TWO64)
  }

  function SealedBytes(cr: Crypto, k: Cipher, typ: byte, data: Bytes): Bytes {
    RecordBytes(APPLICATION_DATA, RECORD_VERSION, SealRecord(cr, k, typ, data))
  }

  /** The records of msgs[from..], each sealed under its own sequence number. */
  function Sent(cr: Crypto, epoch: Epoch, t: Traffic, typ: byte, msgs: seq<Bytes>, from: nat): Bytes
    requires from <= |msgs| && |t.iv| == 12
    decreases |msgs| - from
  {
    if from == |msgs| then []
    else SealedBytes(cr, SealerAt(epoch, t, from), typ, msgs[from]) + Sent(cr, epoch, t, typ, msgs, from + 1)
  }

  /** How those records are sealed. */
  function Uses(epoch: Epoch, t: Traffic, msgs: seq<Bytes>): (us: seq<Use>)
    requires |t.iv| == 12
    ensures |us| == |msgs|
  {
    seq(|msgs|, i requires 0 <= i < |msgs| => UseOf(SealerAt(epoch, t, i), i % TWO64, |msgs[i]| + 17))
  }

  lemma {:induction false} SentSnoc(cr: Crypto, epoch: Epoch, t: Traffic, typ: byte, msgs: seq<Bytes>, from: nat,
          m: Bytes)
    requires from <= |msgs| && |t.iv| == 12
    ensures Sent(cr, epoch, t, typ, msgs + [m], from) ==
            Sent(cr, epoch, t, typ, msgs, from) + SealedBytes(cr, SealerAt(epoch, t, |msgs|), typ, m)
    decreases |msgs| - from
  {
    hide SealedBytes;
    var last := SealedBytes(cr, SealerAt(epoch, t, |msgs|), typ, m);
    if from == |msgs| {
      assert Sent(cr, epoch, t, typ, msgs + [m], from + 1) == [];
      assert last + [] == last && [] + last == last;
    } else {
      SentSnoc(cr, epoch, t, typ, msgs, from + 1, m);
      assert (msgs + [m])[from] == msgs[from];
      Assoc(SealedBytes(cr, SealerAt(epoch, t, from), typ, msgs[from]), Sent(cr, epoch, t, typ, msgs, from + 1), last);
    }
  }

  lemma UsesSnoc(epoch: Epoch, t: Traffic, msgs: seq<Bytes>, m: Bytes)
    requires |t.iv| == 12
    ensures Uses(epoch, t, msgs + [m]) ==
      Uses(epoch, t, msgs) + [UseOf(SealerAt(epoch, t, |msgs|), |msgs| % TWO64, |m| + 17)]
  {
    hide AdditionalData;
  }

  lemma UsesPrefix(epoch: Epoch, t: Traffic, msgs: seq<Bytes>, n: nat)
    requires |t.iv| == 12 && n <= |msgs|
    ensures Uses(epoch, t, msgs[..n]) == Uses(epoch, t, msgs)[..n]
  {
    hide AdditionalData;
  }

  /** A sealed record arrives as it was sealed. */
  lemma ReadsSentRecord(cr: Crypto, r: RecordState, k: Cipher, typ: byte, data: Bytes, rest: Bytes)
    requires Lawful(cr) && Receiving(r) && Aligned(r.inCipher.value, k) && |data| <= MAX_PLAINTEXT
    requires r.inbound == SealedBytes(cr, k, typ, data) + rest
    ensures ReadRecord(cr, r) == Step(Opened(r.(inbound := rest), |data| + 17),
              Success(Unwrap(r, APPLICATION_DATA, RECORD_VERSION, |data| + 17, data + [typ])))
  {
    hide RecordBytes, AdditionalData, Nonce, Unwrap;
    RecordSplits(APPLICATION_DATA, RECORD_VERSION, SealRecord(cr, k, typ, data), rest);
  }

  /** Before a cipher is in place a record arrives as it is. */
  lemma ReadsPlainRecord(cr: Crypto, r: RecordState, typ: byte, version: u16, data: Bytes, rest: Bytes)
    requires !Receiving(r) && !r.complete && |data| < 0x1_0000 && r.inbound == RecordBytes(typ, version, data) + rest
    ensures ReadRecord(cr, r) == Step(r.(inbound := rest), Success(Record(typ, version, |data|, data)))
    ensures typ != CHANGE_CIPHER_SPEC ==> ReadSkippingCcs(cr, r) == ReadRecord(cr, r)
  {
    hide RecordBytes;
    RecordSplits(typ, version, data, rest);
  }

  /** A message as long as its header says. */
  predicate Whole(m: Bytes) { |m| >= 4 && |m| == 4 + ReadU24(m[1..]) }

  /** One handshake message per record: the next read returns it. */
  lemma ReadsSentMessage(cr: Crypto, r: RecordState, k: Cipher, m: Bytes, rest: Bytes)
    requires Lawful(cr) && Receiving(r) && !r.complete && r.handshakeBuf == [] && Aligned(r.inCipher.value, k)
    requires Whole(m) && |m| <= MAX_PLAINTEXT
    requires r.inbound == SealedBytes(cr, k, HANDSHAKE, m) + rest
    ensures ReadHandshakeMsg(cr, r) == Step(Opened(r.(inbound := rest), |m| + 17), Success(m))
  {
    hide Lawful, Aligned, SealedBytes, AdditionalData, ReadRecord;
    ReadsSentRecord(cr, r, k, HANDSHAKE, m, rest);
    assert m + [HANDSHAKE] + Zeros(0) == m + [HANDSHAKE];
    StripInnerWrapped(m, HANDSHAKE, 0);
    assert [] + m == m;
    TakesWhole(cr, Opened(r.(inbound := rest), |m| + 17).(handshakeBuf := m), m);
  }

  lemma TakesWhole(cr: Crypto, r: RecordState, m: Bytes)
    requires r.handshakeBuf == m && Whole(m)
    ensures ReadHandshakeMsg(cr, r) == Step(r.(handshakeBuf := []), Success(m))
  {
    assert m[..|m|] == m;
  }

  lemma ReadsNothing(cr: Crypto, r: RecordState)
    requires r.inbound == [] && r.handshakeBuf == []
    ensures ReadRecord(cr, r).result == Failure(Eof) && ReadHandshakeMsg(cr, r).result == Failure(Eof)
    ensures ReadSkippingCcs(cr, r).result == Failure(Eof)
  {
  }

  /** Counting on. */
  lemma CountsOn(epoch: Epoch, t: Traffic, i: nat)
    requires |t.iv| == 12
    ensures AfterSeal(SealerAt(epoch, t, i)) == SealerAt(epoch, t, i + 1)
    ensures AfterOpen(OpenerAt(epoch, t, i)) == OpenerAt(epoch, t, i + 1)
    ensures Aligned(OpenerAt(epoch, t, i), SealerAt(epoch, t, i))
  {
    var q := i / TWO64;
    assert i == q * TWO64 + i % TWO64;
    if i % TWO64 + 1 == TWO64 {
      assert i + 1 == (q + 1) * TWO64;
    } else {
      assert i + 1 == q * TWO64 + (i % TWO64 + 1);
    }
  }
}
