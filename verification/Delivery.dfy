/** Application data from one end to the other: what Read makes of records that Write sealed. */
module Delivery {
  import opened Prelude
  import opened Crypto
  import opened KeySchedule
  import opened RecordCipher
  import opened Tickets
  import opened Records
  import opened Fragmentation
  import opened Channels
  import opened Script
  import opened Pairs
  import opened Joint

  /** The payloads that come through the second look for a type byte unchanged. */
  predicate Survives(b: Bytes) { b == [] || !InnerTypeByte(b[|b| - 1]) }

  /** The exact condition: any other payload is cut short, taken for tickets or refused. */
  lemma SurvivesExactly(b: Bytes)
    ensures UnwrapApplicationData(true, b) == Payload(b) <==> Survives(b)
    ensures !Survives(b) ==> match UnwrapApplicationData(true, b)
      case Payload(data) => data + [APPLICATION_DATA] == b
      case NewTickets(data) => data + [HANDSHAKE] == b && ConsumesTickets(data)
      case Refused(_) => b[|b| - 1] != APPLICATION_DATA
  {
  }

  /** An end after the handshake that has opened i of the payloads sent to it: `r` says the rest of its record layer, hk
      and hs what it opened during the handshake. */
  function Receiver(cr: Crypto, r: RecordState, hk: Traffic, hs: seq<Bytes>, t: Traffic, sent: seq<Bytes>, i: nat,
          buf: Bytes): RecordState
    requires i <= |sent| && |t.iv| == 12 && |hk.iv| == 12
  {
    r.(inbound := Sent(cr, ApplicationKeys, t, APPLICATION_DATA, sent, i),
       inCipher := Some(OpenerAt(ApplicationKeys, t, i)),
       opens := AllUses(hk, hs, t, sent[..i]), appReadBuf := buf)
  }

  predicate Open(r: RecordState) { r.complete && if r.isClient then r.serverEncrypted else r.clientEncrypted }

  /** The next record is opened with what it was sealed with, and its content is what was written. */
  lemma OpensNext(cr: Crypto, r: RecordState, hk: Traffic, hs: seq<Bytes>, t: Traffic, sent: seq<Bytes>, i: nat,
          buf: Bytes)
    requires Lawful(cr) && Open(r) && i < |sent| && |t.iv| == 12 && |hk.iv| == 12 && |sent[i]| <= MAX_PLAINTEXT
    ensures ReadRecord(cr, Receiver(cr, r, hk, hs, t, sent, i, buf)) ==
      Step(Receiver(cr, r, hk, hs, t, sent, i + 1, buf),
        Success(Record(APPLICATION_DATA, RECORD_VERSION, |sent[i]| + 17, sent[i])))
  {
    hide Lawful, SealedBytes, AdditionalData, ReadRecord, StripInner, AllUses, Aligned;
    CountsOn(ApplicationKeys, t, i);
    ReadsSentRecord(cr, Receiver(cr, r, hk, hs, t, sent, i, buf), SealerAt(ApplicationKeys, t, i), APPLICATION_DATA,
                    sent[i], Sent(cr, ApplicationKeys, t, APPLICATION_DATA, sent, i + 1));
    StripInnerWrapped(sent[i], APPLICATION_DATA, 0);
    assert sent[i] + [APPLICATION_DATA] + Zeros(0) == sent[i] + [APPLICATION_DATA];
    assert sent[..i + 1] == sent[..i] + [sent[i]];
    AllUsesSnoc(hk, hs, t, sent[..i], sent[i]);
  }

  lemma NothingSent(cr: Crypto, r: RecordState, hk: Traffic, hs: seq<Bytes>, t: Traffic, sent: seq<Bytes>, buf: Bytes)
    requires |t.iv| == 12 && |hk.iv| == 12
    ensures var r' := Receiver(cr, r, hk, hs, t, sent, |sent|, buf); ReadRecord(cr, r') == Step(r', Failure(Eof))
  {
    hide AllUses;
  }

  // ----- what arrives -----

  /** What Read makes of a payload: nothing of one that it takes for tickets or refuses. */
  function Arrival(b: Bytes): Bytes {
    match UnwrapApplicationData(true, b)
    case Payload(data) => data
    case NewTickets(_) => []
    case Refused(_) => []
  }

  function Arrivals(msgs: seq<Bytes>): Bytes {
    if msgs == [] then [] else Arrivals(msgs[..|msgs| - 1]) + Arrival(msgs[|msgs| - 1])
  }

  ghost predicate AllSurvive(msgs: seq<Bytes>) { forall i :: 0 <= i < |msgs| ==> Survives(msgs[i]) }

  lemma ArrivesWhole(b: Bytes)
    ensures |Arrival(b)| <= |b| && (Arrival(b) == b <==> Survives(b)) && (|Arrival(b)| == |b| ==> Survives(b))
  {
    SurvivesExactly(b);
  }

  /** The payloads arrive as they were written exactly if each of them survives; what is lost is never made up for. */
  lemma {:induction false} ArrivalsAreWhole(msgs: seq<Bytes>)
    ensures |Arrivals(msgs)| <= |Concat(msgs)|
    ensures Arrivals(msgs) == Concat(msgs) <==> AllSurvive(msgs)
    ensures |Arrivals(msgs)| == |Concat(msgs)| ==> AllSurvive(msgs)
  {
    hide Arrival, Survives;
    if msgs != [] {
      var front, b := msgs[..|msgs| - 1], msgs[|msgs| - 1];
      assert msgs == front + [b];
      ConcatSnoc(front, b);
      ArrivalsAreWhole(front);
      ArrivesWhole(b);
      if AllSurvive(msgs) {
        assert forall i :: 0 <= i < |front| ==> front[i] == msgs[i];
      }
    }
  }

  lemma TakeAndRest(data: Bytes, n: nat)
    ensures Take(data, n) + (if n < |data| then data[n..] else []) == data
  {
  }

  lemma NextArrives(sent: seq<Bytes>, i: nat)
    requires i < |sent|
    ensures Arrivals(sent[..i + 1]) == Arrivals(sent[..i]) + Arrival(sent[i])
  {
    hide Arrival;
    assert sent[..i + 1][..i] == sent[..i];
  }

  /** Whatever was written, a Read leaves an end that has opened a longer part of it, each record as it was sealed; and
      all that was handed over, then the buffer, is what arrives of that part. */
  lemma {:induction false} ReadHandsOver(cr: Crypto, tc: TicketContext, r: RecordState, hk: Traffic, hs: seq<Bytes>,
          t: Traffic, sent: seq<Bytes>, i: nat, got: Bytes, buf: Bytes, tickets: TicketState, n: nat)
    returns (j: nat, buf': Bytes)
    requires Lawful(cr) && Open(r) && i <= |sent| && |t.iv| == 12 && |hk.iv| == 12 && AllFit(sent)
    requires got + buf == Arrivals(sent[..i])
    ensures i <= j <= |sent|
    ensures var s := Read(cr, tc, AppState(Receiver(cr, r, hk, hs, t, sent, i, buf), tickets), n);
      && s.state.rec == Receiver(cr, r, hk, hs, t, sent, j, buf')
      && got + Handed(s.result) + buf' == Arrivals(sent[..j])
      && (AllSurvive(sent[i..j]) ==> s.state.tickets == tickets)
    decreases |sent| - i
  {
    hide Lawful, ReadRecord, UnwrapApplicationData, ParseAndStore, AllUses, Sent, Arrivals, Survives;
    j, buf' := i, buf;
    if buf != [] {
      buf' := if n < |buf| then buf[n..] else [];
      TakeAndRest(buf, n);
      Assoc(got, Take(buf, n), buf');
    } else if i == |sent| {
      NothingSent(cr, r, hk, hs, t, sent, buf);
      assert got + [] == got;
    } else {
      OpensNext(cr, r, hk, hs, t, sent, i, buf);
      NextArrives(sent, i);
      assert got + [] == got;
      j := i + 1;
      match UnwrapApplicationData(true, sent[i]) {
        case Refused(_) =>
        case NewTickets(data) =>
          j, buf' := ReadHandsOver(cr, tc, r, hk, hs, t, sent, i + 1, got, buf,
                                   ParseAndStore(cr, tc.clock, tc.limit, tc.secret, tickets, data), n);
          SurvivesExactly(sent[i]);
          assert sent[i..j][0] == sent[i];
        case Payload(data) =>
          buf' := if n < |data| then data[n..] else [];
          TakeAndRest(data, n);
          Assoc(got, Take(data, n), buf');
      }
    }
  }
}
