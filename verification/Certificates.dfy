/** tls13_cert.go: the Certificate and CertificateRequest messages. The Certificate printer fills a buffer of
    known size through an advancing offset, so it works on an array here. */
module Certificates {
  import opened Prelude
  import opened Crypto
  import opened Extensions
  import opened HandshakeMessages

  datatype Certificate = Certificate(raw: Bytes, chain: seq<Bytes>, publicKey: Option<Bytes>)

  function SentChain(cert: Certificate): seq<Bytes> {
    if cert.chain != [] then cert.chain else if cert.raw != [] then [cert.raw] else []
  }

  function CertificateEntry(der: Bytes): (s: Bytes)
    ensures |s| == 5 + |der|
  {
    U24(|der|) + der + U16(0)
  }

  function CertificateEntries(chain: seq<Bytes>): Bytes {
    if chain == [] then [] else CertificateEntry(chain[0]) + CertificateEntries(chain[1..])
  }

  /** Only 255 bytes of a context are sent, but the buffer was sized for all of it: the rest stays zero. */
  function CertificateBytes(cert: Certificate, context: Bytes): Bytes {
    var entries := CertificateEntries(SentChain(cert));
    var n := Min(|context|, 255);
    Message(CERTIFICATE, [n] + context[..n] + (U24(|entries|) + entries) + Zeros(|context| - n))
  }

  /** The first certificate and what follows its extensions. */
  function ParseCertificateEntry(s: Bytes): (r: Option<(Bytes, Bytes)>)
    ensures r.Some? ==> |r.value.1| < |s|
  {
    if |s| < 3 || |s| - 3 < ReadU24(s) + 2 then None
    else
      var n := ReadU24(s);
      var next := 5 + n + ReadU16(s[3 + n..]);
      if |s| < next then None else Some((s[3..3 + n], s[next..]))
  }

  function ParseCertificateEntries(s: Bytes): Option<seq<Bytes>>
    decreases |s|
  {
    if s == [] then Some([])
    else
      match ParseCertificateEntry(s)
      case None => None
      case Some((der, rest)) => Prepend([der], ParseCertificateEntries(rest))
  }

  lemma SomeCertificate(s: Bytes)
    requires s != []
    ensures ParseCertificateEntries(s) != Some([])
  {
  }

  /** certificate_list: a three-byte length and the entries. Bytes behind it are ignored. */
  function ParseCertificateList(cr: Crypto, s: Bytes): Result<Certificate>
    requires |s| >= 3
  {
    var n := ReadU24(s);
    if |s| - 3 < n then Failure(BadCertificate)
    else if n == 0 then Success(Certificate([], [], None))
    else
      match ParseCertificateEntries(s[3..3 + n])
      case None => Failure(BadCertificate)
      case Some(chain) => Success(Certificate(chain[0], chain, cr.certificateKey(chain[0])))
  }

  function ParseCertificate(cr: Crypto, data: Bytes): Result<Certificate> {
    if |data| < 5 || data[0] != CERTIFICATE || |data| - 8 < data[4] then Failure(BadCertificate)
    else ParseCertificateList(cr, data[5 + data[4]..])
  }

  predicate ChainFits(chain: seq<Bytes>) {
    && (forall i :: 0 <= i < |chain| ==> |chain[i]| < 0x100_0000)
    && |CertificateEntries(chain)| < 0x100_0000
  }

  lemma CertificateEntryHead(der: Bytes, rest: Bytes)
    requires |der| < 0x100_0000
    ensures ParseCertificateEntry(CertificateEntry(der) + rest) == Some((der, rest))
  {
    var s, n := CertificateEntry(der) + rest, |der|;
    U24RoundTrip(n);
    assert s[..3] == U24(n) && ReadU24(s) == ReadU24(s[..3]);
    assert s[3 + n..][..2] == U16(0);
    assert s[3..3 + n] == der && s[5 + n..] == rest;
  }

  lemma {:induction false} CertificateEntriesRoundTrip(chain: seq<Bytes>)
    requires forall i :: 0 <= i < |chain| ==> |chain[i]| < 0x100_0000
    ensures ParseCertificateEntries(CertificateEntries(chain)) == Some(chain)
  {
    if chain != [] {
      CertificateEntryHead(chain[0], CertificateEntries(chain[1..]));
      CertificateEntriesRoundTrip(chain[1..]);
      assert [chain[0]] + chain[1..] == chain;
    }
  }

  lemma CertificateHead(n: byte, context: Bytes, list: Bytes)
    requires |context| == n
    ensures var data := Message(CERTIFICATE, [n] + context + list + Zeros(0));
      && |data| == 5 + n + |list| && data[0] == CERTIFICATE && data[4] == n && data[5 + n..] == list
  {
    assert Zeros(0) == [];
  }

  /** The certificate a receiver makes of a chain: the first entry is the leaf. */
  function FromChain(cr: Crypto, chain: seq<Bytes>): Certificate {
    if chain == [] then Certificate([], [], None)
    else Certificate(chain[0], chain, cr.certificateKey(chain[0]))
  }

  lemma ListHead(entries: Bytes)
    requires |entries| < 0x100_0000
    ensures var list := U24(|entries|) + entries;
      ReadU24(list) == |entries| && list[3..3 + |entries|] == entries
  {
    U24RoundTrip(|entries|);
    assert (U24(|entries|) + entries)[..3] == U24(|entries|);
  }

  lemma NoEntries(chain: seq<Bytes>)
    ensures |CertificateEntries(chain)| == 0 <==> chain == []
  {
  }

  lemma CertificateListRoundTrip(cr: Crypto, chain: seq<Bytes>)
    requires ChainFits(chain)
    ensures var entries := CertificateEntries(chain);
      ParseCertificateList(cr, U24(|entries|) + entries) == Success(FromChain(cr, chain))
  {
    hide U24, CertificateEntries, ParseCertificateEntries;
    ListHead(CertificateEntries(chain));
    CertificateEntriesRoundTrip(chain);
    NoEntries(chain);
  }

  /** What a peer recovers is the chain sent, whatever the context and however many certificates. */
  lemma CertificateRoundTrip(cr: Crypto, cert: Certificate, context: Bytes)
    requires |context| < 0x100 && ChainFits(SentChain(cert))
    ensures ParseCertificate(cr, CertificateBytes(cert, context)) == Success(FromChain(cr, SentChain(cert)))
  {
    var entries := CertificateEntries(SentChain(cert));
    assert context[..|context|] == context;
    CertificateHead(|context|, context, U24(|entries|) + entries);
    CertificateListRoundTrip(cr, SentChain(cert));
  }

  lemma {:induction false} CertificateEntriesAppend(chain: seq<Bytes>, der: Bytes)
    ensures CertificateEntries(chain + [der]) == CertificateEntries(chain) + CertificateEntry(der)
  {
    if chain == [] {
      assert chain + [der] == [der];
      assert CertificateEntries([der]) == CertificateEntry(der) + CertificateEntries([]);
    } else {
      assert (chain + [der])[1..] == chain[1..] + [der];
      CertificateEntriesAppend(chain[1..], der);
    }
  }

  lemma {:induction false} CertificateEntriesGrow(chain: seq<Bytes>, i: nat)
    requires i < |chain|
    ensures CertificateEntries(chain[..i + 1]) == CertificateEntries(chain[..i]) + CertificateEntry(chain[i])
    ensures |CertificateEntries(chain[..i + 1])| <= |CertificateEntries(chain)|
    decreases |chain| - i
  {
    assert chain[..i + 1] == chain[..i] + [chain[i]];
    CertificateEntriesAppend(chain[..i], chain[i]);
    if i + 1 < |chain| {
      CertificateEntriesGrow(chain, i + 1);
    } else {
      assert chain[..i + 1] == chain;
    }
  }

  /** `data` holds `done` followed by zeros; `src` is copied behind `done`. */
  method Put(data: array<byte>, ghost done: Bytes, off: nat, src: Bytes)
    requires off == |done| && off + |src| <= data.Length
    requires data[..] == done + Zeros(data.Length - off)
    modifies data
    ensures data[..] == (done + src) + Zeros(data.Length - off - |src|)
  {
    for i := 0 to |src|
      invariant data[..] == (done + src[..i]) + Zeros(data.Length - off - i)
    {
      data[off + i] := src[i];
    }
    assert src[..|src|] == src;
  }

  method PutChain(data: array<byte>, ghost done: Bytes, start: nat, list: seq<Bytes>)
    requires start == |done| && start + |CertificateEntries(list)| <= data.Length
    requires data[..] == done + Zeros(data.Length - start)
    modifies data
    ensures data[..] == (done + CertificateEntries(list)) + Zeros(data.Length - start - |CertificateEntries(list)|)
  {
    var off := start;
    ghost var now := done;
    for i := 0 to |list|
      invariant now == done + CertificateEntries(list[..i]) && off == |now|
      invariant |CertificateEntries(list[..i])| <= |CertificateEntries(list)|
      invariant data[..] == now + Zeros(data.Length - off)
    {
      CertificateEntriesGrow(list, i);
      Put(data, now, off, U24(|list[i]|));
      Put(data, now + U24(|list[i]|), off + 3, list[i]);
      off := off + 3 + |list[i]|;
      Put(data, now + U24(|list[i]|) + list[i], off, U16(0));
      off := off + 2;
      EntryJoin(now, list[i]);
      now := now + CertificateEntry(list[i]);
    }
    assert list[..|list|] == list;
  }

  lemma EntryJoin(now: Bytes, der: Bytes)
    ensures now + U24(|der|) + der + U16(0) == now + CertificateEntry(der)
  {
  }

  method ChainLength(list: seq<Bytes>) returns (total: nat)
    ensures total == |CertificateEntries(list)|
  {
    total := 0;
    for i := 0 to |list|
      invariant total == |CertificateEntries(list[..i])|
    {
      CertificateEntriesGrow(list, i);
      total := total + 3 + |list[i]| + 2;
    }
    assert list[..|list|] == list;
  }

  method MarshalCertificate(cert: Certificate, context: Bytes) returns (out: Bytes)
    ensures out == CertificateBytes(cert, context)
  {
    var list := cert.chain;
    if |list| == 0 && |cert.raw| > 0 {
      list := [cert.raw];
    }
    var total := ChainLength(list);
    var ctxLen := |context|;
    var msgLen := 1 + ctxLen + 3 + total;
    var data := new byte[4 + msgLen](_ => 0);
    assert data[..] == [] + Zeros(data.Length);
    Put(data, [], 0, [CERTIFICATE] + U24(msgLen));
    ghost var d1 := [] + ([CERTIFICATE] + U24(msgLen));
    var off := 4;
    if ctxLen > 255 {
      ctxLen := 255;
    }
    Put(data, d1, off, [ctxLen] + context[..ctxLen]);
    ghost var d2 := d1 + ([ctxLen] + context[..ctxLen]);
    off := off + 1 + ctxLen;
    Put(data, d2, off, U24(total));
    ghost var d3 := d2 + U24(total);
    off := off + 3;
    PutChain(data, d3, off, list);
    off := off + total;
    out := data[..];
    JoinCertificate(msgLen, ctxLen, context[..ctxLen], CertificateEntries(list), Zeros(data.Length - off), out);
  }

  lemma JoinCertificate(msgLen: nat, n: byte, context: Bytes, entries: Bytes, pad: Bytes, out: Bytes)
    requires |context| == n && msgLen == 4 + n + |entries| + |pad|
    requires out == [] + ([CERTIFICATE] + U24(msgLen)) + ([n] + context) + U24(|entries|) + entries + pad
    ensures out == Message(CERTIFICATE, [n] + context + (U24(|entries|) + entries) + pad)
  {
    var body := [n] + context + (U24(|entries|) + entries) + pad;
    assert out[..4] == [CERTIFICATE] + U24(msgLen);
    assert out[4..] == body;
  }

  method ReadCertificate(cr: Crypto, data: Bytes) returns (r: Result<Certificate>)
    ensures r == ParseCertificate(cr, data)
  {
    if |data| < 4 || data[0] != CERTIFICATE || |data| < 5 {
      return Failure(BadCertificate);
    }
    var off := 4;
    var ctxLen := data[off] as int;
    off := off + 1;
    if |data| < off + ctxLen + 3 {
      return Failure(BadCertificate);
    }
    off := off + ctxLen;
    r := ReadCertificateList(cr, data, off);
  }

  method ReadCertificateList(cr: Crypto, data: Bytes, start: nat) returns (r: Result<Certificate>)
    requires start + 3 <= |data|
    ensures r == ParseCertificateList(cr, data[start..])
  {
    hide ParseCertificateEntries;
    var off := start;
    var listLen := ReadU24(data[off..off + 3]);
    ReadAt(data, off, off + 3);
    off := off + 3;
    if |data| < off + listLen {
      return Failure(BadCertificate);
    }
    if listLen == 0 {
      return Success(Certificate([], [], None));
    }
    SliceOfDrop(data, start, 3, 3 + listLen);
    SomeCertificate(data[off..off + listLen]);
    var chain := ReadCertificateEntries(data, off, off + listLen);
    match chain {
      case None => r := Failure(BadCertificate);
      case Some(c) => r := Success(Certificate(c[0], c, cr.certificateKey(c[0])));
    }
  }

  /** One turn of the loop: the certificate at `start` and where the next entry begins. */
  method ReadCertificateEntry(data: Bytes, start: nat, end: nat) returns (r: Option<(Bytes, nat)>)
    requires start < end <= |data|
    ensures match r
      case None => ParseCertificateEntry(data[start..end]) == None
      case Some((der, next)) =>
        start < next <= end && ParseCertificateEntry(data[start..end]) == Some((der, data[next..end]))
  {
    var off := start;
    if end - off < 3 {
      return None;
    }
    var n := ReadU24(data[off..off + 3]);
    ReadAt(data, start, end);
    off := off + 3;
    if end - off < n + 2 {
      return None;
    }
    var der := data[off..off + n];
    SliceOfSlice(data, start, end, 3, 3 + n);
    off := off + n;
    var extLen := ReadU16(data[off..off + 2]);
    DropOfSlice(data, start, end, 3 + n);
    ReadAt(data, off, end);
    off := off + 2;
    if end - off < extLen {
      return None;
    }
    off := off + extLen;
    DropOfSlice(data, start, end, 5 + n + extLen);
    r := Some((der, off));
  }

  method ReadCertificateEntries(data: Bytes, start: nat, end: nat) returns (r: Option<seq<Bytes>>)
    requires start <= end <= |data|
    ensures r == ParseCertificateEntries(data[start..end])
  {
    var off := start;
    var chain: seq<Bytes> := [];
    while off < end
      invariant start <= off <= end
      invariant ParseCertificateEntries(data[start..end]) == Prepend(chain, ParseCertificateEntries(data[off..end]))
    {
      var entry := ReadCertificateEntry(data, off, end);
      match entry {
        case None =>
          return None;
        case Some((der, next)) =>
          PrependTwice(chain, der, ParseCertificateEntries(data[next..end]));
          chain := chain + [der];
          off := next;
      }
    }
    assert data[off..end] == [];
    r := Some(chain);
  }

  // ----- CertificateRequest -----

  function CertificateRequestBytes(schemes: seq<u16>): Bytes {
    var xs := if schemes == [] then [SM2SM3] else schemes;
    Message(CERTIFICATE_REQUEST,
            [0] + Block([U16ListExtension(EXT_SIGNATURE_ALGORITHMS, xs),
              U16ListExtension(EXT_SIGNATURE_ALGORITHMS_CERT, xs)]))
  }

  /** Only the context is read; the extensions behind it are not looked at. */
  function ParseCertificateRequest(data: Bytes): Result<Bytes> {
    if |data| < 5 || data[0] != CERTIFICATE_REQUEST || |data| - 7 < data[4] then Failure(BadCertificateRequest)
    else Success(data[5..5 + data[4]])
  }

  lemma EntriesGrow(es: seq<Extension>, i: nat)
    requires i < |es|
    ensures EntriesBytes(es[..i + 1]) == EntriesBytes(es[..i]) + EntryBytes(es[i])
    ensures |EntriesBytes(es[..i + 1])| <= |EntriesBytes(es)|
  {
    assert es[..i + 1] == es[..i] + [es[i]] && es == es[..i + 1] + es[i + 1..];
    EntriesSnoc(es[..i], es[i]);
    EntriesAppend(es[..i + 1], es[i + 1..]);
  }

  method EntriesLength(es: seq<Extension>) returns (total: nat)
    ensures total == |EntriesBytes(es)|
  {
    total := 0;
    for i := 0 to |es|
      invariant total == |EntriesBytes(es[..i])|
    {
      EntriesGrow(es, i);
      total := total + 4 + |es[i].data|;
    }
    assert es[..|es|] == es;
  }

  method PutEntries(data: array<byte>, ghost done: Bytes, start: nat, es: seq<Extension>)
    requires start == |done| && start + |EntriesBytes(es)| <= data.Length
    requires data[..] == done + Zeros(data.Length - start)
    modifies data
    ensures data[..] == (done + EntriesBytes(es)) + Zeros(data.Length - start - |EntriesBytes(es)|)
  {
    var off := start;
    ghost var now := done;
    for i := 0 to |es|
      invariant now == done + EntriesBytes(es[..i]) && off == |now|
      invariant |EntriesBytes(es[..i])| <= |EntriesBytes(es)|
      invariant data[..] == now + Zeros(data.Length - off)
    {
      EntriesGrow(es, i);
      Put(data, now, off, U16(es[i].tag));
      Put(data, now + U16(es[i].tag), off + 2, U16(|es[i].data|));
      off := off + 4;
      Put(data, now + U16(es[i].tag) + U16(|es[i].data|), off, es[i].data);
      off := off + |es[i].data|;
      JoinEntry(now, es[i]);
      Assoc(done, EntriesBytes(es[..i]), EntryBytes(es[i]));
      now := now + EntryBytes(es[i]);
    }
    assert es[..|es|] == es;
  }

  lemma JoinEntry(now: Bytes, e: Extension)
    ensures now + U16(e.tag) + U16(|e.data|) + e.data == now + EntryBytes(e)
  {
  }

  /** An empty list of schemes stands for the one this library uses. */
  method MarshalCertificateRequest(schemes: seq<u16>) returns (out: Bytes)
    ensures out == CertificateRequestBytes(schemes)
  {
    hide EntriesBytes, U16, U24, U16ListExtension;
    var xs := schemes;
    if |xs| == 0 {
      xs := [SM2SM3];
    }
    var list := WriteU16ListExtension(EXT_SIGNATURE_ALGORITHMS, xs);
    var certList := WriteU16ListExtension(EXT_SIGNATURE_ALGORITHMS_CERT, xs);
    var exts := [list, certList];
    var extLen := EntriesLength(exts);
    var msgLen := 1 + 0 + 2 + extLen;
    var data := new byte[4 + msgLen](_ => 0);
    assert data[..] == [] + Zeros(data.Length);
    Put(data, [], 0, [CERTIFICATE_REQUEST] + U24(msgLen));
    ghost var d1 := [] + ([CERTIFICATE_REQUEST] + U24(msgLen));
    var off := 4;
    Put(data, d1, off, [0]);
    off := off + 1;
    Put(data, d1 + [0], off, U16(extLen));
    off := off + 2;
    PutEntries(data, d1 + [0] + U16(extLen), off, exts);
    out := data[..];
    JoinRequest(msgLen, exts, out);
  }

  lemma JoinRequest(msgLen: nat, exts: seq<Extension>, out: Bytes)
    requires msgLen == 3 + |EntriesBytes(exts)|
    requires out == [] + ([CERTIFICATE_REQUEST] + U24(msgLen)) + [0] + U16(|EntriesBytes(exts)|) + EntriesBytes(exts)
                    + Zeros(0)
    ensures out == Message(CERTIFICATE_REQUEST, [0] + Block(exts))
  {
    hide EntriesBytes;
    assert out[..4] == [CERTIFICATE_REQUEST] + U24(msgLen);
    assert out[4..] == [0] + Block(exts);
  }

  method ReadCertificateRequest(data: Bytes) returns (r: Result<Bytes>)
    ensures r == ParseCertificateRequest(data)
  {
    if |data| < 5 || data[0] != CERTIFICATE_REQUEST {
      return Failure(BadCertificateRequest);
    }
    var off := 4;
    var ctxLen := data[off] as int;
    off := off + 1;
    if |data| < off + ctxLen + 2 {
      return Failure(BadCertificateRequest);
    }
    r := Success(data[off..off + ctxLen]);
  }

  lemma CertificateRequestRoundTrip(schemes: seq<u16>)
    ensures ParseCertificateRequest(CertificateRequestBytes(schemes)) == Success([])
  {
    var data := CertificateRequestBytes(schemes);
    assert data[4] == 0 && data[5..5] == [];
  }
}
