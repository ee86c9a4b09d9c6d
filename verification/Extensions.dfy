/** extensions.go: bodies of the TLS extensions, and the tagged lists that hello messages and key_share
    are made of. Each printer and parser is a method proved equal to a function; the lemmas are about
    the functions. Go strings are byte sequences here. */
module Extensions {
  import opened Prelude

  const EXT_SERVER_NAME: u16 := 0
  const EXT_SUPPORTED_CURVES: u16 := 10
  const EXT_SUPPORTED_POINTS: u16 := 11
  const EXT_SIGNATURE_ALGORITHMS: u16 := 13
  const EXT_ALPN: u16 := 16
  const EXT_ENCRYPT_THEN_MAC: u16 := 22
  const EXT_EXTENDED_MASTER_SECRET: u16 := 23
  const EXT_SESSION_TICKET: u16 := 35
  const EXT_PRE_SHARED_KEY: u16 := 41
  const EXT_SUPPORTED_VERSIONS: u16 := 43
  const EXT_PSK_MODES: u16 := 45
  const EXT_SIGNATURE_ALGORITHMS_CERT: u16 := 50
  const EXT_KEY_SHARE: u16 := 51

  const CURVE_X25519: u16 := 29
  const CURVE_SM2: u16 := 41
  const SM2SM3: u16 := 0x0708

  /** A two-byte tag, a two-byte length and the data: an extension, or a key share with its group. */
  datatype Tagged = Tagged(tag: u16, data: Bytes)
  type Extension = Tagged
  type KeyShareEntry = Tagged

  // ----- tagged lists -----

  function EntryBytes(e: Tagged): (s: Bytes)
    ensures |s| == 4 + |e.data|
  {
    U16(e.tag) + U16(|e.data|) + e.data
  }

  function EntriesBytes(es: seq<Tagged>): Bytes {
    if es == [] then [] else EntryBytes(es[0]) + EntriesBytes(es[1..])
  }

  /** The list with its two-byte total length in front. */
  function Block(es: seq<Tagged>): (s: Bytes)
    ensures |s| == 2 + |EntriesBytes(es)|
  {
    U16(|EntriesBytes(es)|) + EntriesBytes(es)
  }

  predicate EntriesFit(es: seq<Tagged>) {
    forall i :: 0 <= i < |es| ==> |es[i].data| < 0x1_0000
  }

  /** The first entry and what follows it. */
  function ParseEntry(s: Bytes): (r: Option<(Tagged, Bytes)>)
    ensures r.Some? ==> |r.value.1| < |s|
  {
    if |s| < 4 || |s| - 4 < ReadU16(s[2..]) then None
    else Some((Tagged(ReadU16(s), s[4..4 + ReadU16(s[2..])]), s[4 + ReadU16(s[2..])..]))
  }

  function ParseEntries(s: Bytes): Option<seq<Tagged>>
    decreases |s|
  {
    if s == [] then Some([])
    else
      match ParseEntry(s)
      case None => None
      case Some((e, rest)) => Prepend([e], ParseEntries(rest))
  }

  lemma EntryHead(e: Tagged, rest: Bytes)
    requires |e.data| < 0x1_0000
    ensures ParseEntry(EntryBytes(e) + rest) == Some((e, rest))
  {
    var s := EntryBytes(e) + rest;
    U16RoundTrip(e.tag);
    U16RoundTrip(|e.data|);
    assert s[..2] == U16(e.tag) && s[2..4] == U16(|e.data|);
    assert ReadU16(s) == ReadU16(s[..2]) && ReadU16(s[2..]) == ReadU16(s[2..4]);
    assert s[4..4 + |e.data|] == e.data && s[4 + |e.data|..] == rest;
  }

  /** Parsing undoes printing for every list whose entries have a two-byte length. */
  lemma {:induction false} EntriesRoundTrip(es: seq<Tagged>)
    requires EntriesFit(es)
    ensures ParseEntries(EntriesBytes(es)) == Some(es)
  {
    if es != [] {
      EntryHead(es[0], EntriesBytes(es[1..]));
      EntriesRoundTrip(es[1..]);
      assert [es[0]] + es[1..] == es;
    }
  }

  lemma EntryPrint(s: Bytes)
    requires ParseEntry(s).Some?
    ensures var (e, rest) := ParseEntry(s).value; EntryBytes(e) + rest == s && |e.data| < 0x1_0000
  {
    var n := ReadU16(s[2..]);
    U16Print(s[..2]);
    U16Print(s[2..4]);
    assert s == s[..2] + s[2..4] + s[4..4 + n] + s[4 + n..];
  }

  /** Printing undoes parsing: the byte form of an accepted list is unique. */
  lemma {:induction false} EntriesPrint(s: Bytes)
    requires ParseEntries(s).Some?
    ensures EntriesFit(ParseEntries(s).value) && EntriesBytes(ParseEntries(s).value) == s
    decreases |s|
  {
    if s != [] {
      var (e, rest) := ParseEntry(s).value;
      EntriesPrint(rest);
      EntryPrint(s);
      var es := ParseEntries(s).value;
      assert es[1..] == ParseEntries(rest).value;
      forall i | 0 <= i < |es| ensures |es[i].data| < 0x1_0000 {
        assert i > 0 ==> es[i] == es[1..][i - 1];
      }
    }
  }

  lemma BlockFields(es: seq<Tagged>)
    requires |EntriesBytes(es)| < 0x1_0000
    ensures ReadU16(Block(es)) == |EntriesBytes(es)| && Block(es)[2..] == EntriesBytes(es)
    ensures Block(es)[2..2 + |EntriesBytes(es)|] == EntriesBytes(es)
  {
    U16RoundTrip(|EntriesBytes(es)|);
    assert Block(es)[..2] == U16(|EntriesBytes(es)|);
  }

  lemma BlockPrint(s: Bytes)
    requires |s| >= 2 && |s| == 2 + ReadU16(s) && ParseEntries(s[2..]).Some?
    ensures Block(ParseEntries(s[2..]).value) == s
  {
    EntriesPrint(s[2..]);
    U16Print(s[..2]);
    assert s == s[..2] + s[2..];
  }

  lemma {:induction false} EntriesAppend(xs: seq<Tagged>, ys: seq<Tagged>)
    ensures EntriesBytes(xs + ys) == EntriesBytes(xs) + EntriesBytes(ys)
  {
    if xs == [] {
      assert xs + ys == ys;
    } else {
      assert (xs + ys)[1..] == xs[1..] + ys;
      EntriesAppend(xs[1..], ys);
    }
  }

  lemma EntriesSnoc(es: seq<Tagged>, e: Tagged)
    ensures EntriesBytes(es + [e]) == EntriesBytes(es) + EntryBytes(e)
  {
    EntriesAppend(es, [e]);
    assert [e][1..] == [];
    assert EntriesBytes([e]) == EntryBytes(e) + [];
  }

  /** handshake.go's three extension writers: one loop prints the entries and adds up their lengths,
      a second copies them behind the total. */
  method WriteBlock(es: seq<Tagged>) returns (buf: Bytes)
    ensures buf == Block(es)
  {
    var total := 0;
    var parts: seq<Bytes> := [];
    for i := 0 to |es|
      invariant Concat(parts) == EntriesBytes(es[..i])
      invariant total == |Concat(parts)|
    {
      var part := U16(es[i].tag) + U16(|es[i].data|) + es[i].data;
      EntriesSnoc(es[..i], es[i]);
      assert es[..i + 1] == es[..i] + [es[i]];
      ConcatSnoc(parts, part);
      parts := parts + [part];
      total := total + |part|;
    }
    assert es[..|es|] == es;
    buf := U16(total);
    for i := 0 to |parts|
      invariant buf == U16(total) + Concat(parts[..i])
    {
      assert parts[..i + 1] == parts[..i] + [parts[i]];
      ConcatSnoc(parts[..i], parts[i]);
      buf := buf + parts[i];
    }
    assert parts[..|parts|] == parts;
  }

  /** One turn of the extension loops: the entry at `offset` and where it ends. */
  method ReadEntry(data: Bytes, offset: nat, end: nat) returns (r: Option<(Tagged, nat)>)
    requires offset < end <= |data|
    ensures match r
      case None => ParseEntry(data[offset..end]) == None
      case Some((e, next)) => offset < next <= end && ParseEntry(data[offset..end]) == Some((e, data[next..end]))
  {
    if end < offset + 4 {
      return None;
    }
    var tag := ReadU16(data[offset..offset + 2]);
    var n := ReadU16(data[offset + 2..offset + 4]);
    assert n == ReadU16(data[offset..end][2..]);
    if end < offset + 4 + n {
      return None;
    }
    SliceOfSlice(data, offset, end, 4, 4 + n);
    DropOfSlice(data, offset, end, 4 + n);
    r := Some((Tagged(tag, data[offset + 4..offset + 4 + n]), offset + 4 + n));
  }

  /** The extension loops of the hello parsers: an offset walks to the end of the block. */
  method ParseEntriesFrom(data: Bytes, start: nat, end: nat) returns (r: Option<seq<Tagged>>)
    requires start <= end <= |data|
    ensures r == ParseEntries(data[start..end])
  {
    var offset := start;
    var es: seq<Tagged> := [];
    while offset < end
      invariant start <= offset <= end
      invariant ParseEntries(data[start..end]) == Prepend(es, ParseEntries(data[offset..end]))
    {
      var entry := ReadEntry(data, offset, end);
      match entry {
        case None =>
          return None;
        case Some((e, next)) =>
          PrependTwice(es, e, ParseEntries(data[next..end]));
          es := es + [e];
          offset := next;
      }
    }
    assert data[offset..end] == [];
    r := Some(es);
  }

  // ----- key_share -----

  /** The ClientHello form; no entries gives the zero extension. */
  function KeyShareClient(entries: seq<KeyShareEntry>): Extension {
    if entries == [] then Tagged(0, []) else Tagged(EXT_KEY_SHARE, Block(entries))
  }

  function ParseKeyShareClient(data: Bytes): Result<seq<KeyShareEntry>> {
    if |data| < 2 || |data| - 2 < ReadU16(data) then Failure(BadExtension)
    else
      match ParseEntries(data[2..2 + ReadU16(data)])
      case None => Failure(BadExtension)
      case Some(es) => Success(es)
  }

  lemma KeyShareClientRoundTrip(entries: seq<KeyShareEntry>)
    requires entries != [] && EntriesFit(entries) && |EntriesBytes(entries)| < 0x1_0000
    ensures ParseKeyShareClient(KeyShareClient(entries).data) == Success(entries)
  {
    hide EntriesBytes, ParseEntries, U16;
    BlockFields(entries);
    EntriesRoundTrip(entries);
  }

  method WriteKeyShareClient(entries: seq<KeyShareEntry>) returns (ext: Extension)
    ensures ext == KeyShareClient(entries)
  {
    if |entries| == 0 {
      return Tagged(0, []);
    }
    var data: Bytes := U16(0);
    for i := 0 to |entries|
      invariant data == U16(0) + EntriesBytes(entries[..i])
    {
      EntriesSnoc(entries[..i], entries[i]);
      assert entries[..i + 1] == entries[..i] + [entries[i]];
      data := data + (U16(entries[i].tag) + U16(|entries[i].data|) + entries[i].data);
    }
    assert entries[..|entries|] == entries;
    var total := |data| - 2;
    data := U16(total) + data[2..];
    ext := Tagged(EXT_KEY_SHARE, data);
  }

  /** The parser's payload shrinks from the front. */
  method ReadKeyShareClient(data: Bytes) returns (r: Result<seq<KeyShareEntry>>)
    ensures r == ParseKeyShareClient(data)
  {
    if |data| < 2 {
      return Failure(BadExtension);
    }
    var listLen := ReadU16(data[..2]);
    if |data| < 2 + listLen {
      return Failure(BadExtension);
    }
    var payload := data[2..2 + listLen];
    var entries: seq<KeyShareEntry> := [];
    while |payload| > 0
      invariant ParseEntries(data[2..2 + listLen]) == Prepend(entries, ParseEntries(payload))
      decreases |payload|
    {
      if |payload| < 4 {
        return Failure(BadExtension);
      }
      var group := ReadU16(payload[..2]);
      var keyLen := ReadU16(payload[2..4]);
      assert keyLen == ReadU16(payload[2..]);
      if |payload| - 4 < keyLen {
        return Failure(BadExtension);
      }
      PrependTwice(entries, Tagged(group, payload[4..4 + keyLen]), ParseEntries(payload[4 + keyLen..]));
      entries := entries + [Tagged(group, payload[4..4 + keyLen])];
      payload := payload[4 + keyLen..];
    }
    r := Success(entries);
  }

  /** The ServerHello form: a single entry without a list length. */
  function KeyShareServer(entry: KeyShareEntry): Extension {
    if entry.data == [] then Tagged(0, []) else Tagged(EXT_KEY_SHARE, EntryBytes(entry))
  }

  function ParseKeyShareServer(data: Bytes): Result<KeyShareEntry> {
    if |data| < 4 || |data| - 4 < ReadU16(data[2..]) then Failure(BadExtension)
    else Success(Tagged(ReadU16(data), data[4..4 + ReadU16(data[2..])]))
  }

  lemma KeyShareServerRoundTrip(entry: KeyShareEntry)
    requires 0 < |entry.data| < 0x1_0000
    ensures ParseKeyShareServer(KeyShareServer(entry).data) == Success(entry)
  {
    EntryHead(entry, []);
    assert EntryBytes(entry) + [] == EntryBytes(entry);
    assert ParseEntry(EntryBytes(entry)).Some?;
  }

  // ----- lists of 16-bit values: signature_algorithms, supported_groups -----

  function U16s(xs: seq<u16>): (s: Bytes)
    ensures |s| == 2 * |xs|
  {
    if xs == [] then [] else U16(xs[0]) + U16s(xs[1..])
  }

  function ReadU16s(s: Bytes): (xs: seq<u16>)
    ensures |xs| == |s| / 2
  {
    if |s| < 2 then [] else [ReadU16(s)] + ReadU16s(s[2..])
  }

  lemma {:induction false} U16sRoundTrip(xs: seq<u16>)
    ensures ReadU16s(U16s(xs)) == xs
  {
    if xs != [] {
      U16RoundTrip(xs[0]);
      assert U16s(xs)[2..] == U16s(xs[1..]);
      assert ReadU16(U16s(xs)) == ReadU16(U16(xs[0]));
      U16sRoundTrip(xs[1..]);
    }
  }

  lemma {:induction false} U16sAppend(xs: seq<u16>, x: u16)
    ensures U16s(xs + [x]) == U16s(xs) + U16(x)
  {
    if xs == [] {
      assert xs + [x] == [x];
      assert U16s([x]) == U16(x) + U16s([]);
    } else {
      assert (xs + [x])[1..] == xs[1..] + [x];
      U16sAppend(xs[1..], x);
    }
  }

  lemma {:induction false} ReadU16sAppend(s: Bytes, t: Bytes)
    requires |s| % 2 == 0 && |t| == 2
    ensures ReadU16s(s + t) == ReadU16s(s) + [ReadU16(t)]
  {
    if s == [] {
      assert s + t == t;
      assert ReadU16s(t[2..]) == [];
    } else {
      assert (s + t)[2..] == s[2..] + t;
      assert ReadU16(s + t) == ReadU16(s);
      ReadU16sAppend(s[2..], t);
    }
  }

  function U16List(xs: seq<u16>): Bytes { U16(2 * |xs|) + U16s(xs) }

  /** marshalSignatureAlgorithmsExtension, its _cert twin and marshalSupportedCurvesExtension differ only
      in the tag; an empty list gives the zero extension. */
  function U16ListExtension(tag: u16, xs: seq<u16>): Extension {
    if xs == [] then Tagged(0, []) else Tagged(tag, U16List(xs))
  }

  function ParseU16List(data: Bytes): Result<seq<u16>> {
    if |data| < 2 || |data| - 2 < ReadU16(data) || ReadU16(data) % 2 != 0 then Failure(BadExtension)
    else Success(ReadU16s(data[2..2 + ReadU16(data)]))
  }

  lemma U16ListRoundTrip(tag: u16, xs: seq<u16>)
    requires 0 < |xs| < 0x8000
    ensures ParseU16List(U16ListExtension(tag, xs).data) == Success(xs)
  {
    U16RoundTrip(2 * |xs|);
    assert U16List(xs)[2..2 + 2 * |xs|] == U16s(xs);
    U16sRoundTrip(xs);
  }

  /** The loops that print one 16-bit value after another. */
  method AppendU16s(front: Bytes, xs: seq<u16>) returns (buf: Bytes)
    ensures buf == front + U16s(xs)
  {
    buf := front;
    for i := 0 to |xs|
      invariant buf == front + U16s(xs[..i])
    {
      U16sAppend(xs[..i], xs[i]);
      assert xs[..i + 1] == xs[..i] + [xs[i]];
      buf := buf + U16(xs[i]);
    }
    assert xs[..|xs|] == xs;
  }

  method WriteU16ListExtension(tag: u16, xs: seq<u16>) returns (ext: Extension)
    ensures ext == U16ListExtension(tag, xs)
  {
    if |xs| == 0 {
      return Tagged(0, []);
    }
    var buf := AppendU16s(U16(2 * |xs|), xs);
    ext := Tagged(tag, buf);
  }

  /** Reads `count` values from `start`, as the loops of the list parsers and of the hello parser do. */
  method ReadU16sFrom(data: Bytes, start: nat, count: nat) returns (xs: seq<u16>)
    requires start + 2 * count <= |data|
    ensures xs == ReadU16s(data[start..start + 2 * count])
  {
    xs := [];
    for i := 0 to count
      invariant xs == ReadU16s(data[start..start + 2 * i])
    {
      var at := start + 2 * i;
      ReadU16sAppend(data[start..at], data[at..at + 2]);
      assert data[start..at] + data[at..at + 2] == data[start..at + 2];
      xs := xs + [ReadU16(data[at..at + 2])];
    }
  }

  method ReadU16List(data: Bytes) returns (r: Result<seq<u16>>)
    ensures r == ParseU16List(data)
  {
    if |data| < 2 {
      return Failure(BadExtension);
    }
    var listLen := ReadU16(data[..2]);
    if |data| < 2 + listLen || listLen % 2 != 0 {
      return Failure(BadExtension);
    }
    var xs := ReadU16sFrom(data, 2, listLen / 2);
    r := Success(xs);
  }

  /** supported_versions of a ClientHello: the same list behind a one-byte length. */
  function ParseVersions(data: Bytes): Result<seq<u16>> {
    if |data| < 1 || |data| - 1 < data[0] || data[0] % 2 != 0 then Failure(BadExtension)
    else Success(ReadU16s(data[1..1 + data[0]]))
  }

  method ReadVersions(data: Bytes) returns (r: Result<seq<u16>>)
    ensures r == ParseVersions(data)
  {
    if |data| < 1 {
      return Failure(BadExtension);
    }
    var listLen := data[0] as int;
    if |data| < 1 + listLen || listLen % 2 != 0 {
      return Failure(BadExtension);
    }
    var xs := ReadU16sFrom(data, 1, listLen / 2);
    r := Success(xs);
  }

  // ----- ALPN -----

  function AlpnEntries(protos: seq<Bytes>): Bytes {
    if protos == [] then [] else [|protos[0]| % 0x100] + protos[0] + AlpnEntries(protos[1..])
  }

  function Alpn(protos: seq<Bytes>): Extension {
    if protos == [] then Tagged(0, []) else Tagged(EXT_ALPN, U16(|AlpnEntries(protos)|) + AlpnEntries(protos))
  }

  /** Only the start of an entry is compared with the list length; its end is compared with the end of the
      extension, so the last entry may run past the list. */
  function ParseAlpnEntries(s: Bytes, listLen: int): Option<seq<Bytes>>
    decreases |s|
  {
    if listLen <= 0 then Some([])
    else if s == [] || |s| - 1 < s[0] then None
    else Prepend([s[1..1 + s[0]]], ParseAlpnEntries(s[1 + s[0]..], listLen - 1 - s[0]))
  }

  function ParseAlpn(data: Bytes): Result<seq<Bytes>> {
    if |data| < 2 || |data| - 2 < ReadU16(data) then Failure(BadExtension)
    else
      match ParseAlpnEntries(data[2..], ReadU16(data))
      case None => Failure(BadExtension)
      case Some(protos) => Success(protos)
  }

  predicate AlpnFits(protos: seq<Bytes>) {
    && (forall i :: 0 <= i < |protos| ==> |protos[i]| < 0x100)
    && |AlpnEntries(protos)| < 0x1_0000
  }

  lemma AlpnHead(p: Bytes, rest: Bytes)
    requires |p| < 0x100
    ensures var s := [|p| % 0x100] + p + rest;
      s[0] == |p| && s[1..1 + s[0]] == p && s[1 + s[0]..] == rest
  {
  }

  lemma {:induction false} AlpnEntriesRoundTrip(protos: seq<Bytes>)
    requires forall i :: 0 <= i < |protos| ==> |protos[i]| < 0x100
    ensures ParseAlpnEntries(AlpnEntries(protos), |AlpnEntries(protos)|) == Some(protos)
  {
    if protos != [] {
      AlpnHead(protos[0], AlpnEntries(protos[1..]));
      AlpnEntriesRoundTrip(protos[1..]);
      assert [protos[0]] + protos[1..] == protos;
    }
  }

  lemma AlpnRoundTrip(protos: seq<Bytes>)
    requires protos != [] && AlpnFits(protos)
    ensures ParseAlpn(Alpn(protos).data) == Success(protos)
  {
    hide AlpnEntries, ParseAlpnEntries, U16;
    var entries := AlpnEntries(protos);
    U16RoundTrip(|entries|);
    assert (U16(|entries|) + entries)[..2] == U16(|entries|) && (U16(|entries|) + entries)[2..] == entries;
    ReadAt(U16(|entries|) + entries, 0, 2);
    AlpnEntriesRoundTrip(protos);
  }

  lemma {:induction false} AlpnEntriesAppend(protos: seq<Bytes>, p: Bytes)
    ensures AlpnEntries(protos + [p]) == AlpnEntries(protos) + [|p| % 0x100] + p
  {
    if protos == [] {
      assert protos + [p] == [p];
      assert AlpnEntries([p]) == [|p| % 0x100] + p + AlpnEntries([]);
    } else {
      assert (protos + [p])[1..] == protos[1..] + [p];
      AlpnEntriesAppend(protos[1..], p);
    }
  }

  method WriteAlpn(protos: seq<Bytes>) returns (ext: Extension)
    ensures ext == Alpn(protos)
  {
    if |protos| == 0 {
      return Tagged(0, []);
    }
    var data: Bytes := [0, 0];
    for i := 0 to |protos|
      invariant data == [0, 0] + AlpnEntries(protos[..i])
    {
      AlpnEntriesAppend(protos[..i], protos[i]);
      assert protos[..i + 1] == protos[..i] + [protos[i]];
      data := data + [|protos[i]| % 0x100] + protos[i];
    }
    assert protos[..|protos|] == protos;
    var listLen := |data| - 2;
    data := data[0 := listLen / 0x100 % 0x100];
    data := data[1 := listLen % 0x100];
    assert data == U16(listLen) + AlpnEntries(protos);
    ext := Tagged(EXT_ALPN, data);
  }

  lemma AlpnTurn(done: seq<Bytes>, data: Bytes, at: nat, left: int)
    requires at < |data| && left > 0 && at + 1 + data[at] as int <= |data|
    ensures var next := at + 1 + data[at] as int;
      Prepend(done, ParseAlpnEntries(data[at..], left)) ==
      Prepend(done + [data[at + 1..next]], ParseAlpnEntries(data[next..], left - 1 - data[at] as int))
  {
    var n := data[at] as int;
    SliceOfDrop(data, at, 1, 1 + n);
    SliceOfDrop(data, at, 1 + n, 1 + n);
    PrependTwice(done, data[at + 1..at + 1 + n], ParseAlpnEntries(data[at + 1 + n..], left - 1 - n));
  }

  lemma AlpnEnds(data: Bytes, at: nat, left: int)
    requires at <= |data|
    ensures left <= 0 ==> ParseAlpnEntries(data[at..], left) == Some([])
    ensures left > 0 && (at == |data| || at + 1 + data[at] as int > |data|) ==>
      ParseAlpnEntries(data[at..], left) == None
  {
  }

  method ReadAlpn(data: Bytes) returns (r: Result<seq<Bytes>>)
    ensures r == ParseAlpn(data)
  {
    if |data| < 2 {
      return Failure(BadExtension);
    }
    var listLen := ReadU16(data[..2]);
    ReadAt(data, 0, 2);
    if |data| < 2 + listLen {
      return Failure(BadExtension);
    }
    var protos := ReadAlpnEntries(data, 2, 2 + listLen);
    match protos {
      case None => r := Failure(BadExtension);
      case Some(v) => r := Success(v);
    }
  }

  method ReadAlpnEntries(data: Bytes, start: nat, end: nat) returns (r: Option<seq<Bytes>>)
    requires start <= end <= |data|
    ensures r == ParseAlpnEntries(data[start..], end - start)
  {
    hide ParseAlpnEntries;
    var protos: seq<Bytes> := [];
    var offset := start;
    while offset < end
      invariant start <= offset <= |data|
      invariant ParseAlpnEntries(data[start..], end - start) ==
        Prepend(protos, ParseAlpnEntries(data[offset..], end - offset))
      decreases |data| - offset
    {
      AlpnEnds(data, offset, end - offset);
      if offset >= |data| {
        return None;
      }
      var n := data[offset] as int;
      offset := offset + 1;
      if offset + n > |data| {
        return None;
      }
      AlpnTurn(protos, data, offset - 1, end - offset + 1);
      protos := protos + [data[offset..offset + n]];
      offset := offset + n;
    }
    AlpnEnds(data, offset, end - offset);
    r := Some(protos);
  }

  // ----- server_name -----

  function ServerName(name: Bytes): Extension {
    if name == [] then Tagged(0, [])
    else Tagged(EXT_SERVER_NAME, U16(|name| + 3) + [0] + U16(|name|) + name)
  }

  function ParseServerName(data: Bytes): Result<Bytes> {
    if |data| < 5 || |data| - 2 < ReadU16(data) || data[2] != 0 || |data| - 5 < ReadU16(data[3..])
      then Failure(BadExtension)
    else Success(data[5..5 + ReadU16(data[3..])])
  }

  /** The bound is the list length: three bytes more than the name must fit two bytes. */
  lemma ServerNameRoundTrip(name: Bytes)
    requires 0 < |name| < 0xFFFD
    ensures ParseServerName(ServerName(name).data) == Success(name)
  {
    var data := ServerName(name).data;
    U16RoundTrip(|name| + 3);
    U16RoundTrip(|name|);
    assert ReadU16(data) == ReadU16(U16(|name| + 3));
    assert ReadU16(data[3..]) == ReadU16(U16(|name|));
    assert data[5..5 + |name|] == name;
  }
}
