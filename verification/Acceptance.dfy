/** Who is accepted: for each step that judges what the peer sent, exactly when it succeeds, in the numbers of RFC 8446
    and RFC 8998; and that both ends compute the same secret in either group. */
module Acceptance {
  import opened Prelude
  import opened Crypto
  import opened Extensions
  import opened HandshakeMessages
  import opened Certificates
  import opened KeySchedule
  import opened Suites
  import opened Records
  import opened Steps

  // ----- suites -----

  /** The suites of RFC 8998 and their draft numbers stand for each other. */
  lemma NormalNumbers(id: u16)
    ensures Normalize(id) == (if id == 0xC6 then 0x1306 else if id == 0xC7 then 0x1307 else id)
    ensures SuiteByID(id).Some? <==> id == 0x1306 || id == 0x1307 || id == 0xC6 || id == 0xC7
    ensures SuiteByID(id).Some? ==> ForVersion(SuiteByID(id).value, 0x0304)
  {
  }

  /** The same suite, up to its two numbers. */
  predicate SameSuite(a: u16, b: u16) {
    a == b || (a == 0xC6 && b == 0x1306) || (a == 0x1306 && b == 0xC6) || (a == 0xC7 && b == 0x1307)
    || (a == 0x1307 && b == 0xC7)
  }

  predicate KnownSuite(id: u16) { id == 0x1306 || id == 0x1307 || id == 0xC6 || id == 0xC7 }

  lemma SameIsNormal(a: u16, b: u16)
    ensures Normalize(a) == Normalize(b) <==> SameSuite(a, b)
  {
  }

  // ----- the server and a ClientHello -----

  lemma {:induction false} FirstShareIs(shares: seq<KeyShareEntry>, group: u16)
    ensures match FirstShare(shares, group)
      case None => forall i :: 0 <= i < |shares| ==> shares[i].tag != group
      case Some(share) =>
        exists i :: 0 <= i < |shares| && shares[i] == share && share.tag == group
          && forall j :: 0 <= j < i ==> shares[j].tag != group
  {
    if shares != [] {
      if shares[0].tag == group {
        assert FirstShare(shares, group) == Some(shares[0]);
      } else {
        FirstShareIs(shares[1..], group);
        assert forall i :: 0 < i < |shares| ==> shares[i] == shares[1..][i - 1];
        if FirstShare(shares[1..], group).Some? {
          var share := FirstShare(shares[1..], group).value;
          var i :| 0 <= i < |shares[1..]| && shares[1..][i] == share
            && forall j :: 0 <= j < i ==> shares[1..][j].tag != group;
          assert shares[i + 1] == share;
        }
      }
    }
  }

  ghost predicate Offers(shares: seq<KeyShareEntry>, group: u16) {
    exists i :: 0 <= i < |shares| && shares[i].tag == group
  }

  /** SM2 (41) if it is offered, else X25519 (29), else nothing; of each group the first share. */
  lemma PreferredShareIs(shares: seq<KeyShareEntry>)
    ensures PreferredShare(shares).Some? <==> Offers(shares, 41) || Offers(shares, 29)
    ensures PreferredShare(shares).Some? ==>
      var share := PreferredShare(shares).value;
      && share.tag == (if Offers(shares, 41) then 41 else 29)
      && exists i :: 0 <= i < |shares| && shares[i] == share && forall j :: 0 <= j < i ==> shares[j].tag != share.tag
  {
    hide FirstShare;
    FirstShareIs(shares, 41);
    FirstShareIs(shares, 29);
  }

  /** What a server accepts in a hello, exactly: TLS 1.3 among the versions, an SM2 scheme if schemes are named, a suite
      both sides name and the library knows, and a share in a group it has. */
  lemma ServerAcceptsExactly(e: Env, c: ConnState, o: ClientOffer)
    ensures var own := if e.config.cipherSuites != [] then e.config.cipherSuites else [0xC6, 0x1306];
      Negotiate(e, c, o).result.Success? <==>
      && 0x0304 in o.versions
      && (o.schemes == [] || 0x0708 in o.schemes || 1 in o.schemes || 3 in o.schemes)
      && (exists i, j :: 0 <= i < |own| && 0 <= j < |c.hs.clientSuites| && KnownSuite(own[i])
           && SameSuite(own[i], c.hs.clientSuites[j]))
      && (Offers(o.shares, 41) || Offers(o.shares, 29))
  {
    hide SelectFrom, SelectAlpn, PreferredShare, SuiteByID, Normalize, SameSuite, FirstShare;
    var own, suites := ServerSuites(e.config), c.hs.clientSuites;
    SelectFromCorrect(own, suites, o.curves, o.schemes);
    PreferredShareIs(o.shares);
    forall i, j | 0 <= i < |own| && 0 <= j < |suites|
      ensures SuiteByID(own[i]).Some? == KnownSuite(own[i])
      ensures Normalize(suites[j]) == Normalize(own[i]) <==> SameSuite(own[i], suites[j])
    {
      NormalNumbers(own[i]);
      SameIsNormal(suites[j], own[i]);
      SameIsSymmetric(own[i], suites[j]);
    }
  }

  lemma SameIsSymmetric(a: u16, b: u16)
    ensures SameSuite(a, b) == SameSuite(b, a)
  {
  }

  ghost predicate InCommon(own: seq<u16>, suites: seq<u16>, i: int) {
    0 <= i < |own| && KnownSuite(own[i]) && exists j :: 0 <= j < |suites| && SameSuite(own[i], suites[j])
  }

  /** What it then goes on with: the suite of its earliest preference that is common, under a number the client listed,
      the share it prefers, and its earliest protocol that the client named too. */
  lemma ServerChooses(e: Env, c: ConnState, o: ClientOffer)
    requires Negotiate(e, c, o).result.Success?
    ensures var own := if e.config.cipherSuites != [] then e.config.cipherSuites else [0xC6, 0x1306];
      var hs, suites := Negotiate(e, c, o).state.hs, c.hs.clientSuites;
      && hs.suite.Some? && hs.suite.value.id in suites
      && (exists i :: InCommon(own, suites, i) && SameSuite(own[i], hs.suite.value.id)
           && (own[i] in suites ==> hs.suite.value.id == own[i])
           && forall k :: 0 <= k < i ==> !InCommon(own, suites, k))
      && hs.clientShare == PreferredShare(o.shares)
      && hs.negotiatedProto == if e.config.nextProtos != [] && o.protos != [] then
           SelectAlpn(e.config.nextProtos, o.protos)
         else c.hs.negotiatedProto
  {
    hide SelectFrom, SelectAlpn, PreferredShare, SuiteByID, Normalize, SameSuite, FirstShare, Match;
    var own, suites := ServerSuites(e.config), c.hs.clientSuites;
    var id := Negotiate(e, c, o).state.hs.suite.value.id;
    SelectFromCorrect(own, suites, o.curves, o.schemes);
    var i :| Earliest(own, suites, i) && Match(own[i], suites) == Some(id);
    MatchFinds(own[i], suites, o.curves, o.schemes);
    ListedIsMatched(own[i], suites);
    SameIsNormal(own[i], id);
    forall k | 0 <= k < |own| ensures InCommon(own, suites, k) == Common(own[k], suites) {
      CommonIs(own, suites, k);
    }
  }

  lemma ListedIsMatched(preference: u16, suites: seq<u16>)
    ensures preference in suites ==> Match(preference, suites) == Some(preference)
  {
  }

  lemma CommonIs(own: seq<u16>, suites: seq<u16>, k: nat)
    requires k < |own|
    ensures InCommon(own, suites, k) == Common(own[k], suites)
  {
    hide SameSuite, Normalize, SuiteByID;
    NormalNumbers(own[k]);
    forall j | 0 <= j < |suites| ensures Normalize(suites[j]) == Normalize(own[k]) <==> SameSuite(own[k], suites[j]) {
      SameIsNormal(suites[j], own[k]);
      SameIsSymmetric(own[k], suites[j]);
    }
  }

  /** The last extension of a type. */
  function Last(es: seq<Extension>, tag: u16): Option<Bytes> {
    if es == [] then None
    else if es[|es| - 1].tag == tag then Some(es[|es| - 1].data) else Last(es[..|es| - 1], tag)
  }

  /** A list of extensions with every key_share (51), supported_groups (10), signature_algorithms (13), ALPN (16) and
      supported_versions (43) among them well-formed. */
  ghost predicate WellFormed(es: seq<Extension>) {
    forall i :: 0 <= i < |es| ==>
      && (es[i].tag == 51 ==> ParseKeyShareClient(es[i].data).Success?)
      && (es[i].tag == 10 || es[i].tag == 13 ==> ParseU16List(es[i].data).Success?)
      && (es[i].tag == 16 ==> ParseAlpn(es[i].data).Success?)
      && (es[i].tag == 43 ==> ParseVersions(es[i].data).Success?)
  }

  ghost predicate Taken<T>(last: Option<Bytes>, parse: Bytes -> Result<T>, value: T, default: T) {
    match last
    case None => value == default
    case Some(data) => parse(data) == Success(value)
  }

  /** What a server takes from the extensions of a hello: of each type it knows the last, if all are well-formed. */
  lemma {:induction false} OfferIs(es: seq<Extension>, o: ClientOffer)
    ensures ReadOffer(es, o).Success? <==> WellFormed(es)
    ensures ReadOffer(es, o).Success? ==>
      var p := ReadOffer(es, o).value;
      && Taken(Last(es, 51), ParseKeyShareClient, p.shares, o.shares)
      && Taken(Last(es, 10), ParseU16List, p.curves, o.curves)
      && Taken(Last(es, 13), ParseU16List, p.schemes, o.schemes)
      && Taken(Last(es, 16), ParseAlpn, p.protos, o.protos)
      && Taken(Last(es, 43), ParseVersions, p.versions, o.versions)
  {
    hide ParseKeyShareClient, ParseU16List, ParseAlpn, ParseVersions;
    if es != [] {
      var front, last := es[..|es| - 1], es[|es| - 1];
      assert es == front + [last];
      OfferIs(front, o);
      OfferAppends(front, last, o);
      assert WellFormed(es) <==> WellFormed(front) && WellFormed([last]) by {
        assert [last][0] == last;
        assert forall i :: 0 <= i < |front| ==> front[i] == es[i];
      }
    }
  }

  lemma {:induction false} OfferAppends(front: seq<Extension>, last: Extension, o: ClientOffer)
    ensures ReadOffer(front + [last], o) ==
      if ReadOffer(front, o).Failure? then ReadOffer(front, o) else ReadOne(last, ReadOffer(front, o).value)
    decreases |front|
  {
    hide ReadOne;
    var es := front + [last];
    if front == [] {
      assert es[1..] == [] && es[0] == last;
    } else {
      assert es[1..] == front[1..] + [last] && es[0] == front[0];
      if ReadOne(front[0], o).Success? {
        OfferAppends(front[1..], last, ReadOne(front[0], o).value);
      }
    }
  }

  // ----- the client and a ServerHello -----

  /** The first extension of a type. */
  lemma {:induction false} FindIs(es: seq<Extension>, tag: u16)
    ensures match Find(es, tag)
      case None => forall i :: 0 <= i < |es| ==> es[i].tag != tag
      case Some(data) =>
        exists i :: 0 <= i < |es| && es[i] == Tagged(tag, data) && forall j :: 0 <= j < i ==> es[j].tag != tag
  {
    if es != [] {
      if es[0].tag == tag {
        assert es[0] == Tagged(tag, es[0].data);
      } else {
        FindIs(es[1..], tag);
        assert forall i :: 0 < i < |es| ==> es[i] == es[1..][i - 1];
        if Find(es[1..], tag).Some? {
          var data := Find(es[1..], tag).value;
          var i :| 0 <= i < |es[1..]| && es[1..][i] == Tagged(tag, data)
            && forall j :: 0 <= j < i ==> es[1..][j].tag != tag;
          assert es[i + 1] == Tagged(tag, data);
        }
      }
    }
  }

  /** What a client accepts in a ServerHello, exactly: a known suite that it offered under either number, a key share
      (51) in a group for which it has a key, and supported_versions (43) saying 0x0304. */
  lemma ClientAcceptsHelloExactly(e: Env, c: ConnState, hello: ServerHello)
    ensures var share, version := Find(hello.extensions, 51), Find(hello.extensions, 43);
      AcceptServerHello(e, c, hello).result.Success? <==>
      && KnownSuite(hello.suite)
      && (c.hs.clientSuites == [] ||
          exists i :: 0 <= i < |c.hs.clientSuites| && SameSuite(hello.suite, c.hs.clientSuites[i]))
      && share.Some? && ParseKeyShareServer(share.value).Success?
      && version == Some([3, 4])
      && ClientSecret(e.crypto, c.hs.keys, ParseKeyShareServer(share.value).value).Success?
  {
    hide AcceptServerHello, StartReceiving, Find, ClientSecret, ParseKeyShareServer, ChosenSuite, CheckVersion;
    AcceptIsNote(e, c, hello);
    SuiteAcceptedExactly(c.hs.clientSuites, hello.suite);
    VersionAcceptedExactly(hello.extensions);
    var n := Noted(c.hs, hello);
    if n.result.Success? {
      SecretLooksAtPrivateKeys(e.crypto, n.state.keys, c.hs.keys, n.result.value);
      var secret := ClientSecret(e.crypto, n.state.keys, n.result.value);
      if secret.Success? {
        ReceivingStarts(e, c.(hs := n.state.(keys := n.state.keys.(sharedSecret := secret.value))));
      }
    }
  }

  lemma SuiteAcceptedExactly(offered: seq<u16>, id: u16)
    ensures ChosenSuite(offered, id).Success? <==>
      && KnownSuite(id)
      && (offered == [] || exists i :: 0 <= i < |offered| && SameSuite(id, offered[i]))
    ensures ChosenSuite(offered, id).Success? ==>
      ChosenSuite(offered, id).value.keyLen == 16 && ChosenSuite(offered, id).value.ivLen == 12
  {
    hide SameSuite, Normalize;
    NormalNumbers(id);
    forall i | 0 <= i < |offered| ensures Normalize(offered[i]) == Normalize(id) <==> SameSuite(id, offered[i]) {
      SameIsNormal(offered[i], id);
      SameIsSymmetric(id, offered[i]);
    }
  }

  lemma VersionAcceptedExactly(es: seq<Extension>)
    ensures CheckVersion(es).Success? <==> Find(es, 43) == Some([3, 4])
  {
    hide Find;
    var data := Find(es, 43);
    if data.Some? && |data.value| == 2 {
      assert data.value == [data.value[0], data.value[1]];
    }
  }

  lemma SecretLooksAtPrivateKeys(cr: Crypto, keys: KeyMaterial, keys': KeyMaterial, share: KeyShareEntry)
    requires keys.clientPrivateShare == keys'.clientPrivateShare && keys.clientX25519Key == keys'.clientX25519Key
    ensures ClientSecret(cr, keys, share) == ClientSecret(cr, keys', share)
  {
  }

  /** Keys of 16 bytes and IVs of 12 never fail to make a cipher. */
  lemma ReceivingStarts(e: Env, c: ConnState)
    requires c.hs.suite.Some? && c.hs.suite.value.keyLen == 16 && c.hs.suite.value.ivLen == 12
    ensures StartReceiving(e, c).result.Success?
  {
    hide AllKeys;
  }

  // ----- the shared secret -----

  /** In either group, what the client computes from the server's share is what the server computes from the client's.
      */
  lemma SecretsAgree(ce: Env, se: Env, keys: KeyMaterial, group: u16, i: nat)
    requires Lawful(ce.crypto) && se.crypto == ce.crypto && (group == 41 || group == 29)
    ensures ClientSecret(ce.crypto, SharesFor(ce, keys, group, i), ShareOf(se, group, 0)) ==
      ServerSecret(se, ShareOf(ce, group, i))
    ensures ShareOf(ce, group, i).tag == group
  {
  }

  /** A new key pair leaves the private key of the other group in place, for a server that answers in that group. */
  lemma OldKeysAnswer(ce: Env, se: Env, keys: KeyMaterial, group: u16, i: nat, j: nat)
    requires Lawful(ce.crypto) && se.crypto == ce.crypto && (group == 41 || group == 29)
    ensures var other := if group == 41 then 29 else 41;
      var both := SharesFor(ce, SharesFor(ce, keys, other, i), group, j);
      ClientSecret(ce.crypto, both, ShareOf(se, other, 0)) == ServerSecret(se, ShareOf(ce, other, i))
  {
  }

  // ----- ALPN -----

  /** The names a list of extensions carries: of each ALPN extension (16), what it parses to. */
  ghost predicate AlpnFine(es: seq<Extension>, protos: seq<Bytes>) {
    forall i :: 0 <= i < |es| && es[i].tag == 16 ==>
      var list := ParseAlpn(es[i].data);
      list.Success? && |list.value| <= 1 && (|list.value| == 1 && protos != [] ==> list.value[0] in protos)
  }

  /** A client accepts EncryptedExtensions exactly if each ALPN extension names at most one protocol, one of its own;
      the result is then one of its own too, if it has any and nothing else was agreed before. */
  lemma {:induction false} AlpnAcceptedExactly(es: seq<Extension>, protos: seq<Bytes>, proto: Bytes)
    ensures AcceptAlpn(es, protos, proto).Success? <==> AlpnFine(es, protos)
    ensures AcceptAlpn(es, protos, proto).Success? ==>
      var p := AcceptAlpn(es, protos, proto).value; p == proto || protos == [] || p in protos
  {
    hide ParseAlpn;
    if es != [] {
      var rest := es[1..];
      assert forall i :: 0 < i < |es| ==> es[i] == rest[i - 1];
      assert AlpnFine(es, protos) <==> AlpnFine([es[0]], protos) && AlpnFine(rest, protos) by {
        assert [es[0]][0] == es[0];
        if AlpnFine(es, protos) {
          assert forall i :: 0 <= i < |rest| ==> rest[i] == es[i + 1];
        }
      }
      AlpnAcceptedExactly(rest, protos, proto);
      if es[0].tag == EXT_ALPN && ParseAlpn(es[0].data).Success? && |ParseAlpn(es[0].data).value| == 1 {
        AlpnAcceptedExactly(rest, protos, ParseAlpn(es[0].data).value[0]);
      }
    }
  }

  // ----- certificates and proofs -----

  /** A client takes a message for the server's certificate exactly if it is one and, unless told to skip verification,
      the chain is there and accepted; it takes it for a request exactly if it is one. */
  lemma ServerCertificateExactly(e: Env, c: ConnState, msg: Bytes)
    requires ReadMessage(e, c).result == Success(msg)
    ensures var r, cert := ReadServerCertificate(e, c).result, ParseCertificate(e.crypto, msg);
      && (r == Success(true) <==>
          && msg[0] == 11 && cert.Success?
          && (e.config.insecureSkipVerify || (cert.value.raw != [] && e.config.accepts(cert.value))))
      && (r == Success(false) <==> msg[0] == 13 && ParseCertificateRequest(msg).Success?)
  {
    hide ReadMessage, ParseCertificate, ParseCertificateRequest;
  }

  /** A server takes a message for the client's certificate exactly if it is one, there is a certificate in it if one is
      required, and, unless told to skip verification, the chain is accepted if there is one and ClientCAs are set. */
  lemma ClientCertificateExactly(e: Env, c: ConnState, msg: Bytes)
    requires ReadMessage(e, c).result == Success(msg)
    ensures var cert := ParseCertificate(e.crypto, msg);
      ReadClientCertificate(e, c).result.Success? <==>
      && msg[0] == 11 && cert.Success?
      && (e.config.requireClientCert ==> cert.value.raw != [])
      && (e.config.insecureSkipVerify || !e.config.hasClientCAs || cert.value.raw == [] || e.config.accepts(cert.value))
  {
    hide ReadMessage, ParseCertificate;
  }

  /** A signature is accepted exactly if it is by sm2sig_sm3 and, unless told to skip verification, it verifies under
      the peer's key over what the peer signs: never over what this end signs itself. */
  lemma SignatureAcceptedExactly(e: Env, c: ConnState, msg: Bytes)
    requires ReadMessage(e, c).result == Success(msg)
    ensures var cv, cert := ParseCertificateVerify(msg), c.hs.peerCert;
      ReadCertificateVerify(e, c).result.Success? <==>
      && cv.Success? && cv.value.algorithm == 0x0708
      && (e.config.insecureSkipVerify ||
          (cert.Some? && cert.value.publicKey.Some? &&
           e.crypto.verify(cert.value.publicKey.value,
                           SignedContent(SignatureContext(!c.rec.isClient), e.crypto.hash(c.hs.transcript)),
                           cv.value.signature)))
  {
    hide ReadMessage, ParseCertificateVerify, SignedContent, SignatureContext;
  }

  /** A Finished is accepted exactly if, unless told to skip verification, it is the verify_data of the peer over the
      transcript so far. */
  lemma FinishedAcceptedExactly(e: Env, c: ConnState, msg: Bytes)
    requires ReadMessage(e, c).result == Success(msg)
    requires var t := if c.rec.isClient then c.hs.keys.serverHandshake else c.hs.keys.clientHandshake;
      |t.key| == 16 && |t.iv| == 12
    ensures var peer := if c.rec.isClient then c.hs.keys.serverHandshake else c.hs.keys.clientHandshake;
      ReadFinished(e, c).result.Success? <==>
      && ParseFinished(msg).Success?
      && (e.config.insecureSkipVerify ||
          ParseFinished(msg).value == VerifyData(e.crypto, peer.secret, c.hs.transcript))
  {
    hide ReadMessage, ParseFinished, VerifyData;
  }

  /** What an end signs, it signs with its own key over its own context and the transcript so far. */
  lemma SignsOwnTranscript(e: Env, c: ConnState)
    ensures SendCertificateVerify(e, c).result.Success? <==> e.config.localKey.Some?
    ensures e.config.localKey.Some? ==>
      var signed := SignedContent(SignatureContext(c.rec.isClient), e.crypto.hash(c.hs.transcript));
      SendCertificateVerify(e, c).state.hs.transcript == c.hs.transcript +
        CertificateVerifyBytes(CertificateVerify(0x0708, e.crypto.sign(e.config.localKey.value, signed, e.rnd.signing)))
  {
    hide SignedContent, SignatureContext, CertificateVerifyBytes, WriteRecord;
  }

  // ----- what is signed -----

  /** "TLS 1.3, client CertificateVerify" and "TLS 1.3, server CertificateVerify" */
  const CLIENT_CONTEXT: Bytes :=
    [84, 76, 83, 32, 49, 46, 51, 44, 32, 99, 108, 105, 101, 110, 116, 32, 67, 101, 114, 116, 105, 102, 105, 99,
     97, 116, 101, 86, 101, 114, 105, 102, 121]
  const SERVER_CONTEXT: Bytes :=
    [84, 76, 83, 32, 49, 46, 51, 44, 32, 115, 101, 114, 118, 101, 114, 32, 67, 101, 114, 116, 105, 102, 105, 99,
     97, 116, 101, 86, 101, 114, 105, 102, 121]

  /** The signed content of section 4.4.3 of RFC 8446: 64 spaces, the context of the signing end, a zero byte, the
      transcript hash. */
  lemma SignedContentIs(byClient: bool, digest: Digest)
    ensures var s := SignedContent(SignatureContext(byClient), digest);
      && |s| == 130 && (forall i :: 0 <= i < 64 ==> s[i] == 32)
      && s[64..97] == (if byClient then CLIENT_CONTEXT else SERVER_CONTEXT)
      && s[97] == 0 && s[98..] == digest
  {
    hide SignatureContext;
    ContextIs();
  }

  lemma ContextIs()
    ensures SignatureContext(true) == CLIENT_CONTEXT && SignatureContext(false) == SERVER_CONTEXT
    ensures |CLIENT_CONTEXT| == |SERVER_CONTEXT| == 33 && CLIENT_CONTEXT[9] != SERVER_CONTEXT[9]
  {
  }

  /** No signature of one end, or over one transcript hash, passes for one of the other end or over another. */
  lemma SignedContentBinds(byClient: bool, digest: Digest, byClient': bool, digest': Digest)
    requires SignedContent(SignatureContext(byClient), digest) == SignedContent(SignatureContext(byClient'), digest')
    ensures byClient == byClient' && digest == digest'
  {
    hide SignedContent, SignatureContext;
    SignedContentIs(byClient, digest);
    SignedContentIs(byClient', digest');
    ContextIs();
  }
}
