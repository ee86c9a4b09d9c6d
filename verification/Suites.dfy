/** The cipher-suite table of cipher.go and the negotiation functions of conn.go. */
module Suites {
  import opened Prelude
  import opened Extensions

  const SM4_GCM_SM3: u16 := 0x1306
  const SM4_CCM_SM3: u16 := 0x1307
  const SM4_GCM_SM3_ALT: u16 := 0x00C6
  const SM4_CCM_SM3_ALT: u16 := 0x00C7
  const SCSV: u16 := 0x00FF
  const VERSION_TLS12: u16 := 0x0303
  const VERSION_TLS13: u16 := 0x0304

  const SCHEME_PKCS1_SM2SM3: u16 := 1
  const SCHEME_ECDSA_SM2SM3: u16 := 3

  datatype KeyExchange = Any | SM2DHE

  datatype Suite = Suite(id: u16, keyExchange: KeyExchange, keyLen: nat, ivLen: nat, minVersion: u16, maxVersion: u16)

  const TABLE: seq<Suite> := [
    Suite(SM4_GCM_SM3, Any, 16, 12, VERSION_TLS13, VERSION_TLS13),
    Suite(SM4_CCM_SM3, Any, 16, 12, VERSION_TLS13, VERSION_TLS13)
  ]

  /** cipherSuitesByID as `init` fills it: the two table rows and a copy of each under the RFC 8998 number. */
  method BuildTable() returns (byID: map<u16, Suite>)
    ensures forall id: u16 :: SuiteByID(id) == if id in byID then Some(byID[id]) else None
  {
    byID := map[];
    for i := 0 to |TABLE|
      invariant byID == map s | s in TABLE[..i] :: s.id := s
    {
      byID := byID[TABLE[i].id := TABLE[i]];
    }
    if SM4_GCM_SM3 in byID {
      byID := byID[SM4_GCM_SM3_ALT := byID[SM4_GCM_SM3].(id := SM4_GCM_SM3_ALT)];
    }
    if SM4_CCM_SM3 in byID {
      byID := byID[SM4_CCM_SM3_ALT := byID[SM4_CCM_SM3].(id := SM4_CCM_SM3_ALT)];
    }
  }

  function SuiteByID(id: u16): (s: Option<Suite>)
    ensures s.Some? ==> s.value.id == id && s.value.keyLen == 16 && s.value.ivLen == 12
  {
    if Normalize(id) == SM4_GCM_SM3 then Some(TABLE[0].(id := id))
    else if Normalize(id) == SM4_CCM_SM3 then Some(TABLE[1].(id := id))
    else None
  }

  function Normalize(id: u16): u16 {
    if id == SM4_GCM_SM3_ALT then SM4_GCM_SM3 else if id == SM4_CCM_SM3_ALT then SM4_CCM_SM3 else id
  }

  predicate ForVersion(s: Suite, version: u16) { s.minVersion <= version <= s.maxVersion }

  predicate SupportsSM2(schemes: seq<u16>) {
    SM2SM3 in schemes || SCHEME_PKCS1_SM2SM3 in schemes || SCHEME_ECDSA_SM2SM3 in schemes
  }

  /** The first suite of `list` with this normal form. */
  function FirstNormalized(list: seq<u16>, normal: u16): Option<u16> {
    if list == [] then None
    else if Normalize(list[0]) == normal then Some(list[0])
    else FirstNormalized(list[1..], normal)
  }

  /** What the client's list offers for a server preference: the same number, else the same normal form. */
  function Match(preference: u16, clientSuites: seq<u16>): Option<u16> {
    if preference in clientSuites then Some(preference) else FirstNormalized(clientSuites, Normalize(preference))
  }

  predicate Usable(id: u16, version: u16, curves: seq<u16>, schemes: seq<u16>) {
    && SuiteByID(id).Some?
    && ForVersion(SuiteByID(id).value, version)
    && (SuiteByID(id).value.keyExchange == SM2DHE && curves != [] ==> CURVE_SM2 in curves)
    && (schemes != [] ==> SupportsSM2(schemes))
  }

  function SelectFrom(preferences: seq<u16>, clientSuites: seq<u16>, version: u16, curves: seq<u16>, schemes: seq<u16>)
    : Option<Suite>
  {
    if preferences == [] then None
    else
      match Match(preferences[0], clientSuites)
      case Some(id) =>
        if Usable(id, version, curves, schemes) then SuiteByID(id)
        else SelectFrom(preferences[1..], clientSuites, version, curves, schemes)
      case None => SelectFrom(preferences[1..], clientSuites, version, curves, schemes)
  }

  function Preferences(clientSuites: seq<u16>, serverSuites: seq<u16>): seq<u16> {
    if serverSuites != [] then serverSuites else clientSuites
  }

  function Select(clientSuites: seq<u16>, serverSuites: seq<u16>, version: u16, curves: seq<u16>, schemes: seq<u16>)
    : Option<Suite>
  {
    SelectFrom(Preferences(clientSuites, serverSuites), clientSuites, version, curves, schemes)
  }

  method FindNormalized(list: seq<u16>, normal: u16) returns (r: Option<u16>)
    ensures r == FirstNormalized(list, normal)
  {
    for i := 0 to |list|
      invariant FirstNormalized(list, normal) == FirstNormalized(list[i..], normal)
    {
      if Normalize(list[i]) == normal {
        return Some(list[i]);
      }
    }
    r := None;
  }

  method SelectCipherSuite(clientSuites: seq<u16>, serverSuites: seq<u16>, version: u16,
                           curves: seq<u16>, schemes: seq<u16>) returns (r: Option<Suite>)
    ensures r == Select(clientSuites, serverSuites, version, curves, schemes)
  {
    var preferences := clientSuites;
    if |serverSuites| > 0 {
      preferences := serverSuites;
    }
    for i := 0 to |preferences|
      invariant SelectFrom(preferences, clientSuites, version, curves, schemes)
             == SelectFrom(preferences[i..], clientSuites, version, curves, schemes)
    {
      assert preferences[i..][1..] == preferences[i + 1..];
      var chosen: Option<u16> := None;
      if preferences[i] in clientSuites {
        chosen := Some(preferences[i]);
      } else {
        chosen := FindNormalized(clientSuites, Normalize(preferences[i]));
      }
      if chosen.Some? && Usable(chosen.value, version, curves, schemes) {
        return SuiteByID(chosen.value);
      }
    }
    r := None;
  }

  // ----- what is chosen -----

  /** A suite both sides name, up to the RFC 8998 aliases, and the library knows. */
  ghost predicate Common(preference: u16, clientSuites: seq<u16>) {
    && SuiteByID(preference).Some?
    && exists j :: 0 <= j < |clientSuites| && Normalize(clientSuites[j]) == Normalize(preference)
  }

  lemma {:induction false} FirstNormalizedFinds(list: seq<u16>, normal: u16)
    ensures match FirstNormalized(list, normal)
      case Some(id) => id in list && Normalize(id) == normal
      case None => forall j :: 0 <= j < |list| ==> Normalize(list[j]) != normal
  {
    if list != [] && Normalize(list[0]) != normal {
      FirstNormalizedFinds(list[1..], normal);
      assert forall j :: 0 < j < |list| ==> list[j] == list[1..][j - 1];
    }
  }

  lemma MatchFinds(preference: u16, clientSuites: seq<u16>, curves: seq<u16>, schemes: seq<u16>)
    ensures match Match(preference, clientSuites)
      case Some(id) => id in clientSuites && Normalize(id) == Normalize(preference)
      case None => !Common(preference, clientSuites)
    ensures Common(preference, clientSuites) && (schemes != [] ==> SupportsSM2(schemes)) <==>
            Match(preference, clientSuites).Some? &&
            Usable(Match(preference, clientSuites).value, VERSION_TLS13, curves, schemes)
  {
    FirstNormalizedFinds(clientSuites, Normalize(preference));
    if preference in clientSuites {
      var j :| 0 <= j < |clientSuites| && clientSuites[j] == preference;
    }
    if Match(preference, clientSuites).Some? {
      var id := Match(preference, clientSuites).value;
      var j :| 0 <= j < |clientSuites| && clientSuites[j] == id;
      assert Normalize(clientSuites[j]) == Normalize(preference);
    }
  }

  /** Negotiation is complete and sound: a suite comes out exactly when some preference is common to both sides and
      the client's signature schemes allow SM2. It is the earliest such preference, under a number the client listed. */
  lemma {:induction false} SelectFromCorrect(preferences: seq<u16>, clientSuites: seq<u16>, curves: seq<u16>,
          schemes: seq<u16>)
    ensures var r := SelectFrom(preferences, clientSuites, VERSION_TLS13, curves, schemes);
      && (r.Some? <==> (schemes != [] ==> SupportsSM2(schemes)) &&
                       exists i :: 0 <= i < |preferences| && Common(preferences[i], clientSuites))
      && (r.Some? ==> r.value.id in clientSuites && SuiteByID(r.value.id) == r)
      && (r.Some? ==>
            exists i ::
              Earliest(preferences, clientSuites, i) && Match(preferences[i], clientSuites) == Some(r.value.id))
  {
    if preferences != [] {
      var rest := preferences[1..];
      MatchFinds(preferences[0], clientSuites, curves, schemes);
      SelectFromCorrect(rest, clientSuites, curves, schemes);
      assert forall i :: 0 < i < |preferences| ==> preferences[i] == rest[i - 1];
      if Common(preferences[0], clientSuites) {
        assert Earliest(preferences, clientSuites, 0);
      } else {
        assert forall i :: 0 <= i < |rest| && Common(rest[i], clientSuites) ==>
          Common(preferences[i + 1], clientSuites);
        if SelectFrom(rest, clientSuites, VERSION_TLS13, curves, schemes).Some? {
          var i :| Earliest(rest, clientSuites, i) &&
                   Match(rest[i], clientSuites) ==
                     Some(SelectFrom(rest, clientSuites, VERSION_TLS13, curves, schemes).value.id);
          assert Earliest(preferences, clientSuites, i + 1);
          assert Match(preferences[i + 1], clientSuites) == Match(rest[i], clientSuites);
        }
      }
    }
  }

  ghost predicate Earliest(preferences: seq<u16>, clientSuites: seq<u16>, i: int) {
    && 0 <= i < |preferences| && Common(preferences[i], clientSuites)
    && forall k :: 0 <= k < i ==> !Common(preferences[k], clientSuites)
  }

  /** clientOfferedCipherSuite */
  method ClientOffered(offered: seq<u16>, id: u16) returns (found: bool)
    ensures found == Offered(offered, id)
  {
    var normalized := Normalize(id);
    for i := 0 to |offered|
      invariant forall j :: 0 <= j < i ==> Normalize(offered[j]) != normalized
    {
      if Normalize(offered[i]) == normalized {
        return true;
      }
    }
    found := false;
  }

  predicate Offered(offered: seq<u16>, id: u16) {
    exists j :: 0 <= j < |offered| && Normalize(offered[j]) == Normalize(id)
  }

  /** The client accepts whatever the server picks from its list. */
  lemma SelectedIsOffered(clientSuites: seq<u16>, serverSuites: seq<u16>, curves: seq<u16>, schemes: seq<u16>)
    requires Select(clientSuites, serverSuites, VERSION_TLS13, curves, schemes).Some?
    ensures Offered(clientSuites, Select(clientSuites, serverSuites, VERSION_TLS13, curves, schemes).value.id)
  {
    SelectFromCorrect(Preferences(clientSuites, serverSuites), clientSuites, curves, schemes);
    var id := Select(clientSuites, serverSuites, VERSION_TLS13, curves, schemes).value.id;
    var j :| 0 <= j < |clientSuites| && clientSuites[j] == id;
    assert Normalize(clientSuites[j]) == Normalize(id);
  }

  // ----- ALPN -----

  /** selectALPNProtocol; the empty name stands for no choice. */
  function SelectAlpn(serverProtos: seq<Bytes>, clientProtos: seq<Bytes>): Bytes {
    if serverProtos == [] then []
    else if serverProtos[0] in clientProtos then serverProtos[0]
    else SelectAlpn(serverProtos[1..], clientProtos)
  }

  /** The server's earliest protocol that the client also lists, or none when the lists are disjoint. */
  lemma {:induction false} SelectAlpnCorrect(serverProtos: seq<Bytes>, clientProtos: seq<Bytes>)
    ensures var p := SelectAlpn(serverProtos, clientProtos);
      if exists i :: 0 <= i < |serverProtos| && serverProtos[i] in clientProtos
      then p in clientProtos
        && (exists i :: 0 <= i < |serverProtos| && serverProtos[i] == p && NoneBefore(serverProtos, clientProtos, i))
      else p == []
  {
    if serverProtos != [] && serverProtos[0] !in clientProtos {
      var rest := serverProtos[1..];
      SelectAlpnCorrect(rest, clientProtos);
      assert forall i :: 0 < i < |serverProtos| ==> serverProtos[i] == rest[i - 1];
      if exists i :: 0 <= i < |rest| && rest[i] in clientProtos {
        var i :| 0 <= i < |rest| && rest[i] == SelectAlpn(rest, clientProtos) && NoneBefore(rest, clientProtos, i);
        assert serverProtos[i + 1] == SelectAlpn(serverProtos, clientProtos);
        assert NoneBefore(serverProtos, clientProtos, i + 1);
      }
    }
  }

  ghost predicate NoneBefore(serverProtos: seq<Bytes>, clientProtos: seq<Bytes>, i: nat)
    requires i <= |serverProtos|
  {
    forall k :: 0 <= k < i ==> serverProtos[k] !in clientProtos
  }

  method SelectProtocol(serverProtos: seq<Bytes>, clientProtos: seq<Bytes>) returns (p: Bytes)
    ensures p == SelectAlpn(serverProtos, clientProtos)
  {
    for i := 0 to |serverProtos|
      invariant SelectAlpn(serverProtos, clientProtos) == SelectAlpn(serverProtos[i..], clientProtos)
    {
      for j := 0 to |clientProtos|
        invariant serverProtos[i] !in clientProtos[..j]
      {
        if serverProtos[i] == clientProtos[j] {
          return serverProtos[i];
        }
      }
      assert serverProtos[i..][1..] == serverProtos[i + 1..];
    }
    p := [];
  }
}
