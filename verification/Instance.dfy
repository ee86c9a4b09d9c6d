/** A pair of ends that can complete, so that the theorems about capable pairs are not about nothing. */
module Instance {
  import opened Prelude
  import opened Crypto
  import opened Extensions
  import opened Certificates
  import opened Suites
  import opened Tickets
  import opened Offer
  import opened Steps
  import opened Retry
  import opened Channels
  import opened Script
  import opened Greeting
  import opened Completion

  /** Every certificate is accepted, and the key of a certificate is its own encoding. */
  function ToyEnv(asks: bool): Env {
    var config := Config([], Some(Certificate([1], [], None)), Some([1]), false, asks, asks, _ => true, [], [], 0);
    var random := Randomness(Zeros(32), Zeros(32), Zeros(32), _ => [], _ => [], []);
    Env(Toy(), config, random, _ => 0)
  }

  /** The server asks for a client certificate, or not. */
  function ToyPair(asks: bool): Ctx {
    Ctx(ToyEnv(false), ToyEnv(asks), TicketState([], [], 0), TicketState([], [], 0))
  }

  lemma {:induction false} EntriesAreSmall(es: seq<Extension>)
    requires forall i :: 0 <= i < |es| ==> |es[i].data| <= 80
    ensures |EntriesBytes(es)| <= 84 * |es|
  {
    if es != [] {
      EntriesAreSmall(es[1..]);
    }
  }

  lemma ShareIsSmall(share: KeyShareEntry)
    requires |share.data| == 65
    ensures |KeyShareClient([share]).data| <= 80
  {
    EntriesAreSmall([share]);
  }

  lemma HelloIsSmall(asks: bool)
    ensures |ClientHelloIn(ToyPair(asks))| < 0x1_0000
  {
    hide U16, U24, EntriesBytes, KeyShareClient;
    var x := ToyPair(asks);
    var h := HelloFor(x.ce, CURVE_SM2, 0);
    ShareIsSmall(h.share);
    var es := BaseExtensions(h);
    assert |es| == 10;
    EntriesAreSmall(es);
    assert PskOffer([], 0) == None;
  }

  lemma CertificateIsSmall(asks: bool)
    ensures |CertificateIn(ToyEnv(asks))| <= MAX_PLAINTEXT
  {
    hide U24;
    assert [[1 as byte]][1..] == [];
  }

  lemma ToyPairIsSound(asks: bool)
    ensures Sound(ToyPair(asks))
  {
    hide Lawful, Toy, ClientHelloIn, CertificateIn;
    ToyIsLawful();
    HelloIsSmall(asks);
    CertificateIsSmall(false);
    CertificateIsSmall(asks);
    assert Zeros(32)[0] != HRR_RANDOM[0];
  }

  lemma ToyPairAgrees(asks: bool)
    ensures Agreeable(ToyPair(asks))
  {
    var x := ToyPair(asks);
    assert SM4_GCM_SM3_ALT in OFFERED_SUITES;
    assert Match(SM4_GCM_SM3_ALT, OFFERED_SUITES) == Some(SM4_GCM_SM3_ALT);
    assert Suites.Usable(SM4_GCM_SM3_ALT, VERSION_TLS13, OFFERED_GROUPS, [SM2SM3]);
  }

  /** There are compatible pairs, with and without client certificates. */
  lemma CompatiblePairsExist(asks: bool)
    ensures Sound(ToyPair(asks)) && Compatible(ToyPair(asks)) && Asks(ToyPair(asks)) == asks
  {
    hide Lawful, Sound, Agreeable;
    ToyPairIsSound(asks);
    ToyPairAgrees(asks);
  }
}
