/** Bytes, fixed-width integers, results and errors shared by every module. */
module Prelude {

  type byte = x: int | 0 <= x < 0x100
  type u16 = x: int | 0 <= x < 0x1_0000
  type u32 = x: int | 0 <= x < 0x1_0000_0000
  type u64 = x: int | 0 <= x < 0x1_0000_0000_0000_0000
  type Bytes = seq<byte>

  const TWO64: int := 0x1_0000_0000_0000_0000

  datatype Option<+T> = None | Some(value: T)

  /** Every way an operation of the library can fail. `Eof` is what `io.ReadFull` reports when the
      transport has no more bytes; `Panic` is a Go run-time panic. */
  datatype Error =
    | Eof
    | Panic
    | BadClientHello
    | BadServerHello
    | BadEncryptedExtensions
    | BadCertificate
    | BadCertificateRequest
    | BadCertificateVerify
    | BadFinished
    | BadExtension
    | BadHandshakeHeader
    | BadTicket
    | EmptyInner
    | OpenFailed
    | InvalidKey
    | AlertMalformed
    | AlertReceived(level: byte, desc: byte)
    | CloseNotify
    | UnexpectedRecord(typ: byte)
    | UnexpectedInner(typ: byte)
    | UnexpectedMessage(typ: byte)
    | HelloRetry
    | NoRetryGroup
    | UnsupportedSuite(id: u16)
    | UnsupportedVersion
    | UnsupportedGroup(group: u16)
    | UnsupportedAlpn
    | UnsupportedSignature
    | NoKeyShare
    | KeyAgreementFailed
    | ChainRejected
    | CertificateMissing
    | PrivateKeyMissing
    | PeerKeyMissing
    | SignatureRejected
    | FinishedMismatch
    | NotComplete

  datatype Result<+T> = Success(value: T) | Failure(error: Error) {
    predicate IsFailure() { Failure? }

    function PropagateFailure<U>(): Result<U>
      requires Failure?
    {
      Failure(error)
    }

    function Extract(): T
      requires Success?
    {
      value
    }
  }

  function Min(a: int, b: int): int { if a < b then a else b }

  function Max(a: int, b: int): int { if a < b then b else a }

  function Zeros(n: nat): (z: Bytes)
    ensures |z| == n && forall i :: 0 <= i < n ==> z[i] == 0
  {
    seq(n, _ => 0)
  }

  /** Big-endian encodings; like Go's conversions, they keep the low bits of a value that is too wide. */
  function U16(n: nat): (s: Bytes)
    ensures |s| == 2
  {
    [n / 0x100 % 0x100, n % 0x100]
  }

  function U24(n: nat): (s: Bytes)
    ensures |s| == 3
  {
    [n / 0x1_0000 % 0x100, n / 0x100 % 0x100, n % 0x100]
  }

  function U32(n: nat): (s: Bytes)
    ensures |s| == 4
  {
    U16(n / 0x1_0000) + U16(n)
  }

  function U64(n: nat): (s: Bytes)
    ensures |s| == 8
  {
    U32(n / 0x1_0000_0000) + U32(n % 0x1_0000_0000)
  }

  function ReadU16(s: Bytes): (n: nat)
    requires |s| >= 2
    ensures n < 0x1_0000
  {
    s[0] as int * 0x100 + s[1] as int
  }

  function ReadU24(s: Bytes): (n: nat)
    requires |s| >= 3
    ensures n < 0x100_0000
  {
    s[0] as int * 0x1_0000 + s[1] as int * 0x100 + s[2] as int
  }

  function ReadU32(s: Bytes): (n: nat)
    requires |s| >= 4
    ensures n < 0x1_0000_0000
  {
    ReadU16(s) * 0x1_0000 + ReadU16(s[2..])
  }

  lemma U16RoundTrip(n: u16)
    ensures ReadU16(U16(n)) == n
  {
  }

  lemma U24RoundTrip(n: nat)
    requires n < 0x100_0000
    ensures ReadU24(U24(n)) == n
  {
  }

  lemma U16Print(s: Bytes)
    requires |s| == 2
    ensures U16(ReadU16(s)) == s
  {
  }

  lemma U24Print(s: Bytes)
    requires |s| == 3
    ensures U24(ReadU24(s)) == s
  {
    var n := ReadU24(s);
    assert n / 0x100 == s[0] as int * 0x100 + s[1] as int;
    assert n / 0x1_0000 == s[0];
  }

  lemma U16Low(q: nat, r: u16)
    ensures U16(q * 0x1_0000 + r) == U16(r)
  {
    assert (q * 0x1_0000 + r) / 0x100 == q * 0x100 + r / 0x100;
    assert (q * 0x100 + r / 0x100) % 0x100 == r / 0x100 % 0x100;
    assert (q * 0x1_0000 + r) % 0x100 == r % 0x100;
  }

  lemma U32Injective(a: u32, b: u32)
    requires U32(a) == U32(b)
    ensures a == b
  {
    var qa, ra, qb, rb := a / 0x1_0000, a % 0x1_0000, b / 0x1_0000, b % 0x1_0000;
    U16Low(qa, ra);
    U16Low(qb, rb);
    assert U32(a)[..2] == U16(qa) && U32(a)[2..] == U16(ra);
    assert U32(b)[..2] == U16(qb) && U32(b)[2..] == U16(rb);
    U16RoundTrip(qa);
    U16RoundTrip(ra);
    U16RoundTrip(qb);
    U16RoundTrip(rb);
  }

  lemma U64Injective(a: u64, b: u64)
    requires U64(a) == U64(b)
    ensures a == b
  {
    assert U64(a)[..4] == U32(a / 0x1_0000_0000) && U64(b)[..4] == U32(b / 0x1_0000_0000);
    assert U64(a)[4..] == U32(a % 0x1_0000_0000) && U64(b)[4..] == U32(b % 0x1_0000_0000);
    U32Injective(a / 0x1_0000_0000, b / 0x1_0000_0000);
    U32Injective(a % 0x1_0000_0000, b % 0x1_0000_0000);
  }

  lemma SliceOfSlice<T>(s: seq<T>, a: nat, b: nat, i: nat, j: nat)
    requires a <= b <= |s| && i <= j <= b - a
    ensures s[a..b][i..j] == s[a + i..a + j]
  {
    var t := s[a..b];
    assert forall k :: 0 <= k < j - i ==> t[i..j][k] == t[i + k] == s[a + i + k] == s[a + i..a + j][k];
  }

  lemma DropOfSlice<T>(s: seq<T>, a: nat, b: nat, i: nat)
    requires a <= b <= |s| && i <= b - a
    ensures s[a..b][i..] == s[a + i..b]
  {
  }

  lemma SliceOfDrop<T>(s: seq<T>, a: nat, i: nat, j: nat)
    requires a <= |s| && i <= j <= |s| - a
    ensures s[a..][i..j] == s[a + i..a + j] && s[a..][i..] == s[a + i..]
  {
    assert s[a..|s|] == s[a..];
    SliceOfSlice(s, a, |s|, i, j);
  }

  /** A number is read off the first bytes, wherever the slice ends. */
  lemma ReadAt(s: Bytes, a: nat, b: nat)
    requires a <= b <= |s|
    ensures a + 2 <= b ==> ReadU16(s[a..b]) == ReadU16(s[a..a + 2]) == ReadU16(s[a..])
    ensures a + 3 <= b ==> ReadU24(s[a..b]) == ReadU24(s[a..a + 3]) == ReadU24(s[a..])
  {
  }

  lemma Assoc<T>(a: seq<T>, b: seq<T>, c: seq<T>)
    ensures a + b + c == a + (b + c)
  {
  }

  /** `done` in front of what the rest of a parse yields. */
  function Prepend<T>(done: seq<T>, rest: Option<seq<T>>): (r: Option<seq<T>>)
    ensures done == [] ==> r == rest
    ensures rest == Some([]) ==> r == Some(done)
  {
    match rest
    case None => None
    case Some(v) =>
      assert done == [] ==> done + v == v;
      assert v == [] ==> done + v == done;
      Some(done + v)
  }

  lemma PrependTwice<T>(done: seq<T>, x: T, rest: Option<seq<T>>)
    ensures Prepend(done, Prepend([x], rest)) == Prepend(done + [x], rest)
  {
    if rest.Some? {
      assert done + ([x] + rest.value) == done + [x] + rest.value;
    }
  }

  function Concat<T>(parts: seq<seq<T>>): seq<T> {
    if parts == [] then [] else parts[0] + Concat(parts[1..])
  }

  lemma {:induction false} ConcatAppend<T>(xs: seq<seq<T>>, ys: seq<seq<T>>)
    ensures Concat(xs + ys) == Concat(xs) + Concat(ys)
  {
    if xs == [] {
      assert xs + ys == ys;
    } else {
      assert (xs + ys)[1..] == xs[1..] + ys;
      ConcatAppend(xs[1..], ys);
    }
  }

  lemma ConcatSnoc<T>(xs: seq<seq<T>>, x: seq<T>)
    ensures Concat(xs + [x]) == Concat(xs) + x
  {
    ConcatAppend(xs, [x]);
    assert Concat([x]) == x + Concat([]);
  }
}
