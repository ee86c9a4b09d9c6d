/** The session-ticket cache of conn.go: parsing NewSessionTicket, storing, and choosing a ticket to resume.
    Time is a number of nanoseconds, 0 standing for the zero `time.Time`; readings of the clock are inputs. */
module Tickets {
  import opened Prelude
  import opened Crypto
  import opened HandshakeMessages
  import opened KeySchedule

  const SECOND: nat := 1_000_000_000

  datatype Ticket = Ticket(lifetime: u32, ageAdd: u32, nonce: Bytes, ticket: Bytes, psk: Bytes, receivedAt: nat)

  // ----- storing -----

  /** Neither dropped by the expiry loop nor refused by the selection: a zero lifetime or time counts as expired. */
  predicate Live(t: Ticket, now: nat) {
    t.receivedAt != 0 && t.lifetime != 0 && now - t.receivedAt <= t.lifetime * SECOND
  }

  function KeepLive(ts: seq<Ticket>, now: nat): seq<Ticket> {
    if ts == [] then []
    else if Live(ts[0], now) then [ts[0]] + KeepLive(ts[1..], now)
    else KeepLive(ts[1..], now)
  }

  function Without(ts: seq<Ticket>, ticket: Bytes): seq<Ticket> {
    if ts == [] then []
    else if ts[0].ticket == ticket then Without(ts[1..], ticket)
    else [ts[0]] + Without(ts[1..], ticket)
  }

  function Take<T>(s: seq<T>, n: nat): (r: seq<T>)
    ensures r <= s && |r| == Min(n, |s|)
  {
    if n <= |s| then s[..n] else s
  }

  /** The limit is compared after an entry has been appended, so a limit of one still leaves room for two. */
  function Capacity(limit: int): (n: nat)
    ensures n >= 2
  {
    Max(2, if limit <= 0 then 4 else limit)
  }

  /** storeSessionTicket on the cache as a value. */
  function Store(cache: seq<Ticket>, t: Ticket, now: nat, limit: int): seq<Ticket> {
    Take([t] + Without(KeepLive(cache, now), t.ticket), Capacity(limit))
  }

  lemma {:induction false} KeepLiveAppend(xs: seq<Ticket>, ys: seq<Ticket>, now: nat)
    ensures KeepLive(xs + ys, now) == KeepLive(xs, now) + KeepLive(ys, now)
  {
    if xs == [] {
      assert xs + ys == ys;
    } else {
      assert (xs + ys)[1..] == xs[1..] + ys;
      KeepLiveAppend(xs[1..], ys, now);
    }
  }

  lemma {:induction false} WithoutAppend(xs: seq<Ticket>, ys: seq<Ticket>, ticket: Bytes)
    ensures Without(xs + ys, ticket) == Without(xs, ticket) + Without(ys, ticket)
  {
    if xs == [] {
      assert xs + ys == ys;
    } else {
      assert (xs + ys)[1..] == xs[1..] + ys;
      WithoutAppend(xs[1..], ys, ticket);
    }
  }

  lemma KeepLiveStep(ts: seq<Ticket>, i: nat, now: nat)
    requires i < |ts|
    ensures KeepLive(ts[..i + 1], now) == KeepLive(ts[..i], now) + if Live(ts[i], now) then [ts[i]] else []
  {
    assert ts[..i + 1] == ts[..i] + [ts[i]];
    KeepLiveAppend(ts[..i], [ts[i]], now);
    assert KeepLive([ts[i]][1..], now) == [];
  }

  lemma WithoutStep(ts: seq<Ticket>, i: nat, ticket: Bytes)
    requires i < |ts|
    ensures Without(ts[..i + 1], ticket) == Without(ts[..i], ticket) + if ts[i].ticket == ticket then [] else [ts[i]]
  {
    assert ts[..i + 1] == ts[..i] + [ts[i]];
    WithoutAppend(ts[..i], [ts[i]], ticket);
    assert Without([ts[i]][1..], ticket) == [];
  }

  /** Config.SessionTickets: a slice, that is an array and how much of it is in use. */
  class TicketCache {
    var slots: array<Ticket>
    var count: nat
    const limit: int

    ghost predicate Valid()
      reads this
    {
      count <= slots.Length
    }

    ghost function Contents(): seq<Ticket>
      reads this, slots
      requires Valid()
    {
      slots[..count]
    }

    constructor (limit: int, initial: seq<Ticket>)
      ensures Valid() && fresh(slots) && Contents() == initial && this.limit == limit
    {
      this.limit := limit;
      slots := new Ticket[|initial|](i requires 0 <= i < |initial| => initial[i]);
      count := |initial|;
      new;
      assert slots[..count] == initial;
    }

    /** The expiry loop: `dst` starts as SessionTickets[:0], so survivors are written over the array being read. */
    method DropExpired(now: nat)
      requires Valid()
      modifies this`count, slots
      ensures Valid() && Contents() == KeepLive(old(Contents()), now)
    {
      ghost var was := Contents();
      var n := count;
      var dst := 0;
      for i := 0 to n
        invariant dst <= i && n <= slots.Length
        invariant slots[..dst] == KeepLive(was[..i], now)
        invariant slots[i..n] == was[i..]
      {
        var existing := slots[i];
        assert existing == slots[i..n][0] == was[i];
        KeepLiveStep(was, i, now);
        ghost var rest := slots[i + 1..n];
        assert rest == slots[i..n][1..] == was[i + 1..];
        if existing.receivedAt == 0 || existing.lifetime == 0
          || now - existing.receivedAt > existing.lifetime * SECOND {
          continue;
        }
        slots[dst] := existing;
        assert slots[i + 1..n] == rest;
        assert slots[..dst + 1] == slots[..dst] + [existing];
        dst := dst + 1;
      }
      assert was[..n] == was;
      count := dst;
    }

    /** The loop that puts the new ticket first, skips its older copies and stops at the limit. */
    method Prepended(t: Ticket) returns (out: seq<Ticket>)
      requires Valid()
      ensures out == Take([t] + Without(Contents(), t.ticket), Capacity(limit))
    {
      var limit' := limit;
      if limit' <= 0 {
        limit' := 4;
      }
      ghost var kept := Contents();
      out := [t];
      for i := 0 to count
        invariant out == [t] + Without(kept[..i], t.ticket) && |out| < Capacity(limit)
      {
        WithoutStep(kept, i, t.ticket);
        if slots[i].ticket == t.ticket {
          continue;
        }
        out := out + [slots[i]];
        if |out| >= limit' {
          WithoutAppend(kept[..i + 1], kept[i + 1..], t.ticket);
          assert kept == kept[..i + 1] + kept[i + 1..];
          assert out <= [t] + Without(kept, t.ticket);
          return;
        }
      }
      assert kept[..count] == kept;
    }

    /** storeSessionTicket */
    method StoreSessionTicket(t: Ticket, now: nat)
      requires Valid()
      modifies this, slots
      ensures Valid() && fresh(slots)
      ensures Contents() == Store(old(Contents()), t, now, limit)
    {
      DropExpired(now);
      var out := Prepended(t);
      slots := new Ticket[|out|](i requires 0 <= i < |out| => out[i]);
      count := |out|;
      assert slots[..count] == out;
    }
  }

  // ----- the cache against the history of stores -----

  /** One call of storeSessionTicket: the ticket and the clock reading of the expiry loop. */
  datatype Stored = Stored(t: Ticket, now: nat)

  /** The cache after a history of stores, oldest first, from an initial cache. */
  function Run(initial: seq<Ticket>, h: seq<Stored>, limit: int): seq<Ticket> {
    if h == [] then initial
    else
      var last := h[|h| - 1];
      Store(Run(initial, h[..|h| - 1], limit), last.t, last.now, limit)
  }

  /** The tickets of a history, latest first, only the latest of those with the same bytes. */
  function Latest(h: seq<Stored>): seq<Ticket> {
    if h == [] then []
    else
      var last := h[|h| - 1].t;
      [last] + Without(Latest(h[..|h| - 1]), last.ticket)
  }

  predicate Subsequence(xs: seq<Ticket>, ys: seq<Ticket>) {
    xs == [] || (ys != [] && (Subsequence(xs, ys[1..]) || (xs[0] == ys[0] && Subsequence(xs[1..], ys[1..]))))
  }

  ghost predicate NoDuplicates(ts: seq<Ticket>) {
    forall i, j :: 0 <= i < j < |ts| ==> ts[i].ticket != ts[j].ticket
  }

  ghost predicate AllLive(ts: seq<Ticket>, now: nat) {
    forall i :: 0 <= i < |ts| ==> Live(ts[i], now)
  }

  lemma {:induction false} KeepLiveMeans(ts: seq<Ticket>, now: nat)
    ensures AllLive(KeepLive(ts, now), now) && Subsequence(KeepLive(ts, now), ts)
    ensures AllLive(ts, now) ==> KeepLive(ts, now) == ts
    ensures forall t :: t in KeepLive(ts, now) ==> t in ts
  {
    if ts != [] {
      KeepLiveMeans(ts[1..], now);
      assert AllLive(ts, now) ==> AllLive(ts[1..], now);
    }
  }

  lemma {:induction false} WithoutMeans(ts: seq<Ticket>, ticket: Bytes)
    ensures forall t :: t in Without(ts, ticket) <==> t in ts && t.ticket != ticket
    ensures NoDuplicates(ts) ==> NoDuplicates(Without(ts, ticket))
  {
    if ts != [] {
      WithoutMeans(ts[1..], ticket);
      assert NoDuplicates(ts) ==> NoDuplicates(ts[1..]);
    }
  }

  lemma {:induction false} WithoutNothing(ts: seq<Ticket>, ticket: Bytes)
    requires forall i :: 0 <= i < |ts| ==> ts[i].ticket != ticket
    ensures Without(ts, ticket) == ts
  {
    if ts != [] {
      WithoutNothing(ts[1..], ticket);
      assert ts == [ts[0]] + ts[1..];
    }
  }

  lemma {:induction false} WithoutDropsOne(ts: seq<Ticket>, ticket: Bytes)
    requires NoDuplicates(ts)
    ensures |Without(ts, ticket)| >= |ts| - 1
  {
    if ts != [] {
      assert NoDuplicates(ts[1..]);
      if ts[0].ticket == ticket {
        WithoutNothing(ts[1..], ticket);
      } else {
        WithoutDropsOne(ts[1..], ticket);
      }
    }
  }

  lemma {:induction false} LatestDistinct(h: seq<Stored>)
    ensures NoDuplicates(Latest(h))
    ensures forall t :: t in Latest(h) ==> exists i :: 0 <= i < |h| && h[i].t == t
  {
    if h != [] {
      var init, last := h[..|h| - 1], h[|h| - 1];
      LatestDistinct(init);
      WithoutMeans(Latest(init), last.t.ticket);
      forall t | t in Latest(h) ensures exists i :: 0 <= i < |h| && h[i].t == t {
        if t == last.t {
          assert h[|h| - 1].t == t;
        } else {
          var i :| 0 <= i < |init| && init[i].t == t;
          assert h[i].t == t;
        }
      }
    }
  }

  lemma TakeOfPrefix<T>(a: seq<T>, b: seq<T>, n: nat)
    requires n <= |a|
    ensures Take(a + b, n) == Take(a, n)
  {
  }

  /** Cutting before or after removing one ticket and putting the new one in front comes to the same. */
  lemma CutCommutes(d: seq<Ticket>, t: Ticket, n: nat)
    requires n >= 1 && NoDuplicates(d)
    ensures Take([t] + Without(Take(d, n), t.ticket), n) == Take([t] + Without(d, t.ticket), n)
  {
    if n < |d| {
      assert d == d[..n] + d[n..];
      WithoutAppend(d[..n], d[n..], t.ticket);
      assert NoDuplicates(d[..n]);
      WithoutDropsOne(d[..n], t.ticket);
      CutPrefix(t, Without(d[..n], t.ticket), Without(d[n..], t.ticket), n);
    } else {
      assert Take(d, n) == d;
    }
  }

  lemma CutPrefix(t: Ticket, a: seq<Ticket>, b: seq<Ticket>, n: nat)
    requires n - 1 <= |a|
    ensures Take([t] + a, n) == Take([t] + (a + b), n)
  {
    Assoc([t], a, b);
    TakeOfPrefix([t] + a, b, n);
  }

  ghost predicate NothingExpires(h: seq<Stored>) {
    forall i, j :: 0 <= i < j < |h| ==> Live(h[i].t, h[j].now)
  }

  /** While nothing expires the cache is the history, latest first, deduplicated and cut to the capacity. */
  lemma {:induction false} CacheIsLatest(h: seq<Stored>, limit: int)
    requires NothingExpires(h)
    ensures Run([], h, limit) == Take(Latest(h), Capacity(limit))
  {
    if h != [] {
      var init, last := h[..|h| - 1], h[|h| - 1];
      CacheIsLatest(init, limit);
      LatestDistinct(init);
      var cache := Run([], init, limit);
      assert AllLive(cache, last.now) by {
        forall k | 0 <= k < |cache| ensures Live(cache[k], last.now) {
          assert cache[k] in Latest(init);
          var i :| 0 <= i < |init| && init[i].t == cache[k];
          assert Live(h[i].t, h[|h| - 1].now);
        }
      }
      KeepLiveMeans(cache, last.now);
      CutCommutes(Latest(init), last.t, Capacity(limit));
    }
  }

  lemma {:induction false} SubsequenceRefl(xs: seq<Ticket>)
    ensures Subsequence(xs, xs)
  {
    if xs != [] {
      SubsequenceRefl(xs[1..]);
    }
  }

  lemma {:induction false} SubsequenceTake(xs: seq<Ticket>, ys: seq<Ticket>, n: nat)
    requires Subsequence(xs, ys)
    ensures Subsequence(Take(xs, n), ys)
  {
    if xs != [] && n > 0 {
      if Subsequence(xs, ys[1..]) {
        SubsequenceTake(xs, ys[1..], n);
      } else {
        SubsequenceTake(xs[1..], ys[1..], n - 1);
        assert Take(xs, n)[1..] == Take(xs[1..], n - 1);
      }
    }
  }

  lemma {:induction false} SubsequenceWithout(xs: seq<Ticket>, ys: seq<Ticket>, ticket: Bytes)
    requires Subsequence(xs, ys)
    ensures Subsequence(Without(xs, ticket), Without(ys, ticket))
  {
    if xs != [] {
      assert forall t: Ticket, zs: seq<Ticket> {:trigger [t] + zs} :: ([t] + zs)[1..] == zs;
      if Subsequence(xs, ys[1..]) {
        SubsequenceWithout(xs, ys[1..], ticket);
      } else {
        SubsequenceWithout(xs[1..], ys[1..], ticket);
      }
    }
  }

  lemma {:induction false} SubsequenceTrans(xs: seq<Ticket>, ys: seq<Ticket>, zs: seq<Ticket>)
    requires Subsequence(xs, ys) && Subsequence(ys, zs)
    ensures Subsequence(xs, zs)
    decreases |zs|
  {
    if xs != [] {
      if Subsequence(ys, zs[1..]) {
        SubsequenceTrans(xs, ys, zs[1..]);
      } else if Subsequence(xs, ys[1..]) {
        SubsequenceTrans(xs, ys[1..], zs[1..]);
      } else {
        SubsequenceTrans(xs[1..], ys[1..], zs[1..]);
      }
    }
  }

  /** With expiry too: never more than the capacity, always the newest ticket first, in order and without
      duplicates out of the history, and nothing behind the newest that the last store found expired. */
  lemma {:induction false} CacheWithExpiry(h: seq<Stored>, limit: int)
    ensures var cache := Run([], h, limit);
      && |cache| <= Capacity(limit) && Subsequence(cache, Latest(h))
      && (h != [] ==> cache != [] && cache[0] == h[|h| - 1].t && AllLive(cache[1..], h[|h| - 1].now))
  {
    if h != [] {
      var init, last := h[..|h| - 1], h[|h| - 1];
      CacheWithExpiry(init, limit);
      var cache := Run([], init, limit);
      var kept := KeepLive(cache, last.now);
      KeepLiveMeans(cache, last.now);
      SubsequenceTrans(kept, cache, Latest(init));
      SubsequenceWithout(kept, Latest(init), last.t.ticket);
      WithoutMeans(kept, last.t.ticket);
      var xs, ys := [last.t] + Without(kept, last.t.ticket), Latest(h);
      assert xs[1..] == Without(kept, last.t.ticket) && ys[1..] == Without(Latest(init), last.t.ticket);
      SubsequenceTake(xs, ys, Capacity(limit));
      var now := Run([], h, limit);
      forall k | 0 <= k < |now[1..]| ensures Live(now[1..][k], last.now) {
        assert now[1..][k] == xs[k + 1] == Without(kept, last.t.ticket)[k];
        assert Without(kept, last.t.ticket)[k] in kept;
      }
    }
  }

  /** Expiry can bring back what the cut would have dropped: with room for two, A is third in the history but
      still cached because B expired before C came. So the cache need not be a subsequence of the cut history. */
  lemma CutHistoryIsNotEnough()
    ensures exists h: seq<Stored> :: !Subsequence(Run([], h, 2), Take(Latest(h), 2))
  {
    var a := Ticket(100, 0, [], [1], [], 1);
    var b := Ticket(1, 0, [], [2], [], 2);
    var c := Ticket(100, 0, [], [3], [], 3);
    var h := [Stored(a, 1), Stored(b, 2), Stored(c, 10 * SECOND)];
    Unfold([], Stored(a, 1), 2);
    Unfold([Stored(a, 1)], Stored(b, 2), 2);
    Unfold([Stored(a, 1), Stored(b, 2)], Stored(c, 10 * SECOND), 2);
    assert h == [Stored(a, 1), Stored(b, 2)] + [Stored(c, 10 * SECOND)];
    assert Run([], [Stored(a, 1)], 2) == [a] && Latest([Stored(a, 1)]) == [a];
    assert [a][1..] == [] && [b, a][1..] == [a];
    assert KeepLive([a], 2) == [a] && Without([a], [2]) == [a];
    assert Run([], [Stored(a, 1), Stored(b, 2)], 2) == [b, a] && Latest([Stored(a, 1), Stored(b, 2)]) == [b, a];
    assert KeepLive([a], 10 * SECOND) == [a];
    assert KeepLive([b, a], 10 * SECOND) == [a];
    assert Without([a], [3]) == [a];
    assert Without([b, a], [3]) == [b, a];
    assert Run([], h, 2) == [c, a] && Latest(h) == [c, b, a];
    assert Take(Latest(h), 2) == [c, b];
    assert [c, a][1..] == [a] && [c, b][1..] == [b] && [b][1..] == [];
    assert !Subsequence([a], []) && !Subsequence([c, a], []);
    assert !Subsequence([a], [b]);
    assert !Subsequence([c, a], [b]);
    assert !Subsequence([c, a], [c, b]);
  }

  lemma Unfold(h: seq<Stored>, x: Stored, limit: int)
    ensures Run([], h + [x], limit) == Store(Run([], h, limit), x.t, x.now, limit)
    ensures Latest(h + [x]) == [x.t] + Without(Latest(h), x.t.ticket)
  {
    assert (h + [x])[..|h|] == h;
  }

  lemma {:induction false} WithoutKeepLive(ts: seq<Ticket>, now: nat, ticket: Bytes)
    ensures Without(KeepLive(ts, now), ticket) == KeepLive(Without(ts, ticket), now)
  {
    if ts != [] {
      WithoutKeepLive(ts[1..], now, ticket);
      assert forall xs: seq<Ticket> :: ([ts[0]] + xs)[1..] == xs;
    }
  }

  lemma LiveFrontSurvives(front: seq<Ticket>, back: seq<Ticket>, now: nat)
    requires AllLive(front, now)
    ensures front <= KeepLive(front + back, now)
    ensures back == [] ==> KeepLive(front + back, now) == front
  {
    KeepLiveAppend(front, back, now);
    KeepLiveMeans(front, now);
  }

  /** Filtering keeps a front part of the list intact exactly when all of that part is live. */
  lemma FrontSurvives(w: seq<Ticket>, now: nat, n: nat)
    ensures Take(KeepLive(w, now), n) == Take(w, n) <==> AllLive(Take(w, n), now)
  {
    hide KeepLive;
    var front, kept := Take(w, n), KeepLive(w, now);
    if AllLive(front, now) {
      assert w == front + w[|front|..];
      LiveFrontSurvives(front, w[|front|..], now);
    } else {
      KeepLiveMeans(w, now);
      var i :| 0 <= i < |front| && !Live(front[i], now);
      assert i < |kept| && i < n ==> Take(kept, n)[i] == kept[i] && Live(kept[i], now);
    }
  }

  /** One store is plain move-to-front with a cut exactly when none of the entries that fit has expired. */
  lemma StoreIsMoveToFront(cache: seq<Ticket>, t: Ticket, now: nat, limit: int)
    ensures Store(cache, t, now, limit) == Take([t] + Without(cache, t.ticket), Capacity(limit)) <==>
            AllLive(Take(Without(cache, t.ticket), Capacity(limit) - 1), now)
  {
    var n, w := Capacity(limit) - 1, Without(cache, t.ticket);
    WithoutKeepLive(cache, now, t.ticket);
    FrontSurvives(w, now, n);
    ConsTake(t, KeepLive(w, now), n);
    ConsTake(t, w, n);
    var x, y := Take(KeepLive(w, now), n), Take(w, n);
    assert ([t] + x)[1..] == x && ([t] + y)[1..] == y;
  }

  lemma ConsTake(t: Ticket, w: seq<Ticket>, n: nat)
    ensures Take([t] + w, n + 1) == [t] + Take(w, n)
  {
  }

  lemma {:induction false} SubsequenceMembers(xs: seq<Ticket>, ys: seq<Ticket>)
    requires Subsequence(xs, ys)
    ensures forall t :: t in xs ==> t in ys
  {
    if xs != [] {
      assert xs == [xs[0]] + xs[1..] && ys == [ys[0]] + ys[1..];
      if Subsequence(xs, ys[1..]) {
        SubsequenceMembers(xs, ys[1..]);
      } else {
        SubsequenceMembers(xs[1..], ys[1..]);
      }
    }
  }

  lemma {:induction false} KeepLiveKeeps(ts: seq<Ticket>, now: nat)
    ensures forall t :: t in ts && Live(t, now) ==> t in KeepLive(ts, now)
    ensures |KeepLive(ts, now)| <= |ts| && (!AllLive(ts, now) ==> |KeepLive(ts, now)| < |ts|)
  {
    if ts != [] {
      KeepLiveKeeps(ts[1..], now);
      assert ts == [ts[0]] + ts[1..];
      if !AllLive(ts, now) && Live(ts[0], now) {
        var i :| 0 <= i < |ts| && !Live(ts[i], now);
        assert ts[1..][i - 1] == ts[i];
      }
    }
  }

  lemma ConsSubsequence(t: Ticket, xs: seq<Ticket>, ys: seq<Ticket>)
    requires Subsequence(xs, ys)
    ensures Subsequence([t] + xs, [t] + ys)
  {
    assert ([t] + xs)[1..] == xs && ([t] + ys)[1..] == ys;
  }

  /** When one store leaves only tickets that the plain cut would have left: if the cut drops nothing, if nothing of
      what it leaves has expired, or if what it drops has expired. Otherwise expiry makes room for a ticket that the cut
      would have dropped. */
  lemma StoreKeepsToCut(cache: seq<Ticket>, t: Ticket, now: nat, limit: int)
    requires |cache| <= Capacity(limit) && NoDuplicates(cache)
    ensures var n, w := Capacity(limit), Without(cache, t.ticket);
      Subsequence(Store(cache, t, now, limit), Take([t] + w, n)) <==>
      |w| < n || AllLive(w[..n - 1], now) || !Live(w[n - 1], now)
  {
    hide KeepLive, Without, Subsequence;
    var n, w := Capacity(limit), Without(cache, t.ticket);
    WithoutShrinks(cache, t.ticket);
    WithoutMeans(cache, t.ticket);
    WithoutKeepLive(cache, now, t.ticket);
    var kept := KeepLive(w, now);
    KeepLiveMeans(w, now);
    ConsTake(t, kept, n - 1);
    ConsTake(t, w, n - 1);
    if |w| < n {
      SubsequenceTake(kept, w, n - 1);
      ConsSubsequence(t, Take(kept, n - 1), w);
      assert Take(w, n - 1) == w;
    } else {
      StoreAtFullCapacity(t, w, kept, now, n);
    }
  }

  lemma {:induction false} WithoutShrinks(ts: seq<Ticket>, ticket: Bytes)
    ensures |Without(ts, ticket)| <= |ts|
  {
    if ts != [] {
      WithoutShrinks(ts[1..], ticket);
    }
  }

  lemma StoreAtFullCapacity(t: Ticket, w: seq<Ticket>, kept: seq<Ticket>, now: nat, n: nat)
    requires n >= 2 && |w| == n && kept == KeepLive(w, now)
    requires NoDuplicates(w) && forall u :: u in w ==> u.ticket != t.ticket
    ensures Subsequence([t] + Take(kept, n - 1), [t] + w[..n - 1]) <==> AllLive(w[..n - 1], now) || !Live(w[n - 1], now)
  {
    var front, last := w[..n - 1], w[n - 1];
    assert w == front + [last] && w[..n] == w;
    KeepLiveStep(w, n - 1, now);
    KeepLiveKeeps(front, now);
    KeepLiveMeans(front, now);
    if AllLive(front, now) {
      assert Take(kept, n - 1) == front;
      SubsequenceRefl([t] + front);
    } else if !Live(last, now) {
      assert kept == KeepLive(front, now);
      SubsequenceTake(kept, front, n - 1);
      ConsSubsequence(t, Take(kept, n - 1), front);
    } else {
      assert kept[|kept| - 1] == last && Take(kept, n - 1) == kept;
      assert last in [t] + kept && last !in [t] + front;
      if Subsequence([t] + kept, [t] + front) {
        SubsequenceMembers([t] + kept, [t] + front);
      }
    }
  }

  lemma {:induction false} CacheDistinct(h: seq<Stored>, limit: int)
    ensures NoDuplicates(Run([], h, limit))
  {
    if h != [] {
      var init, last := h[..|h| - 1], h[|h| - 1];
      CacheDistinct(init, limit);
      KeepLiveDistinct(Run([], init, limit), last.now);
      var kept := KeepLive(Run([], init, limit), last.now);
      WithoutMeans(kept, last.t.ticket);
      var w := Without(kept, last.t.ticket);
      forall k | 0 <= k < |w| ensures w[k].ticket != last.t.ticket {
        assert w[k] in w;
      }
    }
  }

  lemma {:induction false} KeepLiveDistinct(ts: seq<Ticket>, now: nat)
    requires NoDuplicates(ts)
    ensures NoDuplicates(KeepLive(ts, now))
  {
    if ts != [] {
      assert NoDuplicates(ts[1..]);
      KeepLiveDistinct(ts[1..], now);
      KeepLiveMeans(ts[1..], now);
      var kept := KeepLive(ts[1..], now);
      forall k | 0 <= k < |kept| ensures kept[k].ticket != ts[0].ticket {
        assert kept[k] in ts[1..];
      }
    }
  }

  /** The same for the next store of any run. */
  lemma NextStoreKeepsToCut(h: seq<Stored>, x: Stored, limit: int)
    ensures var cache, n := Run([], h, limit), Capacity(limit);
      var w := Without(cache, x.t.ticket);
      |w| <= n &&
      (Subsequence(Run([], h + [x], limit), Take([x.t] + w, n)) <==>
       |w| < n || AllLive(w[..n - 1], x.now) || !Live(w[n - 1], x.now))
  {
    var cache := Run([], h, limit);
    CacheWithExpiry(h, limit);
    CacheDistinct(h, limit);
    WithoutShrinks(cache, x.t.ticket);
    StoreKeepsToCut(cache, x.t, x.now, limit);
    Unfold(h, x, limit);
  }

  lemma {:induction false} SubsequenceOfFront(xs: seq<Ticket>, front: seq<Ticket>, back: seq<Ticket>)
    requires xs != [] && front != [] && Subsequence(xs, front + back) && NoDuplicates(front + back)
      && xs[|xs| - 1] in front
    ensures Subsequence(xs, front)
    decreases |front|
  {
    var ys, last := front + back, xs[|xs| - 1];
    assert ys[1..] == front[1..] + back && ys[0] == front[0];
    assert NoDuplicates(ys[1..]);
    if Subsequence(xs, ys[1..]) {
      LastIsLater(xs, front, back);
      SubsequenceOfFront(xs, front[1..], back);
    } else if |xs| > 1 {
      assert xs[1..][|xs| - 2] == last;
      LastIsLater(xs[1..], front, back);
      SubsequenceOfFront(xs[1..], front[1..], back);
    } else {
      assert xs[1..] == [];
    }
  }

  lemma LastIsLater(xs: seq<Ticket>, front: seq<Ticket>, back: seq<Ticket>)
    requires xs != [] && front != [] && Subsequence(xs, front[1..] + back) && NoDuplicates(front + back)
      && xs[|xs| - 1] in front
    ensures xs[|xs| - 1] in front[1..]
  {
    var ys, last := front[1..] + back, xs[|xs| - 1];
    SubsequenceMembers(xs, ys);
    assert last in xs;
    var j :| 0 <= j < |ys| && ys[j] == last;
    assert (front + back)[j + 1] == last && (front + back)[0] == front[0];
    assert last != front[0];
    assert front == [front[0]] + front[1..];
  }

  /** For whole runs with expiry: the cache keeps to the history cut at the capacity exactly when the oldest ticket it
      holds is still among the latest of the history. */
  lemma CacheKeepsToCut(h: seq<Stored>, limit: int)
    requires h != []
    ensures var cache, n := Run([], h, limit), Capacity(limit);
      cache != [] &&
      (Subsequence(cache, Take(Latest(h), n)) <==> cache[|cache| - 1] in Take(Latest(h), n))
  {
    var cache, front := Run([], h, limit), Take(Latest(h), Capacity(limit));
    CacheWithExpiry(h, limit);
    LatestDistinct(h);
    var back := Latest(h)[|front|..];
    assert Latest(h) == front + back;
    if Subsequence(cache, front) {
      SubsequenceMembers(cache, front);
      assert cache[|cache| - 1] in cache;
    } else if cache[|cache| - 1] in front {
      SubsequenceOfFront(cache, front, back);
    }
  }

  /** What one more store will leave behind the new ticket. */
  function Kept(h: seq<Stored>, x: Stored, limit: int): seq<Ticket> {
    Take(KeepLive(Without(Run([], h, limit), x.t.ticket), x.now), Capacity(limit) - 1)
  }

  lemma KeptIsBehind(h: seq<Stored>, x: Stored, limit: int)
    ensures Run([], h + [x], limit) == [x.t] + Kept(h, x, limit)
    ensures Take(Latest(h + [x]), Capacity(limit)) ==
      [x.t] + Take(Without(Latest(h), x.t.ticket), Capacity(limit) - 1)
    ensures forall u :: u in Kept(h, x, limit) ==> u != x.t
  {
    hide Run, Latest, KeepLive, Without;
    var cache, n := Run([], h, limit), Capacity(limit);
    Unfold(h, x, limit);
    WithoutKeepLive(cache, x.now, x.t.ticket);
    var live := KeepLive(Without(cache, x.t.ticket), x.now);
    ConsTake(x.t, live, n - 1);
    ConsTake(x.t, Without(Latest(h), x.t.ticket), n - 1);
    KeepLiveMeans(Without(cache, x.t.ticket), x.now);
    WithoutMeans(cache, x.t.ticket);
    assert forall u :: u in Take(live, n - 1) ==> u in live;
  }

  /** The same told before the store: of the tickets that will be kept, the oldest is among the latest of the history
      that will fit beside the new one. */
  lemma NextCacheKeepsToHistory(h: seq<Stored>, x: Stored, limit: int)
    ensures var n, kept := Capacity(limit), Kept(h, x, limit);
      Subsequence(Run([], h + [x], limit), Take(Latest(h + [x]), n)) <==>
      kept == [] || kept[|kept| - 1] in Take(Without(Latest(h), x.t.ticket), n - 1)
  {
    hide Run, Latest, Without, Subsequence, Kept;
    KeptIsBehind(h, x, limit);
    CacheKeepsToCut(h + [x], limit);
    var kept := Kept(h, x, limit);
    if kept != [] {
      assert kept[|kept| - 1] in kept;
    }
  }

  /** What one store leaves: the new ticket first, then tickets of the old cache in their order, none with its bytes and
      none expired; and all of those, as long as there is room for four, or for what the limit says, but for two at
      least. */
  lemma StoreMeans(cache: seq<Ticket>, t: Ticket, now: nat, limit: int)
    ensures var r, room := Store(cache, t, now, limit), if limit <= 0 then 4 else if limit == 1 then 2 else limit;
      && 0 < |r| <= room && r[0] == t && Subsequence(r[1..], cache)
      && (forall i :: 0 < i < |r| ==>
            && r[i].ticket != t.ticket && r[i].receivedAt > 0 && r[i].lifetime > 0
            && now <= r[i].receivedAt + r[i].lifetime * 1_000_000_000)
      && (forall u :: u in cache && u.ticket != t.ticket && u.receivedAt > 0 && u.lifetime > 0
                      && now <= u.receivedAt + u.lifetime * 1_000_000_000 ==>
            u in r || |r| == room)
  {
    hide KeepLive, Without, Subsequence;
    var kept := KeepLive(cache, now);
    var w, r := Without(kept, t.ticket), Store(cache, t, now, limit);
    KeepLiveMeans(cache, now);
    KeepLiveKeeps(cache, now);
    WithoutMeans(kept, t.ticket);
    WithoutIsSubsequence(kept, t.ticket);
    SubsequenceTrans(w, kept, cache);
    ConsTake(t, w, Capacity(limit) - 1);
    SubsequenceTake(w, cache, Capacity(limit) - 1);
    assert r[1..] == Take(w, Capacity(limit) - 1);
    forall i | 0 < i < |r| ensures r[i].ticket != t.ticket && Live(r[i], now) {
      assert r[i] == w[i - 1] && w[i - 1] in w;
      assert r[i] in kept;
    }
    if |r| < Capacity(limit) {
      assert r == [t] + w;
    }
  }

  // ----- choosing a ticket -----

  predicate Usable(t: Ticket, now: nat) { t.ticket != [] && t.psk != [] && Live(t, now) }

  /** selectResumptionTicket from index i, `best` being the best index so far. */
  function SelectFrom(ts: seq<Ticket>, now: nat, i: nat, best: Option<nat>): Option<nat>
    requires i <= |ts| && (best.Some? ==> best.value < i)
    decreases |ts| - i
  {
    if i == |ts| then best
    else if Usable(ts[i], now) && (best == None || ts[i].receivedAt > ts[best.value].receivedAt)
      then SelectFrom(ts, now, i + 1, Some(i))
    else SelectFrom(ts, now, i + 1, best)
  }

  /** `best` is the first of the newest usable tickets among the first `n`. */
  ghost predicate IsBest(ts: seq<Ticket>, now: nat, n: nat, best: Option<nat>)
    requires n <= |ts|
  {
    match best
    case None => forall j :: 0 <= j < n ==> !Usable(ts[j], now)
    case Some(k) =>
      && k < n && Usable(ts[k], now)
      && (forall j :: 0 <= j < n && Usable(ts[j], now) ==> ts[j].receivedAt <= ts[k].receivedAt)
      && (forall j :: 0 <= j < k && Usable(ts[j], now) ==> ts[j].receivedAt < ts[k].receivedAt)
  }

  lemma {:induction false} SelectFromFinds(ts: seq<Ticket>, now: nat, i: nat, best: Option<nat>)
    requires i <= |ts| && IsBest(ts, now, i, best)
    ensures IsBest(ts, now, |ts|, SelectFrom(ts, now, i, best))
    decreases |ts| - i
  {
    if i < |ts| {
      var better := Usable(ts[i], now) && (best == None || ts[i].receivedAt > ts[best.value].receivedAt);
      SelectFromFinds(ts, now, i + 1, if better then Some(i) else best);
    }
  }

  function SelectTicket(ts: seq<Ticket>, now: nat): (r: Option<nat>)
    ensures r.Some? ==> r.value < |ts| && Usable(ts[r.value], now)
  {
    SelectFromFinds(ts, now, 0, None);
    SelectFrom(ts, now, 0, None)
  }

  method SelectResumptionTicket(ts: seq<Ticket>, now: nat) returns (best: Option<nat>)
    ensures best == SelectTicket(ts, now) && IsBest(ts, now, |ts|, best)
  {
    best := None;
    var bestTime := 0;
    for i := 0 to |ts|
      invariant best.Some? ==> best.value < i && bestTime == ts[best.value].receivedAt
      invariant SelectFrom(ts, now, 0, None) == SelectFrom(ts, now, i, best)
    {
      if |ts[i].ticket| == 0 || |ts[i].psk| == 0 || ts[i].lifetime == 0 || ts[i].receivedAt == 0 {
        continue;
      }
      if now - ts[i].receivedAt > ts[i].lifetime * SECOND {
        continue;
      }
      if best == None || ts[i].receivedAt > bestTime {
        best := Some(i);
        bestTime := ts[i].receivedAt;
      }
    }
    SelectFromFinds(ts, now, 0, None);
  }

  /** A ticket that can be offered: with bytes and a PSK, and not expired. */
  ghost predicate Offerable(t: Ticket, now: nat) {
    && t.ticket != [] && t.psk != [] && t.receivedAt > 0 && t.lifetime > 0
    && now <= t.receivedAt + t.lifetime * 1_000_000_000
  }

  /** The ticket chosen is an offerable one and none of them came later; there is none if none can be offered. */
  lemma NewestIsSelected(ts: seq<Ticket>, now: nat)
    ensures match SelectTicket(ts, now)
      case None => forall j :: 0 <= j < |ts| ==> !Offerable(ts[j], now)
      case Some(k) =>
        && k < |ts| && Offerable(ts[k], now)
        && (forall j :: 0 <= j < |ts| && Offerable(ts[j], now) ==> ts[j].receivedAt <= ts[k].receivedAt)
        && (forall j :: 0 <= j < k && Offerable(ts[j], now) ==> ts[j].receivedAt < ts[k].receivedAt)
  {
    hide SelectFrom;
    SelectFromFinds(ts, now, 0, None);
  }

  ghost predicate NewestFirst(ts: seq<Ticket>) {
    forall i, j :: 0 <= i < j < |ts| ==> ts[j].receivedAt <= ts[i].receivedAt
  }

  /** Tickets are stored in the order they were received, under a clock that does not go back. */
  ghost predicate InOrder(h: seq<Stored>) {
    forall i, j :: 0 <= i < j < |h| ==> h[i].t.receivedAt <= h[j].t.receivedAt
  }

  lemma {:induction false} SubsequenceOrder(xs: seq<Ticket>, ys: seq<Ticket>)
    requires Subsequence(xs, ys) && NewestFirst(ys)
    ensures NewestFirst(xs) && forall t :: t in xs ==> t in ys
  {
    if xs != [] {
      assert NewestFirst(ys[1..]);
      if Subsequence(xs, ys[1..]) {
        SubsequenceOrder(xs, ys[1..]);
      } else {
        SubsequenceOrder(xs[1..], ys[1..]);
        assert forall k :: 0 < k < |xs| ==> xs[k] == xs[1..][k - 1] && xs[k] in ys[1..];
        assert forall t :: t in ys[1..] ==> t.receivedAt <= ys[0].receivedAt;
      }
    }
  }

  lemma {:induction false} LatestNewestFirst(h: seq<Stored>)
    requires InOrder(h)
    ensures NewestFirst(Latest(h))
  {
    if h != [] {
      var init, last := h[..|h| - 1], h[|h| - 1];
      LatestNewestFirst(init);
      LatestDistinct(init);
      var rest := Without(Latest(init), last.t.ticket);
      SubsequenceRefl(Latest(init));
      WithoutIsSubsequence(Latest(init), last.t.ticket);
      SubsequenceOrder(rest, Latest(init));
      forall k | 0 <= k < |rest| ensures rest[k].receivedAt <= last.t.receivedAt {
        assert rest[k] in Latest(init);
        var i :| 0 <= i < |init| && init[i].t == rest[k];
        assert h[i].t == rest[k] && h[|h| - 1] == last;
      }
    }
  }

  lemma {:induction false} WithoutIsSubsequence(ts: seq<Ticket>, ticket: Bytes)
    ensures Subsequence(Without(ts, ticket), ts)
  {
    if ts != [] {
      WithoutIsSubsequence(ts[1..], ticket);
      assert ([ts[0]] + Without(ts[1..], ticket))[1..] == Without(ts[1..], ticket);
    }
  }

  /** On a cache built by stores the scan for the newest usable ticket finds exactly the first usable one. */
  lemma SelectionIsFirstUsable(h: seq<Stored>, limit: int, now: nat)
    requires InOrder(h)
    ensures var cache := Run([], h, limit);
      match SelectTicket(cache, now)
      case None => forall j :: 0 <= j < |cache| ==> !Usable(cache[j], now)
      case Some(k) => Usable(cache[k], now) && forall j :: 0 <= j < k ==> !Usable(cache[j], now)
  {
    var cache := Run([], h, limit);
    CacheWithExpiry(h, limit);
    LatestNewestFirst(h);
    SubsequenceOrder(cache, Latest(h));
    SelectFromFinds(cache, now, 0, None);
  }

  // ----- NewSessionTicket -----

  /** tls13ParseNewSessionTicket; the PSK and the time of receipt are filled in by the caller. */
  function ParseTicket(body: Bytes): (r: Result<Ticket>)
    ensures r.Success? ==> |r.value.nonce| <= 255
  {
    if |body| < 13 || |body| - 11 < body[8] then Failure(BadTicket)
    else
      var s := body[9 + body[8]..];
      var n := ReadU16(s);
      if |s| - 4 < n then Failure(BadTicket)
      else if |s| - 4 - n < ReadU16(s[2 + n..]) then Failure(BadTicket)
      else Success(Ticket(ReadU32(body), ReadU32(body[4..]), body[9..9 + body[8]], s[2..2 + n], [], 0))
  }

  lemma Numbers(body: Bytes)
    requires |body| >= 8
    ensures ReadU32(body[0..4]) == ReadU32(body) && ReadU32(body[4..8]) == ReadU32(body[4..])
  {
    assert body[0..4][2..] == body[2..4] && body[4..8][2..] == body[6..8] && body[4..][2..] == body[6..];
  }

  method ReadTicket(body: Bytes) returns (r: Result<Ticket>)
    ensures r == ParseTicket(body)
  {
    if |body| < 4 + 4 + 1 + 2 + 2 {
      return Failure(BadTicket);
    }
    var nonceLen := body[8] as int;
    if |body| < 9 + nonceLen + 2 {
      return Failure(BadTicket);
    }
    var off := 9 + nonceLen;
    ghost var s := body[off..];
    var ticketLen := body[off] as int * 0x100 + body[off + 1] as int;
    assert ticketLen == ReadU16(s);
    off := off + 2;
    if |body| < off + ticketLen + 2 {
      return Failure(BadTicket);
    }
    var ticket := body[off..off + ticketLen];
    SliceOfDrop(body, 9 + nonceLen, 2, 2 + ticketLen);
    off := off + ticketLen;
    SliceOfDrop(body, 9 + nonceLen, 2 + ticketLen, 2 + ticketLen);
    var extLen := body[off] as int * 0x100 + body[off + 1] as int;
    assert extLen == ReadU16(s[2 + ticketLen..]);
    off := off + 2;
    if |body| < off + extLen {
      return Failure(BadTicket);
    }
    Numbers(body);
    r := Success(Ticket(ReadU32(body[0..4]), ReadU32(body[4..8]), body[9..9 + nonceLen], ticket, [], 0));
  }

  /** What the client keeps between messages: the cache, the tickets of this connection, and how many
      readings of the clock have been taken. */
  datatype TicketState = TicketState(cache: seq<Ticket>, received: seq<Ticket>, ticks: nat)

  /** The two readings of the clock per ticket are the time of receipt and the time of the expiry check. */
  function Receive(cr: Crypto, secret: Bytes, t: Ticket, at: nat): Ticket
    requires |t.nonce| <= 255
  {
    t.(receivedAt := at, psk := if secret != [] then ResumptionPSK(cr, secret, t.nonce) else [])
  }

  /** The stores that tls13ParseAndStoreTickets makes of a byte string: it stops at the first thing that is not
      a well-formed NewSessionTicket, keeping what it has. */
  function StoresOf(cr: Crypto, clock: nat -> nat, secret: Bytes, ticks: nat, data: Bytes): seq<Stored>
    decreases |data|
  {
    if data == [] then []
    else
      match ParseMessage(data)
      case Failure(_) => []
      case Success(m) =>
        if m.typ != NEW_SESSION_TICKET || ParseTicket(m.body).Failure? then []
        else
          [Stored(Receive(cr, secret, ParseTicket(m.body).value, clock(ticks)), clock(ticks + 1))]
          + StoresOf(cr, clock, secret, ticks + 2, m.rest)
  }

  function TicketsOf(h: seq<Stored>): seq<Ticket> { seq(|h|, i requires 0 <= i < |h| => h[i].t) }

  /** tls13ParseAndStoreTickets; its error is ignored by the only caller. */
  function ParseAndStore(cr: Crypto, clock: nat -> nat, limit: int, secret: Bytes, st: TicketState,
          data: Bytes): TicketState {
    var h := StoresOf(cr, clock, secret, st.ticks, data);
    TicketState(Run(st.cache, h, limit), st.received + TicketsOf(h), st.ticks + 2 * |h|)
  }

  lemma {:induction false} RunCons(initial: seq<Ticket>, x: Stored, rest: seq<Stored>, limit: int)
    ensures Run(initial, [x] + rest, limit) == Run(Store(initial, x.t, x.now, limit), rest, limit)
    decreases |rest|
  {
    var h := [x] + rest;
    if rest == [] {
      assert h == [x] && h[..0] == [];
    } else {
      assert h[..|h| - 1] == [x] + rest[..|rest| - 1];
      RunCons(initial, x, rest[..|rest| - 1], limit);
    }
  }

  /** One turn of the loop of tls13ParseAndStoreTickets. */
  lemma ParseAndStoreTurn(cr: Crypto, clock: nat -> nat, limit: int, secret: Bytes, st: TicketState, data: Bytes)
    requires data != []
    ensures var m := ParseMessage(data);
      if m.Failure? || m.value.typ != NEW_SESSION_TICKET || ParseTicket(m.value.body).Failure?
      then ParseAndStore(cr, clock, limit, secret, st, data) == st
      else
        var t := Receive(cr, secret, ParseTicket(m.value.body).value, clock(st.ticks));
        var st' := TicketState(Store(st.cache, t, clock(st.ticks + 1), limit), st.received + [t], st.ticks + 2);
        ParseAndStore(cr, clock, limit, secret, st, data) == ParseAndStore(cr, clock, limit, secret, st', m.value.rest)
  {
    hide ParseMessage, ParseTicket, Store, Receive;
    var m := ParseMessage(data);
    if m.Failure? || m.value.typ != NEW_SESSION_TICKET || ParseTicket(m.value.body).Failure? {
      assert st.received + TicketsOf([]) == st.received;
    } else {
      var t := Receive(cr, secret, ParseTicket(m.value.body).value, clock(st.ticks));
      var x := Stored(t, clock(st.ticks + 1));
      var rest := StoresOf(cr, clock, secret, st.ticks + 2, m.value.rest);
      RunCons(st.cache, x, rest, limit);
      assert TicketsOf([x] + rest) == [t] + TicketsOf(rest);
      Assoc(st.received, [t], TicketsOf(rest));
    }
  }

  lemma NothingToStore(cr: Crypto, clock: nat -> nat, limit: int, secret: Bytes, st: TicketState)
    ensures ParseAndStore(cr, clock, limit, secret, st, []) == st
  {
    assert st.received + TicketsOf([]) == st.received;
  }

  /** tls13ConsumeNewSessionTickets accepts anything that starts with the right type byte; only an empty string gets
      past the first test and is then accepted as a list of no tickets. */
  predicate ConsumesTickets(data: Bytes) { (|data| >= 1 && data[0] == NEW_SESSION_TICKET) || AllTickets(data) }

  predicate AllTickets(data: Bytes)
    decreases |data|
  {
    data == [] ||
    (ParseMessage(data).Success? && ParseMessage(data).value.typ == NEW_SESSION_TICKET
      && AllTickets(ParseMessage(data).value.rest))
  }

  /** The loop of tls13AllNewSessionTickets */
  method ReadAllTickets(data: Bytes) returns (all: bool)
    ensures all == AllTickets(data)
  {
    hide ParseMessage;
    var rest := data;
    while |rest| > 0
      invariant AllTickets(data) == AllTickets(rest)
    {
      var m := ParseMessage(rest);
      if m.Failure? || m.value.typ != NEW_SESSION_TICKET {
        return false;
      }
      RestIsShorter(rest);
      rest := m.value.rest;
    }
    all := true;
  }

  lemma RestIsShorter(data: Bytes)
    ensures ParseMessage(data).Success? ==> |ParseMessage(data).value.rest| < |data|
  {
  }

  method LooksLikeTickets(data: Bytes) returns (consumed: bool)
    ensures consumed == ConsumesTickets(data)
  {
    hide AllTickets;
    if |data| >= 1 && data[0] == NEW_SESSION_TICKET {
      return true;
    }
    consumed := ReadAllTickets(data);
  }

  /** The message a server sends, as section 4.6.1 of RFC 8446 lays it out. The library never prints one. */
  function TicketMessage(t: Ticket, extensions: Bytes): Bytes { Message(NEW_SESSION_TICKET, TicketBody(t, extensions)) }

  function TicketBody(t: Ticket, extensions: Bytes): Bytes {
    U32(t.lifetime) + U32(t.ageAdd) + [|t.nonce| % 0x100] + t.nonce
    + (U16(|t.ticket|) + t.ticket + (U16(|extensions|) + extensions))
  }

  predicate TicketFits(t: Ticket, extensions: Bytes) {
    |t.nonce| < 0x100 && |t.ticket| < 0x1_0000 && |extensions| < 0x1_0000 && t.psk == [] && t.receivedAt == 0
  }

  lemma U32RoundTrip(n: u32, s: Bytes)
    requires |s| >= 4 && s[..4] == U32(n)
    ensures ReadU32(s) == n
  {
    U16Low(n / 0x1_0000, n % 0x1_0000);
    U16RoundTrip(n / 0x1_0000);
    U16RoundTrip(n % 0x1_0000);
    assert s[..2] == U16(n / 0x1_0000) && s[2..4] == U16(n);
    assert ReadU16(s) == ReadU16(s[..2]) && ReadU16(s[2..]) == ReadU16(s[2..4]);
  }

  lemma TicketTail(ticket: Bytes, extensions: Bytes)
    requires |ticket| < 0x1_0000 && |extensions| < 0x1_0000
    ensures var s := U16(|ticket|) + ticket + (U16(|extensions|) + extensions);
      && ReadU16(s) == |ticket| && s[2..2 + |ticket|] == ticket && ReadU16(s[2 + |ticket|..]) == |extensions|
  {
    U16RoundTrip(|ticket|);
    U16RoundTrip(|extensions|);
    var s := U16(|ticket|) + ticket + (U16(|extensions|) + extensions);
    assert s[..2] == U16(|ticket|) && s[2 + |ticket|..] == U16(|extensions|) + extensions;
  }

  lemma TicketHead(t: Ticket, tail: Bytes)
    requires |t.nonce| < 0x100
    ensures var body := U32(t.lifetime) + U32(t.ageAdd) + [|t.nonce| % 0x100] + t.nonce + tail;
      && ReadU32(body) == t.lifetime && ReadU32(body[4..]) == t.ageAdd && body[8] == |t.nonce|
      && body[9..9 + |t.nonce|] == t.nonce && body[9 + |t.nonce|..] == tail
  {
    var body := U32(t.lifetime) + U32(t.ageAdd) + [|t.nonce| % 0x100] + t.nonce + tail;
    U32RoundTrip(t.lifetime, body);
    U32RoundTrip(t.ageAdd, body[4..]);
  }

  lemma TicketRoundTrip(t: Ticket, extensions: Bytes)
    requires TicketFits(t, extensions)
    ensures ParseTicket(TicketBody(t, extensions)) == Success(t)
  {
    TicketTail(t.ticket, extensions);
    TicketHead(t, U16(|t.ticket|) + t.ticket + (U16(|extensions|) + extensions));
  }

  function TicketStream(ts: seq<(Ticket, Bytes)>): Bytes {
    if ts == [] then [] else TicketMessage(ts[0].0, ts[0].1) + TicketStream(ts[1..])
  }

  /** What a stream of tickets should leave behind: each ticket, in order, with the resumption PSK of its nonce
      and the time it was read. */
  function StoresFor(cr: Crypto, clock: nat -> nat, secret: Bytes, ticks: nat,
          ts: seq<(Ticket, Bytes)>): (h: seq<Stored>)
    requires forall i :: 0 <= i < |ts| ==> TicketFits(ts[i].0, ts[i].1)
    ensures |h| == |ts|
    decreases |ts|
  {
    if ts == [] then []
    else
      assert TicketFits(ts[0].0, ts[0].1);
      [Stored(Receive(cr, secret, ts[0].0, clock(ticks)), clock(ticks + 1))]
      + StoresFor(cr, clock, secret, ticks + 2, ts[1..])
  }

  /** Any concatenation of NewSessionTicket messages is stored ticket by ticket. */
  lemma {:induction false} StreamIsStored(cr: Crypto, clock: nat -> nat, secret: Bytes, ticks: nat,
          ts: seq<(Ticket, Bytes)>)
    requires forall i :: 0 <= i < |ts| ==> TicketFits(ts[i].0, ts[i].1)
    ensures StoresOf(cr, clock, secret, ticks, TicketStream(ts)) == StoresFor(cr, clock, secret, ticks, ts)
    decreases |ts|
  {
    if ts != [] {
      var (t, ext) := ts[0];
      assert TicketFits(ts[0].0, ts[0].1);
      TicketRoundTrip(t, ext);
      MessageSplits(NEW_SESSION_TICKET, TicketBody(t, ext), TicketStream(ts[1..]));
      StreamIsStored(cr, clock, secret, ticks + 2, ts[1..]);
    }
  }

  /** Parsing and storing any stream of tickets into an empty cache, while nothing expires: the tickets of the stream,
      latest first, one of each, cut to the capacity. */
  lemma ParsedStreamIsCached(cr: Crypto, clock: nat -> nat, limit: int, secret: Bytes, st: TicketState,
          ts: seq<(Ticket, Bytes)>)
    requires st.cache == [] && forall i :: 0 <= i < |ts| ==> TicketFits(ts[i].0, ts[i].1)
    requires NothingExpires(StoresFor(cr, clock, secret, st.ticks, ts))
    ensures var st' := ParseAndStore(cr, clock, limit, secret, st, TicketStream(ts));
      var h := StoresFor(cr, clock, secret, st.ticks, ts);
      st'.cache == Take(Latest(h), Capacity(limit)) && st'.received == st.received + TicketsOf(h)
  {
    StreamIsStored(cr, clock, secret, st.ticks, ts);
    CacheIsLatest(StoresFor(cr, clock, secret, st.ticks, ts), limit);
  }

  /** The times of receipt in a stream, under a clock that does not go back. */
  lemma {:induction false} StreamInOrder(cr: Crypto, clock: nat -> nat, secret: Bytes, ticks: nat,
          ts: seq<(Ticket, Bytes)>)
    requires forall i :: 0 <= i < |ts| ==> TicketFits(ts[i].0, ts[i].1)
    requires forall i, j :: i <= j ==> clock(i) <= clock(j)
    ensures var h := StoresFor(cr, clock, secret, ticks, ts);
      InOrder(h) && forall i :: 0 <= i < |h| ==> clock(ticks) <= h[i].t.receivedAt
    decreases |ts|
  {
    if ts != [] {
      assert TicketFits(ts[0].0, ts[0].1);
      StreamInOrder(cr, clock, secret, ticks + 2, ts[1..]);
      var h, rest := StoresFor(cr, clock, secret, ticks, ts), StoresFor(cr, clock, secret, ticks + 2, ts[1..]);
      assert h[1..] == rest && h[0].t.receivedAt == clock(ticks);
      assert forall i :: 0 < i < |h| ==> h[i] == rest[i - 1];
    }
  }

  /** So on the cache that a stream of tickets leaves, the ticket selected for resumption is the first usable one. */
  lemma StreamSelection(cr: Crypto, clock: nat -> nat, limit: int, secret: Bytes, st: TicketState,
          ts: seq<(Ticket, Bytes)>, now: nat)
    requires st.cache == [] && forall i :: 0 <= i < |ts| ==> TicketFits(ts[i].0, ts[i].1)
    requires forall i, j :: i <= j ==> clock(i) <= clock(j)
    ensures var cache := ParseAndStore(cr, clock, limit, secret, st, TicketStream(ts)).cache;
      match SelectTicket(cache, now)
      case None => forall j :: 0 <= j < |cache| ==> !Usable(cache[j], now)
      case Some(k) => Usable(cache[k], now) && forall j :: 0 <= j < k ==> !Usable(cache[j], now)
  {
    StreamIsStored(cr, clock, secret, st.ticks, ts);
    StreamInOrder(cr, clock, secret, st.ticks, ts);
    SelectionIsFirstUsable(StoresFor(cr, clock, secret, st.ticks, ts), limit, now);
  }
}
