/** A client and a server of this library joined by two FIFO channels: what each writes is appended to what the other
    has yet to read. Any interleaving of their steps is a run. */
module Pairs {
  import opened Prelude
  import opened Steps
  import opened Runs
  import opened Script

  /** Both ends, with the application data each has written and each has been handed. */
  datatype Pair = Pair(
    cpc: ClientPc,
    c: ConnState,
    spc: ServerPc,
    s: ConnState,
    cWritten: seq<Bytes>,
    sWritten: seq<Bytes>,
    cGot: Bytes,
    sGot: Bytes)

  datatype Event =
    | ClientShakes
    | ServerShakes
    | ClientWrites(b: Bytes)
    | ServerWrites(b: Bytes)
    | ClientReads(n: nat)
    | ServerReads(n: nat)

  function Start(x: Ctx): Pair {
    Pair(CSendHello, NewClient(x.ce, [], x.clientTickets), SReadHello, NewServer([], x.serverTickets), [], [], [], [])
  }

  predicate Ready(p: Pair) { ClientReady(p.cpc, p.c) && ServerReady(p.spc, p.s) }

  /** What an end has written goes to the other end's input. */
  function Emptied(c: ConnState): ConnState { c.(rec := c.rec.(outbound := [])) }

  function Fed(c: ConnState, bytes: Bytes): ConnState { c.(rec := c.rec.(inbound := c.rec.inbound + bytes)) }

  /** A step that runs out of input waits: it is taken again when more has arrived. */
  predicate Waits(error: Error) { error == Eof }

  function ShakeClient(x: Ctx, p: Pair): (p': Pair)
    requires Ready(p)
    ensures Ready(p')
  {
    hide ClientStep;
    if ClientEnded(p.cpc) then p
    else
      var (pc', c') := ClientStep(x.ce, p.cpc, p.c);
      if pc'.CFailed? && Waits(pc'.error) then p
      else p.(cpc := pc', c := Emptied(c'), s := Fed(p.s, c'.rec.outbound))
  }

  function ShakeServer(x: Ctx, p: Pair): (p': Pair)
    requires Ready(p)
    ensures Ready(p')
  {
    hide ServerStep;
    if ServerEnded(p.spc) then p
    else
      var (pc', s') := ServerStep(x.se, p.spc, p.s);
      if pc'.SFailed? && Waits(pc'.error) then p
      else p.(spc := pc', s := Emptied(s'), c := Fed(p.c, s'.rec.outbound))
  }

  /** What a Read hands over; a Read that finds nothing to return waits. */
  function Handed(r: Result<Bytes>): Bytes { match r case Success(b) => b case Failure(_) => [] }

  function Happens(x: Ctx, p: Pair, ev: Event): (p': Pair)
    requires Ready(p)
    ensures Ready(p')
  {
    hide AppRead, AppWrite;
    match ev
    case ClientShakes => ShakeClient(x, p)
    case ServerShakes => ShakeServer(x, p)
    case ClientWrites(b) =>
      if !p.c.rec.complete then p
      else
        var c' := AppWrite(x.ce, p.c, b).state;
        p.(c := Emptied(c'), s := Fed(p.s, c'.rec.outbound), cWritten := p.cWritten + [b])
    case ServerWrites(b) =>
      if !p.s.rec.complete then p
      else
        var s' := AppWrite(x.se, p.s, b).state;
        p.(s := Emptied(s'), c := Fed(p.c, s'.rec.outbound), sWritten := p.sWritten + [b])
    case ClientReads(n) =>
      if !p.c.rec.complete then p
      else
        var s := AppRead(x.ce, p.c, n);
        p.(c := s.state, cGot := p.cGot + Handed(s.result))
    case ServerReads(n) =>
      if !p.s.rec.complete then p
      else
        var s := AppRead(x.se, p.s, n);
        p.(s := s.state, sGot := p.sGot + Handed(s.result))
  }

  /** The pair after a run. */
  function After(x: Ctx, events: seq<Event>): (p: Pair)
    ensures Ready(p)
  {
    hide Happens;
    if events == [] then Start(x) else Happens(x, After(x, events[..|events| - 1]), events[|events| - 1])
  }
}
