// dnode/RendezvousFastSession.cpp: the owner of a connection and its peer ping each other in turn, passing NEXT messages
// through the master; the owner moves both to a new step, with new ports, when a step has not succeeded.
module FastModel {
  import opened Common

  const FIRST_TTL := 2
  const LAST_TTL := 65
  const LAST_STEP := 2

  /**
   * One side. `step` is -1 for a peer that has not got its first READY. `pinging` is whether the ping timer runs,
   * `waiting` whether new ports were asked for, `sending` the pings handed to the socket and not yet sent, `pings` those
   * of this step.
   */
  datatype Peer = Peer(live: bool, step: int, ttl: int, next: bool, pinging: bool, waiting: bool, sending: nat, pings: nat)

  datatype Msg = Ready | NextMsg

  /** onPingTimeout, when a ping is due and allowed; `ok` is whether ports for another step may be had. */
  function Ping(p: Peer, owner: bool, ok: bool): Peer {
    var p1 := p.(next := false, ttl := p.ttl + 1, sending := p.sending + 1, pings := p.pings + 1);
    if owner && p1.ttl == LAST_TTL then
      if p.step == LAST_STEP || !ok then p1.(pinging := false, live := false) else p1.(pinging := false, waiting := true)
    else p1
  }

  /** A new step, on the owner's new ports or on READY; the old ping socket is gone. */
  function NewStep(p: Peer, waiting: bool): Peer {
    p.(step := p.step + 1, ttl := FIRST_TTL, next := true, pinging := false, waiting := waiting, sending := 0, pings := 0)
  }

  /**
   * Both sides and what is on its way between them: toB from the owner in order, toA the NEXT messages of the peer, each
   * with the step it was sent in, and an address each way. For the present step, freshA and staleA count the NEXT
   * messages the owner got from this step and from earlier ones, gotB those its peer got, and pingsA the owner's pings in
   * the peer's step. `ready` is the owner's flag of that name; an owner that has it not answers the first address with
   * another READY, which moves only its peer to a new step: `extra` is then 1.
   */
  datatype State = State(a: Peer, b: Peer, toB: seq<Msg>, toA: seq<int>, addrToA: bool, addrToB: bool,
                         freshA: nat, staleA: nat, gotB: nat, pingsA: nat, ready: bool, extra: nat)

  /** The step the owner wants its peer to be in, as the peer counts. */
  function Round(s: State): int {
    s.a.step + s.extra
  }

  function Nexts(ms: seq<Msg>): nat {
    if ms == [] then 0 else (if ms[0] == NextMsg then 1 else 0) + Nexts(ms[1..])
  }

  function Tagged(ts: seq<int>, step: int): nat {
    if ts == [] then 0 else (if ts[0] == step then 1 else 0) + Tagged(ts[1..], step)
  }

  function One(b: bool): nat {
    if b then 1 else 0
  }

  datatype Event =
    | PingA(ok: bool) | SentA(ok: bool) | PortsA | NextA | AddrA
    | PingB | SentB(ok: bool) | PortsB | RecvB | AddrB
    | StopA | StopB

  predicate Enabled(s: State, ev: Event) {
    match ev
    case PingA(_) => s.a.live && s.a.pinging && s.a.next
    case SentA(_) => s.a.live && s.a.sending > 0
    case PortsA => s.a.live && s.a.waiting
    case NextA => s.a.live && s.toA != []
    case AddrA => s.a.live && s.addrToA
    case PingB => s.b.live && s.b.pinging && s.b.next
    case SentB(_) => s.b.live && s.b.sending > 0
    case PortsB => s.b.live && s.b.waiting
    case RecvB => s.b.live && s.toB != []
    case AddrB => s.b.live && s.addrToB
    case StopA => true
    case StopB => true
  }

  function Next(s: State, ev: Event): State
    requires Enabled(s, ev)
  {
    match ev
    case PingA(ok) => s.(a := Ping(s.a, true, ok), pingsA := s.pingsA + 1)
    case SentA(ok) =>
      if ok then s.(a := s.a.(sending := s.a.sending - 1), toB := s.toB + [NextMsg])
      else s.(a := s.a.(sending := s.a.sending - 1, live := false))
    case PortsA => s.(a := NewStep(s.a, false), toB := s.toB + [Ready], freshA := 0, staleA := 0)
    case NextA =>
      var s1 := s.(a := s.a.(next := true), toA := s.toA[1..]);
      if s.toA[0] == Round(s) then s1.(freshA := s.freshA + 1) else s1.(staleA := s.staleA + 1)
    case AddrA =>
      if s.ready then s.(a := s.a.(pinging := true), addrToA := false, addrToB := true)
      else s.(toB := s.toB + [Ready], addrToA := false, ready := true, extra := 1)
    case PingB => s.(b := Ping(s.b, false, true))
    case SentB(ok) =>
      if ok then s.(b := s.b.(sending := s.b.sending - 1), toA := s.toA + [s.b.step])
      else s.(b := s.b.(sending := s.b.sending - 1, live := false))
    case PortsB => s.(b := s.b.(waiting := false), addrToA := true)
    case RecvB =>
      var s1 := s.(toB := s.toB[1..]);
      if s.toB[0] == NextMsg then s1.(b := s.b.(next := true), gotB := s.gotB + 1)
      else s1.(b := NewStep(s.b, true), gotB := 0, pingsA := s.a.pings)
    case AddrB => s.(b := s.b.(pinging := true), addrToB := false)
    case StopA => s.(a := s.a.(live := false))
    case StopB => s.(b := s.b.(live := false))
  }

  ghost predicate IsStep(s: State, ev: Event, s': State) {
    Enabled(s, ev) && s' == Next(s, ev)
  }

  // ---------------------------------------------------------------- what every event keeps

  predicate SameStep(s: State) {
    s.b.step == Round(s)
  }

  /** The peer is at most one step behind, exactly while a READY is on its way, which is then the last thing sent. */
  ghost predicate InStep(s: State) {
    && 0 <= s.a.step <= LAST_STEP
    && (forall i :: 0 <= i < |s.toA| ==> s.toA[i] <= s.b.step)
    && if SameStep(s) then Nexts(s.toB) == |s.toB|
       else s.b.step == Round(s) - 1 && s.toB != [] && s.toB[|s.toB| - 1] == Ready && Nexts(s.toB) == |s.toB| - 1
  }

  /** The owner pings at most 63 times a step, and only once the peer is in that step and has sent its address. */
  ghost predicate OwnerOk(s: State) {
    && s.a.ttl == FIRST_TTL + s.a.pings <= LAST_TTL && (s.a.pinging ==> s.a.ttl < LAST_TTL) && s.a.sending <= s.a.pings
    && (s.a.pinging || s.a.waiting || s.a.pings > 0 ==> SameStep(s) && !s.b.waiting && !s.addrToA)
    && (s.b.waiting || s.addrToA ==> SameStep(s)) && !(s.b.waiting && s.addrToA)
    && (s.a.waiting ==> s.a.step < LAST_STEP && !s.a.pinging)
    && s.pingsA <= LAST_TTL - FIRST_TTL && (SameStep(s) ==> s.pingsA == s.a.pings)
    && (!s.ready ==> s.extra == 0 && s.a.step == 0 && !s.a.pinging && !s.a.waiting && s.a.pings == 0 && s.a.next)
    && (!s.ready ==> !s.b.pinging && !s.addrToB && s.b.pings == 0)
  }

  /** Each side pings once, and once more for each NEXT it got; and got no more of them than the other side pinged. */
  ghost predicate Counts(s: State) {
    && s.a.pings + One(s.a.next) <= 1 + s.freshA + s.staleA
    && s.b.pings + One(s.b.next) <= 1 + s.gotB
    && s.b.sending <= s.b.pings && s.b.ttl == FIRST_TTL + s.b.pings
    && (SameStep(s) ==> s.freshA + Tagged(s.toA, Round(s)) + s.b.sending <= s.b.pings)
    && (!SameStep(s) ==> s.freshA == 0)
    && s.gotB + Nexts(s.toB) + (if SameStep(s) then s.a.sending else 0) <= s.pingsA
  }

  /** NEXT flags, pings being sent and NEXT messages on their way. */
  function Tokens(s: State): nat {
    One(s.a.next) + One(s.b.next) + s.a.sending + s.b.sending + |s.toA| + Nexts(s.toB)
  }

  ghost predicate Inv(s: State) {
    && InStep(s) && OwnerOk(s) && Counts(s)
    && (SameStep(s) && s.a.live && s.b.live ==> Tokens(s) >= 1)
  }
}
