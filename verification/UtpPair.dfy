// Two uTP sockets in the program's own form, driven by any list of calls, timeouts and deliveries.
module UtpPairs {
  import opened Common
  import opened SeqSpace
  import opened UtpModel
  import opened UtpInvariant
  import opened UtpDelivery
  import opened UtpSystem
  import opened UtpRings
  import U = UtpSocket

  /** What to do next; Arrive delivers the k-th datagram the other side ever sent. */
  datatype Action =
    | Do(onA: bool, call: Call)
    | Expire(onA: bool, t: Tick, cb: Callbacks)
    | Break(onA: bool, cb: Callbacks)
    | Arrive(onA: bool, k: nat, q: Quota, cb: Callbacks)

  function Here(s: Sys, act: Action): Socket {
    if act.onA then s.a else s.b
  }

  function There(s: Sys, act: Action): Socket {
    if act.onA then s.b else s.a
  }

  /** A datagram that arrives was sent and is not stale. */
  predicate Possible(x: Socket, y: Socket, act: Action) {
    act.Arrive? ==> act.k < |y.outbox| && NotStale(x, y.outbox[act.k])
  }

  /** The event an action is, when the ring of the socket it happens at has `ring` slots. */
  function EventOf(y: Socket, act: Action, ring: nat): Event
    requires act.Arrive? ==> act.k < |y.outbox|
  {
    match act
    case Do(onA, c) => Local(onA, c)
    case Expire(onA, t, cb) => Timer(onA, t, cb)
    case Break(onA, cb) => Failed(onA, cb)
    case Arrive(onA, k, q, cb) => Deliver(onA, y.outbox[k], ring, q, cb)
  }

  /** The event e is the action act, in state s. */
  predicate IsEvent(s: Sys, act: Action, e: Event) {
    match act
    case Arrive(onA, k, q, cb) => k < |There(s, act).outbox| && e.Deliver? && e == Deliver(onA, There(s, act).outbox[k], e.ring, q, cb)
    case _ => e == EventOf(There(s, act), act, 1)
  }

  ghost function After(s: Sys, act: Action, ring: nat): Sys
    requires WellShaped(s) && ring > 0 && Possible(Here(s, act), There(s, act), act)
  {
    Next(s, EventOf(There(s, act), act, ring))
  }

  /** No datagram is stale when it arrives, however large the rings are by then. */
  ghost predicate AllPossible(s: Sys, acts: seq<Action>)
    decreases |acts|
  {
    acts == [] ||
    (&& WellShaped(s) && Possible(Here(s, acts[0]), There(s, acts[0]), acts[0])
     && forall ring: nat {:trigger After(s, acts[0], ring)} :: ring > 0 ==> AllPossible(After(s, acts[0], ring), acts[1..]))
  }

  lemma {:induction false} FirstPossible(s: Sys, acts: seq<Action>, ring: nat)
    requires AllPossible(s, acts) && acts != [] && ring > 0
    ensures WellShaped(s) && Possible(Here(s, acts[0]), There(s, acts[0]), acts[0])
    ensures AllPossible(After(s, acts[0], ring), acts[1..])
  {
    assert AllPossible(After(s, acts[0], ring), acts[1..]);
  }

  /** One action at x, whose peer is y: exactly what the event does to the socket over true numbers. */
  method Act(x: U.UtpSocket, y: U.UtpSocket, act: Action) returns (ghost ring: nat)
    requires x != y && x.Valid() && y.Valid() && Idle(x.model.rcv)
    requires Pair(x.model, y.model) && Pair(y.model, x.model) && Possible(x.model, y.model, act)
    modifies x
    ensures x.Valid() && Idle(x.model.rcv) && ring > 0 && Shaped(old(x.model).snd)
    ensures x.model == React(old(x.model), EventOf(y.model, act, ring))
  {
    hide Pair, U.UtpSocket.Valid, RcvOpen, HeadLive, DoCall, CheckTimeouts, Fail, Incoming, FreshFor, PeerStopsAtFin, NotStale;
    ring := 1;
    PairShape(x.model, y.model);
    match act
    case Do(_, c) =>
      x.MakeCall(c);
    case Expire(_, t, cb) =>
      TimeoutRcv(x.model, t, cb);
      x.OnCheckTimeouts(t, cb);
    case Break(_, cb) =>
      x.GiveUp(cb);
    case Arrive(_, k, q, cb) =>
      HonestPeer(x.model, y.model, y.model.outbox[k]);
      Sent(y, k);
      ring := |x.tx.outbuf|;
      x.ProcessIncoming(y.wire[k], q, cb, y.model.outbox[k]);
  }

  /** The wire holds the low 16 bits of what the socket over true numbers sent. */
  lemma Sent(x: U.UtpSocket, k: nat)
    requires x.Valid() && k < |x.model.outbox|
    ensures k < |x.wire| && x.wire[k] == Narrow(x.model.outbox[k])
  {
    hide U.SendShows, U.ReceiveShows;
  }

  /** The bytes the fields of x and y show: those of the sockets over true numbers. */
  lemma Shown(x: U.UtpSocket)
    requires x.Valid()
    ensures x.rx.delivered == x.model.rcv.delivered && x.rx.readShutdown == x.model.rcv.shutdown && x.reported == x.model.reported
    ensures x.tx.outbufSizes == x.model.snd.sizes
  {
    hide OutCoupled, InCoupled;
  }

  /** Stream x -> y on the fields of the two objects; accepted is what the Writev calls on x took. */
  ghost predicate Streams(x: U.UtpSocket, y: U.UtpSocket)
    reads x, y
  {
    var accepted := x.model.accepted;
    && y.rx.delivered <= accepted && x.reported + Sum(x.tx.outbufSizes) <= |accepted|
    && (!y.rx.readShutdown ==> x.reported <= |y.rx.delivered| && accepted[..x.reported] <= y.rx.delivered)
  }

  lemma StreamsSafe(x: U.UtpSocket, y: U.UtpSocket)
    requires x.Valid() && y.Valid() && StreamSafe(x.model, y.model) && x.model.reported <= x.model.snd.popped
    ensures Streams(x, y)
  {
    Shown(x);
    Shown(y);
    hide U.UtpSocket.Valid;
  }

  /**
   * Any two sockets in the program's form, from any 16-bit numbers the handshake chose, through any list of calls,
   * timeouts, failures and deliveries of datagrams that are not stale when they arrive, make a run of the sockets over
   * true numbers; so both streams are safe, byte for byte, in their fields.
   */
  method Drive(x: int, y: int, f: int, g: int, acts: seq<Action>)
    returns (a: U.UtpSocket, b: U.UtpSocket, ghost trace: seq<Sys>, ghost events: seq<Event>)
    requires 0 <= x < M && 0 <= y < M && 0 <= f < M && 0 <= g < M && AllPossible(Initial(x, y, f, g), acts)
    ensures a != b && fresh(a) && fresh(b) && Abreast(a, b, acts, trace, events) && trace[0] == Initial(x, y, f, g)
    ensures Streams(a, b) && Streams(b, a)
  {
    hide U.UtpSocket.Valid, AllPossible, Streams, Initial, Abreast;
    a, b := Pairing(x, y, f, g);
    trace, events := [Initial(x, y, f, g)], [];
    Beginning(a, b, x, y, f, g);
    assert acts[0..] == acts && acts[..0] == [];
    for i := 0 to |acts|
      invariant a != b && fresh(a) && fresh(b) && Abreast(a, b, acts[..i], trace, events)
      invariant |trace| == i + 1 && trace[0] == Initial(x, y, f, g) && AllPossible(trace[i], acts[i..])
    {
      assert acts[i..][1..] == acts[i + 1..] && acts[..i] + [acts[i]] == acts[..i + 1];
      trace, events := Turn(a, b, acts[..i], acts[i..], trace, events);
    }
    assert acts[..|acts|] == acts;
    BothSafe(a, b, acts, trace, events);
  }

  /** The actions `past` made the run, and the two objects are where it is. */
  ghost predicate Abreast(a: U.UtpSocket, b: U.UtpSocket, past: seq<Action>, trace: seq<Sys>, events: seq<Event>)
    reads a, b
  {
    && a.Valid() && b.Valid() && Idle(a.model.rcv) && Idle(b.model.rcv)
    && IsRun(trace, events) && |trace| == |past| + 1 && trace[|past|] == Sys(a.model, b.model)
    && Made(past, trace, events)
  }

  lemma Beginning(a: U.UtpSocket, b: U.UtpSocket, x: int, y: int, f: int, g: int)
    requires a.Valid() && b.Valid() && Idle(a.model.rcv) && Idle(b.model.rcv) && 0 <= f < M && 0 <= g < M
    requires Sys(a.model, b.model) == Initial(x, y, f, g)
    ensures Abreast(a, b, [], [Initial(x, y, f, g)], [])
  {
    hide U.UtpSocket.Valid, Idle;
  }

  ghost predicate Made(past: seq<Action>, trace: seq<Sys>, events: seq<Event>) {
    |past| == |events| < |trace| && forall i :: 0 <= i < |past| ==> IsEvent(trace[i], past[i], events[i])
  }

  lemma MadeMore(past: seq<Action>, trace: seq<Sys>, events: seq<Event>, act: Action, e: Event, s: Sys)
    requires Made(past, trace, events) && |trace| == |past| + 1 && IsEvent(trace[|past|], act, e)
    ensures Made(past + [act], trace + [s], events + [e])
  {
  }

  lemma BothSafe(a: U.UtpSocket, b: U.UtpSocket, past: seq<Action>, trace: seq<Sys>, events: seq<Event>)
    requires Abreast(a, b, past, trace, events)
    ensures Streams(a, b) && Streams(b, a)
  {
    hide U.UtpSocket.Valid, Idle, Streams, Pair, Settled, StreamSafe, SocketSafe, Init, IsStep, IsEvent;
    EndToEnd(trace, events, |events|);
    RunInv(trace, events, |events|);
    PairReported(a.model, b.model);
    PairReported(b.model, a.model);
    StreamsSafe(a, b);
    StreamsSafe(b, a);
  }

  /** The first of the remaining actions. */
  method Turn(a: U.UtpSocket, b: U.UtpSocket, ghost past: seq<Action>, acts: seq<Action>,
              ghost trace: seq<Sys>, ghost events: seq<Event>)
    returns (ghost trace': seq<Sys>, ghost events': seq<Event>)
    requires a != b && acts != [] && Abreast(a, b, past, trace, events) && AllPossible(trace[|past|], acts)
    modifies a, b
    ensures Abreast(a, b, past + [acts[0]], trace', events') && trace <= trace' && |trace'| == |past| + 2
    ensures AllPossible(trace'[|past| + 1], acts[1..])
  {
    hide U.UtpSocket.Valid, Idle, AllPossible, Pair, Settled, React, NotStale, IsRun, IsStep, Made;
    Counted(past, trace, events);
    ghost var s := trace[|events|];
    RunInv(trace, events, |events|);
    FirstPossible(s, acts, 1);
    ghost var ring: nat;
    if acts[0].onA {
      ring := Act(a, b, acts[0]);
    } else {
      ring := Act(b, a, acts[0]);
    }
    FirstPossible(s, acts, ring);
    ghost var e := EventOf(There(s, acts[0]), acts[0], ring);
    trace', events' := Longer(trace, events, e);
    MadeMore(past, trace, events, acts[0], e, trace'[|past| + 1]);
  }

  lemma Counted(past: seq<Action>, trace: seq<Sys>, events: seq<Event>)
    requires Made(past, trace, events)
    ensures |past| == |events|
  {
  }

  method Pairing(x: int, y: int, f: int, g: int) returns (a: U.UtpSocket, b: U.UtpSocket)
    requires 0 <= x < M && 0 <= y < M && 0 <= f < M && 0 <= g < M
    ensures a != b && a.Valid() && b.Valid() && fresh(a) && fresh(b) && Idle(a.model.rcv) && Idle(b.model.rcv)
    ensures Sys(a.model, b.model) == Initial(x, y, f, g)
  {
    WrapId(x);
    WrapId(y);
    a := new U.UtpSocket(x, Wrap(y - 1), Connected, f, x, y - 1);
    b := new U.UtpSocket(y, Wrap(x - 1), SynRecv, g, y, x - 1);
  }

  lemma WrapId(x: int)
    requires 0 <= x < M
    ensures Wrap(x) == x
  {
    ModIs(x, 0, x);
  }

  ghost method Longer(trace: seq<Sys>, events: seq<Event>, e: Event) returns (trace': seq<Sys>, events': seq<Event>)
    requires IsRun(trace, events) && WellShaped(trace[|events|]) && Enabled(trace[|events|], e)
    ensures IsRun(trace', events') && trace' == trace + [Next(trace[|events|], e)] && events' == events + [e]
  {
    hide Next, Init;
    trace', events' := trace + [Next(trace[|events|], e)], events + [e];
    forall i | 0 <= i < |events'| ensures IsStep(trace'[i], events'[i], trace'[i + 1]) {
      if i < |events| {
        assert IsStep(trace[i], events[i], trace[i + 1]);
      }
    }
  }
}
