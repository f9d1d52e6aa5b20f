// Two uTP sockets and an unreliable network: every datagram either side ever emitted may be delivered
// at any later time, any number of times, in any order, or never.
module UtpSystem {
  import opened Common
  import opened SeqSpace
  import opened UtpModel
  import opened UtpInvariant
  import opened UtpDelivery

  datatype Sys = Sys(a: Socket, b: Socket)

  /** A call of the upper layer; the timer; an RST or ICMP error; the arrival of a datagram the peer once emitted.
      Every event comes with whatever the callbacks it runs do to the socket (`cb`). */
  datatype Event =
    | Local(onA: bool, call: Call)
    | Timer(onA: bool, t: Tick, cb: Callbacks)
    | Failed(onA: bool, cb: Callbacks)
    | Deliver(toA: bool, m: Msg, ring: nat, q: Quota, cb: Callbacks)

  predicate WellShaped(s: Sys) {
    Shaped(s.a.snd) && Shaped(s.b.snd)
  }

  predicate Enabled(s: Sys, e: Event) {
    match e
    case Local(_, _) => true
    case Timer(_, _, _) => true
    case Failed(_, _) => true
    case Deliver(toA, m, ring, _, _) => ring > 0 && m in (if toA then s.b.outbox else s.a.outbox)
  }

  /** What the event does to the socket it happens at. */
  function React(x: Socket, e: Event): Socket
    requires Shaped(x.snd) && (e.Deliver? ==> e.ring > 0)
  {
    match e
    case Local(_, c) => DoCall(x, c)
    case Timer(_, t, cb) => CheckTimeouts(x, t, cb)
    case Failed(_, cb) => Fail(x, cb)
    case Deliver(_, m, ring, q, cb) => Incoming(x, m, ring, q, cb)
  }

  predicate AtA(e: Event) {
    if e.Deliver? then e.toA else e.onA
  }

  function Next(s: Sys, e: Event): Sys
    requires WellShaped(s) && Enabled(s, e)
  {
    if AtA(e) then s.(a := React(s.a, e)) else s.(b := React(s.b, e))
  }

  /** The connecting side's next packet is `x`, the accepting side's is `y`, whatever the random choices were. */
  function Initial(x: int, y: int, f: int, g: int): Sys {
    Sys(AfterHandshake(x, y - 1, Connected, f), AfterHandshake(y, x - 1, SynRecv, g))
  }

  ghost predicate Init(s: Sys) {
    exists x: int, y: int, f: int, g: int :: s == Initial(x, y, f, g) && 0 <= f < M && 0 <= g < M
  }

  /** The states visited by any number of events from an initial state. */
  ghost predicate IsRun(trace: seq<Sys>, events: seq<Event>) {
    && |trace| == |events| + 1
    && Init(trace[0])
    && forall i :: 0 <= i < |events| ==> IsStep(trace[i], events[i], trace[i + 1])
  }

  ghost predicate IsStep(s: Sys, e: Event, t: Sys) {
    WellShaped(s) && Enabled(s, e) && t == Next(s, e)
  }

  ghost predicate Inv(s: Sys) {
    Pair(s.a, s.b) && Pair(s.b, s.a) && Settled(s.a) && Settled(s.b)
  }

  // ---------------------------------------------------------------- one step

  /** The peer's obligations mention only the two halves that face each other. */
  lemma PairSymm(x: Socket, x': Socket, y: Socket)
    requires Pair(y, x) && Pair(x', y)
    ensures Pair(y, x')
  {
    hide Good, Link;
  }

  lemma FromOutbox(x: Socket, y: Socket, m: Msg)
    requires Pair(y, x) && m in y.outbox
    ensures AckOk(y.rcv, m) && SentOk(y.snd, m)
  {
    hide SndCore, RcvCore, Link, AckOk, SentOk;
  }

  /** What any event does at x keeps both halves of the connection in step with the peer y. */
  lemma ReactKeeps(x: Socket, y: Socket, e: Event)
    requires Pair(x, y) && Pair(y, x) && Settled(x) && Settled(y)
    requires e.Deliver? ==> e.ring > 0 && e.m in y.outbox
    ensures Shaped(x.snd)
    ensures Pair(React(x, e), y) && Settled(React(x, e))
  {
    hide Pair, RcvInv, Callable, DoCall, CheckTimeouts, Fail, Incoming, AckOk, SentOk;
    PairShape(x, y);
    match e
    case Local(_, c) =>
      CallKeeps(x, y, c);
      OnlyShutInv(x.rcv, DoCall(x, c).rcv);
    case Timer(_, t, cb) => CheckTimeoutsKeeps(x, y, t, cb);
    case Failed(_, cb) =>
      FailKeeps(x, y, cb);
      OnlyShutInv(x.rcv, Fail(x, cb).rcv);
    case Deliver(_, m, ring, q, cb) =>
      FromOutbox(x, y, m);
      IncomingKeeps(x, y, m, ring, q, cb);
  }

  lemma StepKeeps(s: Sys, e: Event, t: Sys)
    requires Inv(s) && IsStep(s, e, t)
    ensures Inv(t)
  {
    hide Pair, Settled, React;
    var x, y := if AtA(e) then s.a else s.b, if AtA(e) then s.b else s.a;
    ReactKeeps(x, y, e);
    PairSymm(x, React(x, e), y);
  }

  lemma InitInv(s: Sys)
    requires Init(s)
    ensures Inv(s)
  {
    assert Flatten([]) == [];
  }

  // ---------------------------------------------------------------- what every run keeps

  lemma {:induction false} RunInv(trace: seq<Sys>, events: seq<Event>, i: nat)
    requires IsRun(trace, events) && i < |trace|
    ensures Inv(trace[i])
  {
    hide Inv, Init, IsStep;
    if i == 0 {
      InitInv(trace[0]);
    } else {
      RunInv(trace, events, i - 1);
      assert IsStep(trace[i - 1], events[i - 1], trace[i - 1 + 1]);
      StepKeeps(trace[i - 1], events[i - 1], trace[i]);
    }
  }

  /** Stream x -> y. */
  ghost predicate StreamSafe(x: Socket, y: Socket) {
    var accepted := x.accepted;
    // everything y took in order, and everything it handed up, is a prefix of what was accepted
    && Flatten(y.rcv.consumed) <= accepted
    && y.rcv.delivered <= accepted
    // the bytes reported to x as sent have been taken by y, and handed up unless y stopped reading
    && x.reported <= |Flatten(y.rcv.consumed)|
    && (!y.rcv.shutdown ==> x.reported <= |y.rcv.delivered| && accepted[..x.reported] <= y.rcv.delivered)
    // conservation: accepted bytes are reported, or queued in outbuf_sizes
    && |accepted| == x.snd.popped + Sum(x.snd.sizes)
    && (!Dead(x.state) ==> x.reported == x.snd.popped)
  }

  /** check_invariant and its companions on one socket. */
  ghost predicate SocketSafe(x: Socket) {
    && |x.snd.sizes| == |x.snd.window| <= OUTGOING_BUFFER_MAX_SIZE
    && x.snd.curWindow == InFlightSum(x.snd.window)
    && (x.snd.window != [] ==> x.snd.window[0].Some?)
    && (!x.rcv.finReached ==> x.rcv.reorder == |x.rcv.held| && x.rcv.ackNr !in x.rcv.held && x.rcv.ackNr + 1 !in x.rcv.held)
  }

  lemma {:induction false} SumSizes(sizes: seq<nat>, parts: seq<Bytes>)
    requires |sizes| == |parts| && forall i :: 0 <= i < |parts| ==> sizes[i] == |parts[i]|
    ensures Sum(sizes) == |Flatten(parts)|
  {
    if parts != [] {
      SumSizes(sizes[1..], parts[1..]);
    }
  }

  /** accepted == popped + queued, byte for byte. */
  lemma Conservation(s: Snd)
    requires SndCore(s)
    ensures |Flatten(s.written)| == s.popped + Sum(s.sizes)
  {
    forall i | 0 <= i < |s.window| ensures s.sizes[i] == |s.written[Off(s)..][i]| {
      assert SlotOk(s, i);
    }
    SumSizes(s.sizes, s.written[Off(s)..]);
    FlattenPrefix(s.written, Off(s));
  }

  lemma ReportedWasAccepted(x: Socket, y: Socket)
    requires Pair(x, y)
    ensures x.snd.popped <= |Flatten(x.snd.written)|
  {
    hide RcvCore, OutOk, AcksOk, Link;
    Conservation(x.snd);
  }

  lemma PairStreamSafe(x: Socket, y: Socket)
    requires Pair(x, y) && Settled(x) && Settled(y)
    ensures StreamSafe(x, y)
  {
    hide OutOk, AcksOk;
    var w := x.snd.written;
    var c := |y.rcv.consumed|;
    Conservation(x.snd);
    assert y.rcv.consumed == w[..c];
    FlattenPrefix(w, c);
    assert Off(x.snd) <= c;
    assert w[..Off(x.snd)] == w[..c][..Off(x.snd)];
    FlattenPrefix(w[..c], Off(x.snd));
  }

  lemma PairSocketSafe(x: Socket, y: Socket)
    requires Pair(x, y) && Settled(x)
    ensures SocketSafe(x)
  {
  }

  /** Main theorem: in every state of every run, with any loss, duplication and reordering and whatever the callbacks
      do, both streams are safe and both sockets satisfy their invariants. */
  lemma EndToEnd(trace: seq<Sys>, events: seq<Event>, i: nat)
    requires IsRun(trace, events) && i < |trace|
    ensures var s := trace[i];
            && StreamSafe(s.a, s.b) && StreamSafe(s.b, s.a)
            && SocketSafe(s.a) && SocketSafe(s.b)
  {
    hide Pair, Settled, StreamSafe, SocketSafe;
    RunInv(trace, events, i);
    var s := trace[i];
    PairStreamSafe(s.a, s.b);
    PairStreamSafe(s.b, s.a);
    PairSocketSafe(s.a, s.b);
    PairSocketSafe(s.b, s.a);
  }

  // ---------------------------------------------------------------- the 16-bit form is entitled to its assumptions

  /** Fewer than 64512 packets of the peer, and fewer than 65536 of its own, behind. */
  predicate NotStale(x: Socket, m: Msg) {
    m.num - x.rcv.ackNr - 1 >= -(M - 1024) && x.snd.seqNr - 1 - m.ack < M
  }

  lemma HonestPeer(x: Socket, y: Socket, m: Msg)
    requires Pair(x, y) && Pair(y, x) && m in y.outbox
    ensures PeerStopsAtFin(x, m)
    ensures FreshFor(x, m) <==> NotStale(x, m)
  {
    hide RcvCore;
    FromOutbox(x, y, m);
    assert Link(y.snd, x.rcv) && Link(x.snd, y.rcv);
  }

  /** In every state of every run, a datagram of the peer meets what the 16-bit utp_process_incoming needs to act on
      true numbers exactly when it is not stale: staleness is the only thing that can go wrong. */
  lemma OnlyStaleness(trace: seq<Sys>, events: seq<Event>, i: nat, m: Msg, toA: bool)
    requires IsRun(trace, events) && i < |trace|
    requires m in (if toA then trace[i].b.outbox else trace[i].a.outbox)
    ensures var x := if toA then trace[i].a else trace[i].b;
            PeerStopsAtFin(x, m) && (FreshFor(x, m) <==> NotStale(x, m))
  {
    hide Pair, RcvInv, Settled, Flatten;
    RunInv(trace, events, i);
    if toA {
      HonestPeer(trace[i].a, trace[i].b, m);
    } else {
      HonestPeer(trace[i].b, trace[i].a, m);
    }
  }

  // ---------------------------------------------------------------- selective acks

  /** selective_ack empties exactly the slots of transmitted packets whose bit is set, never the oldest one. */
  ghost predicate SackedFrom(s: Snd, t: Snd, base: int, mask: seq<bool>, from: int) {
    && t.seqNr == s.seqNr && |t.window| == |s.window| && t.sizes == s.sizes && t.written == s.written
    && forall i :: 0 <= i < |s.window| ==>
         t.window[i] == if 1 <= i && Sacked(s, i, base, mask, from) then None else s.window[i]
  }

  predicate Sacked(s: Snd, i: nat, base: int, mask: seq<bool>, from: int)
    requires i < |s.window|
  {
    var j := Head(s) + i - base;
    from <= j < |mask| && j >= 0 && mask[j] && s.window[i].Some? && !Unsent(s.window[i])
  }

  lemma StepExact(s: Snd, sc: Scan, base: int, mask: seq<bool>, bits: int, f: int)
    requires -1 <= bits < |mask| && SackedFrom(s, sc.snd, base, mask, bits + 1)
    ensures SackedFrom(s, SackStep(sc, base, mask, bits, f).snd, base, mask, bits)
  {
    var sc' := SackStep(sc, base, mask, bits, f);
    var k := base + bits - Head(s);
    forall i | 0 <= i < |s.window|
      ensures sc'.snd.window[i] == if 1 <= i && Sacked(s, i, base, mask, bits) then None else s.window[i]
    {
      assert sc.snd.window[i] == if 1 <= i && Sacked(s, i, base, mask, bits + 1) then None else s.window[i];
      assert i != k ==> (Sacked(s, i, base, mask, bits) <==> Sacked(s, i, base, mask, bits + 1));
    }
  }

  lemma {:induction false} ScanExact(s: Snd, sc: Scan, base: int, mask: seq<bool>, bits: int, f: int)
    requires -1 <= bits < |mask| && SackedFrom(s, sc.snd, base, mask, bits + 1)
    ensures SackedFrom(s, SackScan(sc, base, mask, bits, f).snd, base, mask, -1)
    decreases bits + 1
  {
    hide SackedFrom, SackStep;
    StepExact(s, sc, base, mask, bits, f);
    if bits != -1 {
      ScanExact(s, SackStep(sc, base, mask, bits, f), base, mask, bits - 1, f);
    }
  }

  lemma SelectiveAckExact(s: Snd, base: int, mask: seq<bool>, f: int)
    ensures SackedFrom(s, SackScan(Scan(s, 0, []), base, mask, |mask| - 1, f).snd, base, mask, -1)
  {
    ScanExact(s, Scan(s, 0, []), base, mask, |mask| - 1, f);
  }

}
