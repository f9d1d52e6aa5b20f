// The FIN out of order: it waits in the reorder buffer until everything before it arrived, and the unwrapped
// comparison with its number that can make earlier packets wait in the network instead.
module UtpFin {
  import opened Common
  import opened SeqSpace
  import opened UtpModel
  import opened UtpInvariant
  import opened UtpDelivery
  import opened UtpSystem

  // ---------------------------------------------------------------- a noted FIN is held

  predicate FinHeld(r: Rcv) {
    r.eof.Some? && !r.finReached ==> r.eof.value in r.held
  }

  /** While packets are worked off: held, or the packet just taken. */
  predicate FinWaiting(r: Rcv) {
    r.eof.Some? && !r.finReached ==> r.eof.value == r.ackNr || r.eof.value in r.held
  }

  lemma {:induction false} DrainFin(x: Socket, cb: Callbacks)
    requires Shaped(x.snd) && FinWaiting(x.rcv)
    ensures FinHeld(Drain(x, cb).rcv)
    decreases x.rcv.reorder
  {
    hide EackMask, DoCalls;
    if !x.rcv.finReached && x.rcv.eof == Some(x.rcv.ackNr) {
    } else if x.rcv.reorder == 0 || x.rcv.ackNr + 1 !in x.rcv.held {
    } else {
      DrainFin(TakeHeld(x, cb.read), cb.(read := Rest(x, x.rcv.held[x.rcv.ackNr + 1], cb.read)));
    }
  }

  lemma ReceiveFin(x: Socket, m: Msg, offset: nat, cb: Callbacks)
    requires Shaped(x.snd) && FinHeld(x.rcv) && m.kind != State && offset == m.num - x.rcv.ackNr - 1
    ensures FinHeld(Receive(x.(rcv := NoteFin(x.rcv, m)), m, offset, cb).rcv)
  {
    hide Drain, DoCalls;
    var x1 := x.(rcv := NoteFin(x.rcv, m));
    if offset == 0 {
      TakeNewFin(x1, m.data, cb.read);
      hide TakeNew, Rest;
      DrainFin(TakeNew(x1, m.data, cb.read), cb.(read := Rest(x1, m.data, cb.read)));
    }
  }

  lemma TakeNewFin(x: Socket, data: Bytes, read: seq<seq<Call>>)
    requires Shaped(x.snd)
    requires x.rcv.eof.Some? && !x.rcv.finReached ==> x.rcv.eof.value == x.rcv.ackNr + 1 || x.rcv.eof.value in x.rcv.held
    ensures FinWaiting(TakeNew(x, data, read).rcv)
  {
    hide HandUp;
  }

  /** A FIN in order while closing was not noted before. */
  lemma BumpFin(s: Snd, r: Rcv, m: Msg)
    requires Link(s, r) && RcvInv(r) && FinHeld(r) && SentOk(s, m) && m.kind == Fin && m.num == r.ackNr + 1
    ensures FinHeld(Take(r, [], false))
  {
    hide RcvCore;
  }

  lemma ProcessDataFin(x: Socket, y: Socket, m: Msg, offset: nat, cb: Callbacks)
    requires Pair(x, y) && RcvInv(x.rcv) && FinHeld(x.rcv) && SentOk(y.snd, m) && Shaped(x.snd)
    requires offset == m.num - x.rcv.ackNr - 1
    ensures FinHeld(ProcessData(x, m, offset, cb).rcv)
  {
    hide Pair, SentOk, RcvInv, Receive, NoteFin, Take, FinHeld;
    if m.kind == State {
    } else if Open(x.state) {
      ReceiveFin(x, m, offset, cb);
    } else if m.kind == Fin && offset == 0 {
      PairCore(x, y);
      BumpFin(y.snd, x.rcv, m);
    }
  }

  lemma ReactFin(x: Socket, y: Socket, e: Event)
    requires Pair(x, y) && Pair(y, x) && Settled(x) && Settled(y) && FinHeld(x.rcv)
    requires e.Deliver? ==> e.ring > 0 && e.m in y.outbox
    ensures Shaped(x.snd)
    ensures FinHeld(React(x, e).rcv)
  {
    hide Pair, RcvInv, Callable, CheckTimeouts, ProcessAck, ProcessData, AckOk, SentOk, IsFull;
    PairShape(x, y);
    match e
    case Local(_, c) =>
    case Timer(_, t, cb) => TimeoutRcv(x, t, cb);
    case Failed(_, cb) =>
    case Deliver(_, m, ring, q, cb) =>
      FromOutbox(x, y, m);
      ProcessAckKeeps(x, y, m, ring, q, cb);
      var offset := m.num - x.rcv.ackNr - 1;
      if 0 <= offset {
        ProcessDataFin(ProcessAck(x, m, ring, q, cb), y, m, offset, cb);
      }
  }

  /** In every state of every run a FIN that was noted but not yet reached waits in the reorder buffer. */
  lemma {:induction false} NotedFinIsHeld(trace: seq<Sys>, events: seq<Event>, i: nat)
    requires IsRun(trace, events) && i < |trace|
    ensures FinHeld(trace[i].a.rcv) && FinHeld(trace[i].b.rcv)
  {
    hide Pair, Settled, React, FinHeld;
    if i == 0 {
      InitFin(trace[0]);
    } else {
      NotedFinIsHeld(trace, events, i - 1);
      RunInv(trace, events, i - 1);
      var s, e := trace[i - 1], events[i - 1];
      assert IsStep(s, e, trace[i - 1 + 1]);
      if AtA(e) {
        ReactFin(s.a, s.b, e);
      } else {
        ReactFin(s.b, s.a, e);
      }
    }
  }

  lemma InitFin(s: Sys)
    requires Init(s)
    ensures FinHeld(s.a.rcv) && FinHeld(s.b.rcv)
  {
  }

  // ---------------------------------------------------------------- the comparison

  /** 16-bit numbers of two packets less than half a turn apart compare like the packets themselves exactly when no
      multiple of 65536 lies between them. */
  lemma FinComparison(num: int, eof: int)
    requires num <= eof < num + REORDER_BUFFER_MAX_SIZE
    ensures Wrap(num) <= Wrap(eof) <==> num / M == eof / M
  {
    if num / M == eof / M {
    } else {
      assert eof / M == num / M + 1;
    }
  }

  /** Line 2439 compares packet numbers without wrapping. Of the packets that were sent before a noted FIN and arrive
      out of order, ProcessData stores exactly those on the FIN's side of the wrap; the others change nothing. */
  lemma StoredBeforeFin(x: Socket, m: Msg, offset: nat, cb: Callbacks)
    requires Shaped(x.snd) && RcvInv(x.rcv) && Open(x.state) && !x.rcv.finReached
    requires m.kind == Data && offset == m.num - x.rcv.ackNr - 1 && offset > 0
    requires x.rcv.eof.Some? && m.num < x.rcv.eof.value && m.num !in x.rcv.held
    ensures var t := ProcessData(x, m, offset, cb);
            if m.num / M == x.rcv.eof.value / M
            then t.rcv == Hold(x.rcv, m.num, m.data) && m.num in t.rcv.held
            else t == x
  {
    FinComparison(m.num, x.rcv.eof.value);
  }

  /** An ack that acknowledges nothing, on a socket with nothing to send. */
  lemma IdleAck(x: Socket, m: Msg, ring: nat, q: Quota, cb: Callbacks)
    requires Shaped(x.snd) && ring > 0 && x.snd.window == [] && !x.snd.finSent && x.state == Connected
    requires !x.fastTimeout && m.kind != State && m.eack.None?
    ensures ProcessAck(x, m, ring, q, cb) == x.(fastResend := MarkResend(x, m).fastResend)
  {
    hide Wrap, WrappingLess, DoCalls, IsFull;
    var x1 := OnAckState(x, m);
    assert x1 == x.(fastResend := MarkResend(x, m).fastResend);
    hide OnAckState, MarkResend;
    assert AckCount(x.snd, m.ack) == 0;
    assert Acked(x, m, ring) == x1;
  }

  /** So a packet sent before the FIN can be refused until it is the next one expected: a FIN numbered 65537 overtakes
      four packets, and the third of them is thrown away when it arrives. */
  lemma FinComparisonRefuses(q: Quota, cb: Callbacks)
    ensures var s := AfterHandshake(1, 65532, Connected, 0);
            var t := Incoming(s, Msg(Fin, 65537, 0, None, []), 16, q, cb);
            var m := Msg(Data, 65535, 0, None, [7]);
            && RcvInv(t.rcv) && Open(t.state) && t.rcv.eof == Some(65537) && t.rcv.held == map[65537 := []] && t.rcv.reorder == 1
            && m.num < t.rcv.eof.value && Shaped(t.snd) && ProcessData(t, m, 2, cb) == t
  {
    hide ProcessAck, Drain, TakeNew, Rest, MarkResend;
    var s := AfterHandshake(1, 65532, Connected, 0);
    var fin, m := Msg(Fin, 65537, 0, None, []), Msg(Data, 65535, 0, None, [7]);
    IdleAck(s, fin, 16, q, cb);
    var t := Incoming(s, fin, 16, q, cb);
    StoredBeforeFin(t, m, 2, cb);
  }

  // ---------------------------------------------------------------- a FIN that is held back

  /** The FIN was not sent while other packets were outstanding. */
  ghost predicate HeldBack(x: Socket) {
    forall m :: m in x.outbox && m.kind == Fin ==> |x.snd.window| <= 1
  }

  predicate FinDone(r: Rcv) {
    r.eof.Some? ==> r.finReached
  }

  /** flush_packets holds a FIN back behind other packets: it has no payload to fill a packet. */
  lemma {:induction false} FlushHoldsBack(x: Socket, i: nat, q: Quota)
    requires q.packetSize > 0 && |x.snd.window| > 1
    requires var o := x.snd.window[|x.snd.window| - 1]; Unsent(o) && o.value.data == []
    requires forall k :: 0 <= k < |x.snd.window| - 1 && x.snd.window[k].Some? ==> !x.snd.window[k].value.fin
    ensures forall m :: m in FlushFrom(x, i, q).outbox && m.kind == Fin ==> m in x.outbox
    decreases |x.snd.window| - i
  {
    var w := x.snd.window;
    if i >= |w| {
    } else if w[i].None? || (w[i].value.transmissions > 0 && !w[i].value.needResend) {
      FlushHoldsBack(x, i + 1, q);
    } else if IsFull(x.snd, q.packetSize, q) {
    } else if i != |w| - 1 {
      FlushHoldsBack(Transmit(x, i), i + 1, q);
    } else {
      FlushHoldsBack(x, i + 1, q);
    }
  }

  /** Such a FIN comes in order, or again. */
  lemma ArrivesInOrder(x: Socket, y: Socket, m: Msg)
    requires Pair(x, y) && Pair(y, x) && m in y.outbox && m.kind == Fin && HeldBack(y)
    ensures m.num <= x.rcv.ackNr + 1
  {
    hide SndCore, RcvCore, AcksOk;
    FromOutbox(x, y, m);
    assert Link(y.snd, x.rcv);
  }

  lemma {:induction false} DrainDone(x: Socket, cb: Callbacks)
    requires Shaped(x.snd) && (x.rcv.eof.Some? && !x.rcv.finReached ==> x.rcv.eof.value == x.rcv.ackNr)
    ensures FinDone(Drain(x, cb).rcv)
    decreases x.rcv.reorder
  {
    hide EackMask, DoCalls;
    if !x.rcv.finReached && x.rcv.eof == Some(x.rcv.ackNr) {
    } else if x.rcv.reorder == 0 || x.rcv.ackNr + 1 !in x.rcv.held {
    } else {
      DrainDone(TakeHeld(x, cb.read), cb.(read := Rest(x, x.rcv.held[x.rcv.ackNr + 1], cb.read)));
    }
  }

  lemma ProcessDataDone(x: Socket, m: Msg, offset: nat, cb: Callbacks)
    requires Shaped(x.snd) && FinDone(x.rcv) && offset == m.num - x.rcv.ackNr - 1 && (m.kind == Fin ==> offset == 0)
    ensures FinDone(ProcessData(x, m, offset, cb).rcv)
  {
    hide Drain, HandUp, EackMask;
    if m.kind != State && Open(x.state) && offset == 0 {
      var x1 := x.(rcv := NoteFin(x.rcv, m));
      var x2, cb2 := TakeNew(x1, m.data, cb.read), cb.(read := Rest(x1, m.data, cb.read));
      DrainDone(x2, cb2);
    }
  }

  lemma ReactDone(x: Socket, y: Socket, e: Event)
    requires Pair(x, y) && Pair(y, x) && Settled(x) && Settled(y) && FinDone(x.rcv) && HeldBack(y)
    requires e.Deliver? ==> e.ring > 0 && e.m in y.outbox
    ensures Shaped(x.snd)
    ensures FinDone(React(x, e).rcv)
  {
    hide Pair, RcvInv, Callable, CheckTimeouts, ProcessAck, ProcessData, AckOk, SentOk, IsFull, HeldBack;
    PairShape(x, y);
    match e
    case Local(_, c) =>
    case Timer(_, t, cb) => TimeoutRcv(x, t, cb);
    case Failed(_, cb) =>
    case Deliver(_, m, ring, q, cb) =>
      FromOutbox(x, y, m);
      ProcessAckKeeps(x, y, m, ring, q, cb);
      if m.kind == Fin {
        ArrivesInOrder(x, y, m);
      }
      var offset := m.num - x.rcv.ackNr - 1;
      if 0 <= offset {
        ProcessDataDone(ProcessAck(x, m, ring, q, cb), m, offset, cb);
      }
  }

  /**
   * As long as both sides hold their FIN back, a FIN is reached as soon as it is noted, in every run: no packet is ever
   * compared with one that is still to come, and none is refused for it.
   */
  lemma {:induction false} HeldBackIsReached(trace: seq<Sys>, events: seq<Event>, i: nat)
    requires IsRun(trace, events) && i < |trace|
    requires forall j :: 0 <= j < i ==> HeldBack(trace[j].a) && HeldBack(trace[j].b)
    ensures FinDone(trace[i].a.rcv) && FinDone(trace[i].b.rcv)
  {
    hide Pair, Settled, React, FinDone, HeldBack;
    if i == 0 {
      InitDone(trace[0]);
    } else {
      HeldBackIsReached(trace, events, i - 1);
      RunInv(trace, events, i - 1);
      var s, e := trace[i - 1], events[i - 1];
      assert IsStep(s, e, trace[i - 1 + 1]);
      if AtA(e) {
        ReactDone(s.a, s.b, e);
      } else {
        ReactDone(s.b, s.a, e);
      }
    }
  }

  lemma InitDone(s: Sys)
    requires Init(s)
    ensures FinDone(s.a.rcv) && FinDone(s.b.rcv)
  {
  }
}
