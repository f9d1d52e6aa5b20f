// What comes in: what utp_process_incoming does with every packet that it can take, whatever its callbacks do.
module UtpArrival {
  import opened Common
  import opened SeqSpace
  import opened UtpModel
  import opened UtpInvariant
  import opened UtpDelivery
  import UtpFin
  import UtpFlush

  // ---------------------------------------------------------------- the connection stays open

  predicate Closes(cs: seq<Call>) {
    exists i :: 0 <= i < |cs| && cs[i].CallClose?
  }

  /** A call closes an open connection for good only if it is a utp_close after the FIN was acknowledged. */
  lemma CallStaysOpen(x: Socket, c: Call)
    requires Shaped(x.snd) && Open(x.state)
    ensures var t := DoCall(x, c);
            && t.finAcked == x.finAcked && (c.CallClose? || t.closeRequested == x.closeRequested)
            && (!x.finAcked || !c.CallClose? ==> Open(t.state))
  {
    hide WriteLoop, SendFin, EackMask;
    match c
    case CallWrite(data, q) =>
      if x.state == Connected && !x.snd.finSent {
        WriteLoopOpen(x, data, q);
      }
    case CallClose(q) => UtpFlush.SendFinQueues(BeginClose(x), q);
    case CallShutdown(rd, wr, q) => UtpFlush.SendFinQueues(if rd then x.(rcv := x.rcv.(shutdown := true)) else x, q);
    case CallReadDrained(_, _) =>
    case CallDeferredAck =>
  }

  lemma {:induction false} WriteLoopOpen(s: Socket, data: Bytes, q: Quota)
    requires Shaped(s.snd) && Open(s.state)
    ensures var t := WriteLoop(s, data, q).0;
            Open(t.state) && t.finAcked == s.finAcked && t.closeRequested == s.closeRequested
    decreases |data|
  {
    hide FlushFrom, Enqueue;
    var num := Min(|data|, q.packetSize);
    if IsFull(s.snd, num, q) {
    } else {
      var s1 := s.(snd := Enqueue(s.snd, data[..num], false, q));
      FlushShape(s1, 0, q);
      UtpFlush.EnqueueQueues(s.snd, data[..num], false, q);
      if num == 0 || |data| == num {
      } else {
        WriteLoopOpen(Flush(s1, q), data[num..], q);
      }
    }
  }

  lemma {:induction false} CallsStayOpen(x: Socket, cs: seq<Call>)
    requires Shaped(x.snd) && Open(x.state) && (x.finAcked ==> !Closes(cs))
    ensures var t := DoCalls(x, cs);
            Open(t.state) && t.finAcked == x.finAcked && (!Closes(cs) ==> t.closeRequested == x.closeRequested)
    decreases |cs|
  {
    hide DoCall;
    if cs != [] {
      CallStaysOpen(x, cs[0]);
      assert Closes(cs[1..]) ==> Closes(cs) by {
        if Closes(cs[1..]) {
          var i :| 0 <= i < |cs[1..]| && cs[1..][i].CallClose?;
          assert cs[i + 1].CallClose?;
        }
      }
      assert cs[0].CallClose? ==> Closes(cs);
      CallsStayOpen(DoCall(x, cs[0]), cs[1..]);
    }
  }

  /** This datagram acknowledges our FIN, or it was acknowledged before. */
  predicate AcksFin(x: Socket, m: Msg) {
    x.finAcked || AllAcked(x, m)
  }

  /** The connection is open when the ack part begins, or the handshake ends with this packet. */
  predicate OpenFor(x: Socket, m: Msg) {
    Open(x.state) || (x.state == SynRecv && m.kind == Data)
  }

  /** Our FIN is sent, and this datagram acknowledges all that is in the window. */
  predicate AllAcked(x: Socket, m: Msg) {
    x.snd.finSent && (x.snd.window == [] || m.ack == x.snd.seqNr - 1)
  }

  lemma AllAckedIs(x: Socket, m: Msg)
    requires m.ack <= x.snd.seqNr - 1
    ensures AllAcked(x, m) <==> x.snd.finSent && |x.snd.window| == AckCount(x.snd, m.ack)
  {
  }

  lemma AckState(x: Socket, m: Msg)
    requires OpenFor(x, m) && m.ack <= x.snd.seqNr - 1
    ensures var t := OnAckState(x, m);
            && t.finAcked == AcksFin(x, m) && t.closeRequested == x.closeRequested && t.snd == x.snd
            && (Open(t.state) <==> !(x.closeRequested && AllAcked(x, m))) && (Open(t.state) || t.state == Destroy)
  {
    AllAckedIs(x, m);
    hide AckCount, MarkResend;
    var x1 := OnHandshake(x, m);
    assert x1.finAcked == x.finAcked && x1.closeRequested == x.closeRequested && Open(x1.state) && x1.snd == x.snd;
    hide OnHandshake;
    var x2 := OnFinAcked(x1, AckCount(x.snd, m.ack));
    MarkState(x2, m);
  }

  lemma AckedState(x: Socket, m: Msg, ring: nat)
    requires Shaped(x.snd) && ring > 0 && OpenFor(x, m) && m.ack <= x.snd.seqNr - 1
    ensures var t := Acked(x, m, ring);
            && t.finAcked == AcksFin(x, m) && t.closeRequested == x.closeRequested
            && (Open(t.state) <==> !(x.closeRequested && AllAcked(x, m))) && (Open(t.state) || t.state == Destroy)
  {
    hide SndAckLoop, SndDropAcked, FlushNagle, FastRetry, MaybeSack, AckCount, OnAckState, AcksFin, AllAcked, Wrap, WrappingLess;
    AckState(x, m);
    var x1 := Release(OnAckState(x, m), AckCount(x.snd, m.ack));
    NagleState(x1);
    RetryState(FlushNagle(x1));
    SackState(FastRetry(FlushNagle(x1)), m, ring);
  }

  predicate SameState(x: Socket, t: Socket) {
    t.state == x.state && t.finAcked == x.finAcked && t.closeRequested == x.closeRequested
  }

  lemma MarkState(x: Socket, m: Msg)
    ensures SameState(x, MarkResend(x, m)) && MarkResend(x, m).snd == x.snd
  {
  }

  lemma NagleState(x: Socket)
    ensures SameState(x, FlushNagle(x))
  {
  }

  lemma RetryState(x: Socket)
    ensures SameState(x, FastRetry(x))
  {
    hide Wrap;
  }

  lemma {:induction false} ResendState(x: Socket, ring: nat, resends: seq<int>, left: nat)
    requires ring > 0
    ensures SameState(x, ResendLoop(x, ring, resends, left))
    decreases |resends|
  {
    if resends == [] || left == 0 {
    } else {
      var v := resends[|resends| - 1];
      var rest := resends[..|resends| - 1];
      var i := Locate(x.snd, ring, v);
      if i < 0 || x.snd.window[i].None? {
        ResendState(x, ring, rest, left);
      } else {
        ResendState(Transmit(x, i).(fastResend := Wrap(v + 1)), ring, rest, left - 1);
      }
    }
  }

  lemma SackState(x: Socket, m: Msg, ring: nat)
    requires ring > 0
    ensures SameState(x, MaybeSack(x, m, ring))
  {
    hide SackScan, ResendLoop, SackResends;
    if m.eack.Some? && x.snd.window != [] {
      var sc := SackScan(Scan(x.snd, 0, []), m.ack + 2, m.eack.value, |m.eack.value| - 1, x.fastResend);
      ResendState(x.(snd := sc.snd), ring, SackResends(sc, m.ack + 2, x.fastResend), 4);
    }
  }

  /**
   * After the ack part the connection takes data exactly unless it is closed and its FIN acknowledged: that the upper layer
   * asked for it before, or does so from a callback of this very datagram.
   */
  lemma StaysOpen(x: Socket, m: Msg, ring: nat, q: Quota, cb: Callbacks)
    requires Shaped(x.snd) && ring > 0 && OpenFor(x, m) && m.ack <= x.snd.seqNr - 1
    ensures !AcksFin(x, m) ==> Open(ProcessAck(x, m, ring, q, cb).state)
    ensures !Closes(cb.sent) && !Closes(cb.writable) ==>
              (Open(ProcessAck(x, m, ring, q, cb).state)
               <==> !(x.closeRequested && AllAcked(x, m)))
  {
    hide Acked, DoCalls, IsFull, Closes;
    AckedState(x, m, ring);
    AckedShape(x, m, ring);
    var x1 := Acked(x, m, ring);
    if Open(x1.state) && (!x1.finAcked || (!Closes(cb.sent) && !Closes(cb.writable))) {
      var x2 := x1.(reported := x1.reported + (x1.snd.popped - x.snd.popped));
      CallsStayOpen(x2, cb.sent);
      CallsStayOpen(DoCalls(x2, cb.sent).(state := Connected), cb.writable);
      CallsStayOpen(x1.(state := Connected), cb.writable);
    }
  }

  // ---------------------------------------------------------------- in order

  /** The payloads held under numbers k + 1..n, in order. */
  ghost function HeldRun(held: map<int, Bytes>, k: int, n: int): seq<Bytes>
    requires forall j :: k < j <= n ==> j in held
    decreases n - k
  {
    if k >= n then [] else [held[k + 1]] + HeldRun(held, k + 1, n)
  }

  lemma {:induction false} HeldRunSame(a: map<int, Bytes>, b: map<int, Bytes>, k: int, n: int)
    requires forall j :: k < j <= n ==> j in a && j in b && a[j] == b[j]
    ensures HeldRun(a, k, n) == HeldRun(b, k, n)
    decreases n - k
  {
    if k < n {
      HeldRunSame(a, b, k + 1, n);
    }
  }

  /** From r to t exactly the packets held without a gap after r.ackNr were taken, up to the FIN. */
  ghost predicate TookRun(r: Rcv, t: Rcv) {
    && r.ackNr <= t.ackNr && (forall k :: r.ackNr < k <= t.ackNr ==> k in r.held)
    && (t.ackNr + 1 !in r.held || r.eof == Some(t.ackNr))
    && (r.eof.Some? ==> t.ackNr <= r.eof.value) && t.eof == r.eof && (t.finReached <==> r.eof == Some(t.ackNr))
    && (forall k :: k in t.held <==> k in r.held && k > t.ackNr) && (forall k :: k in t.held ==> t.held[k] == r.held[k])
    && t.consumed == r.consumed + HeldRun(r.held, r.ackNr, t.ackNr)
    && r.delivered <= t.delivered && (r.shutdown ==> t.shutdown && t.delivered == r.delivered)
    && (!t.shutdown ==> t.delivered == Flatten(t.consumed))
  }

  /** What a round of the loop leaves of the receiving half, apart from the packet it took. */
  lemma TakeHeldIs(x: Socket, read: seq<seq<Call>>)
    requires Shaped(x.snd) && RcvCore(x.rcv) && !x.rcv.finReached && !x.rcv.handing && x.rcv.eof != Some(x.rcv.ackNr)
    requires x.rcv.ackNr + 1 in x.rcv.held
    ensures x.rcv.reorder > 0
    ensures var r, t, k := x.rcv, TakeHeld(x, read).rcv, x.rcv.ackNr + 1;
            && RcvCore(t) && !t.finReached && !t.handing && t.eof == r.eof && t.ackNr == k && t.held == r.held - {k}
            && t.consumed == r.consumed + [r.held[k]] && r.delivered <= t.delivered
            && (r.shutdown ==> t.shutdown && t.delivered == r.delivered)
  {
    hide HandUp, Flatten;
    var r := x.rcv;
    LiftCore(r);
    var data := r.held[r.ackNr + 1];
    var h := HandUp(x.(rcv := Lift(r)), data, read).rcv;
    assert RcvCore(h);
    SettleCore(h, data, !r.shutdown);
  }

  lemma TookMore(r: Rcv, f: Rcv, t: Rcv)
    requires r.ackNr + 1 in r.held && r.eof != Some(r.ackNr) && (r.eof.Some? ==> r.ackNr <= r.eof.value)
    requires f.ackNr == r.ackNr + 1 && f.held == r.held - {r.ackNr + 1} && f.eof == r.eof
    requires forall k :: k in r.held ==> k > r.ackNr
    requires f.consumed == r.consumed + [r.held[r.ackNr + 1]] && r.delivered <= f.delivered
    requires r.shutdown ==> f.shutdown && f.delivered == r.delivered
    requires TookRun(f, t)
    ensures TookRun(r, t)
  {
    forall j | f.ackNr < j <= t.ackNr ensures j in f.held && j in r.held && f.held[j] == r.held[j] {
    }
    HeldRunSame(f.held, r.held, f.ackNr, t.ackNr);
    assert HeldRun(r.held, r.ackNr, t.ackNr) == [r.held[r.ackNr + 1]] + HeldRun(r.held, r.ackNr + 1, t.ackNr);
  }

  lemma TookHeld(x: Socket, read: seq<seq<Call>>, t: Rcv)
    requires Shaped(x.snd) && RcvCore(x.rcv) && !x.rcv.finReached && !x.rcv.handing && x.rcv.eof != Some(x.rcv.ackNr)
    requires x.rcv.ackNr + 1 in x.rcv.held && x.rcv.reorder > 0 && TookRun(TakeHeld(x, read).rcv, t)
    ensures TookRun(x.rcv, t)
  {
    hide TookRun, TakeHeld, Flatten;
    TakeHeldIs(x, read);
    TookMore(x.rcv, TakeHeld(x, read).rcv, t);
  }

  lemma {:induction false} DrainTakes(x: Socket, cb: Callbacks)
    requires Shaped(x.snd) && RcvCore(x.rcv) && !x.rcv.finReached && !x.rcv.handing
    ensures TookRun(x.rcv, Drain(x, cb).rcv) && RcvInv(Drain(x, cb).rcv)
    ensures var t := Drain(x, cb); t.rcv.finReached ==> t.outbox != [] && EndAck(t, t.outbox[|t.outbox| - 1])
    decreases x.rcv.reorder
  {
    hide TookRun, ReachFin, TakeHeld, Rest, Flatten, RcvCore;
    var r := x.rcv;
    if r.eof == Some(r.ackNr) {
      ReachFinTakes(x, cb);
    } else if r.ackNr + 1 in r.held {
      TakeHeldIs(x, cb.read);
      var f := TakeHeld(x, cb.read);
      var cb' := cb.(read := Rest(x, r.held[r.ackNr + 1], cb.read));
      DrainTakes(f, cb');
      TookHeld(x, cb.read, Drain(f, cb').rcv);
    } else {
      TookNone(r);
    }
  }

  /** The datagram that acknowledges the FIN. */
  predicate EndAck(t: Socket, m: Msg) {
    m == Msg(State, t.snd.seqNr, t.rcv.ackNr, None, [])
  }

  lemma TookNone(r: Rcv)
    requires RcvCore(r) && !r.finReached && r.ackNr + 1 !in r.held && r.eof != Some(r.ackNr)
    ensures TookRun(r, r)
  {
  }

  lemma ReachFinTakes(x: Socket, cb: Callbacks)
    requires Shaped(x.snd) && RcvCore(x.rcv) && !x.rcv.finReached && !x.rcv.handing && x.rcv.eof == Some(x.rcv.ackNr)
    ensures TookRun(x.rcv, ReachFin(x, cb).rcv) && RcvInv(ReachFin(x, cb).rcv)
    ensures var t := ReachFin(x, cb); t.outbox != [] && EndAck(t, t.outbox[|t.outbox| - 1])
  {
    hide DoCalls, Flatten;
  }

  // ---------------------------------------------------------------- the whole of utp_process_incoming

  /** The FIN's number, known before or from this datagram. */
  function EofWith(r: Rcv, m: Msg): Option<int> {
    if r.eof.Some? then r.eof else if m.kind == Fin then Some(m.num) else None
  }

  /** A data packet or FIN that is not behind, not past the FIN, with an acceptable ack, on a connection that takes data. */
  predicate Takes(x: Socket, m: Msg, ring: nat, q: Quota, cb: Callbacks)
    requires Shaped(x.snd) && ring > 0
  {
    && m.kind != State && !x.rcv.finReached && (x.rcv.eof.Some? ==> m.num <= x.rcv.eof.value)
    && 0 <= x.snd.seqNr - 1 - m.ack <= |x.snd.window| + ACK_NR_ALLOWED_WINDOW
    && 0 <= m.num - x.rcv.ackNr - 1 < REORDER_BUFFER_MAX_SIZE
    && Open(ProcessAck(x, m, ring, q, cb).state)
  }

  /** From r to t the packet m expected next was taken, and exactly those held without a gap behind it, up to the FIN. */
  ghost predicate TookWith(r: Rcv, m: Msg, t: Rcv) {
    && m.num <= t.ackNr && (forall k :: m.num < k <= t.ackNr ==> k in r.held)
    && (t.ackNr + 1 !in r.held || EofWith(r, m) == Some(t.ackNr))
    && (EofWith(r, m).Some? ==> t.ackNr <= EofWith(r, m).value) && t.eof == EofWith(r, m)
    && (t.finReached <==> t.eof == Some(t.ackNr))
    && (forall k :: k in t.held <==> k in r.held && k > t.ackNr) && (forall k :: k in t.held ==> t.held[k] == r.held[k])
    && t.consumed == r.consumed + ([m.data] + HeldRun(r.held, m.num, t.ackNr))
    && (!t.shutdown ==> t.delivered == Flatten(t.consumed)) && (r.shutdown ==> t.delivered == r.delivered)
  }

  lemma TookFirst(r: Rcv, m: Msg, f: Rcv, t: Rcv)
    requires RcvInv(r) && !r.finReached && m.num == r.ackNr + 1 == f.ackNr && f.held == r.held && f.eof == EofWith(r, m)
    requires f.consumed == r.consumed + [m.data] && (r.shutdown ==> f.shutdown && f.delivered == r.delivered)
    requires TookRun(f, t)
    ensures TookWith(r, m, t)
  {
    hide Flatten;
    var run := HeldRun(r.held, m.num, t.ackNr);
    assert (r.consumed + [m.data]) + run == r.consumed + ([m.data] + run);
  }

  lemma TakeNewIs(x: Socket, data: Bytes, read: seq<seq<Call>>)
    requires Shaped(x.snd) && RcvInv(x.rcv) && !x.rcv.finReached && (x.rcv.eof.Some? ==> x.rcv.ackNr + 1 <= x.rcv.eof.value)
    ensures var r, t := x.rcv, TakeNew(x, data, read).rcv;
            && RcvCore(t) && !t.finReached && !t.handing && t.eof == r.eof && t.ackNr == r.ackNr + 1 && t.held == r.held
            && t.consumed == r.consumed + [data] && (r.shutdown ==> t.shutdown && t.delivered == r.delivered)
  {
    hide HandUp, Flatten;
    var h := HandUp(x, data, read).rcv;
    OnlyShutInv(x.rcv, h);
    TakeCore(h, data, !x.rcv.shutdown);
  }

  /**
   * The packet expected next is taken, and with it exactly the packets held without a gap behind it, up to the FIN; all of
   * them are handed up, in order, as long as somebody reads. Reaching the FIN is acknowledged at once, everything else soon.
   */
  lemma InOrderTaken(x: Socket, m: Msg, ring: nat, q: Quota, cb: Callbacks)
    requires Shaped(x.snd) && ring > 0 && RcvInv(x.rcv) && Takes(x, m, ring, q, cb) && m.num == x.rcv.ackNr + 1
    ensures var t := Incoming(x, m, ring, q, cb);
            && TookWith(x.rcv, m, t.rcv) && RcvInv(t.rcv) && t.ackPending
            && (t.rcv.finReached ==> t.outbox != [] && EndAck(t, t.outbox[|t.outbox| - 1]))
  {
    hide ProcessAck, ProcessData, Flatten, TookWith, RcvInv, EndAck;
    var x1 := ProcessAck(x, m, ring, q, cb);
    DataTaken(x1, x.rcv, m, cb);
  }

  lemma DataTaken(x: Socket, r: Rcv, m: Msg, cb: Callbacks)
    requires Shaped(x.snd) && RcvInv(r) && OnlyShut(r, x.rcv) && Open(x.state) && m.kind != State
    requires !r.finReached && m.num == r.ackNr + 1 && (r.eof.Some? ==> m.num <= r.eof.value)
    ensures var t := ProcessData(x, m, 0, cb);
            && TookWith(r, m, t.rcv) && RcvInv(t.rcv) && t.ackPending
            && (t.rcv.finReached ==> t.outbox != [] && EndAck(t, t.outbox[|t.outbox| - 1]))
  {
    hide Drain, TakeNew, Rest, Flatten, TookRun, TookWith, RcvInv, NoteFin, RcvCore, EofWith;
    NotedInv(r, x.rcv, m);
    var x2 := x.(rcv := NoteFin(x.rcv, m));
    TakeNewIs(x2, m.data, cb.read);
    var x3, cb' := TakeNew(x2, m.data, cb.read), cb.(read := Rest(x2, m.data, cb.read));
    DrainTakes(x3, cb');
    TookFirst(r, m, x3.rcv, Drain(x3, cb').rcv);
  }

  lemma NotedInv(r: Rcv, s: Rcv, m: Msg)
    requires RcvInv(r) && OnlyShut(r, s) && !r.finReached && r.ackNr < m.num <= r.ackNr + REORDER_BUFFER_MAX_SIZE
    ensures var t := NoteFin(s, m);
            && RcvInv(t) && t.eof == EofWith(r, m) && t.ackNr == r.ackNr && t.held == r.held && t.consumed == r.consumed
            && t.finReached == r.finReached && t.delivered == r.delivered && (r.shutdown ==> t.shutdown)
            && (r.eof.Some? ==> t.eof == r.eof) && (r.eof.None? && t.eof.Some? ==> t.eof == Some(m.num))
  {
  }

  /** A packet held for later: unless it is held already, or lies across the wrap from a known FIN, which refuses it. */
  predicate Refused(r: Rcv, m: Msg) {
    r.eof.Some? && m.num / M != r.eof.value / M
  }

  /**
   * A packet further ahead is stored under its number with its payload, counted and acknowledged soon, unless it is there
   * already or refused; nothing else changes.
   */
  lemma OutOfOrderHeld(x: Socket, m: Msg, ring: nat, q: Quota, cb: Callbacks)
    requires Shaped(x.snd) && ring > 0 && RcvInv(x.rcv) && Takes(x, m, ring, q, cb) && m.num > x.rcv.ackNr + 1
    ensures var t, r := Incoming(x, m, ring, q, cb).rcv, x.rcv;
            && t.ackNr == r.ackNr && t.eof == EofWith(r, m) && !t.finReached
            && t.consumed == r.consumed && t.delivered == r.delivered
            && if m.num in r.held || Refused(r, m) then t.held == r.held && t.reorder == r.reorder
               else t.held == r.held[m.num := m.data] && t.reorder == r.reorder + 1 && Incoming(x, m, ring, q, cb).ackPending
  {
    hide ProcessAck, Drain, TakeNew, Rest, Flatten, Wrap;
    var x1 := ProcessAck(x, m, ring, q, cb);
    OnlyShutInv(x.rcv, x1.rcv);
    if x.rcv.eof.Some? {
      UtpFin.FinComparison(m.num, x.rcv.eof.value);
    }
  }

  /** The data part by itself. */
  predicate TakesData(x: Socket, m: Msg) {
    && Open(x.state) && m.kind != State && !x.rcv.finReached && (x.rcv.eof.Some? ==> m.num <= x.rcv.eof.value)
    && 0 <= m.num - x.rcv.ackNr - 1 < REORDER_BUFFER_MAX_SIZE
  }

  lemma DataArrives(x: Socket, m: Msg, cb: Callbacks)
    requires Shaped(x.snd) && RcvInv(x.rcv) && TakesData(x, m)
    ensures Received(ProcessData(x, m, m.num - x.rcv.ackNr - 1, cb).rcv, m.num) <==>
            m.num == x.rcv.ackNr + 1 || m.num in x.rcv.held || !Refused(x.rcv, m)
  {
    hide Drain, TakeNew, Rest, Flatten, Wrap;
    if m.num == x.rcv.ackNr + 1 {
      DataTaken(x, x.rcv, m, cb);
    } else if x.rcv.eof.Some? {
      UtpFin.FinComparison(m.num, x.rcv.eof.value);
    }
  }

  /** So every such packet ends up received, except one ahead that is neither held already nor on the FIN's side of the wrap. */
  lemma Arrives(x: Socket, m: Msg, ring: nat, q: Quota, cb: Callbacks)
    requires Shaped(x.snd) && ring > 0 && RcvInv(x.rcv) && Takes(x, m, ring, q, cb)
    ensures Received(Incoming(x, m, ring, q, cb).rcv, m.num) <==>
            m.num == x.rcv.ackNr + 1 || m.num in x.rcv.held || !Refused(x.rcv, m)
  {
    hide Incoming, Open;
    if m.num == x.rcv.ackNr + 1 {
      InOrderTaken(x, m, ring, q, cb);
    } else {
      OutOfOrderHeld(x, m, ring, q, cb);
      HeldNotHanding(x, m, ring, q, cb);
    }
  }

  /** In terms of the connection before: open, or completed by this packet, and with its own FIN not acknowledged. */
  lemma OpenArrives(x: Socket, m: Msg, ring: nat, q: Quota, cb: Callbacks)
    requires Shaped(x.snd) && ring > 0 && RcvInv(x.rcv) && OpenFor(x, m) && !AcksFin(x, m)
    requires m.kind != State && !x.rcv.finReached && (x.rcv.eof.Some? ==> m.num <= x.rcv.eof.value)
    requires 0 <= x.snd.seqNr - 1 - m.ack <= |x.snd.window| + 3 && 0 <= m.num - x.rcv.ackNr - 1 < 1024
    ensures Received(Incoming(x, m, ring, q, cb).rcv, m.num) <==>
            m.num == x.rcv.ackNr + 1 || m.num in x.rcv.held || x.rcv.eof.None? || m.num / 65536 == x.rcv.eof.value / 65536
  {
    hide Incoming, ProcessAck, Received, AcksFin, OpenFor;
    StaysOpen(x, m, ring, q, cb);
    Arrives(x, m, ring, q, cb);
  }

  lemma HeldNotHanding(x: Socket, m: Msg, ring: nat, q: Quota, cb: Callbacks)
    requires Shaped(x.snd) && ring > 0 && RcvInv(x.rcv) && Takes(x, m, ring, q, cb) && m.num > x.rcv.ackNr + 1
    ensures !Incoming(x, m, ring, q, cb).rcv.handing
  {
    hide ProcessAck, Drain, TakeNew, Rest, Flatten, Wrap;
  }

  /** A duplicate changes nothing but is acknowledged again soon; a datagram with any other impossible number is ignored. */
  lemma OthersIgnored(x: Socket, m: Msg, ring: nat, q: Quota, cb: Callbacks)
    requires Shaped(x.snd) && ring > 0
    ensures var offset, behind := m.num - x.rcv.ackNr - 1, x.snd.seqNr - 1 - m.ack;
            !(0 <= behind <= |x.snd.window| + 3 && 0 <= offset < 1024) ==>
              Incoming(x, m, ring, q, cb) ==
              x.(ackPending := x.ackPending || (0 <= behind <= |x.snd.window| + 3 && m.kind != State && -1024 <= offset < 0))
  {
    hide ProcessAck, ProcessData;
  }

  /** On a connection that is over, the peer's FIN, when it is next, is still acknowledged once ours was; nothing else is taken. */
  lemma LateFin(x: Socket, m: Msg, ring: nat, q: Quota, cb: Callbacks)
    requires Shaped(x.snd) && ring > 0 && 0 <= x.snd.seqNr - 1 - m.ack <= |x.snd.window| + 3 && 0 <= m.num - x.rcv.ackNr - 1 < 1024
    requires !Open(ProcessAck(x, m, ring, q, cb).state)
    ensures var p, t := ProcessAck(x, m, ring, q, cb), Incoming(x, m, ring, q, cb);
            if m.kind == Fin && m.num == x.rcv.ackNr + 1 && p.state == Destroy && p.finAcked then
              && t.rcv.ackNr == m.num && t.rcv.held == x.rcv.held && t.rcv.delivered == x.rcv.delivered && t.snd == p.snd
              && |t.outbox| == |p.outbox| + 1 && p.outbox <= t.outbox
              && t.outbox[|p.outbox|].kind == State && t.outbox[|p.outbox|].ack == m.num
            else t == p
  {
    hide ProcessAck, Receive, EackMask;
  }
}
