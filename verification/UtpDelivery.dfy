// The receiving half: in-order delivery, the reorder buffer and the FIN, alone and against the peer's sending half.
module UtpDelivery {
  import opened Common
  import opened SeqSpace
  import opened UtpModel
  import opened UtpInvariant

  // ---------------------------------------------------------------- the reorder buffer on its own

  lemma TakeCore(r: Rcv, data: Bytes, up: bool)
    requires RcvInv(r) && !r.finReached
    requires r.eof.Some? ==> r.ackNr + 1 <= r.eof.value
    requires up ==> r.delivered == Flatten(r.consumed)
    requires !r.shutdown && !up ==> data == []
    ensures RcvCore(Take(r, data, up))
  {
    FlattenSnoc(r.consumed, data);
  }

  lemma LiftCore(r: Rcv)
    requires RcvCore(r) && !r.finReached && !r.handing && r.ackNr + 1 in r.held
    ensures r.reorder > 0
    ensures RcvCore(Lift(r))
  {
    var k := r.ackNr + 1;
    assert (r.held - {k}).Keys == r.held.Keys - {k};
  }

  lemma SettleCore(r: Rcv, data: Bytes, up: bool)
    requires RcvCore(r) && !r.finReached && r.handing && r.ackNr + 1 !in r.held
    requires r.eof != Some(r.ackNr)
    requires up ==> r.delivered == Flatten(r.consumed)
    requires r.shutdown || up
    ensures r.reorder > 0
    ensures RcvCore(Settle(r, data, up))
  {
    FlattenSnoc(r.consumed, data);
  }

  lemma HoldInv(r: Rcv, k: int, data: Bytes)
    requires RcvInv(r) && !r.finReached
    requires r.ackNr + 1 < k <= r.ackNr + REORDER_BUFFER_MAX_SIZE && k !in r.held
    ensures RcvInv(Hold(r, k, data))
  {
    assert r.held[k := data].Keys == r.held.Keys + {k};
  }

  // ---------------------------------------------------------------- when 16 bits are enough

  /** Not so stale that its 16-bit numbers mean something else: neither its own number (64512 packets behind the
      receiver, or as far ahead) nor its ack number (a full turn behind the sender). */
  predicate FreshFor(s: Socket, m: Msg) {
    && -(M - 1024) <= m.num - s.rcv.ackNr - 1 < M - 1024
    && |s.snd.window| + ACK_NR_ALLOWED_WINDOW - M < s.snd.seqNr - 1 - m.ack < M
  }

  /** What the code relies on from its peer around the FIN: nothing new arrives after the FIN was reached, and
      nothing lies behind a FIN. The mask length is a byte count. */
  predicate PeerStopsAtFin(s: Socket, m: Msg) {
    && (s.rcv.finReached && m.kind != State ==> m.num <= s.rcv.ackNr)
    && (m.kind == Fin ==> m.num + 1 !in s.rcv.held && (s.rcv.eof.Some? ==> m.num <= s.rcv.eof.value))
    && (m.eack.Some? ==> |m.eack.value| <= 8 * 255)
  }

  // ---------------------------------------------------------------- against the peer

  lemma TakeLink(s: Snd, r: Rcv, m: Msg, up: bool)
    requires Link(s, r) && !r.handing && SentOk(s, m) && m.kind != State && m.num == r.ackNr + 1
    ensures Link(s, Take(r, m.data, up))
    ensures !r.finReached && (r.eof.Some? ==> r.ackNr + 1 <= r.eof.value)
  {
    var t := Take(r, m.data, up);
    assert t.consumed <= s.written;
    forall i | 0 <= i < |s.window|
      ensures (s.window[i].None? ==> Received(t, Head(s) + i)) && (Received(t, Head(s) + i) ==> !Unsent(s.window[i]))
    {
      assert Received(t, Head(s) + i) ==> Received(r, Head(s) + i) || Head(s) + i == m.num;
    }
  }

  lemma LiftLink(s: Snd, r: Rcv)
    requires Link(s, r) && !r.finReached && r.ackNr + 1 in r.held
    ensures Link(s, Lift(r))
    ensures Base(s) <= r.ackNr + 1 < s.seqNr && r.held[r.ackNr + 1] == s.written[r.ackNr + 1 - Base(s)]
  {
    SameReceived(s, r, Lift(r));
  }

  lemma SettleLink(s: Snd, r: Rcv, data: Bytes, up: bool)
    requires Link(s, r) && r.handing && !r.finReached && r.reorder > 0
    requires Base(s) <= r.ackNr + 1 < s.seqNr && data == s.written[r.ackNr + 1 - Base(s)]
    ensures Link(s, Settle(r, data, up))
  {
    var t := Settle(r, data, up);
    assert t.consumed <= s.written;
    SameReceived(s, r, t);
  }

  /** The clause of Link about the window looks only at which packets were received. */
  lemma SameReceived(s: Snd, r: Rcv, t: Rcv)
    requires Link(s, r) && forall k :: Received(t, k) <==> Received(r, k)
    ensures forall i :: 0 <= i < |s.window| ==>
              && (s.window[i].None? ==> Received(t, Head(s) + i))
              && (Received(t, Head(s) + i) ==> !Unsent(s.window[i]))
  {
    forall i | 0 <= i < |s.window|
      ensures (s.window[i].None? ==> Received(t, Head(s) + i)) && (Received(t, Head(s) + i) ==> !Unsent(s.window[i]))
    {
      assert Received(t, Head(s) + i) <==> Received(r, Head(s) + i);
    }
  }

  lemma HoldLink(s: Snd, r: Rcv, m: Msg)
    requires Link(s, r) && SentOk(s, m) && m.kind != State && m.num > r.ackNr
    ensures Link(s, Hold(r, m.num, m.data))
    ensures !r.finReached
  {
    var t := Hold(r, m.num, m.data);
    forall i | 0 <= i < |s.window|
      ensures (s.window[i].None? ==> Received(t, Head(s) + i)) && (Received(t, Head(s) + i) ==> !Unsent(s.window[i]))
    {
      assert Received(t, Head(s) + i) <==> Received(r, Head(s) + i) || Head(s) + i == m.num;
    }
  }

  lemma NoteFinLink(s: Snd, r: Rcv, m: Msg)
    requires Link(s, r) && SentOk(s, m) && r.ackNr < m.num <= r.ackNr + REORDER_BUFFER_MAX_SIZE && RcvInv(r)
    ensures Link(s, NoteFin(r, m)) && RcvInv(NoteFin(r, m))
  {
  }

  lemma FinReachedLink(s: Snd, r: Rcv)
    requires Link(s, r) && r.eof == Some(r.ackNr) && RcvCore(r) && !r.handing
    ensures var t := r.(finReached := true); Link(s, t) && RcvCore(t) && RcvInv(t.(reorder := 0))
  {
  }

  lemma ReorderKeeps(x: Socket, y: Socket)
    requires Pair(x, y) && x.rcv.finReached
    ensures Pair(x.(rcv := x.rcv.(reorder := 0)), y)
  {
    hide SndCore, OutOk;
    var r := x.rcv.(reorder := 0);
    AcksFrame(x.rcv, r, x.outbox);
    assert Link(y.snd, r);
    RcvKeeps(x, y, r);
  }

  lemma ReachFinKeeps(x: Socket, y: Socket, cb: Callbacks)
    requires Pair(x, y) && Callable(x) && x.rcv.eof == Some(x.rcv.ackNr) && !x.rcv.handing
    ensures Shaped(x.snd)
    ensures Pair(ReachFin(x, cb), y) && Settled(ReachFin(x, cb))
  {
    hide Pair, Link, RcvCore, AcksOk, OutOk, HeadLive, DoCalls, Flatten;
    PairCore(x, y);
    PairShape(x, y);
    var r := x.rcv.(finReached := true);
    FinReachedLink(y.snd, x.rcv);
    AcksFrame(x.rcv, r, x.outbox);
    RcvKeeps(x, y, r);
    var x1 := x.(rcv := r);
    CallsKeep(x1, y, cb.eof);
    var x2 := DoCalls(x1, cb.eof);
    SendAckKeeps(x2, y, 0);
    ReorderKeeps(SendAck(x2, 0), y);
    OnlyShutInv(r.(reorder := 0), x2.rcv.(reorder := 0));
  }

  lemma HandUpKeeps(x: Socket, y: Socket, data: Bytes, read: seq<seq<Call>>)
    requires Pair(x, y) && Callable(x)
    ensures Shaped(x.snd)
    ensures Pair(HandUp(x, data, read), y) && Callable(HandUp(x, data, read))
  {
    hide Pair, Callable, DoCalls;
    PairShape(x, y);
    if data != [] && !x.rcv.shutdown && read != [] {
      CallsKeep(x, y, read[0]);
    }
  }

  lemma LiftKeeps(x: Socket, y: Socket)
    requires Pair(x, y) && !x.rcv.finReached && !x.rcv.handing && x.rcv.ackNr + 1 in x.rcv.held
    ensures x.rcv.reorder > 0 && Pair(x.(rcv := Lift(x.rcv)), y)
    ensures var k := x.rcv.ackNr + 1;
            Base(y.snd) <= k < y.snd.seqNr && Shaped(y.snd) && x.rcv.held[k] == y.snd.written[k - Base(y.snd)]
  {
    hide SndCore, OutOk, Link, AcksOk;
    LiftCore(x.rcv);
    LiftLink(y.snd, x.rcv);
    LinkShape(y.snd, x.rcv);
    AcksFrame(x.rcv, Lift(x.rcv), x.outbox);
    RcvKeeps(x, y, Lift(x.rcv));
  }

  lemma LinkShape(s: Snd, r: Rcv)
    requires Link(s, r)
    ensures Shaped(s)
  {
  }

  lemma SettleKeeps(x: Socket, y: Socket, data: Bytes, up: bool)
    requires Pair(x, y) && x.rcv.handing && !x.rcv.finReached && x.rcv.ackNr + 1 !in x.rcv.held
    requires x.rcv.eof != Some(x.rcv.ackNr) && (x.rcv.shutdown || up)
    requires up ==> x.rcv.delivered == Flatten(x.rcv.consumed)
    requires Shaped(y.snd) && Base(y.snd) <= x.rcv.ackNr + 1 < y.snd.seqNr
    requires data == y.snd.written[x.rcv.ackNr + 1 - Base(y.snd)]
    ensures x.rcv.reorder > 0 && Pair(x.(rcv := Settle(x.rcv, data, up)), y)
  {
    hide SndCore, OutOk, Link, AcksOk;
    SettleCore(x.rcv, data, up);
    SettleLink(y.snd, x.rcv, data, up);
    AcksFrame(x.rcv, Settle(x.rcv, data, up), x.outbox);
    RcvKeeps(x, y, Settle(x.rcv, data, up));
  }

  lemma RcvDelivered(x: Socket, y: Socket)
    requires Pair(x, y) && !x.rcv.shutdown
    ensures x.rcv.delivered == Flatten(x.rcv.consumed)
  {
  }

  /** A held packet is handed up and counted, whatever its callback does in between. */
  lemma TakeHeldKeeps(x: Socket, y: Socket, read: seq<seq<Call>>)
    requires Pair(x, y) && Callable(x) && !x.rcv.finReached && !x.rcv.handing && x.rcv.eof != Some(x.rcv.ackNr)
    requires x.rcv.ackNr + 1 in x.rcv.held
    ensures Shaped(x.snd) && x.rcv.reorder > 0
    ensures var t := TakeHeld(x, read); Pair(t, y) && Callable(t) && !t.rcv.finReached && !t.rcv.handing
  {
    hide Pair, HandUp, HeadLive, Flatten;
    PairShape(x, y);
    LiftKeeps(x, y);
    var data := x.rcv.held[x.rcv.ackNr + 1];
    var x1 := x.(rcv := Lift(x.rcv));
    HandUpKeeps(x1, y, data, read);
    if !x.rcv.shutdown {
      RcvDelivered(x, y);
    }
    SettleKeeps(HandUp(x1, data, read), y, data, !x.rcv.shutdown);
  }

  lemma {:induction false} DrainKeeps(x: Socket, y: Socket, cb: Callbacks)
    requires Pair(x, y) && Callable(x) && !x.rcv.finReached && !x.rcv.handing
    ensures Shaped(x.snd)
    ensures Pair(Drain(x, cb), y) && Settled(Drain(x, cb))
    decreases x.rcv.reorder
  {
    hide Pair, Callable, ReachFin, TakeHeld, Rest;
    PairShape(x, y);
    if x.rcv.eof == Some(x.rcv.ackNr) {
      ReachFinKeeps(x, y, cb);
    } else if x.rcv.ackNr + 1 in x.rcv.held {
      TakeHeldKeeps(x, y, cb.read);
      DrainKeeps(TakeHeld(x, cb.read), y, cb.(read := Rest(x, x.rcv.held[x.rcv.ackNr + 1], cb.read)));
    } else {
      PairCore(x, y);
    }
  }

  lemma PairCore(x: Socket, y: Socket)
    requires Pair(x, y)
    ensures RcvCore(x.rcv) && AcksOk(x.rcv, x.outbox) && Link(y.snd, x.rcv) && OutOk(x.snd, x.outbox) && SndCore(x.snd)
  {
    hide RcvCore, SndCore, OutOk, AcksOk, Link;
  }

  lemma TakeKeeps(x: Socket, y: Socket, m: Msg, up: bool)
    requires Pair(x, y) && RcvInv(x.rcv) && SentOk(y.snd, m) && m.kind != State && m.num == x.rcv.ackNr + 1
    requires up ==> x.rcv.delivered == Flatten(x.rcv.consumed)
    requires !x.rcv.shutdown && !up ==> m.data == []
    ensures Pair(x.(rcv := Take(x.rcv, m.data, up)), y) && !x.rcv.finReached
  {
    hide SndCore, OutOk, Link, AcksOk, SentOk;
    TakeLink(y.snd, x.rcv, m, up);
    TakeCore(x.rcv, m.data, up);
    AcksFrame(x.rcv, Take(x.rcv, m.data, up), x.outbox);
    RcvKeeps(x, y, Take(x.rcv, m.data, up));
  }

  /** An in-order packet is handed up and counted, whatever its callback does in between. */
  lemma TakeNewKeeps(x: Socket, y: Socket, m: Msg, read: seq<seq<Call>>)
    requires Pair(x, y) && Settled(x) && SentOk(y.snd, m) && m.kind != State && m.num == x.rcv.ackNr + 1
    ensures Shaped(x.snd)
    ensures var t := TakeNew(x, m.data, read); Pair(t, y) && Callable(t) && !t.rcv.finReached && !t.rcv.handing
  {
    hide Pair, HandUp, HeadLive, Flatten, SentOk, RcvCore;
    PairShape(x, y);
    HandUpKeeps(x, y, m.data, read);
    var x1 := HandUp(x, m.data, read);
    OnlyShutInv(x.rcv, x1.rcv);
    if !x.rcv.shutdown {
      RcvDelivered(x, y);
    }
    TakeKeeps(x1, y, m, !x.rcv.shutdown);
  }

  lemma HoldKeeps(x: Socket, y: Socket, m: Msg)
    requires Pair(x, y) && RcvInv(x.rcv) && SentOk(y.snd, m) && m.kind != State
    requires x.rcv.ackNr + 1 < m.num <= x.rcv.ackNr + REORDER_BUFFER_MAX_SIZE && m.num !in x.rcv.held
    ensures Pair(x.(rcv := Hold(x.rcv, m.num, m.data)), y) && RcvInv(Hold(x.rcv, m.num, m.data))
  {
    hide SndCore, OutOk, Link, AcksOk;
    HoldLink(y.snd, x.rcv, m);
    HoldInv(x.rcv, m.num, m.data);
    AcksFrame(x.rcv, Hold(x.rcv, m.num, m.data), x.outbox);
    RcvKeeps(x, y, Hold(x.rcv, m.num, m.data));
  }

  /** A FIN that arrives in order is the last packet: nothing is held behind it. */
  lemma LastTakeInv(s: Snd, r: Rcv, m: Msg)
    requires Link(s, r) && SentOk(s, m) && m.kind == Fin && m.num == r.ackNr + 1 && !r.handing
    requires RcvCore(Take(r, m.data, false)) && (r.finReached ==> r.reorder == 0)
    ensures RcvInv(Take(r, m.data, false))
  {
  }

  lemma BumpKeeps(x: Socket, y: Socket, m: Msg)
    requires Pair(x, y) && Settled(x) && SentOk(y.snd, m) && m.kind == Fin && m.num == x.rcv.ackNr + 1
    ensures var t := SendAck(x.(rcv := Take(x.rcv, [], false)), 0); Pair(t, y) && Settled(t)
  {
    hide Pair, Link, RcvCore, SentOk, Flatten, HeadLive;
    PairCore(x, y);
    FinEmpty(y.snd, m);
    TakeKeeps(x, y, m, false);
    var x1 := x.(rcv := Take(x.rcv, m.data, false));
    PairCore(x1, y);
    LastTakeInv(y.snd, x.rcv, m);
    SendAckKeeps(x1, y, 0);
  }

  lemma FinEmpty(s: Snd, m: Msg)
    requires SentOk(s, m) && m.kind == Fin
    ensures m.data == []
  {
  }

  lemma HoldSettled(x: Socket, y: Socket, m: Msg)
    requires Pair(x, y) && Settled(x) && SentOk(y.snd, m) && m.kind != State
    requires x.rcv.ackNr + 1 < m.num <= x.rcv.ackNr + REORDER_BUFFER_MAX_SIZE && m.num !in x.rcv.held
    ensures var t := x.(rcv := Hold(x.rcv, m.num, m.data), ackPending := true); Pair(t, y) && Settled(t)
  {
    hide Pair, RcvInv, SentOk, Flatten, HeadLive;
    HoldKeeps(x, y, m);
    var x1 := x.(rcv := Hold(x.rcv, m.num, m.data));
    PairReported(x1, y);
    HistoryKeeps(x1, y, x1.accepted, x1.reported, true);
  }

  lemma PendingSettled(x: Socket, y: Socket)
    requires Pair(x, y) && Settled(x)
    ensures Pair(x.(ackPending := true), y) && Settled(x.(ackPending := true))
  {
    hide Pair, RcvInv, Flatten, HeadLive;
    PairReported(x, y);
    HistoryKeeps(x, y, x.accepted, x.reported, true);
  }

  lemma ReceiveKeeps(x: Socket, y: Socket, m: Msg, offset: nat, cb: Callbacks)
    requires Pair(x, y) && Settled(x) && SentOk(y.snd, m) && m.kind != State
    requires offset == m.num - x.rcv.ackNr - 1 && offset < REORDER_BUFFER_MAX_SIZE
    ensures Shaped(x.snd)
    ensures var t := Receive(x, m, offset, cb); Pair(t, y) && Settled(t)
  {
    hide Pair, Settled, Drain, SentOk, TakeNew, Rest, Wrap, Hold;
    PairShape(x, y);
    if offset == 0 {
      TakeNewKeeps(x, y, m, cb.read);
      var x1, cb1 := TakeNew(x, m.data, cb.read), cb.(read := Rest(x, m.data, cb.read));
      DrainKeeps(x1, y, cb1);
      PendingSettled(Drain(x1, cb1), y);
    } else if m.num !in x.rcv.held {
      HoldSettled(x, y, m);
    }
  }

  /** The data part of a datagram hands up exactly the peer's next payloads. */
  lemma ProcessDataKeeps(x: Socket, y: Socket, m: Msg, offset: nat, cb: Callbacks)
    requires Pair(x, y) && Settled(x) && SentOk(y.snd, m)
    requires offset == m.num - x.rcv.ackNr - 1 && offset < REORDER_BUFFER_MAX_SIZE
    ensures Shaped(x.snd)
    ensures var t := ProcessData(x, m, offset, cb); Pair(t, y) && Settled(t)
  {
    hide Pair, Settled, Receive, SentOk, SendAck, Take;
    PairShape(x, y);
    if m.kind == State {
    } else if Open(x.state) {
      NoteFinKeeps(x, y, m);
      ReceiveKeeps(x.(rcv := NoteFin(x.rcv, m)), y, m, offset, cb);
    } else if x.finAcked && x.state == Destroy && offset == 0 && m.kind == Fin {
      BumpKeeps(x, y, m);
    }
  }

  lemma NoteFinKeeps(x: Socket, y: Socket, m: Msg)
    requires Pair(x, y) && Settled(x) && SentOk(y.snd, m)
    requires x.rcv.ackNr < m.num <= x.rcv.ackNr + REORDER_BUFFER_MAX_SIZE
    ensures var t := x.(rcv := NoteFin(x.rcv, m)); Pair(t, y) && Settled(t)
  {
    hide Pair, Link, SentOk, AcksOk, OutOk, SndCore, HeadLive, Flatten;
    PairCore(x, y);
    NoteFinLink(y.snd, x.rcv, m);
    AcksFrame(x.rcv, NoteFin(x.rcv, m), x.outbox);
    RcvKeeps(x, y, NoteFin(x.rcv, m));
  }

  /** One whole incoming datagram, taken from anything the peer ever emitted, with everything its callbacks do. */
  lemma IncomingKeeps(x: Socket, y: Socket, m: Msg, ring: nat, q: Quota, cb: Callbacks)
    requires ring > 0 && Pair(x, y) && Settled(x) && RcvInv(y.rcv)
    requires AckOk(y.rcv, m) && SentOk(y.snd, m)
    ensures Shaped(x.snd)
    ensures var t := Incoming(x, m, ring, q, cb); Pair(t, y) && Settled(t)
  {
    hide Pair, Settled, RcvInv, AckOk, SentOk, ProcessAck, ProcessData;
    PairShape(x, y);
    PendingSettled(x, y);
    ProcessAckKeeps(x, y, m, ring, q, cb);
    var offset := m.num - x.rcv.ackNr - 1;
    if 0 <= offset < REORDER_BUFFER_MAX_SIZE {
      ProcessDataKeeps(ProcessAck(x, m, ring, q, cb), y, m, offset, cb);
    }
  }
}
