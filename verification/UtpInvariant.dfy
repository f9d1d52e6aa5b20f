// What every operation of a uTP socket keeps, alone and against its peer.
module UtpInvariant {
  import opened Common
  import opened SeqSpace
  import opened UtpModel

  // ---------------------------------------------------------------- the invariants

  /** Index in `written` of the oldest window slot. */
  function Off(s: Snd): int {
    |s.written| - |s.window|
  }

  /** True number of the first packet ever queued. */
  function Base(s: Snd): int {
    s.seqNr - |s.written|
  }

  predicate SlotOk(s: Snd, i: nat)
    requires Shaped(s) && i < |s.window|
  {
    && s.sizes[i] == |s.written[Off(s) + i]|
    && (s.window[i].Some? ==>
          var p := s.window[i].value;
          && p.data == s.written[Off(s) + i]
          && (p.needResend ==> p.transmissions > 0)
          && (p.fin ==> s.finSent && i == |s.window| - 1 && p.data == []))
  }

  /** check_invariant and the byte accounting: cur_window is the sum over the packets in flight,
      and the popped bytes are exactly the payloads of the packets that left the window. */
  ghost predicate SndCore(s: Snd) {
    && Shaped(s)
    && |s.window| <= OUTGOING_BUFFER_MAX_SIZE - 1 + (if s.finSent then 1 else 0)
    && s.curWindow == InFlightSum(s.window)
    && (forall i :: 0 <= i < |s.window| ==> SlotOk(s, i))
    && s.popped == |Flatten(s.written[..Off(s)])|
  }

  /** "this invariant should always be true": the oldest packet of a non-empty window is still there. */
  predicate HeadLive(s: Snd) {
    s.window != [] ==> s.window[0].Some?
  }

  predicate Received(r: Rcv, k: int) {
    k <= r.ackNr || k in r.held || (r.handing && k == r.ackNr + 1)
  }

  /** The reorder buffer while an in-order packet is being worked off. */
  ghost predicate RcvCore(r: Rcv) {
    && (forall k :: k in r.held ==> r.ackNr + 1 <= k <= r.ackNr + REORDER_BUFFER_MAX_SIZE)
    && (!r.finReached ==> r.reorder == |r.held| + (if r.handing then 1 else 0))
    && (r.eof.Some? && !r.finReached ==> r.ackNr <= r.eof.value <= r.ackNr + REORDER_BUFFER_MAX_SIZE)
    && r.delivered <= Flatten(r.consumed)
    && (!r.shutdown ==> r.delivered == Flatten(r.consumed))
  }

  /** Whenever the upper layer may call, the slot of the next expected packet is empty. */
  ghost predicate RcvOpen(r: Rcv) {
    RcvCore(r) && (!r.finReached ==> r.ackNr + 1 !in r.held)
  }

  predicate Idle(r: Rcv) {
    !r.handing && (r.finReached ==> r.reorder == 0)
  }

  /** Between packets, and until the FIN is reached, the next expected packet is not held: reorder_count counts
      exactly the packets waiting beyond it. */
  ghost predicate RcvInv(r: Rcv) {
    RcvOpen(r) && Idle(r)
  }

  /** A data or FIN datagram carries the final payload of a packet that was really transmitted. */
  predicate SentOk(s: Snd, m: Msg) {
    && m.num <= s.seqNr
    && (m.kind != State ==>
          && Base(s) <= m.num < s.seqNr
          && m.data == s.written[m.num - Base(s)]
          && (Head(s) <= m.num && |s.window| <= |s.written| ==> !Unsent(s.window[m.num - Head(s)]))
          && (m.kind == Fin ==> s.finSent && m.num == s.seqNr - 1 && m.data == []))
  }

  ghost predicate OutOk(s: Snd, outbox: seq<Msg>) {
    forall m :: m in outbox ==> SentOk(s, m)
  }

  /** A datagram only acknowledges packets that arrived. */
  predicate AckOk(r: Rcv, m: Msg) {
    && m.ack <= r.ackNr
    && (m.eack.Some? ==>
          && |m.eack.value| == 32
          && forall i :: 0 <= i < |m.eack.value| && m.eack.value[i] ==> Received(r, m.ack + 2 + i))
  }

  ghost predicate AcksOk(r: Rcv, outbox: seq<Msg>) {
    forall m :: m in outbox ==> AckOk(r, m)
  }

  predicate Dead(st: ConnState) {
    st == Reset || st == Destroy
  }

  /** Everything a socket keeps on its own, except the clauses that are broken and restored within one call. */
  ghost predicate Good(x: Socket) {
    && SndCore(x.snd)
    && RcvCore(x.rcv)
    && OutOk(x.snd, x.outbox)
    && AcksOk(x.rcv, x.outbox)
    && x.reported <= x.snd.popped
    && 0 <= x.fastResend < M
  }

  /** What a sending half and the peer's receiving half keep between them. */
  ghost predicate Link(s: Snd, r: Rcv) {
    && Shaped(s)
    && Base(s) == r.ackNr + 1 - |r.consumed|
    && r.consumed <= s.written
    && (forall k :: k in r.held ==> Base(s) <= k < s.seqNr && r.held[k] == s.written[k - Base(s)])
    && Head(s) - 1 <= r.ackNr
    && (r.handing ==> r.ackNr + 1 < s.seqNr)
    && (forall i :: 0 <= i < |s.window| ==>
          && (s.window[i].None? ==> Received(r, Head(s) + i))
          && (Received(r, Head(s) + i) ==> !Unsent(s.window[i])))
    && (r.eof.Some? ==> s.finSent && r.eof.value == s.seqNr - 1 && s.written != [] && s.written[|s.written| - 1] == [])
    && (r.finReached ==> r.eof == Some(r.ackNr))
  }

  /** Socket x together with its peer y, as far as a step of x can affect it. */
  ghost predicate Pair(x: Socket, y: Socket) {
    Good(x) && Link(x.snd, y.rcv) && Link(y.snd, x.rcv)
  }

  /** Every byte that left the window of a live connection has been reported, once. */
  predicate Reports(x: Socket) {
    && (x.state == SynRecv ==> x.snd.window == [])
    && (!Dead(x.state) ==> x.reported == x.snd.popped)
  }

  predicate Calm(x: Socket) {
    HeadLive(x.snd) && Reports(x)
  }

  /** What holds whenever the upper layer may call, also from within one of its callbacks. */
  ghost predicate Callable(x: Socket) {
    Calm(x) && x.accepted == Flatten(x.snd.written)
  }

  /** The clauses Good leaves out, which hold again whenever a call returns. */
  ghost predicate Settled(x: Socket) {
    Callable(x) && RcvInv(x.rcv)
  }

  // ---------------------------------------------------------------- arithmetic of cur_window

  lemma {:induction false} InFlightUpdate(w: seq<Slot>, i: nat, o: Slot)
    requires i < |w|
    ensures InFlightSum(w[i := o]) == InFlightSum(w) - InFlight(w[i]) + InFlight(o)
    ensures InFlightSum(w) >= InFlight(w[i])
  {
    if i == 0 {
      assert w[0 := o][1..] == w[1..];
    } else {
      assert w[i := o][1..] == w[1..][i - 1 := o];
      InFlightUpdate(w[1..], i - 1, o);
    }
  }

  lemma {:induction false} InFlightAppend(w: seq<Slot>, o: Slot)
    ensures InFlightSum(w + [o]) == InFlightSum(w) + InFlight(o)
  {
    if w == [] {
      assert w + [o] == [o];
    } else {
      assert (w + [o])[1..] == w[1..] + [o];
      InFlightAppend(w[1..], o);
    }
  }

  lemma {:induction false} InFlightNone(w: seq<Slot>)
    requires forall i :: 0 <= i < |w| ==> InFlight(w[i]) == 0
    ensures InFlightSum(w) == 0
  {
    if w != [] {
      InFlightNone(w[1..]);
    }
  }

  // ---------------------------------------------------------------- steps that keep the window's extent

  /** From s to t no packet is queued, changed or dropped, and no packet becomes unsent. */
  ghost predicate Settles(s: Snd, t: Snd) {
    && t.seqNr == s.seqNr && t.written == s.written && |t.window| == |s.window| && t.sizes == s.sizes
    && t.finSent == s.finSent && t.popped == s.popped
    && (forall i :: 0 <= i < |s.window| ==> (!Unsent(s.window[i]) ==> !Unsent(t.window[i])))
  }

  /** Slots only lose their packet or its flags; payloads stay. */
  predicate SlotSettles(o: Slot, p: Slot) {
    p.Some? ==>
      && o.Some? && p.value.data == o.value.data && p.value.fin == o.value.fin
      && (p.value.needResend ==> p.value.transmissions > 0)
  }

  lemma CoreFrame(s: Snd, t: Snd)
    requires SndCore(s) && Settles(s, t)
    requires t.curWindow == InFlightSum(t.window)
    requires forall i :: 0 <= i < |s.window| ==> SlotSettles(s.window[i], t.window[i])
    ensures SndCore(t)
  {
    forall i | 0 <= i < |t.window| ensures SlotOk(t, i) {
      assert SlotOk(s, i) && SlotSettles(s.window[i], t.window[i]);
    }
  }

  lemma OutFrame(s: Snd, t: Snd, outbox: seq<Msg>)
    requires OutOk(s, outbox) && Settles(s, t)
    ensures OutOk(t, outbox)
  {
    forall m | m in outbox ensures SentOk(t, m) {
      assert SentOk(s, m);
    }
  }

  lemma LinkFrame(s: Snd, t: Snd, r: Rcv)
    requires Link(s, r) && Settles(s, t)
    requires forall i :: 0 <= i < |t.window| ==> (t.window[i].None? ==> s.window[i].None? || Received(r, Head(s) + i))
    ensures Link(t, r)
  {
  }

  lemma CoreTransmit(s: Snd, i: nat)
    requires SndCore(s)
    requires i < |s.window| && s.window[i].Some?
    ensures SndCore(SndTransmit(s, i)) && Settles(s, SndTransmit(s, i))
  {
    var t := SndTransmit(s, i);
    InFlightUpdate(s.window, i, t.window[i]);
    assert SlotOk(s, i);
    forall j | 0 <= j < |s.window| ensures SlotSettles(s.window[j], t.window[j]) {
      assert SlotOk(s, j);
    }
    CoreFrame(s, t);
  }

  lemma OutSnoc(s: Snd, r: Rcv, outbox: seq<Msg>, m: Msg)
    requires OutOk(s, outbox) && AcksOk(r, outbox) && SentOk(s, m) && AckOk(r, m)
    ensures OutOk(s, outbox + [m]) && AcksOk(r, outbox + [m])
  {
  }

  lemma TransmitMsgOk(s: Snd, r: Rcv, i: nat)
    requires SndCore(s) && i < |s.window| && s.window[i].Some?
    ensures var m := Msg(KindOf(s.window[i].value), Head(s) + i, r.ackNr, None, s.window[i].value.data);
            SentOk(SndTransmit(s, i), m) && AckOk(r, m)
  {
    assert SlotOk(s, i);
  }

  lemma TransmitKeeps(x: Socket, y: Socket, i: nat)
    requires Pair(x, y)
    requires i < |x.snd.window| && x.snd.window[i].Some?
    ensures Pair(Transmit(x, i), y)
    ensures HeadLive(x.snd) ==> HeadLive(Transmit(x, i).snd)
  {
    hide SndCore, OutOk, Link, RcvCore, AcksOk, SentOk, AckOk;
    var s, t := x.snd, SndTransmit(x.snd, i);
    CoreTransmit(s, i);
    OutFrame(s, t, x.outbox);
    LinkFrame(s, t, y.rcv);
    TransmitMsgOk(s, x.rcv, i);
    OutSnoc(t, x.rcv, x.outbox, Msg(KindOf(s.window[i].value), Head(s) + i, x.rcv.ackNr, None, s.window[i].value.data));
  }

  lemma SendAckKeeps(x: Socket, y: Socket, back: nat)
    requires Pair(x, y)
    ensures Pair(SendAck(x, back), y)
    ensures var t := SendAck(x, back);
            && t.snd == x.snd && t.rcv == x.rcv && t.state == x.state && t.accepted == x.accepted
            && t.reported == x.reported
  {
    hide SndCore, OutOk, Link, RcvCore, AcksOk;
    var m := SendAck(x, back).outbox[|x.outbox|];
    assert SentOk(x.snd, m) && AckOk(x.rcv, m);
    OutSnoc(x.snd, x.rcv, x.outbox, m);
  }

  lemma LoseAllKeeps(x: Socket, y: Socket)
    requires Pair(x, y)
    ensures Pair(x.(snd := SndLoseAll(x.snd)), y)
  {
    hide OutOk, Link, RcvCore, AcksOk;
    var s, t := x.snd, SndLoseAll(x.snd);
    InFlightNone(t.window);
    forall j | 0 <= j < |s.window| ensures SlotSettles(s.window[j], t.window[j]) {
      assert SlotOk(s, j);
    }
    CoreFrame(s, t);
    OutFrame(s, t, x.outbox);
    LinkFrame(s, t, y.rcv);
  }

  lemma CoreAck(s: Snd, i: nat)
    requires SndCore(s)
    requires i < |s.window| && s.window[i].Some? && !Unsent(s.window[i])
    ensures SndCore(SndAck(s, i)) && Settles(s, SndAck(s, i))
    ensures SndAck(s, i).curWindow >= 0
  {
    var t := SndAck(s, i);
    InFlightUpdate(s.window, i, None);
    assert SlotOk(s, i);
    forall j | 0 <= j < |s.window| ensures SlotSettles(s.window[j], t.window[j]) {
      assert SlotOk(s, j);
    }
    CoreFrame(s, t);
  }

  lemma AckKeeps(x: Socket, y: Socket, i: nat)
    requires Pair(x, y)
    requires i < |x.snd.window| && x.snd.window[i].Some? && !Unsent(x.snd.window[i])
    requires Received(y.rcv, Head(x.snd) + i)
    ensures Pair(x.(snd := SndAck(x.snd, i)), y)
  {
    hide SndCore, OutOk, Link, RcvCore, AcksOk;
    var s, t := x.snd, SndAck(x.snd, i);
    CoreAck(s, i);
    OutFrame(s, t, x.outbox);
    LinkFrame(s, t, y.rcv);
  }

  // ---------------------------------------------------------------- steps that move the window

  lemma PopCore(s: Snd)
    requires SndCore(s)
    requires s.window != [] && s.window[0].None?
    ensures SndCore(SndPop(s))
  {
    var t := SndPop(s);
    assert SlotOk(s, 0);
    assert s.written[..Off(s) + 1] == s.written[..Off(s)] + [s.written[Off(s)]];
    FlattenSnoc(s.written[..Off(s)], s.written[Off(s)]);
    forall i | 0 <= i < |t.window| ensures SlotOk(t, i) {
      assert SlotOk(s, i + 1);
    }
  }

  lemma PopLink(s: Snd, r: Rcv)
    requires Link(s, r)
    requires s.window != [] && Head(s) <= r.ackNr
    ensures Link(SndPop(s), r)
  {
    var t := SndPop(s);
    forall i | 0 <= i < |t.window|
      ensures (t.window[i].None? ==> Received(r, Head(t) + i)) && (Received(r, Head(t) + i) ==> !Unsent(t.window[i]))
    {
      assert t.window[i] == s.window[i + 1];
    }
  }

  lemma PopOut(s: Snd, outbox: seq<Msg>)
    requires Shaped(s) && s.window != [] && OutOk(s, outbox)
    ensures OutOk(SndPop(s), outbox)
  {
    var t := SndPop(s);
    forall m | m in outbox ensures SentOk(t, m) {
      assert SentOk(s, m);
      assert m.kind != State && Head(t) <= m.num ==> t.window[m.num - Head(t)] == s.window[m.num - Head(s)];
    }
  }

  lemma PopKeeps(x: Socket, y: Socket)
    requires Pair(x, y)
    requires x.snd.window != [] && x.snd.window[0].None?
    requires Head(x.snd) <= y.rcv.ackNr
    ensures Pair(x.(snd := SndPop(x.snd)), y)
  {
    hide SndCore, OutOk, Link, RcvCore, AcksOk;
    assert Shaped(x.snd) by { CoreShape(x.snd); }
    PopCore(x.snd);
    PopOut(x.snd, x.outbox);
    PopLink(x.snd, y.rcv);
  }

  lemma CoreShape(s: Snd)
    requires SndCore(s)
    ensures Shaped(s)
  {
  }

  lemma AppendCore(s: Snd, data: Bytes, fin: bool)
    requires SndCore(s)
    requires |s.window| < OUTGOING_BUFFER_MAX_SIZE - 1 + (if s.finSent then 1 else 0)
    requires forall i :: 0 <= i < |s.window| ==> s.window[i].Some? ==> !s.window[i].value.fin
    requires fin ==> s.finSent && data == []
    ensures SndCore(SndAppend(s, data, fin))
  {
    var t := SndAppend(s, data, fin);
    InFlightAppend(s.window, t.window[|s.window|]);
    assert t.written[..Off(t)] == s.written[..Off(s)];
    forall i | 0 <= i < |t.window| ensures SlotOk(t, i) {
      if i < |s.window| {
        assert SlotOk(s, i);
      }
    }
  }

  lemma AppendLink(s: Snd, r: Rcv, data: Bytes, fin: bool)
    requires Link(s, r) && r.eof.None?
    ensures Link(SndAppend(s, data, fin), r)
  {
    var t := SndAppend(s, data, fin);
    assert r.consumed <= t.written;
    assert !Received(r, s.seqNr);
    forall i | 0 <= i < |t.window|
      ensures (t.window[i].None? ==> Received(r, Head(t) + i)) && (Received(r, Head(t) + i) ==> !Unsent(t.window[i]))
    {
      assert i < |s.window| ==> t.window[i] == s.window[i];
    }
  }

  lemma AppendOut(s: Snd, outbox: seq<Msg>, data: Bytes, fin: bool)
    requires Shaped(s) && OutOk(s, outbox)
    requires forall m :: m in outbox ==> m.kind != Fin
    ensures OutOk(SndAppend(s, data, fin), outbox)
  {
    var t := SndAppend(s, data, fin);
    forall m | m in outbox ensures SentOk(t, m) {
      assert SentOk(s, m);
    }
  }

  lemma AppendKeeps(x: Socket, y: Socket, data: Bytes, fin: bool)
    requires Pair(x, y)
    requires |x.snd.window| < OUTGOING_BUFFER_MAX_SIZE - 1 + (if x.snd.finSent then 1 else 0)
    requires forall i :: 0 <= i < |x.snd.window| ==> x.snd.window[i].Some? ==> !x.snd.window[i].value.fin
    requires forall m :: m in x.outbox ==> m.kind != Fin
    requires y.rcv.eof.None?
    requires fin ==> x.snd.finSent && data == []
    ensures Pair(x.(snd := SndAppend(x.snd, data, fin)), y)
    ensures HeadLive(x.snd) ==> HeadLive(SndAppend(x.snd, data, fin))
  {
    hide OutOk, Link, RcvCore, AcksOk;
    AppendCore(x.snd, data, fin);
    AppendOut(x.snd, x.outbox, data, fin);
    AppendLink(x.snd, y.rcv, data, fin);
  }

  lemma ExtendCore(s: Snd, more: Bytes)
    requires SndCore(s)
    requires s.window != [] && Unsent(s.window[|s.window| - 1]) && !s.window[|s.window| - 1].value.fin
    ensures SndCore(SndExtend(s, more))
  {
    var n := |s.window| - 1;
    var t := SndExtend(s, more);
    InFlightUpdate(s.window, n, t.window[n]);
    assert t.written[..Off(t)] == s.written[..Off(s)];
    forall i | 0 <= i < |t.window| ensures SlotOk(t, i) {
      assert SlotOk(s, i);
    }
  }

  lemma ExtendLink(s: Snd, r: Rcv, more: Bytes)
    requires Link(s, r) && r.eof.None?
    requires s.window != [] && Unsent(s.window[|s.window| - 1])
    ensures Link(SndExtend(s, more), r)
  {
    var n := |s.window| - 1;
    var t := SndExtend(s, more);
    assert !Received(r, Head(s) + n);
    assert |r.consumed| < |s.written|;
    assert r.consumed <= t.written;
    forall i | 0 <= i < |t.window|
      ensures (t.window[i].None? ==> Received(r, Head(t) + i)) && (Received(r, Head(t) + i) ==> !Unsent(t.window[i]))
    {
      assert i < n ==> t.window[i] == s.window[i];
    }
  }

  lemma ExtendOut(s: Snd, outbox: seq<Msg>, more: Bytes)
    requires Shaped(s) && OutOk(s, outbox)
    requires s.window != [] && Unsent(s.window[|s.window| - 1])
    ensures OutOk(SndExtend(s, more), outbox)
  {
    var t := SndExtend(s, more);
    forall m | m in outbox ensures SentOk(t, m) {
      assert SentOk(s, m);
    }
  }

  lemma ExtendKeeps(x: Socket, y: Socket, more: Bytes)
    requires Pair(x, y)
    requires x.snd.window != [] && Unsent(x.snd.window[|x.snd.window| - 1]) && !x.snd.window[|x.snd.window| - 1].value.fin
    requires y.rcv.eof.None?
    ensures Pair(x.(snd := SndExtend(x.snd, more)), y)
    ensures HeadLive(x.snd) ==> HeadLive(SndExtend(x.snd, more))
  {
    hide OutOk, Link, RcvCore, AcksOk;
    ExtendCore(x.snd, more);
    ExtendOut(x.snd, x.outbox, more);
    ExtendLink(x.snd, y.rcv, more);
  }

  // ---------------------------------------------------------------- calls of the upper layer and the clock

  lemma {:induction false} FlushKeeps(x: Socket, y: Socket, i: nat, q: Quota)
    requires Pair(x, y) && Calm(x)
    ensures Pair(FlushFrom(x, i, q), y) && Calm(FlushFrom(x, i, q))
    decreases |x.snd.window| - i
  {
    hide Pair, RcvInv;
    var w := x.snd.window;
    if i >= |w| {
    } else if w[i].None? || (w[i].value.transmissions > 0 && !w[i].value.needResend) {
      FlushKeeps(x, y, i + 1, q);
    } else if IsFull(x.snd, q.packetSize, q) {
    } else if i != |w| - 1 || |w| == 1 || |w[i].value.data| >= q.packetSize {
      TransmitKeeps(x, y, i);
      FlushKeeps(Transmit(x, i), y, i + 1, q);
    } else {
      FlushKeeps(x, y, i + 1, q);
    }
  }

  lemma PairShape(x: Socket, y: Socket)
    requires Pair(x, y)
    ensures Shaped(x.snd) && 0 <= x.fastResend < M && Base(y.snd) == x.rcv.ackNr + 1 - |x.rcv.consumed|
    ensures |x.snd.window| <= OUTGOING_BUFFER_MAX_SIZE - 1 + (if x.snd.finSent then 1 else 0)
  {
  }

  /** Nothing is queued behind a FIN: before utp_close there is none anywhere. */
  lemma NoFinYet(x: Socket, y: Socket)
    requires Pair(x, y) && !x.snd.finSent
    ensures forall i :: 0 <= i < |x.snd.window| ==> x.snd.window[i].Some? ==> !x.snd.window[i].value.fin
    ensures forall m :: m in x.outbox ==> m.kind != Fin
    ensures y.rcv.eof.None?
  {
    forall i | 0 <= i < |x.snd.window|
      ensures x.snd.window[i].Some? ==> !x.snd.window[i].value.fin
    {
      assert SlotOk(x.snd, i);
    }
    forall m | m in x.outbox ensures m.kind != Fin {
      assert SentOk(x.snd, m);
    }
  }

  lemma EnqueueKeeps(x: Socket, y: Socket, data: Bytes, q: Quota)
    requires Pair(x, y) && Calm(x) && !x.snd.finSent && x.state != SynRecv
    requires |x.snd.window| < OUTGOING_BUFFER_MAX_SIZE - 1
    ensures var x' := x.(snd := Enqueue(x.snd, data, false, q));
            && Pair(x', y) && Calm(x') && x'.snd.finSent == x.snd.finSent
            && Flatten(x'.snd.written) == Flatten(x.snd.written) + data
  {
    hide Pair, Flatten, SndAppend, SndExtend, HeadLive;
    PairShape(x, y);
    if data != [] && CanExtend(x.snd, q) {
      var room := q.packetSize - |x.snd.window[|x.snd.window| - 1].value.data|;
      if |data| <= room {
        ExtendNewest(x, y, data);
      } else {
        ExtendNewest(x, y, data[..room]);
        var x1 := x.(snd := SndExtend(x.snd, data[..room]));
        AppendNew(x1, y, data[room..]);
        assert data == data[..room] + data[room..];
        assert Flatten(x.snd.written) + data[..room] + data[room..] == Flatten(x.snd.written) + (data[..room] + data[room..]);
      }
    } else {
      AppendNew(x, y, data);
    }
  }

  lemma ExtendNewest(x: Socket, y: Socket, more: Bytes)
    requires Pair(x, y) && Calm(x) && !x.snd.finSent && x.state != SynRecv
    requires x.snd.window != [] && Unsent(x.snd.window[|x.snd.window| - 1])
    ensures Shaped(x.snd)
    ensures var t := SndExtend(x.snd, more);
            && Pair(x.(snd := t), y) && Calm(x.(snd := t)) && !t.finSent && |t.window| == |x.snd.window|
            && Flatten(t.written) == Flatten(x.snd.written) + more
  {
    hide Pair, Flatten;
    PairShape(x, y);
    NoFinYet(x, y);
    ExtendKeeps(x, y, more);
    ExtendStream(x.snd, more);
  }

  lemma AppendNew(x: Socket, y: Socket, data: Bytes)
    requires Pair(x, y) && Calm(x) && !x.snd.finSent && x.state != SynRecv && |x.snd.window| < OUTGOING_BUFFER_MAX_SIZE - 1
    ensures var t := SndAppend(x.snd, data, false);
            Pair(x.(snd := t), y) && Calm(x.(snd := t)) && !t.finSent && Flatten(t.written) == Flatten(x.snd.written) + data
  {
    hide Pair, Flatten;
    NoFinYet(x, y);
    AppendKeeps(x, y, data, false);
    FlattenSnoc(x.snd.written, data);
  }

  lemma ExtendStream(s: Snd, more: Bytes)
    requires Shaped(s) && s.window != [] && Unsent(s.window[|s.window| - 1])
    ensures Flatten(SndExtend(s, more).written) == Flatten(s.written) + more
  {
    var n := |s.written| - 1;
    assert s.written == s.written[..n] + [s.written[n]];
    assert SndExtend(s, more).written == s.written[..n] + [s.written[n] + more];
    FlattenSnoc(s.written[..n], s.written[n]);
    FlattenSnoc(s.written[..n], s.written[n] + more);
  }

  /** utp_writev queues exactly the bytes it says it accepted, behind everything accepted before. */
  lemma {:induction false} WriteKeeps(x: Socket, y: Socket, data: Bytes, q: Quota)
    requires Pair(x, y) && Calm(x) && x.state == Connected && !x.snd.finSent
    ensures var r := WriteLoop(x, data, q);
            && Pair(r.0, y) && Calm(r.0)
            && Flatten(r.0.snd.written) == Flatten(x.snd.written) + data[..r.1]
    decreases |data|
  {
    hide Pair, RcvInv, Flatten, Enqueue, FlushFrom;
    PairShape(x, y);
    var num := Min(|data|, q.packetSize);
    if IsFull(x.snd, num, q) {
      StateKeeps(x, y, ConnectedFull);
      assert data[..0] == [];
    } else {
      EnqueueKeeps(x, y, data[..num], q);
      var x1 := x.(snd := Enqueue(x.snd, data[..num], false, q));
      FlushShape(x1, 0, q);
      FlushKeeps(x1, y, 0, q);
      var x2 := Flush(x1, q);
      PairShape(x2, y);
      if num == 0 || |data| == num {
      } else {
        WriteKeeps(x2, y, data[num..], q);
        var n := WriteLoop(x2, data[num..], q).1;
        AppendTake(Flatten(x.snd.written), data, num, n);
      }
    }
  }

  /** The connection state is no part of the pairing. */
  lemma StateKeeps(x: Socket, y: Socket, st: ConnState)
    requires Pair(x, y)
    ensures Pair(x.(state := st), y)
  {
  }

  lemma FastKeeps(x: Socket, y: Socket, fastTimeout: bool, fastResend: int)
    requires Pair(x, y) && 0 <= fastResend < M
    ensures Pair(x.(fastTimeout := fastTimeout, fastResend := fastResend), y)
  {
  }

  lemma MarkFinKeeps(x: Socket, y: Socket)
    requires Pair(x, y) && !x.snd.finSent
    ensures Pair(x.(snd := x.snd.(finSent := true)), y)
  {
    var s := x.snd;
    var t := s.(finSent := true);
    MarkFinCore(s);
    forall m | m in x.outbox ensures SentOk(t, m) {
      assert SentOk(s, m);
    }
    MarkFinLink(s, y.rcv);
  }

  lemma MarkFinCore(s: Snd)
    requires SndCore(s)
    ensures SndCore(s.(finSent := true))
  {
    forall i | 0 <= i < |s.window| ensures SlotOk(s.(finSent := true), i) {
      assert SlotOk(s, i);
    }
  }

  lemma MarkFinLink(s: Snd, r: Rcv)
    requires Link(s, r)
    ensures Link(s.(finSent := true), r)
  {
  }

  lemma SendFinKeeps(x: Socket, y: Socket, q: Quota)
    requires Pair(x, y) && Calm(x) && !x.snd.finSent && x.state != SynRecv
    ensures Pair(SendFin(x, q), y) && Calm(SendFin(x, q))
    ensures Flatten(SendFin(x, q).snd.written) == Flatten(x.snd.written) && SendFin(x, q).accepted == x.accepted
  {
    hide Pair, RcvInv, Flatten;
    PairShape(x, y);
    NoFinYet(x, y);
    MarkFinKeeps(x, y);
    var x1 := x.(snd := x.snd.(finSent := true));
    AppendKeeps(x1, y, [], true);
    FlattenSnoc(x1.snd.written, []);
    var x2 := x1.(snd := SndAppend(x1.snd, [], true));
    FlushShape(x2, 0, q);
    FlushKeeps(x2, y, 0, q);
  }

  lemma OnExpiredKeeps(x: Socket, y: Socket)
    requires Pair(x, y) && Callable(x)
    ensures Pair(OnExpired(x), y) && Callable(OnExpired(x)) && OnExpired(x).rcv == x.rcv
  {
    hide Pair, Flatten;
    LoseAllKeeps(x, y);
    var x1 := x.(snd := SndLoseAll(x.snd));
    if x1.snd.window != [] && x1.snd.window[0].Some? {
      PairShape(x, y);
      FastKeeps(x1, y, true, x1.fastResend);
      TransmitKeeps(x1.(fastTimeout := true), y, 0);
    }
  }

  // ---------------------------------------------------------------- calls of the upper layer

  /** A packet once received stays received; acks already sent stay true. */
  lemma AcksFrame(r: Rcv, t: Rcv, outbox: seq<Msg>)
    requires AcksOk(r, outbox)
    requires r.ackNr <= t.ackNr && forall k :: k in r.held ==> Received(t, k)
    requires r.handing ==> Received(t, r.ackNr + 1)
    ensures AcksOk(t, outbox)
  {
    forall m | m in outbox ensures AckOk(t, m) {
      assert AckOk(r, m);
      if m.eack.Some? {
        forall i | 0 <= i < |m.eack.value| && m.eack.value[i] ensures Received(t, m.ack + 2 + i) {
          assert Received(r, m.ack + 2 + i);
        }
      }
    }
  }

  /** Replacing the receiving half of x by one that keeps all obligations. */
  lemma RcvKeeps(x: Socket, y: Socket, t: Rcv)
    requires Pair(x, y) && RcvCore(t) && Link(y.snd, t) && AcksOk(t, x.outbox)
    ensures Pair(x.(rcv := t), y)
  {
    hide SndCore, RcvCore, OutOk, AcksOk, Link;
  }

  lemma ShutReadKeeps(x: Socket, y: Socket)
    requires Pair(x, y)
    ensures var r := x.rcv.(shutdown := true);
            Pair(x.(rcv := r), y) && Pair(x.(rcv := r, closeRequested := true), y)
  {
    hide SndCore, OutOk;
    var r := x.rcv.(shutdown := true);
    AcksFrame(x.rcv, r, x.outbox);
    assert Link(y.snd, r);
    RcvKeeps(x, y, r);
  }

  lemma CloseKeeps(x: Socket, y: Socket, q: Quota)
    requires Pair(x, y) && Callable(x)
    ensures Shaped(x.snd)
    ensures Pair(Close(x, q), y) && Callable(Close(x, q))
  {
    hide Pair, SendFin, Flatten;
    PairShape(x, y);
    if x.state == Connected || x.state == ConnectedFull {
      ShutReadKeeps(x, y);
      var x1 := x.(rcv := x.rcv.(shutdown := true), closeRequested := true);
      if !x.snd.finSent {
        SendFinKeeps(x1, y, q);
      } else {
        StateKeeps(x1, y, Destroy);
      }
    } else {
      StateKeeps(x, y, Destroy);
    }
  }

  lemma ShutdownKeeps(x: Socket, y: Socket, rd: bool, wr: bool, q: Quota)
    requires Pair(x, y) && Callable(x)
    ensures Shaped(x.snd)
    ensures var t := Shutdown(x, rd, wr, q); Pair(t, y) && Callable(t)
  {
    hide Pair, SendFin, Flatten;
    PairShape(x, y);
    ShutReadKeeps(x, y);
    var x1 := if rd then x.(rcv := x.rcv.(shutdown := true)) else x;
    if wr && (x1.state == Connected || x1.state == ConnectedFull) && !x1.snd.finSent {
      SendFinKeeps(x1, y, q);
    }
  }

  lemma HistoryKeeps(x: Socket, y: Socket, accepted: Bytes, reported: nat, pending: bool)
    requires Pair(x, y) && reported <= x.snd.popped
    ensures Pair(x.(accepted := accepted, reported := reported, ackPending := pending), y)
  {
    hide SndCore, RcvCore, OutOk, AcksOk, Link;
  }

  /** One call of the upper layer, made between datagrams or from one of its callbacks. */
  lemma CallKeeps(x: Socket, y: Socket, c: Call)
    requires Pair(x, y) && Callable(x)
    ensures Shaped(x.snd)
    ensures Pair(DoCall(x, c), y) && Callable(DoCall(x, c))
  {
    hide Pair, Flatten, WriteLoop, Close, Shutdown, SendAck, HeadLive;
    PairShape(x, y);
    PairReported(x, y);
    match c
    case CallWrite(data, q) =>
      if x.state == Connected && !x.snd.finSent {
        WriteKeeps(x, y, data, q);
        var r := WriteLoop(x, data, q);
        PairReported(r.0, y);
        HistoryKeeps(r.0, y, x.accepted + data[..r.1], r.0.reported, r.0.ackPending);
      } else {
        assert x.accepted + data[..0] == x.accepted;
      }
    case CallClose(q) => CloseKeeps(x, y, q);
    case CallShutdown(rd, wr, q) => ShutdownKeeps(x, y, rd, wr, q);
    case CallReadDrained(_, _) =>
      SendAckKeeps(x, y, 0);
      HistoryKeeps(x, y, x.accepted, x.reported, true);
    case CallDeferredAck => SendAckKeeps(x, y, 0);
  }

  lemma {:induction false} CallsKeep(x: Socket, y: Socket, cs: seq<Call>)
    requires Pair(x, y) && Callable(x)
    ensures Shaped(x.snd)
    ensures Pair(DoCalls(x, cs), y) && Callable(DoCalls(x, cs))
    decreases |cs|
  {
    hide Pair, Callable, DoCall;
    PairShape(x, y);
    if cs != [] {
      CallKeeps(x, y, cs[0]);
      CallsKeep(DoCall(x, cs[0]), y, cs[1..]);
    }
  }

  lemma OnlyShutInv(r: Rcv, t: Rcv)
    requires RcvInv(r) && OnlyShut(r, t)
    ensures RcvInv(t)
  {
  }

  // ---------------------------------------------------------------- the timer

  lemma ReopenKeeps(x: Socket, y: Socket, q: Quota, cb: Callbacks)
    requires Pair(x, y) && Callable(x)
    ensures Shaped(x.snd)
    ensures Pair(Reopen(x, q, cb), y) && Callable(Reopen(x, q, cb))
  {
    hide Pair, Flatten, HeadLive, IsFull, DoCalls;
    PairShape(x, y);
    if x.state == ConnectedFull && !IsFull(x.snd, q.packetSize, q) {
      StateKeeps(x, y, Connected);
      CallsKeep(x.(state := Connected), y, cb.writable);
    }
  }

  lemma FailKeeps(x: Socket, y: Socket, cb: Callbacks)
    requires Pair(x, y) && Callable(x)
    ensures Shaped(x.snd)
    ensures Pair(Fail(x, cb), y) && Callable(Fail(x, cb))
  {
    hide Pair, Flatten, HeadLive, DoCalls;
    PairShape(x, y);
    StateKeeps(x, y, Abort(x).state);
    CallsKeep(Abort(x), y, cb.error);
  }

  lemma AfterExpiryKeeps(x: Socket, y: Socket, t: Tick, cb: Callbacks)
    requires Pair(x, y) && Callable(x)
    ensures Shaped(x.snd)
    ensures Pair(AfterExpiry(x, t, cb), y) && Callable(AfterExpiry(x, t, cb))
  {
    hide Pair, SendAck, HeadLive, Reopen, Fail, Flatten;
    PairShape(x, y);
    ReopenKeeps(x, y, t.after, cb);
    var x1 := Reopen(x, t.after, cb);
    FailKeeps(x1, y, cb);
    var x2 := if x1.state != SynRecv && t.dead then Fail(x1, cb) else x1;
    SendAckKeeps(x2, y, 1);
  }

  /** check_timeouts with everything its callbacks do. */
  lemma CheckTimeoutsKeeps(x: Socket, y: Socket, t: Tick, cb: Callbacks)
    requires Pair(x, y) && Settled(x)
    ensures Shaped(x.snd)
    ensures Pair(CheckTimeouts(x, t, cb), y) && Settled(CheckTimeouts(x, t, cb))
  {
    hide Pair, RcvInv, Callable, FlushFrom, OnExpired, AfterExpiry, Fail;
    PairShape(x, y);
    if x.state != Destroy {
      FlushCallable(x, y, t.before);
      var x1 := Flush(x, t.before);
      if x1.state == Reset {
      } else if t.expired && (x1.state == SynRecv || t.giveUp) {
        FailKeeps(x1, y, cb);
        OnlyShutInv(x.rcv, Fail(x1, cb).rcv);
      } else {
        OnExpiredKeeps(x1, y);
        var x2 := if t.expired then OnExpired(x1) else x1;
        AfterExpiryKeeps(x2, y, t, cb);
        AfterExpiryRcv(x2, t, cb);
        OnlyShutInv(x.rcv, AfterExpiry(x2, t, cb).rcv);
      }
    }
  }

  lemma FlushCallable(x: Socket, y: Socket, q: Quota)
    requires Pair(x, y) && Callable(x)
    ensures var t := Flush(x, q); Pair(t, y) && Callable(t) && t.rcv == x.rcv && t.state == x.state && Shaped(t.snd)
  {
    hide Pair, HeadLive, FlushFrom, Flatten;
    FlushKeeps(x, y, 0, q);
    FlushShape(x, 0, q);
    PairShape(Flush(x, q), y);
  }

  lemma AfterExpiryRcv(x: Socket, t: Tick, cb: Callbacks)
    requires Shaped(x.snd)
    ensures OnlyShut(x.rcv, AfterExpiry(x, t, cb).rcv)
  {
    hide Reopen, Fail;
  }

  lemma ExpiredRcv(x: Socket)
    requires Shaped(x.snd)
    ensures OnExpired(x).rcv == x.rcv && Shaped(OnExpired(x).snd)
  {
  }

  lemma TimeoutRcv(x: Socket, t: Tick, cb: Callbacks)
    requires Shaped(x.snd)
    ensures OnlyShut(x.rcv, CheckTimeouts(x, t, cb).rcv)
  {
    hide FlushFrom, OnExpired, AfterExpiry;
    if x.state != Destroy {
      FlushShape(x, 0, t.before);
      var x1 := Flush(x, t.before);
      ExpiredRcv(x1);
      AfterExpiryRcv(if t.expired then OnExpired(x1) else x1, t, cb);
    }
  }

  // ---------------------------------------------------------------- an incoming acknowledgment

  /** Cumulative acks release only packets the peer consumed. */
  lemma {:induction false} AckLoopKeeps(x: Socket, y: Socket, n: nat)
    requires Pair(x, y)
    requires Head(x.snd) - 1 + n <= y.rcv.ackNr
    ensures Pair(x.(snd := SndAckLoop(x.snd, n)), y)
    ensures SndAckLoop(x.snd, n).written == x.snd.written
    decreases n
  {
    hide Pair, SndAck, SndPop;
    if n == 0 || x.snd.window == [] || Unsent(x.snd.window[0]) {
    } else {
      AckHeadKeeps(x, y);
      AckLoopKeeps(x.(snd := AckHead(x.snd)), y, n - 1);
    }
  }

  function AckHead(s: Snd): Snd
    requires s.window != [] && s.sizes != []
  {
    SndPop(if s.window[0].None? then s else SndAck(s, 0))
  }

  lemma AckHeadKeeps(x: Socket, y: Socket)
    requires Pair(x, y)
    requires x.snd.window != [] && !Unsent(x.snd.window[0]) && Head(x.snd) <= y.rcv.ackNr
    ensures |x.snd.sizes| == |x.snd.window|
    ensures var t := AckHead(x.snd);
            Pair(x.(snd := t), y) && t.written == x.snd.written && Head(t) == Head(x.snd) + 1 && |t.sizes| == |t.window|
  {
    hide Pair;
    PairShape(x, y);
    if x.snd.window[0].Some? {
      AckKeeps(x, y, 0);
      PopKeeps(x.(snd := SndAck(x.snd, 0)), y);
    } else {
      PopKeeps(x, y);
    }
  }

  lemma NextNotHeld(x: Socket, y: Socket)
    requires Pair(x, y) && RcvInv(y.rcv)
    requires x.snd.window != [] && x.snd.window[0].None?
    ensures Head(x.snd) <= y.rcv.ackNr
  {
    hide SndCore, RcvCore, OutOk, AcksOk;
    assert Received(y.rcv, Head(x.snd) + 0);
  }

  lemma PopShape(x: Socket, y: Socket)
    requires Pair(x, y) && x.snd.window != []
    ensures |x.snd.sizes| == |x.snd.window|
    ensures var t := SndPop(x.snd); |t.sizes| == |t.window| && |t.window| == |x.snd.window| - 1 && t.written == x.snd.written
  {
  }

  /** A selectively acked packet is popped only once everything before it was consumed, hence it was too. */
  lemma {:induction false} DropKeeps(x: Socket, y: Socket)
    requires Pair(x, y) && RcvInv(y.rcv)
    ensures Pair(x.(snd := SndDropAcked(x.snd)), y) && HeadLive(SndDropAcked(x.snd))
    ensures SndDropAcked(x.snd).written == x.snd.written
    decreases |x.snd.window|
  {
    hide Pair, SndPop;
    if x.snd.window != [] && x.snd.window[0].None? {
      NextNotHeld(x, y);
      PopKeeps(x, y);
      PopShape(x, y);
      DropKeeps(x.(snd := SndPop(x.snd)), y);
    }
  }

  ghost predicate BitsReceived(r: Rcv, base: int, mask: seq<bool>) {
    forall j :: 0 <= j < |mask| && mask[j] ==> Received(r, base + j)
  }

  lemma BitReceived(r: Rcv, base: int, mask: seq<bool>, j: nat)
    requires BitsReceived(r, base, mask) && j < |mask| && mask[j]
    ensures Received(r, base + j)
  {
  }

  lemma {:induction false} SackKeeps(x: Socket, y: Socket, sc: Scan, base: int, mask: seq<bool>, bits: int)
    requires Pair(x.(snd := sc.snd), y) && HeadLive(sc.snd)
    requires -1 <= bits < |mask| && BitsReceived(y.rcv, base, mask)
    ensures var t := SackScan(sc, base, mask, bits, x.fastResend).snd;
            Pair(x.(snd := t), y) && HeadLive(t) && t.popped == sc.snd.popped && |t.window| == |sc.snd.window|
            && t.written == sc.snd.written
    decreases bits + 1
  {
    hide Pair, BitsReceived;
    var sc' := SackStep(sc, base, mask, bits, x.fastResend);
    var i := base + bits - Head(sc.snd);
    if 1 <= i < |sc.snd.window| && sc.snd.window[i].Some? && !Unsent(sc.snd.window[i]) && bits >= 0 && mask[bits] {
      BitReceived(y.rcv, base, mask, bits);
      AckKeeps(x.(snd := sc.snd), y, i);
    }
    if bits != -1 {
      SackKeeps(x, y, sc', base, mask, bits - 1);
    }
  }

  lemma {:induction false} ResendKeeps(x: Socket, y: Socket, ring: nat, resends: seq<int>, left: nat)
    requires ring > 0 && Pair(x, y) && HeadLive(x.snd)
    ensures var t := ResendLoop(x, ring, resends, left);
            Pair(t, y) && HeadLive(t.snd) && SameBut(x, t)
    decreases |resends|
  {
    hide Pair;
    if resends == [] || left == 0 {
    } else {
      var v := resends[|resends| - 1];
      var rest := resends[..|resends| - 1];
      var i := Locate(x.snd, ring, v);
      if i < 0 || x.snd.window[i].None? {
        ResendKeeps(x, y, ring, rest, left);
      } else {
        TransmitKeeps(x, y, i);
        FastKeeps(Transmit(x, i), y, x.fastTimeout, Wrap(v + 1));
        ResendKeeps(Transmit(x, i).(fastResend := Wrap(v + 1)), y, ring, rest, left - 1);
      }
    }
  }

  /** Only the state and the marks of the connection change, and a dead one stays dead. */
  predicate OnlyState(x: Socket, t: Socket) {
    && t.snd == x.snd && t.rcv == x.rcv && t.accepted == x.accepted && t.reported == x.reported
    && (t.state == SynRecv ==> x.state == SynRecv) && (!Dead(t.state) ==> !Dead(x.state))
  }

  lemma OnlyStateKeeps(x: Socket, t: Socket, y: Socket)
    requires Pair(x, y) && OnlyState(x, t) && t.outbox == x.outbox && 0 <= t.fastResend < M
    ensures Pair(t, y) && (Calm(x) ==> Calm(t))
  {
    hide SndCore, RcvCore, OutOk, AcksOk, Link, HeadLive;
  }

  lemma OnAckStateOnly(x: Socket, m: Msg)
    requires 0 <= x.fastResend < M
    ensures var t := OnAckState(x, m); OnlyState(x, t) && t.outbox == x.outbox && 0 <= t.fastResend < M
  {
    hide WrappingLess, AckCount;
    var x1 := OnHandshake(x, m);
    assert OnlyState(x, x1) && x1.outbox == x.outbox && x1.fastResend == x.fastResend;
    var x2 := OnFinAcked(x1, AckCount(x.snd, m.ack));
    assert OnlyState(x1, x2) && x2.outbox == x1.outbox && x2.fastResend == x1.fastResend;
    hide OnHandshake, OnFinAcked;
    assert OnlyState(x2, MarkResend(x2, m));
  }

  lemma OnAckStateKeeps(x: Socket, y: Socket, m: Msg)
    requires Pair(x, y) && Calm(x)
    ensures Pair(OnAckState(x, m), y) && Calm(OnAckState(x, m)) && OnlyState(x, OnAckState(x, m))
  {
    hide Pair, Calm, OnAckState;
    PairShape(x, y);
    OnAckStateOnly(x, m);
    OnlyStateKeeps(x, OnAckState(x, m), y);
  }

  /** x and t differ at most in transmissions of packets in the window and in the fast-resend marks. */
  ghost predicate SameBut(x: Socket, t: Socket) {
    && t.rcv == x.rcv && t.state == x.state && t.accepted == x.accepted && t.reported == x.reported
    && t.snd.popped == x.snd.popped && |t.snd.window| == |x.snd.window| && t.snd.written == x.snd.written
  }

  lemma NagleKeeps(x: Socket, y: Socket)
    requires Pair(x, y) && HeadLive(x.snd)
    ensures var t := FlushNagle(x); Pair(t, y) && HeadLive(t.snd) && SameBut(x, t)
  {
    hide Pair;
    if |x.snd.window| == 1 && Unsent(x.snd.window[0]) {
      TransmitKeeps(x, y, 0);
    }
  }

  lemma RetryKeeps(x: Socket, y: Socket)
    requires Pair(x, y) && HeadLive(x.snd)
    ensures var t := FastRetry(x); Pair(t, y) && HeadLive(t.snd) && SameBut(x, t)
  {
    hide Pair, Wrap;
    PairShape(x, y);
    FastKeeps(x, y, false, x.fastResend);
    if x.snd.window != [] {
      FastKeeps(x, y, x.fastTimeout, Wrap(x.fastResend + 1));
      TransmitKeeps(x.(fastResend := Wrap(x.fastResend + 1)), y, 0);
    }
  }

  lemma FastRetryKeeps(x: Socket, y: Socket)
    requires Pair(x, y) && HeadLive(x.snd)
    ensures var t := FastRetry(FlushNagle(x)); Pair(t, y) && HeadLive(t.snd) && SameBut(x, t)
  {
    hide Pair, HeadLive, FastRetry, FlushNagle;
    NagleKeeps(x, y);
    RetryKeeps(FlushNagle(x), y);
  }

  lemma SelectiveAckKeeps(x: Socket, y: Socket, ring: nat, base: int, mask: seq<bool>)
    requires ring > 0 && Pair(x, y) && HeadLive(x.snd) && BitsReceived(y.rcv, base, mask)
    ensures var t := SelectiveAck(x, ring, base, mask); Pair(t, y) && HeadLive(t.snd) && SameBut(x, t)
  {
    hide Pair, SackScan, ResendLoop, BitsReceived;
    if x.snd.window != [] {
      var sc := SackScan(Scan(x.snd, 0, []), base, mask, |mask| - 1, x.fastResend);
      SackKeeps(x, y, Scan(x.snd, 0, []), base, mask, |mask| - 1);
      ResendKeeps(x.(snd := sc.snd), y, ring, SackResends(sc, base, x.fastResend), 4);
    }
  }

  /** The releases of a cumulative ack followed by those of earlier selective acks. */
  lemma ReleaseKeeps(x: Socket, y: Socket, m: Msg)
    requires Pair(x, y) && HeadLive(x.snd) && RcvInv(y.rcv) && AckOk(y.rcv, m)
    ensures |x.snd.sizes| == |x.snd.window|
    ensures var t := SndDropAcked(SndAckLoop(x.snd, AckCount(x.snd, m.ack)));
            && Pair(x.(snd := t), y) && HeadLive(t) && t.written == x.snd.written && t.popped >= x.snd.popped
            && (x.snd.window == [] ==> t == x.snd)
  {
    hide Pair, RcvInv;
    PairShape(x, y);
    PairHead(x, y);
    var n := AckCount(x.snd, m.ack);
    AckLoopKeeps(x, y, n);
    DropKeeps(x.(snd := SndAckLoop(x.snd, n)), y);
  }

  lemma PairHead(x: Socket, y: Socket)
    requires Pair(x, y)
    ensures Head(x.snd) - 1 <= y.rcv.ackNr
  {
  }

  lemma ReportKeeps(x: Socket, y: Socket, bytes: nat, q: Quota, cb: Callbacks)
    requires Pair(x, y) && HeadLive(x.snd) && x.accepted == Flatten(x.snd.written)
    requires x.reported + bytes <= x.snd.popped
    requires Reports(if Open(x.state) then x.(reported := x.reported + bytes) else x)
    ensures Shaped(x.snd)
    ensures Pair(Report(x, bytes, q, cb), y) && Callable(Report(x, bytes, q, cb))
  {
    hide Pair, HeadLive, Flatten, Reopen, DoCalls;
    PairShape(x, y);
    if Open(x.state) && bytes > 0 {
      var x1 := x.(reported := x.reported + bytes);
      HistoryKeeps(x, y, x.accepted, x1.reported, x.ackPending);
      CallsKeep(x1, y, cb.sent);
      ReopenKeeps(DoCalls(x1, cb.sent), y, q, cb);
    } else {
      ReopenKeeps(x, y, q, cb);
    }
  }

  /** Everything an ack does before the upper layer hears of it releases only what the peer really received. */
  lemma AckedKeeps(x: Socket, y: Socket, m: Msg, ring: nat)
    requires ring > 0 && Pair(x, y) && Calm(x) && RcvInv(y.rcv) && AckOk(y.rcv, m)
    ensures Shaped(x.snd)
    ensures var t := Acked(x, m, ring);
            && Pair(t, y) && HeadLive(t.snd) && t.rcv == x.rcv && t.snd.written == x.snd.written
            && t.accepted == x.accepted && t.reported == x.reported <= x.snd.popped <= t.snd.popped
            && (t.state == SynRecv ==> t.snd.window == [] && x.state == SynRecv && t.snd.popped == x.snd.popped)
            && (!Dead(t.state) ==> !Dead(x.state))
  {
    hide Pair, RcvInv, OnAckState, FastRetry, FlushNagle, MaybeSack, SndDropAcked, SndAckLoop, AckCount, HeadLive;
    PairShape(x, y);
    PairReported(x, y);
    var x1 := OnAckState(x, m);
    OnAckStateKeeps(x, y, m);
    ReleaseKeeps(x1, y, m);
    var x2 := Release(x1, AckCount(x.snd, m.ack));
    FastRetryKeeps(x2, y);
    MaybeSackKeeps(FastRetry(FlushNagle(x2)), y, m, ring);
  }

  /** The acknowledgment part of a datagram, with everything its callbacks do. */
  lemma ProcessAckKeeps(x: Socket, y: Socket, m: Msg, ring: nat, q: Quota, cb: Callbacks)
    requires ring > 0 && Pair(x, y) && Settled(x) && RcvInv(y.rcv) && AckOk(y.rcv, m)
    ensures Shaped(x.snd)
    ensures var t := ProcessAck(x, m, ring, q, cb); Pair(t, y) && Settled(t) && t.rcv.ackNr == x.rcv.ackNr
  {
    hide Pair, RcvInv, AckOk, Acked, HeadLive, Report, Flatten;
    PairShape(x, y);
    AckedKeeps(x, y, m, ring);
    AckedShape(x, m, ring);
    var x1 := Acked(x, m, ring);
    ReportKeeps(x1, y, x1.snd.popped - x.snd.popped, q, cb);
    OnlyShutInv(x.rcv, ProcessAck(x, m, ring, q, cb).rcv);
  }

  lemma MaybeSackKeeps(x: Socket, y: Socket, m: Msg, ring: nat)
    requires ring > 0 && Pair(x, y) && HeadLive(x.snd) && AckOk(y.rcv, m)
    ensures var t := MaybeSack(x, m, ring); Pair(t, y) && HeadLive(t.snd) && SameBut(x, t)
  {
    hide Pair, SelectiveAck;
    if m.eack.Some? {
      SelectiveAckKeeps(x, y, ring, m.ack + 2, m.eack.value);
    }
  }

  lemma PairReported(x: Socket, y: Socket)
    requires Pair(x, y)
    ensures x.reported <= x.snd.popped
  {
  }
}
