// What goes out: which packets a flush, a write, a close and a timeout send, and in which order.
module UtpFlush {
  import opened Common
  import opened SeqSpace
  import opened UtpModel

  /** A packet that was never sent, or is marked to be sent again. */
  predicate Waits(o: Slot) {
    o.Some? && (o.value.transmissions == 0 || o.value.needResend)
  }

  /** The last of several packets, not yet full: it may wait for more bytes. */
  predicate MayFill(w: seq<Slot>, j: nat, q: Quota)
    requires j < |w|
  {
    j == |w| - 1 && |w| > 1 && w[j].Some? && |w[j].value.data| < q.packetSize
  }

  /** The window holds all the packets it may, or `bytes` more in flight would be over the limit. */
  predicate NoRoom(s: Snd, bytes: nat, q: Quota) {
    |s.window| >= 1023 || s.curWindow + bytes > q.maxSend
  }

  /** No packet waits that could be sent: there is no quota, or it is the last one and not full. */
  ghost predicate Flushed(s: Snd, q: Quota) {
    NoRoom(s, q.packetSize, q) || forall j :: 0 <= j < |s.window| && Waits(s.window[j]) ==> MayFill(s.window, j, q)
  }

  function Times(w: seq<Slot>, j: nat): nat {
    if j < |w| && w[j].Some? then w[j].value.transmissions else 0
  }

  /** The datagrams of the packets of t, from index j on, that were sent since s, one each and oldest first. */
  ghost function Sends(s: Snd, t: Snd, ackNr: int, j: nat): seq<Msg>
    decreases |t.window| - j
  {
    if j >= |t.window| then []
    else (if Times(t.window, j) > Times(s.window, j) && t.window[j].Some? then [DatagramOf(t, j, ackNr)] else []) + Sends(s, t, ackNr, j + 1)
  }

  function DatagramOf(t: Snd, j: nat, ackNr: int): Msg
    requires j < |t.window| && t.window[j].Some?
  {
    var p := t.window[j].value;
    Msg(if p.fin then Fin else Data, Head(t) + j, ackNr, None, p.data)
  }

  function Volume(ms: seq<Msg>): nat {
    if ms == [] then 0 else |ms[0].data| + Volume(ms[1..])
  }

  /** The datagrams ms took cur_window from s to t, and there was quota before the last of them. */
  predicate WithinQuota(s: Snd, t: Snd, ms: seq<Msg>, q: Quota) {
    && t.curWindow == s.curWindow + Volume(ms)
    && (ms != [] ==> !NoRoom(t.(curWindow := t.curWindow - |ms[|ms| - 1].data|), q.packetSize, q))
  }

  /** Slot j was left alone, or waited and was sent once. */
  predicate SentOnce(o: Slot, p: Slot) {
    p == o || (Waits(o) && p == Some(o.value.(transmissions := o.value.transmissions + 1, needResend := false)))
  }

  /** The slots from index i on were flushed. */
  ghost predicate SlotsFrom(s: Snd, t: Snd, i: nat, q: Quota) {
    && |t.window| == |s.window| && t.seqNr == s.seqNr
    && (forall j :: 0 <= j < |s.window| ==> SentOnce(s.window[j], t.window[j]))
    && (forall j :: 0 <= j < |s.window| && (j < i || MayFill(s.window, j, q)) ==> t.window[j] == s.window[j])
    && (NoRoom(t, q.packetSize, q) || forall j :: i <= j < |t.window| && Waits(t.window[j]) ==> MayFill(t.window, j, q))
  }

  /** From s to t the packets from index i on were flushed. */
  ghost predicate FlushedFrom(s: Socket, t: Socket, i: nat, q: Quota) {
    && SlotsFrom(s.snd, t.snd, i, q) && t.rcv == s.rcv && t.outbox == s.outbox + Sends(s.snd, t.snd, s.rcv.ackNr, i)
    && WithinQuota(s.snd, t.snd, Sends(s.snd, t.snd, s.rcv.ackNr, i), q)
  }

  /** Oldest first: when a packet from index i on still waits, none behind it was sent. */
  ghost predicate OldestFirst(s: Snd, t: Snd, i: nat, q: Quota) {
    |t.window| == |s.window| &&
    forall j, k :: i <= j < k < |t.window| && Waits(t.window[j]) ==> t.window[k] == s.window[k]
  }

  lemma {:induction false} SendsSame(s: Snd, s': Snd, t: Snd, ackNr: int, j: nat)
    requires forall k :: j <= k < |t.window| ==> Times(s'.window, k) == Times(s.window, k)
    ensures Sends(s', t, ackNr, j) == Sends(s, t, ackNr, j)
    decreases |t.window| - j
  {
    if j < |t.window| {
      assert Times(s'.window, j) == Times(s.window, j);
      SendsSame(s, s', t, ackNr, j + 1);
    }
  }

  lemma {:induction false} SendsNone(s: Snd, t: Snd, ackNr: int, j: nat)
    requires forall k :: j <= k < |t.window| ==> Times(t.window, k) <= Times(s.window, k)
    ensures Sends(s, t, ackNr, j) == []
    decreases |t.window| - j
  {
    if j < |t.window| {
      assert Times(t.window, j) <= Times(s.window, j);
      SendsNone(s, t, ackNr, j + 1);
    }
  }

  /** Passing over slot i. */
  lemma SkipOne(s: Socket, t: Socket, i: nat, q: Quota)
    requires i < |s.snd.window| && FlushedFrom(s, t, i + 1, q) && OldestFirst(s.snd, t.snd, i + 1, q)
    requires Waits(s.snd.window[i]) ==> MayFill(s.snd.window, i, q)
    ensures FlushedFrom(s, t, i, q) && OldestFirst(s.snd, t.snd, i, q)
  {
    hide WithinQuota, IsFull;
    assert t.snd.window[i] == s.snd.window[i];
    SkipOrder(s.snd, t.snd, i, q);
    assert Sends(s.snd, t.snd, s.rcv.ackNr, i) == Sends(s.snd, t.snd, s.rcv.ackNr, i + 1);
  }

  lemma QuotaMore(s: Snd, s1: Snd, t: Snd, m: Msg, ms: seq<Msg>, q: Quota)
    requires WithinQuota(s1, t, ms, q) && s1.curWindow == s.curWindow + |m.data| && !IsFull(s, q.packetSize, q)
    requires |t.window| == |s.window|
    ensures WithinQuota(s, t, [m] + ms, q)
  {
    assert ([m] + ms)[1..] == ms;
  }

  /** Sending slot i and going on. */
  lemma SendOne(s: Socket, t: Socket, i: nat, q: Quota)
    requires i < |s.snd.window| && Waits(s.snd.window[i]) && !IsFull(s.snd, q.packetSize, q) && !MayFill(s.snd.window, i, q)
    requires FlushedFrom(Transmit(s, i), t, i + 1, q) && OldestFirst(Transmit(s, i).snd, t.snd, i + 1, q)
    ensures FlushedFrom(s, t, i, q) && OldestFirst(s.snd, t.snd, i, q)
  {
    hide IsFull, OldestFirst, SlotsFrom, SndTransmit, WithinQuota, Sends;
    var s1 := Transmit(s, i);
    SlotsMore(s.snd, t.snd, i, q);
    SendOrder(s.snd, t.snd, i, q);
    SentMore(s, s1, t, i);
    QuotaMore(s.snd, s1.snd, t.snd, DatagramOf(t.snd, i, s.rcv.ackNr), Sends(s1.snd, t.snd, s.rcv.ackNr, i + 1), q);
  }

  lemma SlotsMore(s: Snd, t: Snd, i: nat, q: Quota)
    requires i < |s.window| && Waits(s.window[i]) && !MayFill(s.window, i, q) && SlotsFrom(SndTransmit(s, i), t, i + 1, q)
    ensures SlotsFrom(s, t, i, q) && t.window[i] == SndTransmit(s, i).window[i] && |t.window| == |s.window| && t.seqNr == s.seqNr
    ensures SndTransmit(s, i).curWindow == s.curWindow + |s.window[i].value.data|
    ensures t.window[i] == Some(Sent(s.window[i].value))
  {
    hide IsFull;
    var s1 := SndTransmit(s, i);
    forall j | 0 <= j < |s.window| ensures SentOnce(s.window[j], t.window[j]) {
      assert SentOnce(s1.window[j], t.window[j]);
    }
  }

  lemma SentMore(s: Socket, s1: Socket, t: Socket, i: nat)
    requires i < |s.snd.window| && s.snd.window[i].Some? && s1 == Transmit(s, i)
    requires |t.snd.window| == |s.snd.window| && t.snd.seqNr == s.snd.seqNr && t.snd.window[i] == s1.snd.window[i]
    requires t.outbox == s1.outbox + Sends(s1.snd, t.snd, s.rcv.ackNr, i + 1)
    ensures t.snd.window[i].Some?
    ensures Sends(s.snd, t.snd, s.rcv.ackNr, i) == [DatagramOf(t.snd, i, s.rcv.ackNr)] + Sends(s1.snd, t.snd, s.rcv.ackNr, i + 1)
    ensures t.outbox == s.outbox + Sends(s.snd, t.snd, s.rcv.ackNr, i)
  {
    forall k | i + 1 <= k < |t.snd.window| ensures Times(s1.snd.window, k) == Times(s.snd.window, k) {
    }
    SendsSame(s.snd, s1.snd, t.snd, s.rcv.ackNr, i + 1);
    var d, rest := DatagramOf(t.snd, i, s.rcv.ackNr), Sends(s1.snd, t.snd, s.rcv.ackNr, i + 1);
    assert s1.outbox == s.outbox + [d];
    assert (s.outbox + [d]) + rest == s.outbox + ([d] + rest);
  }

  lemma SkipOrder(s: Snd, t: Snd, i: nat, q: Quota)
    requires OldestFirst(s, t, i + 1, q) && i < |s.window| && t.window[i] == s.window[i]
    requires Waits(s.window[i]) ==> i == |s.window| - 1
    ensures OldestFirst(s, t, i, q)
  {
  }

  lemma SendOrder(s: Snd, t: Snd, i: nat, q: Quota)
    requires i < |s.window| && s.window[i].Some? && OldestFirst(SndTransmit(s, i), t, i + 1, q)
    requires t.window[i] == SndTransmit(s, i).window[i]
    ensures OldestFirst(s, t, i, q)
  {
  }

  lemma {:induction false} FlushFromSends(s: Socket, i: nat, q: Quota)
    ensures FlushedFrom(s, FlushFrom(s, i, q), i, q) && OldestFirst(s.snd, FlushFrom(s, i, q).snd, i, q)
    decreases |s.snd.window| - i
  {
    hide FlushedFrom, IsFull, OldestFirst;
    var w := s.snd.window;
    if i >= |w| {
      Stopped(s, i, q);
    } else if w[i].None? || (w[i].value.transmissions > 0 && !w[i].value.needResend) {
      FlushFromSends(s, i + 1, q);
      SkipOne(s, FlushFrom(s, i + 1, q), i, q);
    } else if IsFull(s.snd, q.packetSize, q) {
      Stopped(s, i, q);
    } else if i != |w| - 1 || |w| == 1 || |w[i].value.data| >= q.packetSize {
      var t := FlushFrom(Transmit(s, i), i + 1, q);
      FlushFromSends(Transmit(s, i), i + 1, q);
      SendOne(s, t, i, q);
    } else {
      FlushFromSends(s, i + 1, q);
      SkipOne(s, FlushFrom(s, i + 1, q), i, q);
    }
  }

  lemma Stopped(s: Socket, i: nat, q: Quota)
    requires i >= |s.snd.window| || IsFull(s.snd, q.packetSize, q)
    ensures FlushedFrom(s, s, i, q) && OldestFirst(s.snd, s.snd, i, q)
  {
    SendsNone(s.snd, s.snd, s.rcv.ackNr, i);
  }

  /**
   * flush_packets: what could be sent has been sent, oldest first, and a last packet that may be filled has not; every packet that was sent has exactly one datagram, in
   * window order, with its number, its payload and the current ack number; no other datagram went out, and none without
   * quota.
   */
  lemma FlushSends(s: Socket, q: Quota)
    ensures var t := Flush(s, q);
            && Flushed(t.snd, q) && OldestFirst(s.snd, t.snd, 0, q) && |t.snd.window| == |s.snd.window| && t.snd.seqNr == s.snd.seqNr
            && (forall j :: 0 <= j < |s.snd.window| ==> SentOnce(s.snd.window[j], t.snd.window[j]))
            && (forall j :: 0 <= j < |s.snd.window| && MayFill(s.snd.window, j, q) ==> t.snd.window[j] == s.snd.window[j])
            && t.outbox == s.outbox + Sends(s.snd, t.snd, s.rcv.ackNr, 0)
            && WithinQuota(s.snd, t.snd, Sends(s.snd, t.snd, s.rcv.ackNr, 0), q)
  {
    FlushFromSends(s, 0, q);
  }

  // ---------------------------------------------------------------- a write

  lemma {:induction false} FlushFull(s: Socket, i: nat, q: Quota)
    requires IsFull(s.snd, q.packetSize, q)
    ensures FlushFrom(s, i, q) == s
    decreases |s.snd.window| - i
  {
    if i < |s.snd.window| {
      FlushFull(s, i + 1, q);
    }
  }

  /** Two stretches of sending, the second above the cut and the first below it. */
  lemma {:induction false} SendsJoin(s: Snd, f: Snd, t: Snd, ackNr: int, cut: nat, j: nat)
    requires Head(f) == Head(t) && |f.window| <= |t.window|
    requires forall k :: j <= k < cut ==> Times(t.window, k) == Times(f.window, k)
    requires forall k :: j <= k < |t.window| && cut <= k ==> Times(f.window, k) == Times(s.window, k)
    requires forall k :: j <= k < |f.window| && Times(f.window, k) > Times(s.window, k) ==> t.window[k] == f.window[k]
    ensures Sends(s, t, ackNr, j) == Sends(s, f, ackNr, j) + Sends(f, t, ackNr, j)
    decreases |t.window| - j
  {
    if j < |t.window| {
      SendsJoin(s, f, t, ackNr, cut, j + 1);
      if j < cut {
        assert Times(t.window, j) == Times(f.window, j);
      } else {
        assert Times(f.window, j) == Times(s.window, j);
        SendsAbove(s, f, ackNr, j, cut);
      }
    }
  }

  lemma SendsAbove(s: Snd, f: Snd, ackNr: int, j: nat, cut: nat)
    requires cut <= j && forall k :: j <= k < |f.window| ==> Times(f.window, k) == Times(s.window, k)
    ensures Sends(s, f, ackNr, j) == []
  {
    SendsNone(s, f, ackNr, j);
  }

  /** What queuing bytes leaves alone: everything but an unsent last packet, and no transmission happens. */
  ghost predicate Queues(s: Snd, t: Snd) {
    && Head(t) == Head(s) && |s.window| <= |t.window| && t.curWindow == s.curWindow
    && (forall j :: 0 <= j < |t.window| ==> Times(t.window, j) == Times(s.window, j))
    && (forall j :: 0 <= j < |s.window| && !Waits(s.window[j]) ==> t.window[j] == s.window[j])
  }

  lemma EnqueueQueues(s: Snd, data: Bytes, fin: bool, q: Quota)
    requires Shaped(s)
    ensures Queues(s, Enqueue(s, data, fin, q)) && Shaped(Enqueue(s, data, fin, q))
  {
  }

  /** One round of queuing and flushing. */
  lemma QueueAndFlush(s: Socket, e: Snd, q: Quota)
    requires Queues(s.snd, e)
    ensures var f := Flush(s.(snd := e), q);
            && Written(s, f) && Flushed(f.snd, q) && |f.snd.window| == |e.window|
            && (forall j :: 0 <= j < |e.window| && MayFill(e.window, j, q) ==> f.snd.window[j] == e.window[j])
            && (IsFull(e, q.packetSize, q) ==> f == s.(snd := e))
  {
    hide IsFull, WithinQuota, OldestFirst;
    var x := s.(snd := e);
    FlushSends(x, q);
    FlushShape(x, 0, q);
    var f := Flush(x, q);
    SendsSame(e, s.snd, f.snd, s.rcv.ackNr, 0);
    if IsFull(e, q.packetSize, q) {
      FlushFull(x, 0, q);
    }
  }

  /** From s to t packets were queued and sent; sent ones did not change any more, and each has one datagram, in order. */
  ghost predicate Written(s: Socket, t: Socket) {
    && Head(t.snd) == Head(s.snd) && |s.snd.window| <= |t.snd.window| && t.rcv == s.rcv
    && (forall j :: 0 <= j < |t.snd.window| ==> Times(t.snd.window, j) >= Times(s.snd.window, j))
    && (forall j :: 0 <= j < |t.snd.window| && Times(t.snd.window, j) > Times(s.snd.window, j) ==> !Waits(t.snd.window[j]))
    && (forall j :: 0 <= j < |s.snd.window| && !Waits(s.snd.window[j]) ==> t.snd.window[j] == s.snd.window[j])
    && t.outbox == s.outbox + Sends(s.snd, t.snd, s.rcv.ackNr, 0)
  }

  /** Where the first stretch of sending ends and the second begins. */
  function Cut(f: Snd): nat {
    if f.window != [] && Waits(f.window[|f.window| - 1]) then |f.window| - 1 else |f.window|
  }

  lemma WrittenJoin(s: Socket, f: Socket, t: Socket, q: Quota)
    requires Written(s, f) && Written(f, t) && Flushed(f.snd, q)
    requires IsFull(f.snd, q.packetSize, q) ==> forall j :: 0 <= j < |t.snd.window| ==> Times(t.snd.window, j) == Times(f.snd.window, j)
    ensures Written(s, t)
  {
    if NoRoom(f.snd, q.packetSize, q) {
      SendsJoin(s.snd, f.snd, t.snd, s.rcv.ackNr, |t.snd.window|, 0);
    } else {
      forall k | Cut(f.snd) <= k < |t.snd.window| ensures Times(f.snd.window, k) == Times(s.snd.window, k) {
        assert k < |f.snd.window| ==> Times(f.snd.window, k) >= Times(s.snd.window, k);
      }
      forall k | 0 <= k < Cut(f.snd) ensures Times(t.snd.window, k) == Times(f.snd.window, k) {
        assert !Waits(f.snd.window[k]);
      }
      SendsJoin(s.snd, f.snd, t.snd, s.rcv.ackNr, Cut(f.snd), 0);
    }
    var a, b := Sends(s.snd, f.snd, s.rcv.ackNr, 0), Sends(f.snd, t.snd, s.rcv.ackNr, 0);
    assert (s.outbox + a) + b == s.outbox + (a + b);
  }

  lemma {:induction false} WriteLoopSends(s: Socket, data: Bytes, q: Quota)
    requires Shaped(s.snd)
    ensures var t := WriteLoop(s, data, q).0;
            && Written(s, t) && Flushed(t.snd, q)
            && (IsFull(s.snd, q.packetSize, q) ==> forall j :: 0 <= j < |t.snd.window| ==> Times(t.snd.window, j) == Times(s.snd.window, j))
    decreases |data|
  {
    hide Written, IsFull, Enqueue, FlushFrom, Flushed;
    var num := Min(|data|, q.packetSize);
    if IsFull(s.snd, num, q) {
      FullMore(s.snd, s.snd, num, q);
      WrittenNone(s, s.(state := ConnectedFull));
    } else {
      var e := Enqueue(s.snd, data[..num], false, q);
      EnqueueQueues(s.snd, data[..num], false, q);
      QueueAndFlush(s, e, q);
      FullMore(s.snd, e, q.packetSize, q);
      var f := Flush(s.(snd := e), q);
      FlushShape(s.(snd := e), 0, q);
      if num == 0 || |data| == num {
      } else {
        WriteLoopSends(f, data[num..], q);
        WrittenJoin(s, f, WriteLoop(f, data[num..], q).0, q);
      }
    }
  }

  lemma FullMore(s: Snd, e: Snd, bytes: nat, q: Quota)
    requires IsFull(s, bytes, q) ==> bytes <= q.packetSize
    requires e.curWindow == s.curWindow && |e.window| >= |s.window|
    ensures IsFull(s, bytes, q) ==> IsFull(e, q.packetSize, q) && Flushed(e, q)
  {
  }

  lemma WrittenNone(s: Socket, t: Socket)
    requires t.snd == s.snd && t.rcv == s.rcv && t.outbox == s.outbox
    ensures Written(s, t)
  {
    SendsNone(s.snd, s.snd, s.rcv.ackNr, 0);
  }

  /**
   * From a to b only the last packet (if `open` for more) and new ones grew; each packet was filled to p before the next
   * was begun.
   */
  ghost predicate Packed(a: seq<nat>, b: seq<nat>, open: bool, p: nat) {
    && |a| <= |b| && (open ==> a != [])
    && (forall j :: 0 <= j < |a| && !(open && j == |a| - 1) ==> b[j] == a[j])
    && (forall j :: 0 <= j < |b| - 1 && (j >= |a| || (open && j == |a| - 1)) ==> b[j] == p)
    && (b != [] && b[|b| - 1] > p ==> |b| == |a| && b[|b| - 1] == a[|a| - 1])
  }

  lemma PackedJoin(a: seq<nat>, f: seq<nat>, b: seq<nat>, open: bool, open': bool, p: nat)
    requires Packed(a, f, open, p) && Packed(f, b, open', p)
    requires !open' ==> f != [] && f[|f| - 1] == p
    requires open' ==> |f| > |a| || open
    ensures Packed(a, b, open, p)
  {
  }

  lemma EnqueuePacks(s: Snd, data: Bytes, q: Quota)
    requires Shaped(s) && |data| <= q.packetSize
    ensures var e := Enqueue(s, data, false, q);
            && Packed(s.sizes, e.sizes, data != [] && CanExtend(s, q), q.packetSize) && |e.sizes| == |e.window| > 0
            && (|data| == q.packetSize > 0 ==>
                  if CanExtend(e, q) then |e.window| > |s.window| > 0 else e.sizes[|e.sizes| - 1] == q.packetSize)
            && (|data| == q.packetSize > 0 && CanExtend(e, q) ==> MayFill(e.window, |e.window| - 1, q))
  {
  }

  lemma PackedSame(a: seq<nat>, open: bool, p: nat)
    requires open ==> a != []
    ensures Packed(a, a, open, p)
  {
  }

  /** A flush sends no packet that may be filled, and opens none. */
  lemma StillOpen(s: Socket, q: Quota)
    requires CanExtend(s.snd, q) ==> MayFill(s.snd.window, |s.snd.window| - 1, q)
    ensures CanExtend(Flush(s, q).snd, q) <==> CanExtend(s.snd, q)
  {
    hide FlushFrom, IsFull, WithinQuota, Sends, OldestFirst;
    FlushSends(s, q);
  }

  lemma {:induction false} WriteLoopPacks(s: Socket, data: Bytes, q: Quota)
    requires Shaped(s.snd)
    ensures Packed(s.snd.sizes, WriteLoop(s, data, q).0.snd.sizes, data != [] && CanExtend(s.snd, q), q.packetSize)
    decreases |data|
  {
    hide Written, IsFull, Enqueue, FlushFrom, Flushed, Packed;
    var num := Min(|data|, q.packetSize);
    var open := data != [] && CanExtend(s.snd, q);
    if IsFull(s.snd, num, q) {
      PackedSame(s.snd.sizes, open, q.packetSize);
    } else {
      var e := Enqueue(s.snd, data[..num], false, q);
      EnqueueQueues(s.snd, data[..num], false, q);
      EnqueuePacks(s.snd, data[..num], q);
      QueueAndFlush(s, e, q);
      var f := Flush(s.(snd := e), q);
      FlushShape(s.(snd := e), 0, q);
      if num == 0 || |data| == num {
      } else {
        WriteLoopPacks(f, data[num..], q);
        StillOpen(s.(snd := e), q);
        PackedJoin(s.snd.sizes, f.snd.sizes, WriteLoop(f, data[num..], q).0.snd.sizes, open, CanExtend(f.snd, q), q.packetSize);
      }
    }
  }

  /** Everything is taken, or the window is full. */
  lemma {:induction false} WriteLoopTakes(s: Socket, data: Bytes, q: Quota)
    requires Shaped(s.snd) && s.state == Connected && q.packetSize > 0
    ensures var (t, n) := WriteLoop(s, data, q);
            if t.state == Connected then n == |data|
            else t.state == ConnectedFull && NoRoom(t.snd, Min(|data| - n, q.packetSize), q)
    decreases |data|
  {
    hide Enqueue, FlushFrom;
    var num := Min(|data|, q.packetSize);
    if IsFull(s.snd, num, q) {
    } else {
      var e := Enqueue(s.snd, data[..num], false, q);
      EnqueueQueues(s.snd, data[..num], false, q);
      FlushShape(s.(snd := e), 0, q);
      if num == 0 || |data| == num {
      } else {
        WriteLoopTakes(Flush(s.(snd := e), q), data[num..], q);
      }
    }
  }

  /**
   * utp_write on a connected socket that has not sent its FIN: takes all the bytes, or stops at a full window and says so;
   * fills each packet before it begins the next; and afterwards nothing waits that could be sent, each packet sent having
   * one datagram, in window order.
   */
  lemma WriteSends(x: Socket, data: Bytes, q: Quota)
    requires Shaped(x.snd) && x.state == Connected && !x.snd.finSent && q.packetSize > 0
    ensures var t := DoCall(x, CallWrite(data, q));
            var n := |t.accepted| - |x.accepted|;
            && 0 <= n <= |data| && t.accepted == x.accepted + data[..n]
            && (if t.state == Connected then n == |data| else t.state == ConnectedFull && NoRoom(t.snd, Min(|data| - n, q.packetSize), q))
            && Packed(x.snd.sizes, t.snd.sizes, data != [] && CanExtend(x.snd, q), q.packetSize)
            && Flushed(t.snd, q) && t.outbox == x.outbox + Sends(x.snd, t.snd, x.rcv.ackNr, 0)
  {
    hide WriteLoop, IsFull, Flushed, Packed, Sends;
    WriteLoopTakes(x, data, q);
    WriteLoopPacks(x, data, q);
    WriteLoopSends(x, data, q);
    WriteLoopSame(x, data, q);
  }

  lemma {:induction false} WriteLoopSame(s: Socket, data: Bytes, q: Quota)
    requires Shaped(s.snd)
    ensures var t := WriteLoop(s, data, q).0;
            t.accepted == s.accepted && t.reported == s.reported && t.fastTimeout == s.fastTimeout && t.fastResend == s.fastResend
    decreases |data|
  {
    hide FlushFrom, Enqueue;
    var num := Min(|data|, q.packetSize);
    if IsFull(s.snd, num, q) {
    } else {
      var s1 := s.(snd := Enqueue(s.snd, data[..num], false, q));
      FlushShape(s1, 0, q);
      EnqueueQueues(s.snd, data[..num], false, q);
      if num == 0 || |data| == num {
      } else {
        WriteLoopSame(Flush(s1, q), data[num..], q);
      }
    }
  }

  // ---------------------------------------------------------------- a FIN and acks

  lemma FinQueues(s: Snd)
    requires Shaped(s)
    ensures Queues(s, SndAppend(s.(finSent := true), [], true))
  {
  }

  /** The FIN is the last packet, in a window flushed after it was queued. */
  ghost predicate FinQueued(x: Socket, t: Socket, q: Quota) {
    var n := |x.snd.window|;
    && t.snd.finSent && t.snd.written == x.snd.written + [[]] && |t.snd.window| == n + 1 && Head(t.snd) == Head(x.snd)
    && t.snd.window[n].Some? && t.snd.window[n].value.fin && t.snd.window[n].value.data == []
    && Flushed(t.snd, q) && t.outbox == x.outbox + Sends(x.snd, t.snd, x.rcv.ackNr, 0)
  }

  lemma SendFinQueues(x: Socket, q: Quota)
    requires Shaped(x.snd)
    ensures FinQueued(x, SendFin(x, q), q) && SendFin(x, q).state == x.state && SendFin(x, q).finAcked == x.finAcked
    ensures SendFin(x, q).closeRequested == x.closeRequested
  {
    hide FlushFrom, IsFull, WithinQuota, Sends, Flushed, OldestFirst;
    var e := SndAppend(x.snd.(finSent := true), [], true);
    FinQueues(x.snd);
    QueueAndFlush(x, e, q);
    FlushShape(x.(snd := e), 0, q);
    FlushSends(x.(snd := e), q);
  }

  /**
   * utp_close: on an open connection nobody reads any more and the FIN is queued behind everything written, once; a socket
   * whose FIN was acknowledged, or that was never open, is done.
   */
  lemma CloseSends(x: Socket, q: Quota)
    requires Shaped(x.snd)
    ensures var t := DoCall(x, CallClose(q));
            if Open(x.state) then
              && t.closeRequested && t.rcv == x.rcv.(shutdown := true)
              && (!x.snd.finSent ==> FinQueued(x, t, q) && t.state == x.state)
              && (x.snd.finSent ==> t.snd == x.snd && t.outbox == x.outbox && t.state == if x.finAcked then Destroy else x.state)
            else t == x.(state := Destroy)
  {
    hide SendFin, Flushed, Sends;
    var x1 := x.(rcv := x.rcv.(shutdown := true), closeRequested := true);
    SendFinQueues(x1, q);
  }

  /** utp_shutdown: reading stops, or the FIN is queued behind everything written, once; the connection stays as it is. */
  lemma ShutdownSends(x: Socket, rd: bool, wr: bool, q: Quota)
    requires Shaped(x.snd)
    ensures var t := DoCall(x, CallShutdown(rd, wr, q));
            && t.rcv == x.rcv.(shutdown := x.rcv.shutdown || rd) && t.state == x.state && t.closeRequested == x.closeRequested
            && if wr && Open(x.state) && !x.snd.finSent then FinQueued(x, t, q) else t.snd == x.snd && t.outbox == x.outbox
  {
    hide SendFin, Flushed, Sends;
    SendFinQueues(if rd then x.(rcv := x.rcv.(shutdown := true)) else x, q);
  }

  /** One datagram that tells all that was taken and, until the FIN is reached, each packet held among the next thirty. */
  ghost predicate TellsAll(x: Socket, t: Socket) {
    && |t.outbox| == |x.outbox| + 1 && x.outbox <= t.outbox && !t.ackPending
    && var m := t.outbox[|x.outbox|];
       && m.kind == State && m.num == x.snd.seqNr && m.ack == x.rcv.ackNr && m.data == []
       && (m.eack.Some? <==> x.rcv.reorder != 0 && !x.rcv.finReached)
       && (m.eack.Some? ==> |m.eack.value| == 32 && forall i :: 0 <= i < 32 ==> (m.eack.value[i] <==> i < 30 && m.ack + 2 + i in x.rcv.held))
  }

  /** A deferred ack is sent if one is due; a reader that drained the buffer has one sent at once, or made due. */
  lemma AckTells(x: Socket, grown: bool, zero: bool)
    requires Shaped(x.snd)
    ensures var t := DoCall(x, CallDeferredAck); if x.ackPending then TellsAll(x, t) else t == x
    ensures var t := DoCall(x, CallReadDrained(grown, zero));
            if grown && zero then TellsAll(x, t) else t == x.(ackPending := x.ackPending || grown)
  {
  }

  // ---------------------------------------------------------------- what no call takes back

  /** A slot emptied stays empty; a packet stays, is sent more often or not, and only grows while it was never sent. */
  predicate SlotOnward(o: Slot, p: Slot) {
    && (o.None? <==> p.None?)
    && (o.Some? ==>
          && p.value.transmissions >= o.value.transmissions && p.value.fin == o.value.fin && o.value.data <= p.value.data
          && (o.value.transmissions > 0 ==> p.value.data == o.value.data)
          && (p.value.transmissions == o.value.transmissions ==> p.value.needResend == o.value.needResend))
  }

  ghost predicate Onward(s: Snd, t: Snd) {
    && Head(t) == Head(s) && |s.window| <= |t.window| && (s.finSent ==> t.finSent) && t.popped == s.popped
    && forall j :: 0 <= j < |s.window| ==> SlotOnward(s.window[j], t.window[j])
  }

  lemma OnwardJoin(s: Snd, f: Snd, t: Snd)
    requires Onward(s, f) && Onward(f, t)
    ensures Onward(s, t)
  {
    forall j | 0 <= j < |s.window| ensures SlotOnward(s.window[j], t.window[j]) {
      assert SlotOnward(s.window[j], f.window[j]) && SlotOnward(f.window[j], t.window[j]);
    }
  }

  lemma EnqueueOnward(s: Snd, data: Bytes, fin: bool, q: Quota)
    requires Shaped(s)
    ensures Onward(s, Enqueue(s, data, fin, q))
  {
  }

  lemma FlushOnward(s: Socket, q: Quota)
    ensures Onward(s.snd, Flush(s, q).snd) && s.outbox <= Flush(s, q).outbox
  {
    hide FlushFrom, IsFull, WithinQuota, Sends, OldestFirst, Flushed;
    FlushSends(s, q);
    FlushShape(s, 0, q);
    var t := Flush(s, q);
    forall j | 0 <= j < |s.snd.window| ensures SlotOnward(s.snd.window[j], t.snd.window[j]) {
      assert SentOnce(s.snd.window[j], t.snd.window[j]);
    }
  }

  lemma {:induction false} WriteLoopOnward(s: Socket, data: Bytes, q: Quota)
    requires Shaped(s.snd)
    ensures var t := WriteLoop(s, data, q).0; Onward(s.snd, t.snd) && s.outbox <= t.outbox
    decreases |data|
  {
    hide FlushFrom, Enqueue, IsFull, Onward;
    var num := Min(|data|, q.packetSize);
    if IsFull(s.snd, num, q) {
      OnwardSame(s.snd);
    } else {
      var e := Enqueue(s.snd, data[..num], false, q);
      var s1 := s.(snd := e);
      EnqueueQueues(s.snd, data[..num], false, q);
      EnqueueOnward(s.snd, data[..num], false, q);
      FlushShape(s1, 0, q);
      FlushOnward(s1, q);
      var f := Flush(s1, q);
      OnwardJoin(s.snd, e, f.snd);
      if num == 0 || |data| == num {
      } else {
        WriteLoopOnward(f, data[num..], q);
        OnwardJoin(s.snd, f.snd, WriteLoop(f, data[num..], q).0.snd);
      }
    }
  }

  lemma OnwardSame(s: Snd)
    ensures Onward(s, s)
  {
  }

  lemma SendFinOnward(s: Socket, q: Quota)
    requires Shaped(s.snd)
    ensures Onward(s.snd, SendFin(s, q).snd) && s.outbox <= SendFin(s, q).outbox
  {
    hide FlushFrom;
    var e := SndAppend(s.snd.(finSent := true), [], true);
    assert Onward(s.snd, e);
    FlushOnward(s.(snd := e), q);
    OnwardJoin(s.snd, e, Flush(s.(snd := e), q).snd);
  }
}
