// UTPSocket as the program keeps it: 16-bit counters, two growable rings and plain fields, updated in place.
// The ghost field `model` is the same socket over true packet numbers; every method moves both in step.
module UtpSocket {
  import opened Common
  import opened SeqSpace
  import opened UtpModel
  import opened UtpInvariant
  import opened UtpDelivery
  import opened UtpRings
  import UtpFin
  import UtpFlush
  import UtpArrival
  import R = Ring

  lemma NarrowSnoc(ms: seq<Msg>, m: Msg)
    ensures NarrowAll(ms + [m]) == NarrowAll(ms) + [Narrow(m)]
  {
  }

  /** ensure_size before an out-of-order packet is stored. */
  lemma GrowShows(rx: Rx, r: Rcv, v: int, num: int)
    requires ReceiveShows(rx, r) && v == Wrap(num) && r.ackNr + 1 <= num <= r.ackNr + REORDER_BUFFER_MAX_SIZE
    ensures |rx.inbuf| > 0
    ensures var g := R.EnsureSize(rx.inbuf, v + 1, num - r.ackNr);
            ReceiveShows(rx.(inbuf := g), r) && num < r.ackNr + |g| && |g| > 0
  {
    hide InCoupled, RcvCore, Wrap, R.EnsureSize;
    InGrow(rx.inbuf, r, v, num);
    InSize(rx.inbuf, r);
    InSize(R.EnsureSize(rx.inbuf, v + 1, num - r.ackNr), r);
  }

  lemma LookShows(rx: Rx, r: Rcv, v: int, num: int)
    requires ReceiveShows(rx, r) && v == Wrap(num) && r.ackNr + 1 <= num < r.ackNr + |rx.inbuf|
    ensures |rx.inbuf| > 0 && (R.At(rx.inbuf, v) == None <==> num !in r.held)
  {
    hide InCoupled, RcvCore, Wrap;
    WrapAdd(num, 0);
    InAt(rx.inbuf, r, v, num);
  }

  lemma HoldShows(rx: Rx, r: Rcv, v: int, num: int, data: Bytes)
    requires ReceiveShows(rx, r) && RcvInv(r) && !r.finReached && v == Wrap(num)
    requires r.ackNr + 1 < num < r.ackNr + |rx.inbuf| && num <= r.ackNr + REORDER_BUFFER_MAX_SIZE && num !in r.held
    ensures |rx.inbuf| > 0 && RcvInv(Hold(r, num, data))
    ensures var t := Hold(r, num, data);
            && t.ackNr == r.ackNr && t.eof == r.eof && t.finReached == r.finReached
            && ReceiveShows(rx.(inbuf := R.Put(rx.inbuf, v, Some(data)), reorderCount := rx.reorderCount + 1), t)
  {
    hide InCoupled, RcvCore, Wrap, R.Put;
    WrapAdd(num, 0);
    HoldInv(r, num, data);
    InPut(rx.inbuf, r, v, num, Hold(r, num, data));
  }

  lemma NoteFinShows(rx: Rx, r: Rcv, m: Msg)
    requires ReceiveShows(rx, r) && RcvInv(r) && r.ackNr < m.num <= r.ackNr + REORDER_BUFFER_MAX_SIZE
    ensures var rx' := if m.kind == Fin && !rx.gotFin then rx.(gotFin := true, eofPkt := Wrap(m.num)) else rx;
            ReceiveShows(rx', NoteFin(r, m)) && RcvInv(NoteFin(r, m))
  {
    hide InCoupled, Wrap;
    InSame(rx.inbuf, r, NoteFin(r, m));
  }

  /** On a live connection a FIN that was seen but not reached lies ahead. */
  predicate EofAhead(x: Socket) {
    !Dead(x.state) && x.rcv.eof.Some? && !x.rcv.finReached ==> x.rcv.ackNr < x.rcv.eof.value
  }

  /** The fields of the sending half. */
  datatype Tx = Tx(seqNr: int, curWindowPackets: nat, curWindow: int, outbuf: R.Slots<OutPacket>, outbufSizes: seq<nat>,
                   finSent: bool)

  /** The fields of the receiving half; `delivered` collects the bytes passed to on_read. */
  datatype Rx = Rx(ackNr: int, inbuf: R.Slots<Bytes>, reorderCount: nat, gotFin: bool, gotFinReached: bool, eofPkt: int,
                   readShutdown: bool, delivered: Bytes)

  /** The sending fields show the sending half, which keeps its invariant. */
  ghost predicate SendShows(tx: Tx, s: Snd) {
    && tx.seqNr == Wrap(s.seqNr) && tx.curWindowPackets == |s.window| && tx.curWindow == s.curWindow
    && tx.outbufSizes == s.sizes && tx.finSent == s.finSent
    && OutCoupled(tx.outbuf, s)
    && SndCore(s)
  }

  /** The receiving fields show the receiving half, which keeps its invariant. */
  ghost predicate ReceiveShows(rx: Rx, r: Rcv) {
    && rx.ackNr == Wrap(r.ackNr) && rx.reorderCount == r.reorder
    && rx.gotFin == r.eof.Some? && (rx.gotFin ==> rx.eofPkt == Wrap(r.eof.value))
    && rx.gotFinReached == r.finReached && rx.readShutdown == r.shutdown && rx.delivered == r.delivered
    && InCoupled(rx.inbuf, r)
    && RcvCore(r)
  }

  /** One more packet at the end of the window, in a ring that has room for it. */
  lemma AppendShows(tx: Tx, s: Snd, data: Bytes, fin: bool)
    requires SendShows(tx, s)
    requires |s.window| < OUTGOING_BUFFER_MAX_SIZE - 1 + (if s.finSent then 1 else 0)
    requires forall i :: 0 <= i < |s.window| ==> s.window[i].Some? ==> !s.window[i].value.fin
    requires fin ==> s.finSent && data == []
    ensures |tx.outbuf| > 0 && |R.EnsureSize(tx.outbuf, tx.seqNr, tx.curWindowPackets)| > 0
    ensures var ring := R.EnsureSize(tx.outbuf, tx.seqNr, tx.curWindowPackets);
            SendShows(tx.(outbuf := R.Put(ring, tx.seqNr, Some(OutPacket(Packet(data, fin, 0, false), tx.seqNr))),
                          seqNr := Wrap(tx.seqNr + 1), curWindowPackets := tx.curWindowPackets + 1,
                          outbufSizes := tx.outbufSizes + [|data|]), SndAppend(s, data, fin))
    ensures HeadLive(s) ==> HeadLive(SndAppend(s, data, fin))
  {
    hide SndCore, OutCoupled, R.Slot, Wrap, R.EnsureSize;
    OutGrow(tx.outbuf, s, tx.seqNr);
    var ring := R.EnsureSize(tx.outbuf, tx.seqNr, tx.curWindowPackets);
    OutAppend(ring, s, tx.seqNr, Packet(data, fin, 0, false), SndAppend(s, data, fin));
    AppendCore(s, data, fin);
    WrapAdd(s.seqNr, 1);
  }

  /** One more transmission of the packet in the slot of v. */
  lemma SentShows(tx: Tx, s: Snd, v: int, i: nat)
    requires SendShows(tx, s) && i < |s.window| && s.window[i].Some?
    requires |tx.outbuf| > 0 && R.Twin(Head(s), v, |tx.outbuf|) == Head(s) + i
    ensures var p := OutPacket(s.window[i].value, Wrap(Head(s) + i));
            var ring := R.Put(tx.outbuf, v, Some(p.(pkt := Sent(p.pkt))));
            && R.At(tx.outbuf, v) == Some(p) && |ring| == |tx.outbuf|
            && SendShows(tx.(curWindow := if p.pkt.transmissions == 0 || p.pkt.needResend then tx.curWindow + |p.pkt.data| else tx.curWindow,
                             outbuf := ring), SndTransmit(s, i))
  {
    hide SndCore, OutCoupled, R.Twin, R.Slot, Wrap;
    OutAt(tx.outbuf, s, v);
    OutPut(tx.outbuf, s, v, i, SndTransmit(s, i));
    CoreTransmit(s, i);
  }

  class UtpSocket {
    var tx: Tx
    var rx: Rx
    var state: ConnState
    var finSentAcked: bool
    var closeRequested: bool
    var fastTimeout: bool
    var fastResendSeqNr: int
    var ackScheduled: bool
    // what went out: datagrams and the bytes passed to on_sent
    var wire: seq<WireMsg>
    var reported: nat

    ghost var model: Socket

    /** Holds at every point: the fields and rings show the model, and the model keeps its core invariants. */
    ghost predicate Linked()
      reads this
    {
      && SendShows(tx, model.snd)
      && ReceiveShows(rx, model.rcv)
      && state == model.state && finSentAcked == model.finAcked && closeRequested == model.closeRequested
      && fastTimeout == model.fastTimeout && fastResendSeqNr == model.fastResend && 0 <= fastResendSeqNr < M
      && ackScheduled == model.ackPending && reported == model.reported
      && wire == NarrowAll(model.outbox)
    }

    /** Holds whenever the upper layer may call: between two datagrams and inside each of its callbacks. */
    ghost predicate Valid()
      reads this
    {
      Linked() && HeadLive(model.snd) && RcvOpen(model.rcv) && EofAhead(model)
    }

    /** A socket as the handshake leaves it: next number seq_, last received number ack, of which these are the true ones. */
    constructor (seq_: int, ack: int, st: ConnState, fastResend: int, ghost seqNr: int, ghost ackNr: int)
      requires seq_ == Wrap(seqNr) && ack == Wrap(ackNr) && 0 <= fastResend < M
      ensures Valid()
      ensures model == AfterHandshake(seqNr, ackNr, st, fastResend)
    {
      tx := Tx(seq_, 0, 0, seq(16, _ => None), [], false);
      rx := Rx(ack, seq(16, _ => None), 0, false, false, 0, false, []);
      state, finSentAcked, closeRequested, ackScheduled := st, false, false, false;
      fastTimeout, fastResendSeqNr := false, fastResend;
      wire, reported := [], 0;
      model := AfterHandshake(seqNr, ackNr, st, fastResend);
      assert Flatten([]) == [];
    }

    /** What the plain fields show, for callers that need nothing else of Linked. */
    lemma Shows()
      requires Linked()
      ensures tx.seqNr == Wrap(model.snd.seqNr) && tx.curWindowPackets == |model.snd.window| <= OUTGOING_BUFFER_MAX_SIZE
      ensures tx.finSent == model.snd.finSent && fastTimeout == model.fastTimeout && fastResendSeqNr == model.fastResend
      ensures 0 <= model.fastResend < M && Shaped(model.snd)
      ensures rx.ackNr == Wrap(model.rcv.ackNr) && rx.reorderCount == model.rcv.reorder && rx.gotFinReached == model.rcv.finReached
      ensures rx.gotFin == model.rcv.eof.Some? && (rx.gotFin ==> rx.eofPkt == Wrap(model.rcv.eof.value))
      ensures state == model.state && finSentAcked == model.finAcked && closeRequested == model.closeRequested
      ensures OutCoupled(tx.outbuf, model.snd) && InCoupled(rx.inbuf, model.rcv)
    {
      hide RcvCore, OutCoupled, InCoupled, NarrowAll;
    }

    method SetState(st: ConnState)
      requires Linked()
      modifies this`state, this`model
      ensures Linked() && model == old(model).(state := st)
    {
      hide SendShows, ReceiveShows, NarrowAll;
      state := st;
      model := model.(state := st);
    }

    method SetFast(timeout: bool, resendSeqNr: int)
      requires Linked() && 0 <= resendSeqNr < M
      modifies this`fastTimeout, this`fastResendSeqNr, this`model
      ensures Linked() && model == old(model).(fastTimeout := timeout, fastResend := resendSeqNr)
    {
      hide SendShows, ReceiveShows, NarrowAll;
      fastTimeout, fastResendSeqNr := timeout, resendSeqNr;
      model := model.(fastTimeout := timeout, fastResend := resendSeqNr);
    }

    method SetReadShutdown()
      requires Valid()
      modifies this`rx, this`model
      ensures Valid() && model == old(model).(rcv := old(model).rcv.(shutdown := true))
    {
      hide SendShows, NarrowAll;
      ShutReadLocal(model.rcv);
      rx := rx.(readShutdown := true);
      model := model.(rcv := model.rcv.(shutdown := true));
    }

    // ---------------------------------------------------------------- sending

    /** send_packet on the packet in the slot of v, which is window index i. */
    method SendPacket(v: int, ghost i: nat)
      requires Linked()
      requires i < |model.snd.window| && model.snd.window[i].Some?
      requires |tx.outbuf| > 0 && R.Twin(Head(model.snd), v, |tx.outbuf|) == Head(model.snd) + i
      modifies this
      ensures Linked() && model == Transmit(old(model), i) && |tx.outbuf| == old(|tx.outbuf|)
    {
      hide SendShows, ReceiveShows, NarrowAll, OutCoupled, InCoupled, SndTransmit, R.Twin, Wrap;
      Shows();
      var p := MarkSent(v, i);
      ghost var m := Msg(KindOf(p.pkt), Head(old(model).snd) + i, model.rcv.ackNr, None, p.pkt.data);
      NarrowSnoc(model.outbox, m);
      wire := wire + [WireMsg(KindOf(p.pkt), p.seqNr, rx.ackNr, None, p.pkt.data)];
      ackScheduled := false;
      model := model.(ackPending := false, outbox := model.outbox + [m]);
    }

    /** The window part of send_packet: count one more transmission. Returns the packet as it was. */
    method MarkSent(v: int, ghost i: nat) returns (p: OutPacket)
      requires Linked()
      requires i < |model.snd.window| && model.snd.window[i].Some?
      requires |tx.outbuf| > 0 && R.Twin(Head(model.snd), v, |tx.outbuf|) == Head(model.snd) + i
      modifies this`tx, this`model
      ensures Linked() && model == old(model).(snd := SndTransmit(old(model).snd, i)) && |tx.outbuf| == old(|tx.outbuf|)
      ensures p == OutPacket(old(model).snd.window[i].value, Wrap(Head(old(model).snd) + i))
    {
      hide SendShows, ReceiveShows, NarrowAll, R.Twin, R.Slot, R.At, R.Put, Wrap, SndTransmit;
      ghost var t := SndTransmit(model.snd, i);
      SentShows(tx, model.snd, v, i);
      p := R.At(tx.outbuf, v).value;
      if p.pkt.transmissions == 0 || p.pkt.needResend {
        tx := tx.(curWindow := tx.curWindow + |p.pkt.data|);
      }
      tx := tx.(outbuf := R.Put(tx.outbuf, v, Some(p.(pkt := Sent(p.pkt)))));
      model := model.(snd := t);
    }

    /** ack_packet on the packet in the slot of v: 0 acked, 1 already acked, 2 not sent yet. */
    method AckPacket(v: int, ghost i: nat) returns (status: int)
      requires Linked() && i < |model.snd.window|
      requires |tx.outbuf| > 0 && R.Twin(Head(model.snd), v, |tx.outbuf|) == Head(model.snd) + i
      modifies this
      ensures Linked() && |tx.outbuf| == old(|tx.outbuf|)
      ensures var o := old(model.snd.window[i]);
              && status == (if o.None? then 1 else if Unsent(o) then 2 else 0)
              && model == if status == 0 then old(model).(snd := SndAck(old(model.snd), i)) else old(model)
    {
      hide SndCore, OutCoupled, ReceiveShows, NarrowAll, R.Twin, R.Slot, Wrap;
      ghost var s := model.snd;
      OutAt(tx.outbuf, s, v);
      var slot := R.At(tx.outbuf, v);
      if slot.None? {
        return 1;
      }
      var pkt := slot.value.pkt;
      if pkt.transmissions == 0 {
        return 2;
      }
      CoreAck(s, i);
      OutPut(tx.outbuf, s, v, i, SndAck(s, i));
      tx := tx.(outbuf := R.Put(tx.outbuf, v, None));
      if !pkt.needResend {
        tx := tx.(curWindow := tx.curWindow - |pkt.data|);
      }
      model := model.(snd := SndAck(s, i));
      return 0;
    }

    method IsFullFor(bytes: nat, q: Quota) returns (full: bool)
      requires Linked()
      ensures full == IsFull(model.snd, bytes, q)
    {
      var b := if bytes > q.packetSize then q.packetSize else bytes;
      if tx.curWindowPackets >= OUTGOING_BUFFER_MAX_SIZE - 1 {
        return true;
      }
      return tx.curWindow + b > q.maxSend;
    }

    /** One round of flush_packets' loop, at window index k with 16-bit number i; true means out of quota. */
    method FlushOne(i: int, ghost k: nat, q: Quota) returns (full: bool)
      requires Linked() && HeadLive(model.snd)
      requires k < |model.snd.window| && i == Wrap(Head(model.snd) + k)
      modifies this
      ensures Linked() && HeadLive(model.snd)
      ensures |model.snd.window| == |old(model).snd.window| && model.snd.seqNr == old(model).snd.seqNr
      ensures full ==> model == FlushFrom(old(model), k, q)
      ensures !full ==> FlushFrom(model, k + 1, q) == FlushFrom(old(model), k, q)
    {
      hide Linked, HeadLive, OutCoupled, InCoupled, R.Twin, R.At, IsFull, Wrap, FlushFrom;
      ghost var x, head, n := model.snd.seqNr, Head(model.snd), |model.snd.window|;
      Shows();
      FlushFromStep(model, k, q);
      WrapAdd(head + k, 0);
      OutAtIndex(tx.outbuf, model.snd, i, k);
      var slot := R.At(tx.outbuf, i);
      if slot.None? || (slot.value.pkt.transmissions > 0 && !slot.value.pkt.needResend) {
        return false;
      }
      full := IsFullFor(q.packetSize, q);
      if full {
        return;
      }
      WrapAdd(x, -1);
      WrapSame(head + k, n - 1 - k);
      if i != Wrap(tx.seqNr - 1) || tx.curWindowPackets == 1 || |slot.value.pkt.data| >= q.packetSize {
        TransmitHead(model, k);
        SendPacket(i, k);
      }
    }

    /** flush_packets; returns whether it stopped for lack of quota. */
    method FlushPackets(q: Quota) returns (full: bool)
      requires Linked() && HeadLive(model.snd)
      modifies this
      ensures Linked() && HeadLive(model.snd)
      ensures model == Flush(old(model), q) && UtpFlush.Flushed(model.snd, q)
      ensures model.outbox == old(model).outbox + UtpFlush.Sends(old(model).snd, model.snd, old(model).rcv.ackNr, 0)
    {
      UtpFlush.FlushSends(model, q);
      hide UtpFlush.Flushed, UtpFlush.Sends;
      hide SndCore, OutCoupled, ReceiveShows, NarrowAll, Wrap;
      ghost var n := |model.snd.window|;
      ghost var head := Head(model.snd);
      CoreBound(model.snd);
      WrapAdd(model.snd.seqNr, -n);
      var i := Wrap(tx.seqNr - tx.curWindowPackets);
      ghost var k := 0;
      while i != tx.seqNr
        invariant Linked() && HeadLive(model.snd)
        invariant 0 <= k <= n == |model.snd.window| && Head(model.snd) == head && i == Wrap(head + k)
        invariant FlushFrom(model, k, q) == Flush(old(model), q)
        decreases n - k
      {
        full := FlushOne(i, k, q);
        if full {
          return;
        }
        WrapAdd(head + k, 1);
        i := Wrap(i + 1);
        k := k + 1;
      }
      WrapSame(head + k, n - k);
      return false;
    }

    /** write_outgoing_packet's first branch: top up the last, still unsent packet. */
    method ExtendLast(more: Bytes)
      requires Linked() && HeadLive(model.snd) && model.snd.window != []
      requires var o := model.snd.window[|model.snd.window| - 1]; Unsent(o) && !o.value.fin
      modifies this
      ensures Linked() && HeadLive(model.snd)
      ensures model == old(model).(snd := SndExtend(old(model.snd), more))
    {
      hide SndCore, OutCoupled, ReceiveShows, NarrowAll, R.Twin, R.Slot, Wrap;
      ghost var s := model.snd;
      ghost var n := |s.window| - 1;
      CoreBound(s);
      WrapAdd(s.seqNr, -1);
      OutAtIndex(tx.outbuf, s, tx.seqNr - 1, n);
      var p := R.At(tx.outbuf, tx.seqNr - 1).value;
      OutPut(tx.outbuf, s, tx.seqNr - 1, n, SndExtend(s, more));
      ExtendCore(s, more);
      LastSize(s);
      tx := tx.(outbuf := R.Put(tx.outbuf, tx.seqNr - 1, Some(p.(pkt := p.pkt.(data := p.pkt.data + more)))));
      tx := tx.(outbufSizes := tx.outbufSizes[|tx.outbufSizes| - 1 := |p.pkt.data| + |more|]);
      model := model.(snd := SndExtend(s, more));
    }

    /** write_outgoing_packet's second branch: queue a new packet. */
    method AppendPacket(data: Bytes, fin: bool)
      requires Linked() && HeadLive(model.snd)
      requires |model.snd.window| < OUTGOING_BUFFER_MAX_SIZE - 1 + (if model.snd.finSent then 1 else 0)
      requires forall i :: 0 <= i < |model.snd.window| ==> model.snd.window[i].Some? ==> !model.snd.window[i].value.fin
      requires fin ==> model.snd.finSent && data == []
      modifies this
      ensures Linked() && HeadLive(model.snd)
      ensures model == old(model).(snd := SndAppend(old(model.snd), data, fin))
    {
      hide SendShows, ReceiveShows, NarrowAll, R.Slot, R.Put, Wrap, R.EnsureSize, SndAppend, HeadLive;
      ghost var s := model.snd;
      AppendShows(tx, s, data, fin);
      var pkt := Packet(data, fin, 0, false);
      tx := tx.(outbuf := R.EnsureSize(tx.outbuf, tx.seqNr, tx.curWindowPackets));
      tx := tx.(outbuf := R.Put(tx.outbuf, tx.seqNr, Some(OutPacket(pkt, tx.seqNr))));
      tx := tx.(seqNr := Wrap(tx.seqNr + 1));
      tx := tx.(curWindowPackets := tx.curWindowPackets + 1);
      tx := tx.(outbufSizes := tx.outbufSizes + [|data|]);
      model := model.(snd := SndAppend(s, data, fin));
    }

    /** One round of write_outgoing_packet's loop; returns what is left to queue. */
    method QueueSome(payload: Bytes, fin: bool, q: Quota) returns (rest: Bytes)
      requires Linked() && HeadLive(model.snd)
      requires |model.snd.window| < OUTGOING_BUFFER_MAX_SIZE - 1 + (if model.snd.finSent then 1 else 0)
      requires forall i :: 0 <= i < |model.snd.window| ==> model.snd.window[i].Some? ==> !model.snd.window[i].value.fin
      requires fin ==> model.snd.finSent && payload == []
      modifies this
      ensures Linked() && HeadLive(model.snd) && Shaped(old(model).snd)
      ensures var s := old(model).snd;
              if payload != [] && CanExtend(s, q) then
                var room := q.packetSize - |s.window[|s.window| - 1].value.data|;
                var added := Min(|payload|, room);
                rest == payload[added..] && model == old(model).(snd := SndExtend(s, payload[..added]))
              else
                rest == [] && model == old(model).(snd := SndAppend(s, payload, fin))
    {
      hide SndCore, OutCoupled, ReceiveShows, NarrowAll, R.Slot, R.Twin, Wrap;
      ghost var n := |model.snd.window| - 1;
      CoreBound(model.snd);
      var last: Option<OutPacket> := None;
      if tx.curWindowPackets > 0 {
        WrapAdd(model.snd.seqNr, -1);
        OutAtIndex(tx.outbuf, model.snd, tx.seqNr - 1, n);
        last := R.At(tx.outbuf, tx.seqNr - 1);
      }
      if payload != [] && last.Some? && last.value.pkt.transmissions == 0 && |last.value.pkt.data| < q.packetSize {
        var added := Min(|payload| + |last.value.pkt.data|, q.packetSize) - |last.value.pkt.data|;
        ExtendLast(payload[..added]);
        rest := payload[added..];
      } else {
        AppendPacket(payload, fin);
        rest := [];
      }
    }

    /** write_outgoing_packet. */
    method WriteOutgoingPacket(data: Bytes, fin: bool, q: Quota)
      requires Linked() && HeadLive(model.snd)
      requires |model.snd.window| < OUTGOING_BUFFER_MAX_SIZE - 1 + (if model.snd.finSent then 1 else 0)
      requires forall i :: 0 <= i < |model.snd.window| ==> model.snd.window[i].Some? ==> !model.snd.window[i].value.fin
      requires fin ==> model.snd.finSent && data == []
      modifies this
      ensures Linked() && HeadLive(model.snd)
      ensures Shaped(old(model).snd) && model == WriteOutgoing(old(model), data, fin, q)
    {
      hide Linked, FlushFrom, HeadLive, SndAppend;
      ghost var s := model.snd;
      ghost var room := if CanExtend(s, q) then q.packetSize - |s.window[|s.window| - 1].value.data| else 0;
      var payload := QueueSome(data, fin, q);
      assert |data| <= room ==> data[..|data|] == data;
      while payload != []
        invariant Linked() && HeadLive(model.snd) && model == old(model).(snd := model.snd)
        invariant payload == [] ==> model.snd == Enqueue(s, data, fin, q)
        invariant payload != [] ==>
                    && data != [] && CanExtend(s, q) && room < |data|
                    && payload == data[room..] && model.snd == SndExtend(s, data[..room])
        decreases |payload|
      {
        payload := QueueSome(payload, fin, q);
      }
      var _ := FlushPackets(q);
    }

    /** send_ack, emitting ack number `a`: one datagram, with a mask while packets are held out of order. */
    method EmitAck(a: int, ghost back: nat)
      requires tx.seqNr == Wrap(model.snd.seqNr) && a == Wrap(model.rcv.ackNr - back) && back <= 1
      requires rx.reorderCount != 0 && !rx.gotFinReached ==>
                 InCoupled(rx.inbuf, model.rcv) && RcvOpen(model.rcv) && !model.rcv.finReached
      modifies this`wire, this`ackScheduled
      ensures var eack := if rx.reorderCount != 0 && !rx.gotFinReached then Some(EackMask(model.rcv, model.rcv.ackNr - back)) else None;
              wire == old(wire) + [WireMsg(State, tx.seqNr, a, eack, [])]
      ensures !ackScheduled
    {
      var eack := None;
      if rx.reorderCount != 0 && !rx.gotFinReached {
        var mask := BuildEack(rx.inbuf, a, model.rcv.ackNr - back, model.rcv);
        eack := Some(mask);
      }
      wire := wire + [WireMsg(State, tx.seqNr, a, eack, [])];
      ackScheduled := false;
    }

    /** send_ack (back == 0) and send_keep_alive (back == 1), between packets. */
    method SendAckNow(back: int)
      requires Valid() && 0 <= back <= 1
      modifies this
      ensures Valid() && model == SendAck(old(model), back)
    {
      hide SendShows, ReceiveShows, OutCoupled, InCoupled, NarrowAll, RcvOpen, HeadLive, Wrap, EackMask;
      Shows();
      WrapAdd(model.rcv.ackNr, -back);
      EmitAck(Wrap(rx.ackNr - back), back);
      ghost var t := SendAck(model, back);
      NarrowSnoc(model.outbox, t.outbox[|model.outbox|]);
      assert t.outbox == model.outbox + [t.outbox[|model.outbox|]];
      model := t;
    }

    // ---------------------------------------------------------------- calls of the upper layer and the clock

    /** utp_writev. */
    method Writev(data: Bytes, q: Quota) returns (sent: nat)
      requires Valid()
      modifies this
      ensures Valid() && Shaped(old(model).snd)
      ensures (model, sent) == Write(old(model), data, q)
    {
      hide SndCore, OutCoupled, ReceiveShows, NarrowAll, Wrap, FlushFrom, Enqueue, RcvOpen, HeadLive;
      CoreBound(model.snd);
      sent := 0;
      if state != Connected || tx.finSent {
        return;
      }
      var bytes := data;
      var num := Min(|bytes|, q.packetSize);
      var full := IsFullFor(num, q);
      while !full
        invariant Valid() && Shaped(model.snd) && Shaped(old(model).snd)
        invariant model.state == Connected && !model.snd.finSent
        invariant num == Min(|bytes|, q.packetSize) && full == IsFull(model.snd, num, q)
        invariant var r, w := WriteLoop(model, bytes, q), WriteLoop(old(model), data, q); r.0 == w.0 && sent + r.1 == w.1
        decreases |bytes|
      {
        NoFinInWindow(model.snd);
        NotFullBound(model.snd, num, q);
        ghost var before := model;
        WriteOutgoingPacket(bytes[..num], false, q);
        FlushShape(before.(snd := Enqueue(before.snd, bytes[..num], false, q)), 0, q);
        EnqueueShape(before.snd, bytes[..num], q);
        bytes := bytes[num..];
        sent := sent + num;
        num := Min(|bytes|, q.packetSize);
        if num == 0 {
          return;
        }
        full := IsFullFor(num, q);
      }
      var noQuota := IsFullFor(q.packetSize, q);
      if noQuota {
        SetState(ConnectedFull);
      }
    }

    /** Queue the FIN, once. */
    method SendFinPacket(q: Quota)
      requires Valid() && !model.snd.finSent
      modifies this
      ensures Valid() && Shaped(old(model).snd) && model == SendFin(old(model), q)
    {
      hide SndCore, OutCoupled, ReceiveShows, NarrowAll, RcvOpen, Wrap, FlushFrom;
      CoreBound(model.snd);
      NoFinInWindow(model.snd);
      MarkFinCore(model.snd);
      CoreWindow(model.snd);
      OutSame(tx.outbuf, model.snd, model.snd.(finSent := true));
      tx := tx.(finSent := true);
      model := model.(snd := model.snd.(finSent := true));
      ghost var before := model;
      WriteOutgoingPacket([], true, q);
      FlushShape(before.(snd := Enqueue(before.snd, [], true, q)), 0, q);
    }

    /** utp_close. */
    method CloseSocket(q: Quota)
      requires Valid()
      modifies this
      ensures Valid() && Shaped(old(model).snd) && model == Close(old(model), q)
    {
      hide Linked, RcvOpen, HeadLive, Wrap, OutCoupled, InCoupled, BeginClose, EndClose;
      Shows();
      if state == Connected || state == ConnectedFull {
        StopReading();
        SayFin(q);
      } else {
        SetState(Destroy);
      }
    }

    method StopReading()
      requires Valid()
      modifies this`rx, this`closeRequested, this`model
      ensures Valid() && model == BeginClose(old(model))
    {
      hide Linked, RcvOpen, HeadLive;
      SetReadShutdown();
      SetCloseRequested();
    }

    method SayFin(q: Quota)
      requires Valid()
      modifies this
      ensures Valid() && Shaped(old(model).snd) && model == EndClose(old(model), q)
    {
      hide Linked, RcvOpen, HeadLive, Wrap, SendFin, OutCoupled, InCoupled;
      Shows();
      if !tx.finSent {
        SendFinPacket(q);
      } else if finSentAcked {
        SetState(Destroy);
      }
    }

    method SetCloseRequested()
      requires Linked()
      modifies this`closeRequested, this`model
      ensures Linked() && model == old(model).(closeRequested := true)
    {
      hide SendShows, ReceiveShows, NarrowAll;
      closeRequested := true;
      model := model.(closeRequested := true);
    }

    /** utp_shutdown. */
    method ShutdownSocket(rd: bool, wr: bool, q: Quota)
      requires Valid()
      modifies this
      ensures Valid() && Shaped(old(model).snd) && model == Shutdown(old(model), rd, wr, q)
    {
      hide Linked, RcvOpen, HeadLive, Wrap, SendFin, OutCoupled, InCoupled;
      Shows();
      if rd {
        SetReadShutdown();
      }
      Shows();
      if wr && (state == Connected || state == ConnectedFull) && !tx.finSent {
        SendFinPacket(q);
      }
    }

    /** Mark one packet, addressed by number v at window index j, as needing a resend. */
    method LosePacket(v: int, ghost j: nat)
      requires Linked() && j < |model.snd.window| && Wrap(v) == Wrap(Head(model.snd) + j)
      modifies this
      ensures Linked() && model == old(model).(snd := SndLose(old(model).snd, j))
    {
      hide SndCore, OutCoupled, ReceiveShows, NarrowAll, R.Twin, R.Slot, Wrap;
      ghost var t := model.snd;
      OutAtIndex(tx.outbuf, t, v, j);
      var slot := R.At(tx.outbuf, v);
      if slot.None? || slot.value.pkt.transmissions == 0 || slot.value.pkt.needResend {
        assert t.window[j := t.window[j]] == t.window;
        return;
      }
      CoreLose(t, j);
      OutPut(tx.outbuf, t, v, j, SndLose(t, j));
      model := model.(snd := SndLose(t, j));
      tx := tx.(outbuf := R.Put(tx.outbuf, v, Some(slot.value.(pkt := slot.value.pkt.(needResend := true)))));
      tx := tx.(curWindow := tx.curWindow - |slot.value.pkt.data|);
    }

    /** "every packet should be considered lost". */
    method MarkLost()
      requires Valid()
      modifies this
      ensures Valid() && model == old(model).(snd := SndLoseAll(old(model.snd)))
    {
      hide Linked, RcvOpen, Wrap, OutCoupled, InCoupled, LostTail, SndLose;
      ghost var s := model.snd;
      LinkedCore();
      LostNone(s);
      Shows();
      var i := 0;
      while i < tx.curWindowPackets
        invariant Valid() && model == old(model).(snd := model.snd) && 0 <= i <= tx.curWindowPackets == |s.window|
        invariant LostTail(s, model.snd, i)
      {
        Shows();
        LostTailStep(s, model.snd, i);
        WrapAdd(model.snd.seqNr, -i - 1);
        LosePacket(tx.seqNr - i - 1, |s.window| - i - 1);
        i := i + 1;
        Shows();
      }
      LinkedCore();
      AllLost(s, model.snd);
    }

    lemma LinkedCore()
      requires Linked()
      ensures model.snd.curWindow == InFlightSum(model.snd.window)
    {
      hide RcvCore, OutCoupled, InCoupled, NarrowAll;
    }

    /** The retransmission timeout of check_timeouts: mark everything in flight lost, resend the oldest packet. */
    method Expire()
      requires Valid()
      modifies this
      ensures Valid() && model == OnExpired(old(model))
    {
      hide Linked, RcvOpen, Wrap, OutCoupled, InCoupled, R.Twin;
      MarkLost();
      Shows();
      if tx.curWindowPackets > 0 {
        SetFast(true, fastResendSeqNr);
        Shows();
        WrapAdd(model.snd.seqNr, -|model.snd.window|);
        OutAtIndex(tx.outbuf, model.snd, tx.seqNr - tx.curWindowPackets, 0);
        SendPacket(tx.seqNr - tx.curWindowPackets, 0);
      }
    }

    /** utp_read_drained. */
    method OnReadDrained(grown: bool, zero: bool)
      requires Valid()
      modifies this
      ensures Valid() && model == ReadDrained(old(model), grown, zero)
    {
      hide Linked, RcvOpen, HeadLive, SendAck;
      if grown {
        if zero {
          SendAckNow(0);
        } else {
          ScheduleAck();
        }
      }
    }

    /** schedule_ack. */
    method ScheduleAck()
      requires Linked()
      modifies this`ackScheduled, this`model
      ensures Linked() && model == old(model).(ackPending := true)
    {
      hide SendShows, ReceiveShows, NarrowAll;
      ackScheduled := true;
      model := model.(ackPending := true);
    }

    /** utp_issue_deferred_acks, for this socket. */
    method IssueDeferredAck()
      requires Valid()
      modifies this
      ensures Valid() && model == DeferredAck(old(model))
    {
      hide SendShows, ReceiveShows, NarrowAll, RcvOpen, HeadLive, Wrap, SendAck;
      if ackScheduled {
        SendAckNow(0);
      }
    }

    // ---------------------------------------------------------------- callbacks

    method MakeCall(c: Call)
      requires Valid()
      modifies this
      ensures Valid() && Shaped(old(model).snd) && model == DoCall(old(model), c)
    {
      hide Linked, RcvOpen, HeadLive, Write, Close, Shutdown, ReadDrained, DeferredAck;
      Shows();
      match c
      case CallWrite(data, q) =>
        ghost var accepted := model.accepted;
        var sent := Writev(data, q);
        NoteAccepted(accepted + data[..sent]);
      case CallClose(q) => CloseSocket(q);
      case CallShutdown(rd, wr, q) => ShutdownSocket(rd, wr, q);
      case CallReadDrained(grown, zero) => OnReadDrained(grown, zero);
      case CallDeferredAck => IssueDeferredAck();
    }

    ghost method NoteAccepted(accepted: Bytes)
      requires Linked()
      modifies this`model
      ensures Linked() && model == old(model).(accepted := accepted)
    {
      hide SendShows, ReceiveShows, NarrowAll;
      model := model.(accepted := accepted);
    }

    /** One callback: the upper layer makes its calls on this same socket. */
    method Upcall(cs: seq<Call>)
      requires Valid()
      modifies this
      ensures Valid() && Shaped(old(model).snd) && model == DoCalls(old(model), cs)
    {
      hide Linked, RcvOpen, HeadLive, DoCall;
      Shows();
      var i := 0;
      while i < |cs|
        invariant Valid() && 0 <= i <= |cs| && Shaped(model.snd) && Shaped(old(model).snd)
        invariant DoCalls(model, cs[i..]) == DoCalls(old(model), cs)
      {
        assert cs[i..][1..] == cs[i + 1..];
        MakeCall(cs[i]);
        i := i + 1;
      }
    }

    // ---------------------------------------------------------------- the timer

    /** check_timeouts. */
    method OnCheckTimeouts(t: Tick, cb: Callbacks)
      requires Valid()
      modifies this
      ensures Valid() && Shaped(old(model).snd) && model == CheckTimeouts(old(model), t, cb)
    {
      hide Linked, RcvOpen, HeadLive, Wrap, FlushFrom, OnExpired, AfterExpiry, OutCoupled, InCoupled, Fail;
      Shows();
      if state == Destroy {
        return;
      }
      FlushShape(model, 0, t.before);
      var _ := FlushPackets(t.before);
      Shows();
      if state == Reset {
        return;
      }
      if t.expired {
        if state == SynRecv || t.giveUp {
          GiveUp(cb);
          return;
        }
        Expire();
        Shows();
      }
      Wind(t, cb);
    }

    /** The connection failed: tell the upper layer. */
    method GiveUp(cb: Callbacks)
      requires Valid()
      modifies this
      ensures Valid() && Shaped(old(model).snd) && model == Fail(old(model), cb)
    {
      hide Linked, RcvOpen, HeadLive, Wrap, OutCoupled, InCoupled, DoCalls;
      Shows();
      SetState(if closeRequested then Destroy else Reset);
      Upcall(cb.error);
    }

    /** The rest of check_timeouts: become writable, give up on a silent peer, keep the connection alive. */
    method Wind(t: Tick, cb: Callbacks)
      requires Valid()
      modifies this
      ensures Valid() && Shaped(old(model).snd) && model == AfterExpiry(old(model), t, cb)
    {
      hide Linked, RcvOpen, HeadLive, Wrap, SendAck, Reopen, Fail, OutCoupled, InCoupled;
      Shows();
      BecomeWritable(t.after, cb);
      Shows();
      if state != SynRecv && t.dead {
        GiveUp(cb);
      }
      Shows();
      if state != SynRecv && !tx.finSent && t.idle {
        SendAckNow(1);
      }
    }

    /** CS_CONNECTED_FULL back to CS_CONNECTED once there is quota, and the callback that says so. */
    method BecomeWritable(q: Quota, cb: Callbacks)
      requires Valid()
      modifies this
      ensures Valid() && Shaped(old(model).snd) && model == Reopen(old(model), q, cb)
    {
      hide Linked, RcvOpen, HeadLive, Wrap, IsFull, OutCoupled, InCoupled, DoCalls;
      Shows();
      if state == ConnectedFull {
        var full := IsFullFor(q.packetSize, q);
        if !full {
          SetState(Connected);
          Upcall(cb.writable);
        }
      }
    }

    // ---------------------------------------------------------------- an incoming acknowledgment

    /** cur_window_packets-- and outbuf_sizes.pop_front(), past an empty slot; returns the size popped. */
    method PopOldest() returns (bytes: nat)
      requires Linked() && model.snd.window != [] && model.snd.window[0].None?
      modifies this`tx, this`model
      ensures Linked() && tx.outbuf == old(tx.outbuf) && old(model).snd.sizes != [] && bytes == old(model).snd.sizes[0]
      ensures model == old(model).(snd := SndPop(old(model).snd))
    {
      hide SndCore, OutCoupled, ReceiveShows, NarrowAll, Wrap;
      ghost var s := model.snd;
      LastSize(s);
      PopCore(s);
      OutPop(tx.outbuf, s, SndPop(s));
      model := model.(snd := SndPop(s));
      tx := tx.(curWindowPackets := tx.curWindowPackets - 1);
      bytes := tx.outbufSizes[0];
      tx := tx.(outbufSizes := tx.outbufSizes[1..]);
    }

    /** One round of the acks loop; stops at a packet that was never sent. */
    method AckOne() returns (stopped: bool, bytes: nat)
      requires Linked() && model.snd.window != []
      modifies this
      ensures Linked() && |tx.outbuf| == old(|tx.outbuf|) && Shaped(old(model).snd) && stopped == Unsent(old(model).snd.window[0])
      ensures stopped ==> model == old(model) && bytes == 0
      ensures !stopped ==> model == old(model).(snd := AckHead(old(model).snd)) && bytes == old(model).snd.sizes[0]
    {
      hide Linked, Wrap, OutCoupled, InCoupled, R.Twin, R.Slot, SndAck;
      Shows();
      ghost var s := model.snd;
      WrapAdd(s.seqNr, -|s.window|);
      OutAtIndex(tx.outbuf, s, tx.seqNr - tx.curWindowPackets, 0);
      AckShape(s);
      var status := AckPacket(tx.seqNr - tx.curWindowPackets, 0);
      if status == 2 {
        return true, 0;
      }
      stopped := false;
      bytes := PopOldest();
    }

    /** The acks loop: ack and pop the oldest packet up to `acks` times. */
    method AckOldest(acks: nat) returns (bytes: nat)
      requires Linked() && acks <= |model.snd.window|
      modifies this
      ensures Linked() && |tx.outbuf| == old(|tx.outbuf|) && Shaped(old(model).snd)
      ensures model == old(model).(snd := SndAckLoop(old(model).snd, acks))
      ensures bytes == model.snd.popped - old(model).snd.popped
    {
      hide Linked, OutCoupled, InCoupled, SndAckLoop, AckHead;
      Shows();
      bytes := 0;
      var i := 0;
      while i < acks
        invariant Linked() && |tx.outbuf| == old(|tx.outbuf|) && 0 <= i <= acks && Shaped(model.snd) && acks - i <= |model.snd.window|
        invariant model == old(model).(snd := model.snd) && bytes == model.snd.popped - old(model).snd.popped
        invariant SndAckLoop(model.snd, acks - i) == SndAckLoop(old(model).snd, acks)
      {
        AckLoopStep(model.snd, acks - i);
        var stopped, n := AckOne();
        if stopped {
          return;
        }
        bytes := bytes + n;
        i := i + 1;
        Shows();
      }
      AckLoopDone(model.snd);
    }

    /** Keep popping while the oldest slot was emptied by an earlier selective ack. */
    method DropAckedOldest() returns (bytes: nat)
      requires Linked()
      modifies this`tx, this`model
      ensures Linked() && tx.outbuf == old(tx.outbuf) && Shaped(old(model).snd)
      ensures model == old(model).(snd := SndDropAcked(old(model).snd))
      ensures bytes == model.snd.popped - old(model).snd.popped
    {
      hide Linked, Wrap, OutCoupled, InCoupled, R.Twin, R.Slot, R.At, SndDropAcked, SndPop;
      Shows();
      bytes := 0;
      while true
        invariant Linked() && tx.outbuf == old(tx.outbuf) && Shaped(model.snd)
        invariant model == old(model).(snd := model.snd) && bytes == model.snd.popped - old(model).snd.popped
        invariant SndDropAcked(model.snd) == SndDropAcked(old(model).snd)
        decreases |model.snd.window|
      {
        Shows();
        DropStep(model.snd);
        if tx.curWindowPackets == 0 {
          break;
        }
        WrapAdd(model.snd.seqNr, -|model.snd.window|);
        OutAtIndex(tx.outbuf, model.snd, tx.seqNr - tx.curWindowPackets, 0);
        if R.At(tx.outbuf, tx.seqNr - tx.curWindowPackets) != None {
          break;
        }
        var n := PopOldest();
        bytes := bytes + n;
        Shows();
      }
    }

    // ---------------------------------------------------------------- selective acknowledgment

    /** The stack of numbers to resend forgets its older half when it is full. */
    static method Pushed(resends: seq<int>, v: int) returns (r: seq<int>)
      ensures r == Push(resends, v)
    {
      r := resends;
      if |r| >= MAX_EACK - 2 {
        r := r[MAX_EACK / 2..];
      }
      r := r + [v];
    }

    /** One bit of selective_ack's scan. The stack of packet numbers to resend is `resends`, top last;
        `st` and `tbase` are its true numbers. */
    method SackBit(base: int, mask: seq<bool>, bits: int, count: nat, resends: seq<int>, ghost tbase: int, ghost st: seq<int>)
      returns (count': nat, resends': seq<int>, ghost st': seq<int>)
      requires Linked() && HeadLive(model.snd) && model.snd.window != []
      requires -1 <= bits < |mask| && Wrap(base) == Wrap(tbase)
      requires -8192 <= model.snd.seqNr - (tbase + bits) <= 8192 && SameStack(resends, st)
      modifies this
      ensures Linked() && HeadLive(model.snd) && |tx.outbuf| == old(|tx.outbuf|) && SameStack(resends', st')
      ensures model == old(model).(snd := model.snd)
      ensures Scan(model.snd, count', st') == SackStep(Scan(old(model).snd, count, st), tbase, mask, bits, model.fastResend)
    {
      hide Linked, Wrap, OutCoupled, InCoupled, R.Twin, R.Slot, R.At, SndAck, SameStack, HeadLive, Push, SackStep;
      Shows();
      ghost var s := model.snd;
      ghost var tv := tbase + bits;
      SackStepIs(Scan(s, count, st), tbase, mask, bits, model.fastResend);
      var v := base + bits;
      count', resends', st' := count, resends, st;
      WrapShift(base, tbase, bits);
      InWindowTest(s.seqNr, v, tv, |s.window|);
      if Wrap(tx.seqNr - v - 1) >= tx.curWindowPackets - 1 {
        return;
      }
      ghost var i := tv - Head(s);
      var bitSet := bits >= 0 && mask[bits];
      if bitSet {
        count' := count' + 1;
      }
      OutAtIndex(tx.outbuf, s, v, i);
      var slot := R.At(tx.outbuf, v);
      if slot.None? || slot.value.pkt.transmissions == 0 {
        return;
      }
      if bitSet {
        AckKeepsHead(s, i);
        var _ := AckPacket(v, i);
        return;
      }
      ResendTest(v, tv, fastResendSeqNr);
      if Wrap(v - fastResendSeqNr) <= OUTGOING_BUFFER_MAX_SIZE && count' >= DUPLICATE_ACKS_BEFORE_RESEND {
        PushSame(resends, st, v, tv);
        resends' := Pushed(resends, v);
        st' := Push(st, tv);
      }
    }

    /** The scan of selective_ack, from the highest bit down to the packet before bit 0. */
    method SackBits(base: int, mask: seq<bool>, ghost tbase: int) returns (count: nat, resends: seq<int>, ghost st: seq<int>)
      requires Linked() && HeadLive(model.snd) && model.snd.window != []
      requires Wrap(base) == Wrap(tbase) && |mask| <= 2040 && -2048 <= model.snd.seqNr - tbase <= 2048
      modifies this
      ensures Linked() && HeadLive(model.snd) && |tx.outbuf| == old(|tx.outbuf|) && SameStack(resends, st)
      ensures model == old(model).(snd := model.snd)
      ensures Scan(model.snd, count, st) == SackScan(Scan(old(model).snd, 0, []), tbase, mask, |mask| - 1, model.fastResend)
      ensures |st| <= MAX_EACK - 2
    {
      hide Linked, Wrap, OutCoupled, InCoupled, SackStep;
      count, resends, st := 0, [], [];
      var bits := |mask| - 1;
      ghost var goal := SackScan(Scan(model.snd, 0, []), tbase, mask, |mask| - 1, model.fastResend);
      while bits >= -1
        invariant -2 <= bits < |mask|
        invariant Linked() && HeadLive(model.snd) && model.snd.window != [] && |tx.outbuf| == old(|tx.outbuf|) && SameStack(resends, st)
        invariant model == old(model).(snd := model.snd) && model.snd.seqNr == old(model).snd.seqNr
        invariant bits >= -1 ==> SackScan(Scan(model.snd, count, st), tbase, mask, bits, model.fastResend) == goal
        invariant bits == -2 ==> Scan(model.snd, count, st) == goal
        invariant |st| <= MAX_EACK - 2
        decreases bits + 2
      {
        SackStepShape(Scan(model.snd, count, st), tbase, mask, bits, model.fastResend);
        count, resends, st := SackBit(base, mask, bits, count, resends, tbase, st);
        bits := bits - 1;
      }
    }

    /** The resend loop of selective_ack: at most four packets, newest candidates last on the stack. */
    method ResendLost(resends: seq<int>, ghost st: seq<int>)
      requires Linked() && HeadLive(model.snd) && SameStack(resends, st)
      modifies this
      ensures Linked() && HeadLive(model.snd) && |tx.outbuf| == old(|tx.outbuf|) > 0
      ensures model == ResendLoop(old(model), |tx.outbuf|, st, 4)
    {
      hide Linked, Wrap, OutCoupled, InCoupled, R.Twin, R.Slot, R.At, ResendLoop, Locate;
      Shows();
      OutSize(tx.outbuf, model.snd);
      var nr := |resends|;
      var i := 0;
      assert st[..|st|] == st;
      while nr > 0 && i < 4
        invariant 0 <= nr <= |st| && 0 <= i <= 4
        invariant Linked() && HeadLive(model.snd) && |tx.outbuf| == old(|tx.outbuf|)
        invariant ResendLoop(model, |tx.outbuf|, st[..nr], 4 - i) == ResendLoop(old(model), |tx.outbuf|, st, 4)
      {
        Shows();
        nr := nr - 1;
        var v := resends[nr];
        ghost var tv := st[nr];
        ResendStep(model, |tx.outbuf|, st, nr, 4 - i);
        OutAt(tx.outbuf, model.snd, v);
        LocateTwin(tx.outbuf, model.snd, v, tv);
        if R.At(tx.outbuf, v) != None {
          ghost var k := Locate(model.snd, |tx.outbuf|, tv);
          TransmitHead(model, k);
          SendPacket(v, k);
          Shows();
          WrapShift(v, tv, 1);
          SetFast(fastTimeout, Wrap(v + 1));
          i := i + 1;
        }
      }
      ResendDone(model, |tx.outbuf|, st[..nr], 4 - i);
    }

    /** selective_ack for base == pk_ack_nr + 2. */
    method OnSelectiveAck(base: int, mask: seq<bool>, ghost tbase: int)
      requires Linked() && HeadLive(model.snd)
      requires Wrap(base) == Wrap(tbase) && |mask| <= 2040 && -2048 <= model.snd.seqNr - tbase <= 2048
      modifies this
      ensures Linked() && HeadLive(model.snd) && |tx.outbuf| == old(|tx.outbuf|) > 0
      ensures model == SelectiveAck(old(model), |tx.outbuf|, tbase, mask)
    {
      hide Linked, Wrap, OutCoupled, InCoupled, SackScan, ResendLoop, SameStack;
      Shows();
      OutSize(tx.outbuf, model.snd);
      if tx.curWindowPackets == 0 {
        return;
      }
      var count, resends;
      ghost var st;
      count, resends, st := SackBits(base, mask, tbase);
      Shows();
      WrapShift(base, tbase, -1);
      ResendTest(base - 1, tbase - 1, fastResendSeqNr);
      if Wrap(base - 1 - fastResendSeqNr) <= OUTGOING_BUFFER_MAX_SIZE && count >= DUPLICATE_ACKS_BEFORE_RESEND {
        SnocSame(resends, st, base - 1, tbase - 1);
        resends := resends + [Wrap(base - 1)];
        st := st + [Wrap(tbase - 1)];
      }
      ResendLost(resends, st);
    }

    // ---------------------------------------------------------------- the acknowledgment part of utp_process_incoming

    method SetFinAcked()
      requires Linked()
      modifies this`finSentAcked, this`model
      ensures Linked() && model == old(model).(finAcked := true)
    {
      hide SendShows, ReceiveShows, NarrowAll;
      finSentAcked := true;
      model := model.(finAcked := true);
    }

    method SetReported(n: nat)
      requires Linked()
      modifies this`reported, this`model
      ensures Linked() && model == old(model).(reported := old(model).reported + n)
    {
      hide SendShows, ReceiveShows, NarrowAll;
      reported := reported + n;
      model := model.(reported := model.reported + n);
    }

    method NoteHandshake(pk: WireMsg, ghost m: Msg)
      requires Valid() && pk == Narrow(m)
      modifies this`state, this`model
      ensures Valid() && model == OnHandshake(old(model), m)
    {
      hide Linked, OutCoupled, InCoupled, Wrap, RcvOpen, HeadLive;
      Shows();
      if pk.kind == Data && state == SynRecv {
        SetState(Connected);
      }
    }

    method NoteFinAcked(acks: nat)
      requires Valid()
      modifies this`state, this`finSentAcked, this`model
      ensures Valid() && model == OnFinAcked(old(model), acks)
    {
      hide Linked, OutCoupled, InCoupled, Wrap, RcvOpen, HeadLive;
      Shows();
      if tx.finSent && tx.curWindowPackets == acks {
        SetFinAcked();
        if closeRequested {
          SetState(Destroy);
        }
      }
    }

    /** Handshake completion, FIN completion and the fast-resend mark, before any packet is released. */
    method NoteAck(pk: WireMsg, acks: nat, ghost m: Msg)
      requires Valid() && pk == Narrow(m) && acks == AckCount(model.snd, m.ack)
      modifies this`state, this`finSentAcked, this`fastTimeout, this`fastResendSeqNr, this`model
      ensures Valid() && model == OnAckState(old(model), m)
    {
      hide Linked, OutCoupled, InCoupled, Wrap, RcvOpen, HeadLive, WrappingLess, AckCount, OnHandshake, OnFinAcked;
      NoteHandshake(pk, m);
      NoteFinAcked(acks);
      Shows();
      WrapAdd(m.ack, 1);
      if WrappingLess(fastResendSeqNr, Wrap(pk.ackNr + 1)) {
        SetFast(fastTimeout, Wrap(pk.ackNr + 1));
      }
    }

    /** "flush Nagle", then the fast timeout retry. */
    method RetryOldest()
      requires Linked() && HeadLive(model.snd)
      modifies this
      ensures Linked() && HeadLive(model.snd) && |tx.outbuf| == old(|tx.outbuf|)
      ensures model == FastRetry(FlushNagle(old(model)))
    {
      hide Linked, OutCoupled, InCoupled, R.Twin, R.Slot;
      NagleOnce();
      Shows();
      if fastTimeout {
        WrapAdd(model.snd.seqNr, -|model.snd.window|);
        if Wrap(tx.seqNr - tx.curWindowPackets) != fastResendSeqNr {
          SetFast(false, fastResendSeqNr);
        } else if tx.curWindowPackets > 0 {
          OutAtIndex(tx.outbuf, model.snd, tx.seqNr - tx.curWindowPackets, 0);
          var slot := R.At(tx.outbuf, tx.seqNr - tx.curWindowPackets);
          if slot.value.pkt.transmissions > 0 {
            SetFast(fastTimeout, Wrap(fastResendSeqNr + 1));
            SendPacket(tx.seqNr - tx.curWindowPackets, 0);
          }
        }
      }
    }

    method NagleOnce()
      requires Linked() && HeadLive(model.snd)
      modifies this
      ensures Linked() && HeadLive(model.snd) && |tx.outbuf| == old(|tx.outbuf|)
      ensures model == FlushNagle(old(model))
    {
      hide Linked, OutCoupled, InCoupled, R.Twin, R.Slot, Wrap;
      Shows();
      if tx.curWindowPackets == 1 {
        WrapAdd(model.snd.seqNr, -1);
        OutAtIndex(tx.outbuf, model.snd, tx.seqNr - 1, 0);
        var slot := R.At(tx.outbuf, tx.seqNr - 1);
        if slot.value.pkt.transmissions == 0 {
          SendPacket(tx.seqNr - 1, 0);
        }
      }
    }

    /** Pop what the cumulative ack and earlier selective acks released; returns the bytes to report. */
    method ReleaseAcked(acks: nat) returns (bytes: nat)
      requires Linked() && acks <= |model.snd.window|
      modifies this
      ensures Linked() && HeadLive(model.snd) && |tx.outbuf| == old(|tx.outbuf|) && Shaped(old(model).snd)
      ensures model == Release(old(model), acks) && bytes == model.snd.popped - old(model).snd.popped
    {
      hide Linked, OutCoupled, InCoupled, SndDropAcked, SndAckLoop, HeadLive;
      var bytes1 := AckOldest(acks);
      Shows();
      DropLive(model.snd);
      var bytes2 := DropAckedOldest();
      bytes := bytes1 + bytes2;
    }

    method NoteEack(pk: WireMsg, ghost m: Msg)
      requires Linked() && HeadLive(model.snd) && pk == Narrow(m)
      requires m.eack.Some? ==> |m.eack.value| <= 2040 && -2048 <= model.snd.seqNr - m.ack - 2 <= 2048
      modifies this
      ensures Linked() && HeadLive(model.snd) && |tx.outbuf| == old(|tx.outbuf|) > 0
      ensures model == MaybeSack(old(model), m, |tx.outbuf|)
    {
      hide Linked, OutCoupled, InCoupled, Wrap, SelectiveAck;
      Shows();
      OutSize(tx.outbuf, model.snd);
      if pk.eack.Some? {
        WrapAdd(m.ack, 2);
        OnSelectiveAck(pk.ackNr + 2, pk.eack.value, m.ack + 2);
      }
    }

    /** on_sent, then writable again if there is quota. */
    method ReportSent(bytes: nat, q: Quota, cb: Callbacks)
      requires Valid()
      modifies this
      ensures Valid() && Shaped(old(model).snd) && model == Report(old(model), bytes, q, cb)
    {
      hide Linked, OutCoupled, InCoupled, Wrap, RcvOpen, HeadLive, Reopen, DoCalls;
      Shows();
      if (state == Connected || state == ConnectedFull) && bytes > 0 {
        SetReported(bytes);
        Upcall(cb.sent);
      }
      BecomeWritable(q, cb);
    }

    /** What an acceptable ack number does before the upper layer hears of it; returns the bytes to report. */
    method TakeAck(pk: WireMsg, ghost m: Msg) returns (bytes: nat)
      requires Valid() && pk == Narrow(m)
      requires 0 <= model.snd.seqNr - 1 - m.ack <= |model.snd.window| + ACK_NR_ALLOWED_WINDOW
      requires m.eack.Some? ==> |m.eack.value| <= 2040
      modifies this
      ensures Valid() && |tx.outbuf| == old(|tx.outbuf|) > 0 && Shaped(old(model).snd)
      ensures model == Acked(old(model), m, |tx.outbuf|) && bytes == model.snd.popped - old(model).snd.popped
    {
      hide Linked, OutCoupled, InCoupled, Wrap, RcvOpen, HeadLive, OnAckState, FastRetry, FlushNagle, MaybeSack,
           SndDropAcked, SndAckLoop, AckCount;
      Shows();
      OutSize(tx.outbuf, model.snd);
      AckCountExact(model.snd, m.ack);
      var acks := Wrap(pk.ackNr - (tx.seqNr - 1 - tx.curWindowPackets));
      if acks > tx.curWindowPackets {
        acks := 0;
      }
      OnAckStateOnly(model, m);
      NoteAck(pk, acks, m);
      ReleaseShape(model.snd, acks);
      bytes := ReleaseAcked(acks);
      NagleShape(model);
      RetryShape(FlushNagle(model));
      RetrySame(model);
      RetrySame(FlushNagle(model));
      RetryOldest();
      MaybeSackShape(model, m, |tx.outbuf|);
      SackSame(model, m, |tx.outbuf|);
      NoteEack(pk, m);
    }

    /** Everything utp_process_incoming does with an acceptable ack number. */
    method OnAck(pk: WireMsg, q: Quota, cb: Callbacks, ghost m: Msg)
      requires Valid() && pk == Narrow(m)
      requires 0 <= model.snd.seqNr - 1 - m.ack <= |model.snd.window| + ACK_NR_ALLOWED_WINDOW
      requires m.eack.Some? ==> |m.eack.value| <= 2040
      modifies this
      ensures Valid() && old(|tx.outbuf|) > 0 && Shaped(old(model).snd)
      ensures model == ProcessAck(old(model), m, old(|tx.outbuf|), q, cb)
    {
      hide Linked, OutCoupled, InCoupled, Wrap, RcvOpen, HeadLive, Acked, Report;
      Shows();
      OutSize(tx.outbuf, model.snd);
      AckedShape(model, m, |tx.outbuf|);
      var bytes := TakeAck(pk, m);
      ReportSent(bytes, q, cb);
    }

    // ---------------------------------------------------------------- the data part of utp_process_incoming

    /** on_read, unless the payload is empty or nobody reads. */
    method PassUp(data: Bytes, read: seq<seq<Call>>) returns (up: bool, rest: seq<seq<Call>>)
      requires Valid()
      modifies this
      ensures Valid() && Shaped(old(model).snd) && up == !old(model).rcv.shutdown
      ensures model == HandUp(old(model), data, read) && rest == Rest(old(model), data, read)
    {
      hide Linked, RcvOpen, HeadLive, DoCalls;
      Shows();
      ShowsShutdown();
      up, rest := !rx.readShutdown, read;
      if |data| > 0 && up && |read| > 0 {
        rest := read[1..];
        Upcall(read[0]);
      }
    }

    lemma ShowsShutdown()
      requires Linked()
      ensures rx.readShutdown == model.rcv.shutdown
      ensures !rx.readShutdown ==> model.rcv.delivered == Flatten(model.rcv.consumed)
    {
      hide SendShows, InCoupled, NarrowAll, Flatten;
    }

    /** Count one in-order payload; its slot in the reorder buffer is empty. */
    method TakePacket(data: Bytes, up: bool)
      requires Linked() && RcvInv(model.rcv) && !model.rcv.finReached
      requires model.rcv.eof.Some? ==> model.rcv.ackNr + 1 <= model.rcv.eof.value
      requires up ==> model.rcv.delivered == Flatten(model.rcv.consumed)
      requires !model.rcv.shutdown && !up ==> data == []
      modifies this`rx, this`model
      ensures Linked() && model == old(model).(rcv := Take(old(model).rcv, data, up))
    {
      hide RcvCore, InCoupled, SendShows, NarrowAll, Wrap, Flatten;
      ghost var r := model.rcv;
      TakeCore(r, data, up);
      InShift(rx.inbuf, r, Take(r, data, up));
      WrapAdd(r.ackNr, 1);
      if up {
        rx := rx.(delivered := rx.delivered + data);
      }
      rx := rx.(ackNr := Wrap(rx.ackNr + 1));
      model := model.(rcv := Take(r, data, up));
    }

    /** Take the packet right behind the last one out of the reorder buffer. */
    method LiftNext() returns (data: Bytes)
      requires Linked() && !model.rcv.finReached && !model.rcv.handing && model.rcv.ackNr + 1 in model.rcv.held
      modifies this`rx, this`model
      ensures Linked() && RcvOpen(model.rcv) && model == old(model).(rcv := Lift(old(model).rcv))
      ensures data == old(model).rcv.held[old(model).rcv.ackNr + 1]
    {
      hide RcvCore, InCoupled, SendShows, NarrowAll, Wrap, R.Slot, R.Put, R.At;
      ghost var r := model.rcv;
      WrapAdd(r.ackNr, 1);
      LiftCore(r);
      InLift(rx.inbuf, r, rx.ackNr + 1);
      data := R.At(rx.inbuf, rx.ackNr + 1).value;
      model := model.(rcv := Lift(r));
      rx := rx.(inbuf := R.Put(rx.inbuf, rx.ackNr + 1, None));
    }

    /** Count the packet just handed up. */
    method SettleNext(data: Bytes, up: bool)
      requires Linked() && RcvOpen(model.rcv) && !model.rcv.finReached && model.rcv.handing
      requires model.rcv.eof != Some(model.rcv.ackNr) && (model.rcv.shutdown || up)
      requires up ==> model.rcv.delivered == Flatten(model.rcv.consumed)
      modifies this`rx, this`model
      ensures Linked() && old(model).rcv.reorder > 0 && model == old(model).(rcv := Settle(old(model).rcv, data, up))
    {
      hide RcvCore, InCoupled, SendShows, NarrowAll, Wrap, Flatten;
      ghost var r := model.rcv;
      SettleCore(r, data, up);
      InShift(rx.inbuf, r, Settle(r, data, up));
      WrapAdd(r.ackNr, 1);
      if up {
        rx := rx.(delivered := rx.delivered + data);
      }
      rx := rx.(ackNr := Wrap(rx.ackNr + 1));
      rx := rx.(reorderCount := rx.reorderCount - 1);
      model := model.(rcv := Settle(r, data, up));
    }

    /** Hand up the packet waiting right behind the last one taken. */
    method TakeNextHeld(read: seq<seq<Call>>) returns (rest: seq<seq<Call>>)
      requires Linked() && HeadLive(model.snd) && !model.rcv.finReached && !model.rcv.handing
      requires model.rcv.eof != Some(model.rcv.ackNr)
      requires model.rcv.ackNr + 1 in model.rcv.held && model.rcv.reorder > 0
      modifies this
      ensures Linked() && HeadLive(model.snd) && !model.rcv.finReached && !model.rcv.handing
      ensures Shaped(old(model).snd) && model == TakeHeld(old(model), read)
      ensures rest == Rest(old(model), old(model).rcv.held[old(model).rcv.ackNr + 1], read)
    {
      hide Linked, RcvOpen, HeadLive, HandUp, Flatten;
      Shows();
      ShowsShutdown();
      LinkedRcv();
      EofBehind(model.rcv);
      ghost var x := model;
      var data := LiftNext();
      RestSame(x, data, read);
      var up: bool;
      up, rest := PassUp(data, read);
      SettleNext(data, up);
    }

    /** Every packet up to the FIN has arrived. */
    method FinishAtFin(cb: Callbacks)
      requires Linked() && HeadLive(model.snd) && !model.rcv.finReached && !model.rcv.handing
      requires model.rcv.eof == Some(model.rcv.ackNr)
      modifies this
      ensures Valid() && Idle(model.rcv) && Shaped(old(model).snd) && model == ReachFin(old(model), cb)
    {
      hide Linked, HeadLive, RcvCore, DoCalls, SendAck;
      Shows();
      MarkFinReached();
      Upcall(cb.eof);
      SendAckRcv(model);
      SendAckNow(0);
      ForgetReordered();
    }

    method MarkFinReached()
      requires Linked()
      modifies this`rx, this`model
      ensures Linked() && RcvCore(model.rcv) && model == old(model).(rcv := old(model).rcv.(finReached := true))
    {
      hide SendShows, InCoupled, NarrowAll, Wrap;
      ghost var r := model.rcv.(finReached := true);
      InSame(rx.inbuf, model.rcv, r);
      rx := rx.(gotFinReached := true);
      model := model.(rcv := r);
    }

    method ForgetReordered()
      requires Valid() && model.rcv.finReached
      modifies this`rx, this`model
      ensures Valid() && model == old(model).(rcv := old(model).rcv.(reorder := 0))
    {
      hide SendShows, InCoupled, NarrowAll, Wrap, HeadLive;
      ghost var r := model.rcv.(reorder := 0);
      InSame(rx.inbuf, model.rcv, r);
      rx := rx.(reorderCount := 0);
      model := model.(rcv := r);
    }

    /** The loop after an in-order packet. */
    method DrainHeld(cb: Callbacks)
      requires Linked() && HeadLive(model.snd) && !model.rcv.finReached && !model.rcv.handing
      modifies this
      ensures Valid() && Idle(model.rcv) && Shaped(old(model).snd)
      ensures model == Drain(old(model), cb)
    {
      hide Linked, OutCoupled, InCoupled, Wrap, R.Slot, R.At, RcvCore, HeadLive, Drain, ReachFin, TakeHeld, Rest;
      Shows();
      var read := cb.read;
      assert cb == cb.(read := read);
      while true
        invariant Linked() && HeadLive(model.snd) && !model.rcv.finReached && !model.rcv.handing
        invariant Shaped(model.snd) && Shaped(old(model).snd)
        invariant Drain(model, cb.(read := read)) == Drain(old(model), cb)
        decreases model.rcv.reorder
      {
        Shows();
        LinkedRcv();
        EofTest(model.rcv);
        DrainCases(model, cb.(read := read));
        if !rx.gotFinReached && rx.gotFin && rx.eofPkt == rx.ackNr {
          FinishAtFin(cb.(read := read));
          return;
        }
        if rx.reorderCount == 0 {
          EmptyHeld(model.rcv);
          return;
        }
        WrapAdd(model.rcv.ackNr, 1);
        InSize(rx.inbuf, model.rcv);
        InAt(rx.inbuf, model.rcv, rx.ackNr + 1, model.rcv.ackNr + 1);
        if R.At(rx.inbuf, rx.ackNr + 1) == None {
          return;
        }
        read := TakeNextHeld(read);
        Shows();
      }
    }

    lemma LinkedRcv()
      requires Linked()
      ensures RcvCore(model.rcv)
    {
    }

    /** "Got FIN": remember its number, the first time. */
    method NoteFinPacket(pk: WireMsg, ghost m: Msg)
      requires Valid() && pk == Narrow(m) && Idle(model.rcv)
      requires model.rcv.ackNr < m.num <= model.rcv.ackNr + REORDER_BUFFER_MAX_SIZE
      modifies this`rx, this`model
      ensures Valid() && model == old(model).(rcv := NoteFin(old(model).rcv, m))
    {
      hide ReceiveShows, SendShows, NarrowAll, Wrap, HeadLive, RcvOpen;
      NoteFinShows(rx, model.rcv, m);
      Shows();
      if pk.kind == Fin && !rx.gotFin {
        rx := rx.(gotFin := true, eofPkt := pk.seqNr);
      }
      model := model.(rcv := NoteFin(model.rcv, m));
    }

    /** Remember an out-of-order packet; returns false if it was already there. */
    method StorePacket(pk: WireMsg, offset: nat, ghost m: Msg) returns (stored: bool)
      requires Valid() && pk == Narrow(m) && !model.rcv.finReached && Idle(model.rcv)
      requires 1 <= offset == m.num - model.rcv.ackNr - 1 && offset < REORDER_BUFFER_MAX_SIZE
      modifies this`rx, this`model
      ensures Valid() && stored == (m.num !in old(model).rcv.held)
      ensures model == if stored then old(model).(rcv := Hold(old(model).rcv, m.num, m.data)) else old(model)
    {
      hide ReceiveShows, SendShows, NarrowAll, Wrap, R.Put, R.At, HeadLive, R.EnsureSize, RcvOpen;
      GrowShows(rx, model.rcv, pk.seqNr, m.num);
      rx := rx.(inbuf := R.EnsureSize(rx.inbuf, pk.seqNr + 1, offset + 1));
      LookShows(rx, model.rcv, pk.seqNr, m.num);
      if R.At(rx.inbuf, pk.seqNr) != None {
        return false;
      }
      HoldShows(rx, model.rcv, pk.seqNr, m.num, m.data);
      rx := rx.(inbuf := R.Put(rx.inbuf, pk.seqNr, Some(pk.data)), reorderCount := rx.reorderCount + 1);
      model := model.(rcv := Hold(model.rcv, m.num, pk.data));
      return true;
    }

    /** An in-order FIN while the socket is only waiting to be destroyed. */
    method AckLastFin(pk: WireMsg, ghost m: Msg)
      requires Valid() && Idle(model.rcv) && pk == Narrow(m) && m.kind == Fin && model.state == Destroy
      requires m.num == model.rcv.ackNr + 1 && PeerStopsAtFin(model, m)
      modifies this
      ensures Valid() && Idle(model.rcv) && model == SendAck(old(model).(rcv := Take(old(model).rcv, [], false)), 0)
    {
      hide Linked, OutCoupled, InCoupled, Wrap, RcvCore, HeadLive, SendAck;
      TakePacket([], false);
      LinkedRcv();
      SendAckRcv(model);
      SendAckNow(0);
    }

    /** An in-order packet on an open connection, and everything it unblocks. */
    method OnInOrder(pk: WireMsg, cb: Callbacks)
      requires Valid() && Idle(model.rcv) && !Dead(model.state) && !model.rcv.finReached
      modifies this
      ensures Valid() && Idle(model.rcv) && Shaped(old(model).snd)
      ensures var s := old(model);
              model == Drain(TakeNew(s, pk.data, cb.read), cb.(read := Rest(s, pk.data, cb.read))).(ackPending := true)
    {
      hide Linked, OutCoupled, InCoupled, Wrap, RcvCore, HeadLive, Drain, TakeNew, Rest;
      var rest := TakeInOrder(pk.data, cb.read);
      DrainHeld(cb.(read := rest));
      ScheduleAck();
    }

    /** Hand up the packet expected next, and count it. */
    method TakeInOrder(data: Bytes, read: seq<seq<Call>>) returns (rest: seq<seq<Call>>)
      requires Valid() && Idle(model.rcv) && !Dead(model.state) && !model.rcv.finReached
      modifies this
      ensures Linked() && HeadLive(model.snd) && !model.rcv.finReached && !model.rcv.handing
      ensures Shaped(old(model).snd) && model == TakeNew(old(model), data, read) && rest == Rest(old(model), data, read)
    {
      hide Linked, OutCoupled, InCoupled, Wrap, RcvCore, HeadLive, HandUp, Flatten, Rest;
      Shows();
      ShowsShutdown();
      var up: bool;
      up, rest := PassUp(data, read);
      LinkedRcv();
      TakePacket(data, up);
    }

    /** A packet ahead of the next expected one: drop it past the FIN, otherwise remember it. */
    method OnOutOfOrder(pk: WireMsg, offset: nat, ghost m: Msg)
      requires Valid() && Idle(model.rcv) && pk == Narrow(m) && !model.rcv.finReached
      requires 1 <= offset == m.num - model.rcv.ackNr - 1 && offset < REORDER_BUFFER_MAX_SIZE
      modifies this
      ensures Valid() && Idle(model.rcv)
      ensures var s := old(model);
              model == if s.rcv.eof.Some? && Wrap(m.num) > Wrap(s.rcv.eof.value) then s
                       else if m.num in s.rcv.held then s
                       else s.(rcv := Hold(s.rcv, m.num, m.data), ackPending := true)
    {
      hide Linked, OutCoupled, InCoupled, Wrap, RcvOpen, HeadLive, Hold;
      Shows();
      HoldIdle(model.rcv, m.num, m.data);
      if rx.gotFin && pk.seqNr > rx.eofPkt {
        return;
      }
      var stored := StorePacket(pk, offset, m);
      if stored {
        ScheduleAck();
      }
    }

    /** A packet on an open connection. */
    method OnReceive(pk: WireMsg, offset: nat, cb: Callbacks, ghost m: Msg)
      requires Valid() && Idle(model.rcv) && !Dead(model.state) && !model.rcv.finReached && pk == Narrow(m)
      requires offset == m.num - model.rcv.ackNr - 1 && offset < REORDER_BUFFER_MAX_SIZE
      modifies this
      ensures Valid() && Idle(model.rcv) && Shaped(old(model).snd) && model == Receive(old(model), m, offset, cb)
    {
      hide Linked, OutCoupled, InCoupled, Wrap, RcvOpen, HeadLive, Drain, TakeNew, Rest, Hold;
      Shows();
      if offset == 0 {
        OnInOrder(pk, cb);
        return;
      }
      OnOutOfOrder(pk, offset, m);
    }

    lemma DataArrived(cb: Callbacks, m: Msg)
      requires Valid() && Idle(model.rcv) && 0 <= m.num - model.rcv.ackNr - 1
      ensures Shaped(model.snd)
      ensures UtpArrival.TakesData(model, m) ==>
                (Received(ProcessData(model, m, m.num - model.rcv.ackNr - 1, cb).rcv, m.num) <==>
                 m.num == model.rcv.ackNr + 1 || m.num in model.rcv.held || !UtpArrival.Refused(model.rcv, m))
    {
      hide ProcessData, UtpArrival.TakesData, UtpArrival.Refused, Received;
      Shows();
      if UtpArrival.TakesData(model, m) {
        UtpArrival.DataArrives(model, m, cb);
      }
    }

    /** The part of utp_process_incoming after the state packet test. */
    method OnData(pk: WireMsg, offset: nat, cb: Callbacks, ghost m: Msg)
      requires Valid() && Idle(model.rcv) && pk == Narrow(m) && PeerStopsAtFin(model, m)
      requires offset == m.num - model.rcv.ackNr - 1 && offset < REORDER_BUFFER_MAX_SIZE
      modifies this
      ensures Valid() && Idle(model.rcv) && Shaped(old(model).snd) && model == ProcessData(old(model), m, offset, cb)
      ensures UtpArrival.TakesData(old(model), m) ==>
                (Received(model.rcv, m.num) <==> offset == 0 || m.num in old(model).rcv.held || !UtpArrival.Refused(old(model).rcv, m))
    {
      hide UtpArrival.TakesData, UtpArrival.Refused, Received;
      hide Linked, OutCoupled, InCoupled, Wrap, RcvOpen, HeadLive, SendAck, Receive;
      DataArrived(cb, m);
      Shows();
      if pk.kind == State {
        return;
      }
      if state != Connected && state != ConnectedFull {
        if finSentAcked && state == Destroy && offset == 0 && pk.kind == Fin {
          AckLastFin(pk, m);
        }
        return;
      }
      NoteFinPacket(pk, m);
      OnReceive(pk, offset, cb, m);
    }

    // ---------------------------------------------------------------- utp_process_incoming

    lemma Arrived(q: Quota, cb: Callbacks, m: Msg)
      requires Valid() && Idle(model.rcv)
      ensures |tx.outbuf| > 0 && Shaped(model.snd)
      ensures UtpArrival.Takes(model, m, |tx.outbuf|, q, cb) ==>
                (Received(Incoming(model, m, |tx.outbuf|, q, cb).rcv, m.num) <==>
                 m.num == model.rcv.ackNr + 1 || m.num in model.rcv.held || !UtpArrival.Refused(model.rcv, m))
    {
      hide Incoming, UtpArrival.Takes, UtpArrival.Refused, Received;
      Shows();
      OutSize(tx.outbuf, model.snd);
      if UtpArrival.Takes(model, m, |tx.outbuf|, q, cb) {
        UtpArrival.Arrives(model, m, |tx.outbuf|, q, cb);
      }
    }

    /** utp_process_incoming on a datagram that carries the low 16 bits of m's numbers: the 16-bit socket does exactly
        what the socket over true numbers does, whatever the callbacks do, provided m is not stale by (nearly) a full
        turn of the number space. */
    method ProcessIncoming(pk: WireMsg, q: Quota, cb: Callbacks, ghost m: Msg)
      requires Valid() && Idle(model.rcv) && pk == Narrow(m)
      requires FreshFor(model, m) && PeerStopsAtFin(model, m)
      modifies this
      ensures Valid() && Idle(model.rcv) && old(|tx.outbuf|) > 0 && Shaped(old(model).snd)
      ensures model == Incoming(old(model), m, old(|tx.outbuf|), q, cb)
      ensures UtpArrival.Takes(old(model), m, old(|tx.outbuf|), q, cb) ==>
                (Received(model.rcv, m.num) <==>
                 m.num == old(model).rcv.ackNr + 1 || m.num in old(model).rcv.held || !UtpArrival.Refused(old(model).rcv, m))
    {
      hide UtpArrival.Takes, UtpArrival.Refused, Received;
      hide Linked, OutCoupled, InCoupled, Wrap, RcvOpen, HeadLive, ProcessAck, ProcessData, AckInRange, Offset;
      Arrived(q, cb, m);
      Shows();
      OutSize(tx.outbuf, model.snd);
      var currWindow := tx.curWindowPackets + ACK_NR_ALLOWED_WINDOW;
      AckTest(m.ack, model.snd.seqNr, currWindow);
      if !AckInRange(pk.ackNr, tx.seqNr, currWindow) {
        return;
      }
      OffsetTest(m.num, model.rcv.ackNr);
      var offset := Offset(pk.seqNr, rx.ackNr);
      if offset >= REORDER_BUFFER_MAX_SIZE {
        if offset >= M - REORDER_BUFFER_MAX_SIZE && pk.kind != State {
          ScheduleAck();
        }
        return;
      }
      OnAck(pk, q, cb, m);
      OnData(pk, offset, cb, m);
    }
  }

  lemma AckTest(ack: int, nr: int, allowed: nat)
    requires 1 <= allowed <= 2048 && allowed - M < nr - 1 - ack < M
    ensures AckInRange(Wrap(ack), Wrap(nr), allowed) <==> 0 <= nr - 1 - ack <= allowed
  {
    hide AckInRange, Wrap;
    AckInRangeExact(ack, nr, allowed);
    var x := nr - 1 - ack;
    if x >= 0 {
      ModIs(x, 0, x);
    } else {
      ModIs(x, -1, x + M);
    }
  }

  lemma OffsetTest(num: int, ackNr: int)
    requires -(M - 1024) <= num - ackNr - 1 < M - 1024
    ensures var t, o := num - ackNr - 1, Offset(Wrap(num), Wrap(ackNr));
            && (o < 1024 <==> 0 <= t < 1024) && (o < 1024 ==> o == t) && (o >= M - 1024 <==> -1024 <= t < 0) && o >= 0
  {
    hide Wrap;
    OffsetExact(num, ackNr);
    var t := num - ackNr - 1;
    if t >= 0 {
      ModIs(t, 0, t);
    } else {
      ModIs(t, -1, t + M);
    }
  }

  /** Clearing the slot of ack_nr + 1 keeps the ring in step. */
  lemma InLift(ring: R.Slots<Bytes>, r: Rcv, v: int)
    requires InCoupled(ring, r) && r.ackNr + 1 in r.held && Wrap(v) == Wrap(r.ackNr + 1)
    ensures |ring| > 0 && R.At(ring, v) == Some(r.held[r.ackNr + 1])
    ensures InCoupled(R.Put(ring, v, None), Lift(r))
  {
    hide R.IsRingSize;
    InSize(ring, r);
    InAt(ring, r, v, r.ackNr + 1);
    InPut(ring, r, v, r.ackNr + 1, Lift(r));
  }

  /** The three ways a round of the loop can go. */
  lemma {:induction false} DrainCases(x: Socket, cb: Callbacks)
    requires Shaped(x.snd) && !x.rcv.finReached
    ensures x.rcv.eof == Some(x.rcv.ackNr) ==> Drain(x, cb) == ReachFin(x, cb)
    ensures x.rcv.eof != Some(x.rcv.ackNr) && (x.rcv.reorder == 0 || x.rcv.ackNr + 1 !in x.rcv.held) ==> Drain(x, cb) == x
    ensures x.rcv.eof != Some(x.rcv.ackNr) && x.rcv.reorder > 0 && x.rcv.ackNr + 1 in x.rcv.held ==>
              Drain(x, cb) == Drain(TakeHeld(x, cb.read), cb.(read := Rest(x, x.rcv.held[x.rcv.ackNr + 1], cb.read)))
  {
  }

  lemma EofBehind(r: Rcv)
    requires RcvCore(r) && !r.finReached && r.eof != Some(r.ackNr)
    ensures r.eof.Some? ==> r.ackNr < r.eof.value
  {
  }

  lemma RestSame(x: Socket, data: Bytes, read: seq<seq<Call>>)
    requires x.rcv.ackNr + 1 in x.rcv.held
    ensures Rest(x.(rcv := Lift(x.rcv)), data, read) == Rest(x, data, read)
  {
  }

  lemma HoldIdle(r: Rcv, k: int, data: Bytes)
    requires Idle(r) && !r.finReached
    ensures Idle(Hold(r, k, data))
  {
  }

  lemma SendAckRcv(x: Socket)
    ensures SendAck(x, 0).rcv == x.rcv
  {
  }

  lemma EmptyHeld(r: Rcv)
    requires RcvCore(r) && !r.finReached && r.reorder == 0
    ensures RcvOpen(r)
  {
  }

  lemma EofTest(r: Rcv)
    requires RcvCore(r) && !r.finReached
    ensures r.eof.Some? ==> (Wrap(r.eof.value) == Wrap(r.ackNr) <==> r.eof.value == r.ackNr) && r.ackNr <= r.eof.value
  {
    hide Wrap;
    if r.eof.Some? {
      WrapSame(r.ackNr, r.eof.value - r.ackNr);
    }
  }

  lemma InSize(ring: R.Slots<Bytes>, r: Rcv)
    requires InCoupled(ring, r)
    ensures |ring| >= 16
  {
  }

  lemma InSame(ring: R.Slots<Bytes>, r: Rcv, t: Rcv)
    requires InCoupled(ring, r) && t.ackNr == r.ackNr && t.held == r.held
    ensures InCoupled(ring, t)
  {
    forall j | t.ackNr + 1 <= j < t.ackNr + 1 + |ring| ensures R.At(ring, j) == LiftIn(t, j) {
      assert R.At(ring, j) == LiftIn(r, j);
    }
  }

  lemma {:induction false} ReleaseShape(s: Snd, n: nat)
    requires Shaped(s)
    ensures SndAckLoop(s, n).seqNr == s.seqNr && Shaped(SndAckLoop(s, n))
    ensures SndDropAcked(SndAckLoop(s, n)).seqNr == s.seqNr
    decreases n
  {
    if n == 0 || s.window == [] || Unsent(s.window[0]) {
      DropLive(s);
    } else {
      ReleaseShape(SndPop(if s.window[0].None? then s else SndAck(s, 0)), n - 1);
    }
  }

  lemma MaybeSackShape(x: Socket, m: Msg, ring: nat)
    requires ring > 0
    ensures var t := MaybeSack(x, m, ring);
            t.rcv == x.rcv && t.state == x.state && t.reported == x.reported
  {
    hide SelectiveAck;
    if m.eack.Some? {
      SelectiveAckShape(x, ring, m.ack + 2, m.eack.value);
    }
  }

  lemma AckCountExact(s: Snd, ack: int)
    requires 0 <= s.seqNr - 1 - ack <= |s.window| + ACK_NR_ALLOWED_WINDOW && |s.window| <= OUTGOING_BUFFER_MAX_SIZE
    ensures var a := Wrap(Wrap(ack) - (Wrap(s.seqNr) - 1 - |s.window|));
            AckCount(s, ack) == (if a > |s.window| then 0 else a)
  {
    var x := ack - (s.seqNr - 1 - |s.window|);
    ModSame(Wrap(ack) - (Wrap(s.seqNr) - 1 - |s.window|), x, s.seqNr / M - ack / M);
    if x >= 0 {
      ModIs(x, 0, x);
    } else {
      ModIs(x, -1, x + M);
    }
  }

  lemma {:induction false} DropStep(s: Snd)
    requires Shaped(s)
    ensures s.window == [] || s.window[0].Some? ==> SndDropAcked(s) == s
    ensures s.window != [] && s.window[0].None? ==>
              var t := SndPop(s);
              && Shaped(t) && |t.window| < |s.window| && t.popped == s.popped + s.sizes[0] && SndDropAcked(s) == SndDropAcked(t)
  {
  }

  lemma {:induction false} DropLive(s: Snd)
    requires Shaped(s)
    ensures HeadLive(SndDropAcked(s)) && SndDropAcked(s).seqNr == s.seqNr
    decreases |s.window|
  {
    if s.window != [] && s.window[0].None? {
      DropLive(SndPop(s));
    }
  }

  /** Only sending fields and marks differ. */
  predicate SameRest(x: Socket, t: Socket) {
    t.rcv == x.rcv && t.state == x.state && t.reported == x.reported && t.snd.seqNr == x.snd.seqNr
  }

  lemma RetryShape(x: Socket)
    ensures SameRest(x, FastRetry(x))
  {
    hide Wrap;
  }

  lemma NagleShape(x: Socket)
    ensures SameRest(x, FlushNagle(x))
  {
  }

  lemma {:induction false} ResendShape(x: Socket, ring: nat, resends: seq<int>, left: nat)
    requires ring > 0
    ensures var t := ResendLoop(x, ring, resends, left);
            SameRest(x, t)
    decreases |resends|
  {
    if resends == [] || left == 0 {
    } else {
      var v := resends[|resends| - 1];
      var rest := resends[..|resends| - 1];
      var i := Locate(x.snd, ring, v);
      if i < 0 || x.snd.window[i].None? {
        ResendShape(x, ring, rest, left);
      } else {
        ResendShape(Transmit(x, i).(fastResend := Wrap(v + 1)), ring, rest, left - 1);
      }
    }
  }

  lemma SelectiveAckShape(x: Socket, ring: nat, base: int, mask: seq<bool>)
    requires ring > 0
    ensures var t := SelectiveAck(x, ring, base, mask);
            t.rcv == x.rcv && t.state == x.state && t.reported == x.reported
  {
    hide SackScan, ResendLoop;
    if x.snd.window != [] {
      var sc := SackScan(Scan(x.snd, 0, []), base, mask, |mask| - 1, x.fastResend);
      ResendShape(x.(snd := sc.snd), ring, SackResends(sc, base, x.fastResend), 4);
    }
  }

  lemma OutSize(ring: R.Slots<OutPacket>, s: Snd)
    requires OutCoupled(ring, s)
    ensures |ring| >= 16 && |ring| >= |s.window|
  {
  }

  lemma SnocSame(resends: seq<int>, st: seq<int>, v: int, tv: int)
    requires SameStack(resends, st) && Wrap(v) == Wrap(tv)
    ensures SameStack(resends + [Wrap(v)], st + [Wrap(tv)])
  {
    WrapAdd(v, 0);
    WrapAdd(tv, 0);
  }

  lemma {:induction false} ResendStep(x: Socket, ring: nat, st: seq<int>, nr: nat, left: nat)
    requires ring > 0 && nr < |st| && left > 0
    ensures var i := Locate(x.snd, ring, st[nr]);
            ResendLoop(x, ring, st[..nr + 1], left) ==
            if i < 0 || x.snd.window[i].None? then ResendLoop(x, ring, st[..nr], left)
            else ResendLoop(Transmit(x, i).(fastResend := Wrap(st[nr] + 1)), ring, st[..nr], left - 1)
  {
    assert st[..nr + 1][..nr] == st[..nr];
  }

  lemma ResendDone(x: Socket, ring: nat, st: seq<int>, left: nat)
    requires ring > 0 && (st == [] || left == 0)
    ensures ResendLoop(x, ring, st, left) == x
  {
  }

  lemma TransmitHead(x: Socket, i: nat)
    requires i < |x.snd.window| && x.snd.window[i].Some? && HeadLive(x.snd)
    ensures var t := Transmit(x, i).snd; HeadLive(t) && |t.window| == |x.snd.window| && t.seqNr == x.snd.seqNr
  {
  }

  /** One packet of flush_packets. */
  lemma {:induction false} FlushFromStep(x: Socket, i: nat, q: Quota)
    requires i < |x.snd.window|
    ensures var o, n := x.snd.window[i], |x.snd.window|;
            FlushFrom(x, i, q) ==
            if o.None? || (o.value.transmissions > 0 && !o.value.needResend) then FlushFrom(x, i + 1, q)
            else if IsFull(x.snd, q.packetSize, q) then x
            else if i != n - 1 || n == 1 || |o.value.data| >= q.packetSize then FlushFrom(Transmit(x, i), i + 1, q)
            else FlushFrom(x, i + 1, q)
  {
  }

  /** The ring finds, for a stacked number, the member Locate finds for its true number. */
  lemma LocateTwin(ring: R.Slots<OutPacket>, s: Snd, v: int, tv: int)
    requires OutCoupled(ring, s) && Wrap(v) == Wrap(tv)
    ensures |ring| > 0 && R.Twin(Head(s), v, |ring|) == R.Twin(Head(s), tv, |ring|)
    ensures var d := R.Twin(Head(s), v, |ring|) - Head(s);
            Locate(s, |ring|, tv) == (if d < |s.window| then d else -1)
  {
    hide R.IsRingSize;
    R.TurnsFit(|ring|);
    R.SameSlot(v, tv, v / M - tv / M, |ring|);
    R.TwinSlot(Head(s), v, |ring|);
    R.TwinUnique(Head(s), tv, |ring|, R.Twin(Head(s), v, |ring|));
  }

  /** The stack as kept (16-bit sums not reduced) and its true numbers. */
  ghost predicate SameStack(resends: seq<int>, st: seq<int>) {
    |resends| == |st| && forall i :: 0 <= i < |st| ==> Wrap(resends[i]) == Wrap(st[i])
  }

  lemma PushSame(resends: seq<int>, st: seq<int>, v: int, tv: int)
    requires SameStack(resends, st) && Wrap(v) == Wrap(tv)
    ensures |resends| == |st| && SameStack(Push(resends, v), Push(st, tv))
  {
  }

  lemma WrapShift(x: int, y: int, c: int)
    requires Wrap(x) == Wrap(y)
    ensures Wrap(x + c) == Wrap(y + c)
  {
    WrapAdd(x, c);
    WrapAdd(y, c);
  }

  /** The wrapping window test of selective_ack accepts exactly the window without its head. */
  lemma InWindowTest(nr: int, v: int, tv: int, n: nat)
    requires Wrap(v) == Wrap(tv) && 1 <= n <= OUTGOING_BUFFER_MAX_SIZE && -8192 <= nr - tv <= 8192
    ensures Wrap(Wrap(nr) - v - 1) >= n - 1 <==> !(1 <= tv - (nr - n) < n)
  {
    var x := nr - tv - 1;
    ModSame(Wrap(nr) - v - 1, x, tv / M - v / M - nr / M);
    if x >= 0 {
      ModIs(x, 0, x);
    } else {
      ModIs(x, -1, x + M);
    }
  }

  lemma ResendTest(v: int, tv: int, f: int)
    requires Wrap(v) == Wrap(tv)
    ensures Wrap(v - f) == (tv - f) % M
  {
    ModSame(v - f, tv - f, v / M - tv / M);
  }

  lemma AckKeepsHead(s: Snd, i: nat)
    requires 1 <= i < |s.window| && s.window[i].Some? && HeadLive(s)
    ensures HeadLive(SndAck(s, i))
  {
  }

  lemma SackStepIs(sc: Scan, base: int, mask: seq<bool>, bits: int, f: int)
    requires -1 <= bits < |mask|
    ensures var i := base + bits - Head(sc.snd);
            var bitSet := bits >= 0 && mask[bits];
            var count := if bitSet then sc.count + 1 else sc.count;
            SackStep(sc, base, mask, bits, f) ==
            if !(1 <= i < |sc.snd.window|) then sc
            else if sc.snd.window[i].None? || Unsent(sc.snd.window[i]) then Scan(sc.snd, count, sc.resends)
            else if bitSet then Scan(SndAck(sc.snd, i), count, sc.resends)
            else if (base + bits - f) % M <= OUTGOING_BUFFER_MAX_SIZE && count >= DUPLICATE_ACKS_BEFORE_RESEND then
              Scan(sc.snd, count, Push(sc.resends, base + bits))
            else Scan(sc.snd, count, sc.resends)
  {
  }

  lemma SackStepShape(sc: Scan, base: int, mask: seq<bool>, bits: int, f: int)
    requires -1 <= bits < |mask|
    ensures var t := SackStep(sc, base, mask, bits, f);
            && t.snd.seqNr == sc.snd.seqNr && |t.snd.window| == |sc.snd.window|
            && (|sc.resends| <= MAX_EACK - 2 ==> |t.resends| <= MAX_EACK - 2)
  {
  }

  lemma {:induction false} AckLoopStep(s: Snd, n: nat)
    requires Shaped(s) && s.window != [] && n > 0
    ensures Unsent(s.window[0]) ==> SndAckLoop(s, n) == s
    ensures !Unsent(s.window[0]) ==>
              var t := AckHead(s);
              && Shaped(t) && |t.window| == |s.window| - 1 && t.popped == s.popped + s.sizes[0]
              && SndAckLoop(s, n) == SndAckLoop(t, n - 1)
  {
  }

  lemma AckLoopDone(s: Snd)
    requires Shaped(s)
    ensures SndAckLoop(s, 0) == s
  {
  }

  lemma AckShape(s: Snd)
    requires Shaped(s) && s.window != []
    ensures s.window[0].Some? ==>
              var t := SndAck(s, 0); t.window == s.window[0 := None] && t.sizes == s.sizes && t.popped == s.popped && t.written == s.written
  {
  }

  function SndLose(s: Snd, j: nat): Snd
    requires j < |s.window|
  {
    s.(window := s.window[j := Lost(s.window[j])], curWindow := s.curWindow - InFlight(s.window[j]))
  }

  lemma CoreLose(s: Snd, j: nat)
    requires SndCore(s) && j < |s.window|
    ensures SndCore(SndLose(s, j))
  {
    var t := SndLose(s, j);
    InFlightUpdate(s.window, j, Lost(s.window[j]));
    forall i | 0 <= i < |s.window| ensures SlotSettles(s.window[i], t.window[i]) {
      assert SlotOk(s, i);
    }
    CoreFrame(s, t);
  }

  /** The newest i packets of s are marked lost in t. */
  ghost predicate LostTail(s: Snd, t: Snd, i: nat) {
    && t == s.(window := t.window, curWindow := t.curWindow) && |t.window| == |s.window|
    && forall j :: 0 <= j < |s.window| ==> t.window[j] == if j >= |s.window| - i then Lost(s.window[j]) else s.window[j]
  }

  lemma LostNone(s: Snd)
    ensures LostTail(s, s, 0)
  {
  }

  lemma LostTailStep(s: Snd, t: Snd, i: nat)
    requires LostTail(s, t, i) && i < |s.window|
    ensures |t.window| == |s.window| && t.seqNr == s.seqNr && |SndLose(t, |s.window| - i - 1).window| == |s.window|
    ensures LostTail(s, SndLose(t, |s.window| - i - 1), i + 1)
    ensures HeadLive(t) ==> HeadLive(SndLose(t, |s.window| - i - 1))
  {
  }

  lemma AllLost(s: Snd, t: Snd)
    requires s.curWindow == InFlightSum(s.window) && t.curWindow == InFlightSum(t.window) && LostTail(s, t, |s.window|)
    ensures t == SndLoseAll(s)
  {
    assert t.window == SndLoseAll(s).window;
    InFlightNone(t.window);
  }

  lemma ShutReadLocal(r: Rcv)
    requires RcvOpen(r)
    ensures RcvOpen(r.(shutdown := true)) && RcvCore(r.(shutdown := true))
  {
  }

  lemma CoreWindow(s: Snd)
    requires SndCore(s)
    ensures |s.window| <= OUTGOING_BUFFER_MAX_SIZE - 1 + (if s.finSent then 1 else 0)
  {
  }

  lemma OutSame(ring: R.Slots<OutPacket>, s: Snd, t: Snd)
    requires OutCoupled(ring, s) && t.seqNr == s.seqNr && t.window == s.window
    ensures OutCoupled(ring, t)
  {
    forall j | Head(t) <= j < Head(t) + |ring| ensures R.At(ring, j) == LiftOut(t, j) {
      assert R.At(ring, j) == LiftOut(s, j);
    }
  }

  lemma NoFinInWindow(s: Snd)
    requires SndCore(s) && !s.finSent
    ensures forall i :: 0 <= i < |s.window| ==> s.window[i].Some? ==> !s.window[i].value.fin
  {
    forall i | 0 <= i < |s.window| ensures s.window[i].Some? ==> !s.window[i].value.fin {
      assert SlotOk(s, i);
    }
  }

  lemma NotFullBound(s: Snd, bytes: nat, q: Quota)
    requires !IsFull(s, bytes, q)
    ensures |s.window| < OUTGOING_BUFFER_MAX_SIZE - 1
  {
  }

  lemma EnqueueShape(s: Snd, data: Bytes, q: Quota)
    requires Shaped(s)
    ensures Enqueue(s, data, false, q).finSent == s.finSent && Shaped(Enqueue(s, data, false, q))
  {
  }

  lemma LastSize(s: Snd)
    requires SndCore(s)
    ensures |s.sizes| == |s.window|
  {
  }

  lemma CoreBound(s: Snd)
    requires SndCore(s)
    ensures |s.window| <= OUTGOING_BUFFER_MAX_SIZE && Shaped(s) && s.curWindow >= 0
  {
  }

  /**
   * The staleness bound is needed: a datagram exactly one turn old looks like the next packet. On an idle connection the
   * one is to be ignored and the other handed up, and the code cannot tell them apart.
   */
  lemma StaleTaken(x: Socket, data: Bytes, ring: nat, q: Quota, cb: Callbacks)
    requires Shaped(x.snd) && ring > 0 && x.snd.window == [] && !x.snd.finSent && x.state == Connected && !x.fastTimeout
    requires RcvInv(x.rcv) && x.rcv.held == map[] && x.rcv.eof.None? && !x.rcv.finReached && !x.rcv.shutdown
    ensures var next := Msg(Data, x.rcv.ackNr + 1, x.snd.seqNr - 1, None, data);
            var stale := next.(num := next.num - M);
            && Narrow(stale) == Narrow(next) && !FreshFor(x, stale)
            && Incoming(x, stale, ring, q, cb).rcv == x.rcv
            && Incoming(x, next, ring, q, cb).rcv.delivered == x.rcv.delivered + data
  {
    hide ProcessAck, MarkResend, Wrap, DoCalls;
    var next := Msg(Data, x.rcv.ackNr + 1, x.snd.seqNr - 1, None, data);
    UtpFin.IdleAck(x, next, ring, q, cb);
    WrapTurn(next.num);
  }

  lemma WrapTurn(num: int)
    ensures Wrap(num - M) == Wrap(num)
  {
    ModSame(num - M, num, -1);
  }
}
