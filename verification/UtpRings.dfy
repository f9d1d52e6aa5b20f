// The two rings of a uTP socket against the window and the reorder buffer over true packet numbers.
module UtpRings {
  import opened Common
  import opened SeqSpace
  import opened UtpModel
  import opened UtpInvariant
  import opened UtpDelivery
  import R = Ring

  /** A datagram as it travels. */
  datatype WireMsg = WireMsg(kind: Kind, seqNr: int, ackNr: int, eack: Option<seq<bool>>, data: Bytes)

  function Narrow(m: Msg): WireMsg {
    WireMsg(m.kind, Wrap(m.num), Wrap(m.ack), m.eack, m.data)
  }

  ghost function NarrowAll(ms: seq<Msg>): seq<WireMsg> {
    seq(|ms|, i requires 0 <= i < |ms| => Narrow(ms[i]))
  }

  /** A packet in the outgoing ring, with the sequence number in its header. */
  datatype OutPacket = OutPacket(pkt: Packet, seqNr: int)

  // ---------------------------------------------------------------- the outgoing ring

  function LiftOut(s: Snd, j: int): Option<OutPacket> {
    if Head(s) <= j < s.seqNr && s.window[j - Head(s)].Some?
    then Some(OutPacket(s.window[j - Head(s)].value, Wrap(j))) else None
  }

  /** The outgoing ring holds exactly the window: every other slot is empty. */
  ghost predicate OutCoupled(ring: R.Slots<OutPacket>, s: Snd) {
    && R.IsRing(ring)
    && |s.window| <= |ring|
    && forall j :: Head(s) <= j < Head(s) + |ring| ==> R.At(ring, j) == LiftOut(s, j)
  }

  /** A 16-bit number plus an offset uses the slot of the true number plus that offset. */
  lemma WrapSlot(x: int, c: int, n: int)
    requires R.IsRingSize(n)
    ensures n > 0 && R.Slot(Wrap(x) + c, n) == R.Slot(x + c, n)
    ensures R.Slot(Wrap(x + c), n) == R.Slot(x + c, n)
  {
    hide R.IsRingSize;
    R.TurnsFit(n);
    R.SameSlot(Wrap(x) + c, x + c, -(x / M), n);
    R.SameSlot(Wrap(x + c), x + c, -((x + c) / M), n);
  }

  /** get: reading the ring at any number finds the window member that shares its slot, or nothing. */
  lemma OutAt(ring: R.Slots<OutPacket>, s: Snd, v: int)
    requires OutCoupled(ring, s)
    ensures |ring| > 0 && R.At(ring, v) == LiftOut(s, R.Twin(Head(s), v, |ring|))
  {
    hide R.IsRingSize;
    R.TurnsFit(|ring|);
    R.TwinSlot(Head(s), v, |ring|);
  }

  /** The 16-bit number of window member Head + i finds exactly that member. */
  lemma OutAtIndex(ring: R.Slots<OutPacket>, s: Snd, v: int, i: nat)
    requires OutCoupled(ring, s) && i < |s.window| && Wrap(v) == Wrap(Head(s) + i)
    ensures |ring| > 0 && R.Twin(Head(s), v, |ring|) == Head(s) + i
    ensures R.At(ring, v) == if s.window[i].Some? then Some(OutPacket(s.window[i].value, Wrap(Head(s) + i))) else None
  {
    hide R.IsRingSize;
    R.TurnsFit(|ring|);
    var j := Head(s) + i;
    OutAt(ring, s, v);
    R.SameSlot(v, j, v / M - j / M, |ring|);
    R.TwinUnique(Head(s), v, |ring|, j);
  }

  /** put on an existing member. */
  lemma OutPut(ring: R.Slots<OutPacket>, s: Snd, v: int, i: nat, t: Snd)
    requires OutCoupled(ring, s)
    requires i < |s.window| && |ring| > 0 && R.Twin(Head(s), v, |ring|) == Head(s) + i
    requires t.seqNr == s.seqNr && |t.window| == |s.window| && t.window == s.window[i := t.window[i]]
    ensures OutCoupled(R.Put(ring, v, LiftOut(t, Head(s) + i)), t)
  {
    hide R.IsRingSize;
    var x := LiftOut(t, Head(s) + i);
    forall j | Head(t) <= j < Head(t) + |ring| ensures R.At(R.Put(ring, v, x), j) == LiftOut(t, j) {
      R.AtPut(ring, v, x, j);
      R.TwinUnique(Head(s), v, |ring|, j);
    }
  }

  /** ensure_size(seq_nr, cur_window_packets) keeps the coupling and makes room for one more packet. */
  lemma OutGrow(ring: R.Slots<OutPacket>, s: Snd, seqNr: int)
    requires OutCoupled(ring, s) && seqNr == Wrap(s.seqNr) && |s.window| < 32768
    ensures |ring| > 0
    ensures var g := R.EnsureSize(ring, seqNr, |s.window|);
            OutCoupled(g, s) && |s.window| < |g|
  {
    hide R.IsRingSize;
    R.TurnsFit(|ring|);
    if |s.window| > |ring| - 1 {
      var g := R.Grown(ring, seqNr, |s.window|);
      var delta := seqNr - s.seqNr;
      forall j | Head(s) <= j < Head(s) + |g| ensures R.IsRing(g) && |s.window| < |g| && R.At(g, j) == LiftOut(s, j) {
        R.AtGrown(ring, seqNr, |s.window|, j + delta);
        R.SameSlot(j + delta, j, -(s.seqNr / M), |g|);
        R.SameSlot(j + delta, j, -(s.seqNr / M), |ring|);
      }
      R.NextSizeFits(|ring|, |s.window|);
    }
  }

  /** put at seq_nr of a packet that extends the window. */
  lemma OutAppend(ring: R.Slots<OutPacket>, s: Snd, seqNr: int, p: Packet, t: Snd)
    requires OutCoupled(ring, s) && seqNr == Wrap(s.seqNr) && |s.window| < |ring|
    requires t.seqNr == s.seqNr + 1 && t.window == s.window + [Some(p)]
    ensures OutCoupled(R.Put(ring, seqNr, Some(OutPacket(p, seqNr))), t)
  {
    hide R.IsRingSize;
    var x := Some(OutPacket(p, seqNr));
    WrapSlot(s.seqNr, 0, |ring|);
    forall j | Head(t) <= j < Head(t) + |ring| ensures R.At(R.Put(ring, seqNr, x), j) == LiftOut(t, j) {
      R.AtPut(ring, seqNr, x, j);
      R.TwinUnique(Head(s), s.seqNr, |ring|, j);
      R.TwinInWindow(Head(s), s.seqNr, |ring|);
    }
  }

  /** The window's old end moves past an empty slot. */
  lemma OutPop(ring: R.Slots<OutPacket>, s: Snd, t: Snd)
    requires OutCoupled(ring, s) && s.window != [] && s.window[0].None?
    requires t.seqNr == s.seqNr && t.window == s.window[1..]
    ensures OutCoupled(ring, t)
  {
    hide R.IsRingSize;
    R.TurnsFit(|ring|);
    NextTurnSlot(Head(s), |ring|);
    forall j | Head(t) <= j < Head(t) + |ring| ensures R.At(ring, j) == LiftOut(t, j) {
      if j < Head(s) + |ring| {
        assert R.At(ring, j) == LiftOut(s, j);
      } else {
        assert R.At(ring, j) == R.At(ring, Head(s)) == LiftOut(s, Head(s));
      }
    }
  }

  lemma NextTurnSlot(x: int, n: int)
    requires n > 0
    ensures R.Slot(x + n, n) == R.Slot(x, n)
  {
    R.Distribute(n, x / n, -1);
    R.QuotientIs(x + n, n, x / n + 1, x % n);
  }

  // ---------------------------------------------------------------- the incoming ring

  function LiftIn(r: Rcv, j: int): Option<Bytes> {
    if j in r.held then Some(r.held[j]) else None
  }

  /** The incoming ring holds exactly the reordered packets, all of which fit strictly below ack_nr's own slot. */
  ghost predicate InCoupled(ring: R.Slots<Bytes>, r: Rcv) {
    && R.IsRing(ring)
    && (forall k :: k in r.held ==> k < r.ackNr + |ring|)
    && forall j :: r.ackNr + 1 <= j < r.ackNr + 1 + |ring| ==> R.At(ring, j) == LiftIn(r, j)
  }

  /** get at the 16-bit number of a packet in the receive window. */
  lemma InAt(ring: R.Slots<Bytes>, r: Rcv, v: int, num: int)
    requires InCoupled(ring, r) && Wrap(v) == Wrap(num) && r.ackNr + 1 <= num < r.ackNr + 1 + |ring|
    ensures |ring| > 0 && R.At(ring, v) == LiftIn(r, num)
  {
    hide R.IsRingSize;
    R.TurnsFit(|ring|);
    R.SameSlot(v, num, v / M - num / M, |ring|);
    assert R.At(ring, num) == LiftIn(r, num);
  }

  /** The receive window may advance past an empty slot: the slot it gains is the one it leaves. */
  lemma InShift(ring: R.Slots<Bytes>, r: Rcv, t: Rcv)
    requires InCoupled(ring, r)
    requires r.ackNr + 1 !in r.held && t.held == r.held && t.ackNr == r.ackNr + 1
    ensures InCoupled(ring, t)
  {
    hide R.IsRingSize;
    R.TurnsFit(|ring|);
    NextTurnSlot(r.ackNr + 1, |ring|);
    forall j | t.ackNr + 1 <= j < t.ackNr + 1 + |ring| ensures R.At(ring, j) == LiftIn(t, j) {
      if j < r.ackNr + 1 + |ring| {
        assert R.At(ring, j) == LiftIn(r, j);
      } else {
        assert R.At(ring, j) == R.At(ring, r.ackNr + 1) == LiftIn(r, r.ackNr + 1);
      }
    }
  }

  /** put of `data` (or NULL) at the 16-bit number of a packet in the receive window. */
  lemma InPut(ring: R.Slots<Bytes>, r: Rcv, v: int, num: int, t: Rcv)
    requires InCoupled(ring, r) && Wrap(v) == Wrap(num) && r.ackNr + 1 <= num < r.ackNr + |ring|
    requires t.ackNr == r.ackNr && forall j :: j != num ==> (j in t.held <==> j in r.held) && (j in r.held ==> t.held[j] == r.held[j])
    ensures |ring| > 0 && InCoupled(R.Put(ring, v, LiftIn(t, num)), t)
  {
    hide R.IsRingSize;
    R.TurnsFit(|ring|);
    var x := LiftIn(t, num);
    R.SameSlot(v, num, v / M - num / M, |ring|);
    forall j | t.ackNr + 1 <= j < t.ackNr + 1 + |ring| ensures R.At(R.Put(ring, v, x), j) == LiftIn(t, j) {
      R.AtPut(ring, v, x, j);
      R.TwinUnique(r.ackNr + 1, num, |ring|, j);
      R.TwinInWindow(r.ackNr + 1, num, |ring|);
      assert R.At(ring, j) == LiftIn(r, j);
    }
  }

  /** ensure_size(pk_seq_nr + 1, seqnr + 1) before storing an out-of-order packet. */
  lemma InGrow(ring: R.Slots<Bytes>, r: Rcv, v: int, num: int)
    requires InCoupled(ring, r) && v == Wrap(num) && r.ackNr + 1 <= num <= r.ackNr + REORDER_BUFFER_MAX_SIZE
    ensures |ring| > 0
    ensures var g := R.EnsureSize(ring, v + 1, num - r.ackNr);
            InCoupled(g, r) && num < r.ackNr + |g|
  {
    hide R.IsRingSize;
    R.TurnsFit(|ring|);
    var index := num - r.ackNr;
    if index > |ring| - 1 {
      var g := R.Grown(ring, v + 1, index);
      var delta := v - num;
      R.NextSizeFits(|ring|, index);
      forall j | r.ackNr + 1 <= j < r.ackNr + 1 + |g| ensures R.IsRing(g) && R.At(g, j) == LiftIn(r, j) {
        R.AtGrown(ring, v + 1, index, j + delta);
        R.SameSlot(j + delta, j, -(num / M), |g|);
        R.SameSlot(j + delta, j, -(num / M), |ring|);
        if j < r.ackNr + 1 + |ring| {
          assert R.At(ring, j) == LiftIn(r, j);
        }
      }
    }
  }

  /** send_ack's mask loop, for ack number ackNr == Wrap(ack): no slot aliases, whatever the ring size. */
  method BuildEack(ring: R.Slots<Bytes>, ackNr: int, ghost ack: int, ghost r: Rcv) returns (mask: seq<bool>)
    requires InCoupled(ring, r) && RcvOpen(r) && !r.finReached
    requires ackNr == Wrap(ack) && r.ackNr - 1 <= ack <= r.ackNr
    ensures mask == EackMask(r, ack)
  {
    hide R.IsRingSize, RcvCore;
    R.TurnsFit(|ring|);
    var window := Min(14 + 16, |ring|);
    mask := [];
    var i := 0;
    while i < window
      invariant 0 <= i <= window && |mask| == i
      invariant forall k :: 0 <= k < i ==> (mask[k] <==> ack + 2 + k in r.held)
    {
      WrapSlot(ack, i + 2, |ring|);
      if ack + i + 2 == r.ackNr + 1 + |ring| {
        NextTurnSlot(r.ackNr + 1, |ring|);
        assert R.At(ring, r.ackNr + 1) == LiftIn(r, r.ackNr + 1);
      } else {
        assert R.At(ring, ack + i + 2) == LiftIn(r, ack + i + 2);
      }
      mask := mask + [R.At(ring, ackNr + i + 2) != None];
      i := i + 1;
    }
    mask := mask + seq(32 - window, _ => false);
  }
}
