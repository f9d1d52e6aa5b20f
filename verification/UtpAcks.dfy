// What an ack releases and sends again, and what a timeout does, whatever the callbacks do.
module UtpAcks {
  import opened Common
  import opened SeqSpace
  import opened UtpModel
  import opened UtpInvariant
  import opened UtpDelivery
  import opened UtpSystem
  import opened UtpFlush
  import opened UtpReports

  // ---------------------------------------------------------------- releasing

  /** The window from index k on. */
  predicate Dropped(s: Snd, t: Snd, k: nat) {
    && k <= |s.window| && t.window == s.window[k..] && t.seqNr == s.seqNr && t.written == s.written && t.finSent == s.finSent
    && |s.sizes| == |s.window| && t.sizes == s.sizes[k..] && t.popped == s.popped + Sum(s.sizes[..k])
  }

  lemma DroppedJoin(s: Snd, f: Snd, t: Snd, k: nat, l: nat)
    requires Dropped(s, f, k) && Dropped(f, t, l)
    ensures Dropped(s, t, k + l)
  {
    SumSplit(s.sizes, k, l);
    assert s.window[k..][l..] == s.window[k + l..];
    assert s.sizes[k..][l..] == s.sizes[k + l..];
  }

  lemma {:induction false} SumSplit(a: seq<nat>, k: nat, l: nat)
    requires k + l <= |a|
    ensures Sum(a[..k + l]) == Sum(a[..k]) + Sum(a[k..][..l])
  {
    if k == 0 {
      assert a[0..] == a;
    } else {
      SumSplit(a[1..], k - 1, l);
      assert a[..k + l][1..] == a[1..][..k - 1 + l] && a[..k][1..] == a[1..][..k - 1] && a[1..][k - 1..] == a[k..];
    }
  }

  lemma PopDrops(s: Snd)
    requires |s.sizes| == |s.window| && s.window != []
    ensures Dropped(s, SndPop(s), 1)
    ensures s.window[0].Some? ==> Dropped(s, SndPop(SndAck(s, 0)), 1)
  {
    assert s.sizes[..1] == [s.sizes[0]] && [s.sizes[0]][1..] == [];
    assert s.window[0].Some? ==> s.window[0 := None][1..] == s.window[1..];
  }

  lemma {:induction false} AckLoopDrops(s: Snd, n: nat)
    requires |s.sizes| == |s.window| && n <= |s.window| && forall i :: 0 <= i < n ==> !Unsent(s.window[i])
    ensures Dropped(s, SndAckLoop(s, n), n)
    decreases n
  {
    hide Dropped;
    if n == 0 {
      DroppedNone(s);
    } else {
      PopDrops(s);
      var f := SndPop(if s.window[0].None? then s else SndAck(s, 0));
      DroppedShape(s, f, 1);
      AckLoopDrops(f, n - 1);
      DroppedJoin(s, f, SndAckLoop(f, n - 1), 1, n - 1);
    }
  }

  lemma DroppedNone(s: Snd)
    requires |s.sizes| == |s.window|
    ensures Dropped(s, s, 0)
  {
    assert s.window[0..] == s.window && s.sizes[0..] == s.sizes && s.sizes[..0] == [];
  }

  lemma DroppedShape(s: Snd, t: Snd, k: nat)
    requires Dropped(s, t, k)
    ensures |t.sizes| == |t.window| == |s.window| - k && t.window == s.window[k..] && k <= |s.window| && Head(t) == Head(s) + k
  {
  }

  lemma {:induction false} DropDrops(s: Snd) returns (k: nat)
    requires |s.sizes| == |s.window|
    ensures k <= |s.window| && Dropped(s, SndDropAcked(s), k) && (k == |s.window| || s.window[k].Some?) && forall i :: 0 <= i < k ==> s.window[i].None?
    decreases |s.window|
  {
    hide Dropped;
    if s.window == [] || s.window[0].Some? {
      DroppedNone(s);
      k := 0;
    } else {
      PopDrops(s);
      DroppedShape(s, SndPop(s), 1);
      var l := DropDrops(SndPop(s));
      DroppedJoin(s, SndPop(s), SndDropAcked(s), 1, l);
      k := l + 1;
    }
  }

  /** The window loses the packets up to number `ack`, and those behind them that were acknowledged before; no other. */
  ghost predicate Releases(s: Snd, t: Snd, ack: int) {
    var k := Head(t) - Head(s);
    && k >= 0 && Dropped(s, t, k) && Head(t) > ack
    && (forall i :: 0 <= i < k ==> Head(s) + i <= ack || s.window[i].None?)
    && (k < |s.window| ==> s.window[k].Some?)
  }

  lemma AckCountIs(s: Snd, ack: int)
    requires ack <= s.seqNr - 1
    ensures var n := AckCount(s, ack); n <= |s.window| && Head(s) + n > ack && (n > 0 ==> Head(s) + n == ack + 1)
  {
  }

  /** n packets, and the empty slots behind them. */
  lemma LoopsDrop(s: Snd, n: nat) returns (k: nat)
    requires |s.sizes| == |s.window| && n <= |s.window| && forall i :: 0 <= i < n ==> !Unsent(s.window[i])
    ensures n <= k <= |s.window| && Dropped(s, SndDropAcked(SndAckLoop(s, n)), k)
    ensures (forall i :: n <= i < k ==> s.window[i].None?) && (k == |s.window| || s.window[k].Some?)
  {
    hide Dropped, SndAckLoop, SndDropAcked;
    AckLoopDrops(s, n);
    var f := SndAckLoop(s, n);
    DroppedSizes(s, f, n);
    var l := DropDrops(f);
    DroppedJoin(s, f, SndDropAcked(f), n, l);
    DroppedWithin(s, SndDropAcked(f), n + l);
    EmptyBehind(s, f, n, l);
    k := n + l;
  }

  lemma DroppedSizes(s: Snd, t: Snd, k: nat)
    requires Dropped(s, t, k)
    ensures |t.sizes| == |t.window|
  {
  }

  lemma DroppedWithin(s: Snd, t: Snd, k: nat)
    requires Dropped(s, t, k)
    ensures k <= |s.window| && Head(t) == Head(s) + k
  {
  }

  lemma ReleaseIs(s: Snd, ack: int)
    requires |s.sizes| == |s.window| && ack <= s.seqNr - 1
    requires forall i :: 0 <= i < |s.window| && Head(s) + i <= ack ==> !Unsent(s.window[i])
    ensures Releases(s, SndDropAcked(SndAckLoop(s, AckCount(s, ack))), ack)
  {
    hide Dropped, SndAckLoop, SndDropAcked, AckCount;
    var n := AckCount(s, ack);
    AckCountIs(s, ack);
    forall i | 0 <= i < n ensures !Unsent(s.window[i]) {
    }
    var k := LoopsDrop(s, n);
    var t := SndDropAcked(SndAckLoop(s, n));
    DroppedWithin(s, t, k);
    ReleasesFrom(s, t, ack, n, k);
  }

  lemma ReleasesFrom(s: Snd, t: Snd, ack: int, n: nat, k: nat)
    requires n <= k <= |s.window| && Dropped(s, t, k) && Head(t) == Head(s) + k && Head(s) + n > ack && (n > 0 ==> Head(s) + n == ack + 1)
    requires (forall i :: n <= i < k ==> s.window[i].None?) && (k == |s.window| || s.window[k].Some?)
    ensures Releases(s, t, ack)
  {
    hide Dropped, Head;
    assert Head(t) - Head(s) == k;
  }

  lemma EmptyBehind(s: Snd, f: Snd, n: nat, k: nat)
    requires Dropped(s, f, n) && k <= |f.window|
    requires (forall i :: 0 <= i < k ==> f.window[i].None?) && (k == |f.window| || f.window[k].Some?)
    ensures n + k <= |s.window| && (forall i :: n <= i < n + k ==> s.window[i].None?) && (n + k == |s.window| || s.window[n + k].Some?)
  {
    forall i | n <= i < n + k ensures s.window[i].None? {
      assert f.window[i - n] == s.window[i];
    }
  }

  // ---------------------------------------------------------------- the slots that remain

  predicate BitSet(m: Msg, v: int) {
    m.eack.Some? && 0 <= v - m.ack - 2 < |m.eack.value| && m.eack.value[v - m.ack - 2]
  }

  /** From s to t the slots from index k on remain; of them those of transmitted packets whose bit is set are emptied. */
  ghost predicate Remain(s: Snd, t: Snd, m: Msg, k: nat) {
    && k <= |s.window| <= k + |t.window| && Head(t) == Head(s) + k
    && forall i :: k <= i < |s.window| ==>
         if i > k && s.window[i].Some? && !Unsent(s.window[i]) && BitSet(m, Head(s) + i) then t.window[i - k].None?
         else SlotOnward(s.window[i], t.window[i - k])
  }

  lemma RemainOnward(s: Snd, f: Snd, t: Snd, m: Msg, k: nat)
    requires Remain(s, f, m, k) && Onward(f, t)
    ensures Remain(s, t, m, k)
  {
    forall i | k <= i < |s.window|
      ensures if i > k && s.window[i].Some? && !Unsent(s.window[i]) && BitSet(m, Head(s) + i) then t.window[i - k].None?
              else SlotOnward(s.window[i], t.window[i - k])
    {
      assert SlotOnward(f.window[i - k], t.window[i - k]);
    }
  }

  /** Only the head was sent again. */
  predicate HeadOnly(s: Snd, t: Snd) {
    && |t.window| == |s.window| && t.seqNr == s.seqNr && t.popped == s.popped && t.finSent == s.finSent
    && (s.window != [] ==> SlotOnward(s.window[0], t.window[0]))
    && forall i :: 1 <= i < |s.window| ==> t.window[i] == s.window[i]
  }

  lemma RetryHeadOnly(x: Socket)
    ensures HeadOnly(x.snd, FlushNagle(x).snd) && HeadOnly(x.snd, FastRetry(x).snd)
  {
    hide Wrap;
  }

  lemma {:induction false} ResendOnward(x: Socket, ring: nat, resends: seq<int>, left: nat)
    requires ring > 0
    ensures var t := ResendLoop(x, ring, resends, left);
            Onward(x.snd, t.snd) && |t.snd.window| == |x.snd.window| && x.outbox <= t.outbox
    decreases |resends|
  {
    hide Onward;
    OnwardSame(x.snd);
    if resends == [] || left == 0 {
    } else {
      var v := resends[|resends| - 1];
      var rest := resends[..|resends| - 1];
      var i := Locate(x.snd, ring, v);
      if i < 0 || x.snd.window[i].None? {
        ResendOnward(x, ring, rest, left);
      } else {
        var f := Transmit(x, i).(fastResend := Wrap(v + 1));
        TransmitOnward(x.snd, i);
        ResendOnward(f, ring, rest, left - 1);
        OnwardJoin(x.snd, f.snd, ResendLoop(f, ring, rest, left - 1).snd);
      }
    }
  }

  lemma TransmitOnward(s: Snd, i: nat)
    requires i < |s.window| && s.window[i].Some?
    ensures Onward(s, SndTransmit(s, i))
  {
  }

  /** The scan empties exactly the slots of transmitted packets whose bit is set, other than the head. */
  lemma ScanRemains(s: Snd, f: Snd, m: Msg)
    requires m.eack.Some? && SackedFrom(s, f, m.ack + 2, m.eack.value, -1) && f.popped == s.popped && f.finSent == s.finSent
    ensures Remain(s, f, m, 0)
  {
    forall i | 0 <= i < |s.window|
      ensures if i > 0 && s.window[i].Some? && !Unsent(s.window[i]) && BitSet(m, Head(s) + i) then f.window[i].None?
              else SlotOnward(s.window[i], f.window[i])
    {
      assert Sacked(s, i, m.ack + 2, m.eack.value, -1) <==> s.window[i].Some? && !Unsent(s.window[i]) && BitSet(m, Head(s) + i);
    }
  }

  lemma NoBits(s: Snd, m: Msg)
    requires m.eack.None?
    ensures Remain(s, s, m, 0)
  {
  }

  lemma EmptyRemains(s: Snd, m: Msg)
    requires s.window == []
    ensures Remain(s, s, m, 0)
  {
  }

  lemma {:induction false} ScanFin(sc: Scan, base: int, mask: seq<bool>, bits: int, f: int)
    requires -1 <= bits < |mask|
    ensures SackScan(sc, base, mask, bits, f).snd.finSent == sc.snd.finSent
    decreases bits + 1
  {
    if bits != -1 {
      ScanFin(SackStep(sc, base, mask, bits, f), base, mask, bits - 1, f);
    }
  }

  lemma SackRemains(x: Socket, m: Msg, ring: nat)
    requires ring > 0
    ensures var t := MaybeSack(x, m, ring);
            Remain(x.snd, t.snd, m, 0) && |t.snd.window| == |x.snd.window| && t.snd.popped == x.snd.popped && x.outbox <= t.outbox
  {
    hide SackScan, ResendLoop, SackResends, Remain, Onward;
    if m.eack.None? {
      NoBits(x.snd, m);
    } else if x.snd.window == [] {
      EmptyRemains(x.snd, m);
    } else {
      var mask, base := m.eack.value, m.ack + 2;
      var sc := SackScan(Scan(x.snd, 0, []), base, mask, |mask| - 1, x.fastResend);
      SelectiveAckExact(x.snd, base, mask, x.fastResend);
      ScanSame(Scan(x.snd, 0, []), base, mask, |mask| - 1, x.fastResend);
      ScanFin(Scan(x.snd, 0, []), base, mask, |mask| - 1, x.fastResend);
      ScanRemains(x.snd, sc.snd, m);
      var x1 := x.(snd := sc.snd);
      ResendOnward(x1, ring, SackResends(sc, base, x.fastResend), 4);
      ResendSame(x1, ring, SackResends(sc, base, x.fastResend), 4);
      RemainOnward(x.snd, sc.snd, SelectiveAck(x, ring, base, mask).snd, m, 0);
    }
  }

  lemma RemainJoin(s: Snd, f: Snd, g: Snd, t: Snd, m: Msg, k: nat)
    requires Dropped(s, f, k) && HeadOnly(f, g) && Remain(g, t, m, 0)
    ensures Remain(s, t, m, k)
  {
    DroppedShape(s, f, k);
    forall i | k <= i < |s.window|
      ensures if i > k && s.window[i].Some? && !Unsent(s.window[i]) && BitSet(m, Head(s) + i) then t.window[i - k].None?
              else SlotOnward(s.window[i], t.window[i - k])
    {
      assert f.window[i - k] == s.window[i];
      assert i > k ==> g.window[i - k] == s.window[i];
    }
  }

  lemma HeadOnlyJoin(s: Snd, f: Snd, t: Snd)
    requires HeadOnly(s, f) && HeadOnly(f, t)
    ensures HeadOnly(s, t)
  {
  }

  /** What an acceptable ack does to the window, in one piece. */
  ghost predicate AckDone(s: Snd, t: Snd, m: Msg) {
    var k := Head(t) - Head(s);
    && 0 <= k <= |s.window| == |s.sizes| && Head(t) > m.ack
    && (forall i :: 0 <= i < k ==> Head(s) + i <= m.ack || s.window[i].None?) && (k < |s.window| ==> s.window[k].Some?)
    && t.popped == s.popped + Sum(s.sizes[..k]) && Remain(s, t, m, k)
  }

  /** No packet the peer acknowledged is unsent. */
  lemma AckedWereSent(x: Socket, y: Socket, m: Msg)
    requires Pair(x, y) && AckOk(y.rcv, m)
    ensures forall i :: 0 <= i < |x.snd.window| && Head(x.snd) + i <= m.ack ==> !Unsent(x.snd.window[i])
  {
    hide SndCore, RcvCore, OutOk, AcksOk;
    forall i | 0 <= i < |x.snd.window| && Head(x.snd) + i <= m.ack ensures !Unsent(x.snd.window[i]) {
      assert Received(y.rcv, Head(x.snd) + i);
    }
  }

  lemma AckedDone(x: Socket, y: Socket, m: Msg, ring: nat)
    requires ring > 0 && Pair(x, y) && AckOk(y.rcv, m) && m.ack <= x.snd.seqNr - 1
    ensures Shaped(x.snd) && AckDone(x.snd, Acked(x, m, ring).snd, m)
  {
    hide Pair, AckOk, SndAckLoop, SndDropAcked, AckCount, OnAckState, FlushNagle, FastRetry, MaybeSack, Dropped, Remain, HeadOnly;
    PairShape(x, y);
    AckedWereSent(x, y, m);
    OnAckStateOnly(x, m);
    ReleaseIs(x.snd, m.ack);
    var x1 := Release(OnAckState(x, m), AckCount(x.snd, m.ack));
    var k := Head(x1.snd) - Head(x.snd);
    DroppedShape(x.snd, x1.snd, k);
    RetryHeadOnly(x1);
    RetryHeadOnly(FlushNagle(x1));
    var x2 := FastRetry(FlushNagle(x1));
    HeadOnlyJoin(x1.snd, FlushNagle(x1).snd, x2.snd);
    SackRemains(x2, m, ring);
    var t := MaybeSack(x2, m, ring);
    RemainJoin(x.snd, x1.snd, x2.snd, t.snd, m, k);
    PoppedIs(x.snd, x1.snd, x2.snd, k);
    RemainHead(x.snd, t.snd, m, k);
  }

  lemma PoppedIs(s: Snd, f: Snd, g: Snd, k: nat)
    requires Dropped(s, f, k) && HeadOnly(f, g)
    ensures k <= |s.sizes| == |s.window| && g.popped == s.popped + Sum(s.sizes[..k])
  {
  }

  lemma RemainHead(s: Snd, t: Snd, m: Msg, k: nat)
    requires Remain(s, t, m, k)
    ensures Head(t) == Head(s) + k
  {
  }

  /**
   * An acceptable ack moves the window past every packet it acknowledges and past those behind them acknowledged before,
   * and past no other; counts exactly their bytes; and empties the slot of every other transmitted packet whose bit is set.
   * No other packet is lost, whatever the callbacks do.
   */
  lemma AckReleases(x: Socket, y: Socket, m: Msg, ring: nat, q: Quota, cb: Callbacks)
    requires ring > 0 && Pair(x, y) && AckOk(y.rcv, m) && Taken(x, m)
    ensures Shaped(x.snd) && AckDone(x.snd, Incoming(x, m, ring, q, cb).snd, m)
  {
    hide Pair, AckOk, Acked, Report, ProcessData, Onward, AckDone;
    PairShape(x, y);
    AckedDone(x, y, m, ring);
    AckedShape(x, m, ring);
    var x1 := Acked(x, m, ring);
    ReportTells(x1, x1.snd.popped - x.snd.popped, q, cb);
    var x2 := ProcessAck(x, m, ring, q, cb);
    DataGrows(x2, m, m.num - x.rcv.ackNr - 1, cb);
    OnwardJoin(x1.snd, x2.snd, Incoming(x, m, ring, q, cb).snd);
    DoneOnward(x.snd, x1.snd, Incoming(x, m, ring, q, cb).snd, m);
  }

  lemma DoneOnward(s: Snd, f: Snd, t: Snd, m: Msg)
    requires AckDone(s, f, m) && Onward(f, t)
    ensures AckDone(s, t, m)
  {
    hide Remain;
    assert Head(t) == Head(f) && t.popped == f.popped;
    hide Onward;
    RemainOnward(s, f, t, m, Head(f) - Head(s));
  }
}
