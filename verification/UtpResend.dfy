// Which packets a selective ack sends again, and what a timeout does, whatever the callbacks do.
module UtpResend {
  import opened Common
  import opened SeqSpace
  import opened UtpModel
  import opened UtpInvariant
  import opened UtpDelivery
  import opened UtpSystem
  import opened UtpFlush
  import opened UtpReports
  import opened UtpAcks

  // ---------------------------------------------------------------- the packets to send again

  /** Of the packets in the window behind the oldest, how many of the bits from `b` on tell as received. */
  function Above(s: Snd, base: int, mask: seq<bool>, b: nat): nat
    decreases |mask| - b
  {
    if b >= |mask| then 0
    else Above(s, base, mask, b + 1) + if mask[b] && 1 <= base + b - Head(s) < |s.window| then 1 else 0
  }

  /** Behind the oldest, sent and not told as received, though three packets beyond it are, and not resent before. */
  predicate Missing(s: Snd, base: int, mask: seq<bool>, mark: int, b: nat)
    requires b < |mask|
  {
    var i := base + b - Head(s);
    && 1 <= i < |s.window| && s.window[i].Some? && s.window[i].value.transmissions > 0 && !mask[b]
    && Above(s, base, mask, b) >= 3 && (base + b - mark) % 65536 <= 1024
  }

  /** Their window indices, oldest first. */
  function Again(s: Snd, base: int, mask: seq<bool>, mark: int, b: nat): seq<int>
    decreases |mask| - b
  {
    if b >= |mask| then []
    else if Missing(s, base, mask, mark, b) then [base + b - Head(s)] + Again(s, base, mask, mark, b + 1)
    else Again(s, base, mask, mark, b + 1)
  }

  lemma {:induction false} AgainInside(s: Snd, base: int, mask: seq<bool>, mark: int, b: nat)
    ensures forall k :: 0 <= k < |Again(s, base, mask, mark, b)| ==>
              var i := Again(s, base, mask, mark, b)[k];
              1 <= i < |s.window| && s.window[i].Some? && !Unsent(s.window[i]) && i >= base + b - Head(s)
              && base <= Head(s) + i < base + |mask| && !mask[Head(s) + i - base]
    decreases |mask| - b
  {
    if b < |mask| {
      AgainInside(s, base, mask, mark, b + 1);
    }
  }

  // ---------------------------------------------------------------- the scan finds them

  /** The top of the stack is the beginning of `a`, top first; sixty-two entries at least are kept. */
  predicate OnTop(stack: seq<int>, a: seq<int>, head: int) {
    && |stack| <= |a| && (|stack| == |a| || |stack| >= 62)
    && forall k :: 0 <= k < |stack| ==> stack[|stack| - 1 - k] == head + a[k]
  }

  lemma PushOnTop(stack: seq<int>, a: seq<int>, head: int, i: int)
    requires OnTop(stack, a, head)
    ensures OnTop(Push(stack, head + i), [i] + a, head)
  {
    var t := Push(stack, head + i);
    forall k | 0 <= k < |t| ensures t[|t| - 1 - k] == head + ([i] + a)[k] {
      assert k > 0 ==> t[|t| - 1 - k] == stack[|stack| - 1 - (k - 1)];
    }
  }

  lemma StepFinds(s: Snd, sc: Scan, base: int, mask: seq<bool>, b: nat, f: int)
    requires b < |mask| && SackedFrom(s, sc.snd, base, mask, b + 1)
    requires sc.count == Above(s, base, mask, b + 1) && OnTop(sc.resends, Again(s, base, mask, f, b + 1), Head(s))
    ensures var t := SackStep(sc, base, mask, b, f);
            t.count == Above(s, base, mask, b) && OnTop(t.resends, Again(s, base, mask, f, b), Head(s))
  {
    hide OnTop, Push, SndAck;
    var i := base + b - Head(s);
    PushOnTop(sc.resends, Again(s, base, mask, f, b + 1), Head(s), i);
    if 1 <= i < |s.window| {
      assert sc.snd.window[i] == s.window[i];
      if Missing(s, base, mask, f, b) {
      } else {
      }
    }
  }

  lemma {:induction false} ScanFinds(s: Snd, sc: Scan, base: int, mask: seq<bool>, b: int, f: int)
    requires -1 <= b < |mask| && SackedFrom(s, sc.snd, base, mask, b + 1) && base <= Head(s) + 1
    requires sc.count == Above(s, base, mask, b + 1) && OnTop(sc.resends, Again(s, base, mask, f, b + 1), Head(s))
    ensures var t := SackScan(sc, base, mask, b, f);
            t.count == Above(s, base, mask, 0) && OnTop(t.resends, Again(s, base, mask, f, 0), Head(s))
    decreases b + 1
  {
    hide OnTop, Above, Again, SackedFrom;
    if b == -1 {
      HeadUntouched(s, sc, base, mask, f);
    } else {
      hide SackStep;
      StepFinds(s, sc, base, mask, b, f);
      StepExact(s, sc, base, mask, b, f);
      ScanFinds(s, SackStep(sc, base, mask, b, f), base, mask, b - 1, f);
    }
  }

  lemma HeadUntouched(s: Snd, sc: Scan, base: int, mask: seq<bool>, f: int)
    requires SackedFrom(s, sc.snd, base, mask, 0) && base <= Head(s) + 1
    ensures SackStep(sc, base, mask, -1, f) == sc
  {
  }

  // ---------------------------------------------------------------- the loop sends the oldest four of them

  ghost function Datagrams(s: Snd, a: seq<int>, ackNr: int): seq<Msg> {
    if a == [] then []
    else (if 0 <= a[0] < |s.window| && s.window[a[0]].Some? then [DatagramOf(s, a[0], ackNr)] else []) + Datagrams(s, a[1..], ackNr)
  }

  /** Each packet of `a` is sent again, and no other. */
  ghost predicate SentAgain(s: Snd, t: Snd, a: seq<int>) {
    && |t.window| == |s.window| && t.seqNr == s.seqNr
    && forall j :: 0 <= j < |s.window| ==>
         if j in a then s.window[j].Some? && t.window[j].Some? && !Waits(t.window[j]) && Times(t.window, j) > Times(s.window, j)
         else t.window[j] == s.window[j]
  }

  /** The entries at the top of the stack, top first, are those of `a`. */
  predicate LooksUp(s: Snd, ring: nat, stack: seq<int>, a: seq<int>)
    requires ring > 0
  {
    && |a| <= |stack|
    && forall k :: 0 <= k < |a| ==> 0 <= a[k] < |s.window| && s.window[a[k]].Some? && Locate(s, ring, stack[|stack| - 1 - k]) == a[k]
  }

  lemma {:induction false} SameDatagrams(s: Snd, i: nat, a: seq<int>, ackNr: int)
    requires i < |s.window| && s.window[i].Some?
    ensures Datagrams(SndTransmit(s, i), a, ackNr) == Datagrams(s, a, ackNr)
    decreases |a|
  {
    if a != [] {
      SameDatagrams(s, i, a[1..], ackNr);
    }
  }

  lemma LookUpRest(s: Snd, ring: nat, stack: seq<int>, a: seq<int>)
    requires ring > 0 && LooksUp(s, ring, stack, a) && a != []
    ensures a[0] >= 0 && LooksUp(SndTransmit(s, a[0]), ring, stack[..|stack| - 1], a[1..])
  {
    var t, rest := SndTransmit(s, a[0]), stack[..|stack| - 1];
    forall k | 0 <= k < |a[1..]|
      ensures 0 <= a[1..][k] < |t.window| && t.window[a[1..][k]].Some? && Locate(t, ring, rest[|rest| - 1 - k]) == a[1..][k]
    {
      assert a[1..][k] == a[k + 1] && rest[|rest| - 1 - k] == stack[|stack| - 1 - (k + 1)];
    }
  }

  lemma SentMoreAgain(s: Snd, i: nat, t: Snd, a: seq<int>)
    requires i < |s.window| && s.window[i].Some? && SentAgain(SndTransmit(s, i), t, a)
    ensures SentAgain(s, t, [i] + a)
  {
    var f := SndTransmit(s, i);
    forall j | 0 <= j < |s.window|
      ensures if j in [i] + a then s.window[j].Some? && t.window[j].Some? && !Waits(t.window[j]) && Times(t.window, j) > Times(s.window, j)
              else t.window[j] == s.window[j]
    {
      assert Times(f.window, j) >= Times(s.window, j);
    }
  }

  lemma ResendOne(x: Socket, ring: nat, stack: seq<int>, left: nat, a: seq<int>)
    requires ring > 0 && LooksUp(x.snd, ring, stack, a) && a != [] && left > 0
    ensures 0 <= a[0] < |x.snd.window| && x.snd.window[a[0]].Some? && stack != []
    ensures var n := |stack| - 1;
            ResendLoop(x, ring, stack, left) == ResendLoop(Transmit(x, a[0]).(fastResend := Wrap(stack[n] + 1)), ring, stack[..n], left - 1)
  {
    hide Wrap, Transmit, Locate;
    assert stack[|stack| - 1 - 0] == stack[|stack| - 1];
  }

  /** One more transmission joins those that follow it. */
  lemma OneMore(x: Socket, f: Socket, t: Socket, a: seq<int>)
    requires a != [] && 0 <= a[0] < |x.snd.window| && x.snd.window[a[0]].Some?
    requires f.outbox == x.outbox + [DatagramOf(x.snd, a[0], x.rcv.ackNr)] && f.snd == SndTransmit(x.snd, a[0]) && f.rcv == x.rcv
    requires t.outbox == f.outbox + Datagrams(f.snd, a[1..], f.rcv.ackNr) && SentAgain(f.snd, t.snd, a[1..])
    ensures t.outbox == x.outbox + Datagrams(x.snd, a, x.rcv.ackNr) && SentAgain(x.snd, t.snd, a)
  {
    hide SndTransmit, SentAgain, DatagramOf;
    var d, r := [DatagramOf(x.snd, a[0], x.rcv.ackNr)], Datagrams(x.snd, a[1..], x.rcv.ackNr);
    assert Datagrams(x.snd, a, x.rcv.ackNr) == d + r;
    SameDatagrams(x.snd, a[0], a[1..], x.rcv.ackNr);
    hide Datagrams;
    assert (x.outbox + d) + r == x.outbox + (d + r);
    SentMoreAgain(x.snd, a[0], t.snd, a[1..]);
    assert [a[0]] + a[1..] == a;
  }

  lemma {:induction false} ResendsTop(x: Socket, ring: nat, stack: seq<int>, left: nat, a: seq<int>)
    requires ring > 0 && LooksUp(x.snd, ring, stack, a) && |a| == Min(left, |stack|)
    ensures var t := ResendLoop(x, ring, stack, left);
            && t.outbox == x.outbox + Datagrams(x.snd, a, x.rcv.ackNr) && SentAgain(x.snd, t.snd, a)
            && t.fastResend == if a == [] then x.fastResend else Wrap(stack[|stack| - |a|] + 1)
    decreases |stack|
  {
    hide Wrap, SentAgain, SndTransmit, LooksUp, ResendLoop;
    if a == [] {
      SentNone(x.snd);
      ResendNone(x, ring, stack, left);
    } else {
      var v, rest := stack[|stack| - 1], stack[..|stack| - 1];
      ResendOne(x, ring, stack, left, a);
      LookUpRest(x.snd, ring, stack, a);
      var f := Transmit(x, a[0]).(fastResend := Wrap(v + 1));
      ResendsTop(f, ring, rest, left - 1, a[1..]);
      OneMore(x, f, ResendLoop(f, ring, rest, left - 1), a);
    }
  }

  lemma ResendNone(x: Socket, ring: nat, stack: seq<int>, left: nat)
    requires ring > 0 && (left == 0 || stack == [])
    ensures ResendLoop(x, ring, stack, left) == x
  {
  }

  lemma SentNone(s: Snd)
    ensures SentAgain(s, s, [])
  {
  }

  // ---------------------------------------------------------------- a selective ack

  /** Packet i of the window is behind the oldest, sent, and told as received. */
  predicate Told(s: Snd, m: Msg, i: nat)
    requires i < |s.window|
  {
    i > 0 && s.window[i].Some? && !Unsent(s.window[i]) && BitSet(m, Head(s) + i)
  }

  /** The packet the ring finds under the number after the cumulative ack, if three packets are told and it was not resent before. */
  function Awaited(s: Snd, m: Msg, mark: int, ring: nat): seq<int>
    requires ring > 0 && m.eack.Some?
  {
    var i := Locate(s, ring, Wrap(m.ack + 1));
    if Above(s, m.ack + 2, m.eack.value, 0) >= 3 && (m.ack + 1 - mark) % 65536 <= 1024 && i >= 0 && s.window[i].Some? && !Told(s, m, i)
    then [i] else []
  }

  /** At most four: the awaited one, then those missing before others that are told, oldest first. */
  function Resends(s: Snd, m: Msg, mark: int, ring: nat): seq<int>
    requires ring > 0
  {
    if m.eack.None? || s.window == [] then [] else
    var a := Awaited(s, m, mark, ring) + Again(s, m.ack + 2, m.eack.value, mark, 0);
    a[..Min(4, |a|)]
  }

  /** The number after the last packet sent again. */
  function NextMark(s: Snd, m: Msg, mark: int, ring: nat): int
    requires ring > 0
  {
    var a := Resends(s, m, mark, ring);
    if a == [] then mark
    else if a == Awaited(s, m, mark, ring) then Wrap(m.ack + 2)
    else Wrap(Head(s) + a[|a| - 1] + 1)
  }

  /** Told packets leave their slot, those of `a` are sent again, nothing else changes. */
  ghost predicate Answered(s: Snd, t: Snd, m: Msg, a: seq<int>) {
    && |t.window| == |s.window| && t.seqNr == s.seqNr
    && forall j :: 0 <= j < |s.window| ==>
         if Told(s, m, j) then t.window[j].None?
         else if j in a then s.window[j].Some? && t.window[j].Some? && !Waits(t.window[j]) && Times(t.window, j) > Times(s.window, j)
         else t.window[j] == s.window[j]
  }

  lemma {:induction false} DatagramsKept(s: Snd, t: Snd, a: seq<int>, ackNr: int)
    requires |t.window| == |s.window| && t.seqNr == s.seqNr
    requires forall k :: 0 <= k < |a| ==> 0 <= a[k] < |s.window| && t.window[a[k]] == s.window[a[k]]
    ensures Datagrams(t, a, ackNr) == Datagrams(s, a, ackNr)
    decreases |a|
  {
    if a != [] {
      assert t.window[a[0]] == s.window[a[0]];
      forall k | 0 <= k < |a[1..]| ensures 0 <= a[1..][k] < |s.window| && t.window[a[1..][k]] == s.window[a[1..][k]] {
        assert a[1..][k] == a[k + 1];
      }
      DatagramsKept(s, t, a[1..], ackNr);
    }
  }

  /** The scan leaves the untold packets alone. */
  lemma UntoldKept(s: Snd, f: Snd, m: Msg)
    requires m.eack.Some? && SackedFrom(s, f, m.ack + 2, m.eack.value, -1)
    ensures |f.window| == |s.window| && f.seqNr == s.seqNr
    ensures forall i :: 0 <= i < |s.window| ==> f.window[i] == if Told(s, m, i) then None else s.window[i]
  {
    forall i | 0 <= i < |s.window| ensures f.window[i] == if Told(s, m, i) then None else s.window[i] {
      assert Told(s, m, i) <==> i > 0 && Sacked(s, i, m.ack + 2, m.eack.value, -1);
    }
  }

  /** The packets to send again are in their slots after the scan, and the stack leads to them. */
  lemma AgainLooksUp(s: Snd, f: Snd, m: Msg, mark: int, ring: nat, stack: seq<int>, a: seq<int>)
    requires ring > 0 && m.eack.Some? && |s.window| <= ring && |f.window| == |s.window| && f.seqNr == s.seqNr
    requires forall i :: 0 <= i < |s.window| ==> f.window[i] == if Told(s, m, i) then None else s.window[i]
    requires OnTop(stack, Again(s, m.ack + 2, m.eack.value, mark, 0), Head(s))
    requires a <= Again(s, m.ack + 2, m.eack.value, mark, 0) && |a| <= |stack|
    ensures LooksUp(f, ring, stack, a) && forall k :: 0 <= k < |a| ==> f.window[a[k]] == s.window[a[k]]
  {
    var b := Again(s, m.ack + 2, m.eack.value, mark, 0);
    AgainInside(s, m.ack + 2, m.eack.value, mark, 0);
    hide Again;
    forall k | 0 <= k < |a|
      ensures 0 <= a[k] < |f.window| && f.window[a[k]].Some? && Locate(f, ring, stack[|stack| - 1 - k]) == a[k] && f.window[a[k]] == s.window[a[k]]
    {
      assert a[k] == b[k];
      assert (stack[|stack| - 1 - k] - Head(f)) % ring == a[k] by {
        SmallMod(a[k], ring);
      }
    }
  }

  lemma SmallMod(a: nat, n: nat)
    requires a < n
    ensures a % n == a
  {
  }

  /** With the awaited packet on top. */
  lemma TopLooksUp(f: Snd, ring: nat, stack: seq<int>, a: seq<int>, v: int, i: int)
    requires ring > 0 && LooksUp(f, ring, stack, a) && Locate(f, ring, v) == i && i >= 0 && f.window[i].Some?
    ensures LooksUp(f, ring, stack + [v], [i] + a)
  {
    var t, b := stack + [v], [i] + a;
    forall k | 0 <= k < |b| ensures 0 <= b[k] < |f.window| && f.window[b[k]].Some? && Locate(f, ring, t[|t| - 1 - k]) == b[k] {
      assert k > 0 ==> t[|t| - 1 - k] == stack[|stack| - 1 - (k - 1)];
    }
  }

  lemma SkipTop(x: Socket, ring: nat, stack: seq<int>, v: int)
    requires ring > 0 && (Locate(x.snd, ring, v) < 0 || x.snd.window[Locate(x.snd, ring, v)].None?)
    ensures ResendLoop(x, ring, stack + [v], 4) == ResendLoop(x, ring, stack, 4)
  {
    hide Locate;
    assert (stack + [v])[..|stack|] == stack;
  }

  lemma LookUpFewer(f: Snd, ring: nat, stack: seq<int>, a: seq<int>, b: seq<int>)
    requires ring > 0 && LooksUp(f, ring, stack, a) && b <= a
    ensures LooksUp(f, ring, stack, b)
  {
    hide Locate;
    forall k | 0 <= k < |b| ensures b[k] == a[k] {
    }
  }

  /** What the scan of packets s leaves. */
  ghost predicate Scanned(s: Snd, m: Msg, mark: int, ring: nat, sc: Scan) {
    && m.eack.Some? && 0 < |s.window| <= ring && |sc.snd.window| == |s.window| && sc.snd.seqNr == s.seqNr
    && (forall i :: 0 <= i < |s.window| ==> sc.snd.window[i] == if Told(s, m, i) then None else s.window[i])
    && sc.count == Above(s, m.ack + 2, m.eack.value, 0)
    && OnTop(sc.resends, Again(s, m.ack + 2, m.eack.value, mark, 0), Head(s))
  }

  /** The top entries lead to the packets of `a` in their slots, and the last of them gives the next mark. */
  ghost predicate Leads(s: Snd, f: Snd, ring: nat, stack: seq<int>, a: seq<int>, mark: int, next: int)
    requires ring > 0
  {
    && LooksUp(f, ring, stack, a) && |a| == Min(4, |stack|)
    && (forall k :: 0 <= k < |a| ==> 0 <= a[k] < |s.window| && f.window[a[k]] == s.window[a[k]])
    && next == if a == [] then mark else Wrap(stack[|stack| - |a|] + 1)
  }

  lemma MissingLead(s: Snd, m: Msg, mark: int, ring: nat, sc: Scan)
    requires Scanned(s, m, mark, ring, sc)
    ensures var b := Again(s, m.ack + 2, m.eack.value, mark, 0);
            var a := b[..Min(4, |b|)];
            Leads(s, sc.snd, ring, sc.resends, a, mark, if a == [] then mark else Wrap(Head(s) + a[|a| - 1] + 1))
  {
    hide Wrap, LooksUp, Told, Above, Again;
    var b := Again(s, m.ack + 2, m.eack.value, mark, 0);
    var a := b[..Min(4, |b|)];
    AgainLooksUp(s, sc.snd, m, mark, ring, sc.resends, a);
    LookUpInside(sc.snd, ring, sc.resends, a);
    if a != [] {
      assert sc.resends[|sc.resends| - 1 - (|a| - 1)] == Head(s) + b[|a| - 1];
    }
  }

  lemma AwaitedLeads(s: Snd, m: Msg, mark: int, ring: nat, sc: Scan, i: int)
    requires Scanned(s, m, mark, ring, sc) && Awaited(s, m, mark, ring) == [i]
    ensures Leads(s, sc.snd, ring, sc.resends + [Wrap(m.ack + 1)], Resends(s, m, mark, ring), mark, NextMark(s, m, mark, ring))
  {
    hide LooksUp, Told, Above, Again, Locate;
    var b := Again(s, m.ack + 2, m.eack.value, mark, 0);
    var r := b[..Min(4, |b|)];
    var a := Resends(s, m, mark, ring);
    var v := Wrap(m.ack + 1);
    MissingLead(s, m, mark, ring, sc);
    TopCount(sc.resends, b, Head(s));
    assert |a| == Min(4, |sc.resends| + 1);
    SameLocate(s, sc.snd, ring, v);
    TopLooksUp(sc.snd, ring, sc.resends, r, v, i);
    assert a <= [i] + r;
    LookUpFewer(sc.snd, ring, sc.resends + [v], [i] + r, a);
    forall k | 0 <= k < |a| ensures 0 <= a[k] < |s.window| && sc.snd.window[a[k]] == s.window[a[k]] {
      assert a[k] == if k == 0 then i else r[k - 1];
    }
    WrapAdd(m.ack + 1, 1);
    hide Wrap;
    if |a| > 1 {
      assert sc.resends[|sc.resends| - 1 - (|a| - 2)] == Head(s) + b[|a| - 2];
    }
  }

  lemma SameLocate(s: Snd, f: Snd, ring: nat, v: int)
    requires ring > 0 && |f.window| == |s.window| && f.seqNr == s.seqNr
    ensures Locate(f, ring, v) == Locate(s, ring, v) < |s.window|
  {
  }

  /** The stack the scan leaves leads the loop to the packets of Resends. */
  lemma StackLeads(x: Socket, s: Snd, m: Msg, ring: nat, sc: Scan) returns (stack: seq<int>)
    requires Scanned(s, m, x.fastResend, ring, sc) && x.snd == sc.snd
    ensures ResendLoop(x, ring, SackResends(sc, m.ack + 2, x.fastResend), 4) == ResendLoop(x, ring, stack, 4)
    ensures Leads(s, sc.snd, ring, stack, Resends(s, m, x.fastResend, ring), x.fastResend, NextMark(s, m, x.fastResend, ring))
  {
    hide LooksUp, ResendLoop, Again, Above, Wrap, Told, Locate, Leads, OnTop;
    var v := Wrap(m.ack + 1);
    SameLocate(s, x.snd, ring, v);
    if Awaited(s, m, x.fastResend, ring) == [] {
      stack := sc.resends;
      MissingLead(s, m, x.fastResend, ring, sc);
      if |SackResends(sc, m.ack + 2, x.fastResend)| > |stack| {
        SkipTop(x, ring, stack, v);
      }
      var b := Again(s, m.ack + 2, m.eack.value, x.fastResend, 0);
      assert Awaited(s, m, x.fastResend, ring) + b == b;
    } else {
      stack := sc.resends + [v];
      AwaitedLeads(s, m, x.fastResend, ring, sc, Awaited(s, m, x.fastResend, ring)[0]);
    }
  }

  lemma StackResends(x: Socket, s: Snd, m: Msg, ring: nat, sc: Scan)
    requires Scanned(s, m, x.fastResend, ring, sc) && x.snd == sc.snd
    ensures var a := Resends(s, m, x.fastResend, ring);
            var t := ResendLoop(x, ring, SackResends(sc, m.ack + 2, x.fastResend), 4);
            && t.outbox == x.outbox + Datagrams(x.snd, a, x.rcv.ackNr) && SentAgain(x.snd, t.snd, a)
            && t.fastResend == NextMark(s, m, x.fastResend, ring)
            && forall k :: 0 <= k < |a| ==> 0 <= a[k] < |s.window| && x.snd.window[a[k]] == s.window[a[k]]
  {
    hide LooksUp, ResendLoop, SackResends, Resends, NextMark, Again, Above, SentAgain, Wrap, Told, OnTop;
    var stack := StackLeads(x, s, m, ring, sc);
    ResendsTop(x, ring, stack, 4, Resends(s, m, x.fastResend, ring));
  }

  lemma TopCount(stack: seq<int>, a: seq<int>, head: int)
    requires OnTop(stack, a, head)
    ensures |stack| <= |a| && (|stack| == |a| || |stack| >= 62)
  {
  }

  lemma LookUpInside(s: Snd, ring: nat, stack: seq<int>, a: seq<int>)
    requires ring > 0 && LooksUp(s, ring, stack, a)
    ensures |a| <= |stack| && forall k :: 0 <= k < |a| ==> 0 <= a[k] < |s.window| && s.window[a[k]].Some?
  {
  }

  /** A selective ack empties the slots of the packets it tells, and sends again exactly the packets of Resends, in that order. */
  lemma SackResendsThem(x: Socket, m: Msg, ring: nat)
    requires ring > 0 && |x.snd.window| <= ring && Head(x.snd) > m.ack
    ensures var a := Resends(x.snd, m, x.fastResend, ring);
            var t := MaybeSack(x, m, ring);
            && Answered(x.snd, t.snd, m, a) && t.outbox == x.outbox + Datagrams(x.snd, a, x.rcv.ackNr)
            && t.fastTimeout == x.fastTimeout && t.fastResend == NextMark(x.snd, m, x.fastResend, ring)
  {
    hide SackScan, ResendLoop, SackResends, SentAgain, SackedFrom, OnTop, Above, Again, Resends, NextMark, Wrap;
    if m.eack.None? || x.snd.window == [] {
      NoResends(x.snd, m, x.fastResend, ring);
    } else {
      var s, mask, base := x.snd, m.eack.value, m.ack + 2;
      var sc := SackScan(Scan(s, 0, []), base, mask, |mask| - 1, x.fastResend);
      SelectiveAckExact(s, base, mask, x.fastResend);
      UntoldKept(s, sc.snd, m);
      ScanAll(s, base, mask, x.fastResend);
      var x1 := x.(snd := sc.snd);
      StackResends(x1, s, m, ring, sc);
      var a := Resends(s, m, x.fastResend, ring);
      DatagramsKept(s, sc.snd, a, x.rcv.ackNr);
      ResendFast(x1, ring, SackResends(sc, base, x.fastResend), 4);
      AnsweredIs(s, sc.snd, SelectiveAck(x, ring, base, mask).snd, m, a);
    }
  }

  lemma NoResends(s: Snd, m: Msg, mark: int, ring: nat)
    requires ring > 0 && (m.eack.None? || s.window == [])
    ensures Resends(s, m, mark, ring) == [] && NextMark(s, m, mark, ring) == mark
  {
  }

  lemma ScanAll(s: Snd, base: int, mask: seq<bool>, f: int)
    requires base <= Head(s) + 1
    ensures var t := SackScan(Scan(s, 0, []), base, mask, |mask| - 1, f);
            t.count == Above(s, base, mask, 0) && OnTop(t.resends, Again(s, base, mask, f, 0), Head(s))
  {
    ScanFinds(s, Scan(s, 0, []), base, mask, |mask| - 1, f);
  }

  lemma {:induction false} ResendFast(x: Socket, ring: nat, stack: seq<int>, left: nat)
    requires ring > 0
    ensures ResendLoop(x, ring, stack, left).fastTimeout == x.fastTimeout
    decreases |stack|
  {
    hide Wrap;
    if stack != [] && left > 0 {
      var v, rest := stack[|stack| - 1], stack[..|stack| - 1];
      var i := Locate(x.snd, ring, v);
      if i < 0 || x.snd.window[i].None? {
        ResendFast(x, ring, rest, left);
      } else {
        ResendFast(Transmit(x, i).(fastResend := Wrap(v + 1)), ring, rest, left - 1);
      }
    }
  }

  lemma AnsweredIs(s: Snd, f: Snd, t: Snd, m: Msg, a: seq<int>)
    requires |f.window| == |s.window| && f.seqNr == s.seqNr && SentAgain(f, t, a)
    requires forall i :: 0 <= i < |s.window| ==> f.window[i] == if Told(s, m, i) then None else s.window[i]
    ensures Answered(s, t, m, a)
  {
    hide Told;
    forall j | 0 <= j < |s.window|
      ensures if Told(s, m, j) then t.window[j].None?
              else if j in a then s.window[j].Some? && t.window[j].Some? && !Waits(t.window[j]) && Times(t.window, j) > Times(s.window, j)
              else t.window[j] == s.window[j]
    {
      assert f.window[j] == if Told(s, m, j) then None else s.window[j];
    }
  }

  // ---------------------------------------------------------------- all an ack sends

  /** The window without its first k packets. */
  function Beyond(s: Snd, k: nat): Snd
    requires k <= |s.window|
  {
    s.(window := s.window[k..])
  }

  /** The number below which nothing is resent on selective acks: the cumulative ack moves it on. */
  function Marked(x: Socket, m: Msg): int {
    if WrappingLess(x.fastResend, Wrap(m.ack + 1)) then Wrap(m.ack + 1) else x.fastResend
  }

  /** After a timeout the oldest packet is sent again until the window moves past the mark. */
  predicate Retries(s: Snd, fastTimeout: bool, mark: int) {
    && fastTimeout && Wrap(Head(s)) == mark && s.window != [] && s.window[0].Some?
    && (|s.window| == 1 || s.window[0].value.transmissions > 0)
  }

  /** A lone packet held back for more bytes goes out; so does the oldest one, again, after a timeout. */
  function Urgent(s: Snd, fastTimeout: bool, mark: int): seq<int> {
    (if |s.window| == 1 && Unsent(s.window[0]) then [0] else []) + (if Retries(s, fastTimeout, mark) then [0] else [])
  }

  function MarkNow(s: Snd, fastTimeout: bool, mark: int): int {
    if Retries(s, fastTimeout, mark) then Wrap(mark + 1) else mark
  }

  /** The same packets, of which only the oldest may have been sent since. */
  predicate SameButHead(s: Snd, t: Snd) {
    && |t.window| == |s.window| && t.seqNr == s.seqNr
    && (s.window != [] ==> (t.window[0].Some? <==> s.window[0].Some?) && Times(t.window, 0) >= Times(s.window, 0))
    && (s.window != [] && s.window[0].Some? ==>
          t.window[0].value.data == s.window[0].value.data && t.window[0].value.fin == s.window[0].value.fin)
    && forall i :: 1 <= i < |s.window| ==> t.window[i] == s.window[i]
  }

  lemma {:induction false} SameAgain(s: Snd, t: Snd, base: int, mask: seq<bool>, mark: int, b: nat)
    requires SameButHead(s, t)
    ensures Above(t, base, mask, b) == Above(s, base, mask, b) && Again(t, base, mask, mark, b) == Again(s, base, mask, mark, b)
    decreases |mask| - b
  {
    if b < |mask| {
      SameAgain(s, t, base, mask, mark, b + 1);
      var i := base + b - Head(s);
      assert 1 <= i < |s.window| ==> t.window[i] == s.window[i];
    }
  }

  lemma SameResends(s: Snd, t: Snd, m: Msg, mark: int, ring: nat)
    requires SameButHead(s, t) && ring > 0
    ensures Resends(t, m, mark, ring) == Resends(s, m, mark, ring) && NextMark(t, m, mark, ring) == NextMark(s, m, mark, ring)
  {
    hide Above, Again, Wrap;
    if m.eack.Some? && s.window != [] {
      SameAgain(s, t, m.ack + 2, m.eack.value, mark, 0);
      var i := Locate(s, ring, Wrap(m.ack + 1));
      assert i == Locate(t, ring, Wrap(m.ack + 1));
      assert i >= 0 ==> (t.window[i].Some? <==> s.window[i].Some?) && (Told(t, m, i) <==> Told(s, m, i));
      assert Awaited(t, m, mark, ring) == Awaited(s, m, mark, ring);
    }
  }

  lemma {:induction false} SameData(s: Snd, t: Snd, a: seq<int>, ackNr: int)
    requires SameButHead(s, t)
    ensures Datagrams(t, a, ackNr) == Datagrams(s, a, ackNr)
    decreases |a|
  {
    if a != [] {
      SameData(s, t, a[1..], ackNr);
    }
  }

  lemma {:induction false} DatagramsJoin(s: Snd, a: seq<int>, b: seq<int>, ackNr: int)
    ensures Datagrams(s, a + b, ackNr) == Datagrams(s, a, ackNr) + Datagrams(s, b, ackNr)
    decreases |a|
  {
    if a == [] {
      assert a + b == b;
    } else {
      assert (a + b)[1..] == a[1..] + b;
      DatagramsJoin(s, a[1..], b, ackNr);
    }
  }

  lemma SentHead(x: Socket)
    requires x.snd.window != [] && x.snd.window[0].Some?
    ensures var t := Transmit(x, 0);
            && SameButHead(x.snd, t.snd) && t.outbox == x.outbox + Datagrams(x.snd, [0], x.rcv.ackNr) && t.rcv == x.rcv
            && Times(t.snd.window, 0) > Times(x.snd.window, 0) && t.snd.window[0].Some? && !Unsent(t.snd.window[0])
            && t.fastTimeout == x.fastTimeout && t.fastResend == x.fastResend
  {
  }

  lemma SameSame(s: Snd)
    ensures SameButHead(s, s)
  {
  }

  lemma SameJoin(s: Snd, f: Snd, t: Snd)
    requires SameButHead(s, f) && SameButHead(f, t)
    ensures SameButHead(s, t)
  {
  }

  lemma NagleSends(x: Socket)
    ensures var t := FlushNagle(x);
            var a := if |x.snd.window| == 1 && Unsent(x.snd.window[0]) then [0] else [];
            && SameButHead(x.snd, t.snd) && t.rcv == x.rcv && t.fastTimeout == x.fastTimeout && t.fastResend == x.fastResend
            && t.outbox == x.outbox + Datagrams(x.snd, a, x.rcv.ackNr)
            && (a != [] ==> Times(t.snd.window, 0) > Times(x.snd.window, 0) && t.snd.window[0].Some? && !Unsent(t.snd.window[0]))
            && (a == [] ==> t == x)
  {
    hide Transmit, SameButHead;
    SameSame(x.snd);
    if |x.snd.window| == 1 && Unsent(x.snd.window[0]) {
      SentHead(x);
    }
  }

  lemma RetrySends(x: Socket)
    ensures var t := FastRetry(x);
            var r := x.fastTimeout && Wrap(Head(x.snd)) == x.fastResend && x.snd.window != [] && x.snd.window[0].Some? && !Unsent(x.snd.window[0]);
            && SameButHead(x.snd, t.snd) && t.rcv == x.rcv && (t.fastTimeout <==> x.fastTimeout && Wrap(Head(x.snd)) == x.fastResend)
            && t.fastResend == (if r then Wrap(x.fastResend + 1) else x.fastResend)
            && t.outbox == x.outbox + Datagrams(x.snd, if r then [0] else [], x.rcv.ackNr)
            && (r ==> Times(t.snd.window, 0) > Times(x.snd.window, 0))
  {
    hide Transmit, SameButHead, Wrap;
    SameSame(x.snd);
    if x.snd.window != [] && x.snd.window[0].Some? {
      SentHead(x.(fastResend := Wrap(x.fastResend + 1)));
    }
  }

  lemma UrgentSends(x: Socket)
    ensures var t := FastRetry(FlushNagle(x));
            var a := Urgent(x.snd, x.fastTimeout, x.fastResend);
            && SameButHead(x.snd, t.snd) && t.rcv == x.rcv && (t.fastTimeout <==> x.fastTimeout && Wrap(Head(x.snd)) == x.fastResend)
            && t.fastResend == MarkNow(x.snd, x.fastTimeout, x.fastResend)
            && t.outbox == x.outbox + Datagrams(x.snd, a, x.rcv.ackNr)
            && (a != [] ==> Times(t.snd.window, 0) > Times(x.snd.window, 0))
  {
    hide FlushNagle, FastRetry, Wrap, Datagrams;
    NagleSends(x);
    var f := FlushNagle(x);
    RetrySends(f);
    var t := FastRetry(f);
    SameJoin(x.snd, f.snd, t.snd);
    var a := if |x.snd.window| == 1 && Unsent(x.snd.window[0]) then [0] else [];
    var b := if Retries(x.snd, x.fastTimeout, x.fastResend) then [0] else [];
    SameData(x.snd, f.snd, b, x.rcv.ackNr);
    DatagramsJoin(x.snd, a, b, x.rcv.ackNr);
  }

  /** What an acceptable ack sends, of the window s it leaves: the urgent packets, then those a selective ack asks for. */
  function AckSends(s: Snd, m: Msg, fastTimeout: bool, mark: int, ring: nat): seq<int>
    requires ring > 0
  {
    Urgent(s, fastTimeout, mark) + Resends(s, m, MarkNow(s, fastTimeout, mark), ring)
  }

  /** From the window s that remains and the sockets before and after: the datagrams, the retry mode and the mark. */
  ghost predicate AckSent(x: Socket, t: Socket, s: Snd, m: Msg, ring: nat)
    requires ring > 0
  {
    var a := AckSends(s, m, x.fastTimeout, Marked(x, m), ring);
    && x.outbox + Datagrams(s, a, x.rcv.ackNr) <= t.outbox
    && (forall j :: 0 <= j < |s.window| && j in a ==> Times(t.snd.window, j) > Times(s.window, j))
    && (t.fastTimeout <==> x.fastTimeout && Wrap(Head(s)) == Marked(x, m))
    && t.fastResend == NextMark(s, m, MarkNow(s, x.fastTimeout, Marked(x, m)), ring)
  }

  lemma ResendsUntold(s: Snd, m: Msg, mark: int, ring: nat)
    requires ring > 0
    ensures forall k :: 0 <= k < |Resends(s, m, mark, ring)| ==>
              var i := Resends(s, m, mark, ring)[k]; 0 <= i < |s.window| && s.window[i].Some? && !Told(s, m, i)
  {
    hide Again, Above, Wrap;
    if m.eack.Some? && s.window != [] {
      AgainInside(s, m.ack + 2, m.eack.value, mark, 0);
    }
  }

  /** The urgent packets of s, then the selective ack on what they leave. */
  lemma SackSends(x: Socket, f: Socket, s: Snd, m: Msg, ring: nat, a: seq<int>)
    requires ring > 0 && |s.window| <= ring && Head(s) > m.ack && SameButHead(s, f.snd) && f.rcv == x.rcv
    requires f.outbox == x.outbox + Datagrams(s, a, x.rcv.ackNr)
    ensures var b := Resends(s, m, f.fastResend, ring);
            var t := MaybeSack(f, m, ring);
            && t.outbox == x.outbox + Datagrams(s, a + b, x.rcv.ackNr) && |t.snd.window| == |s.window| && t.snd.seqNr == s.seqNr
            && (forall j :: 0 <= j < |s.window| && (j in b || (j == 0 && Times(f.snd.window, 0) > Times(s.window, 0))) ==>
                  Times(t.snd.window, j) > Times(s.window, j))
            && t.fastTimeout == f.fastTimeout && t.fastResend == NextMark(s, m, f.fastResend, ring)
  {
    hide MaybeSack, Resends, NextMark, Wrap, Datagrams;
    var b := Resends(s, m, f.fastResend, ring);
    SackResendsThem(f, m, ring);
    SameResends(s, f.snd, m, f.fastResend, ring);
    ResendsUntold(f.snd, m, f.fastResend, ring);
    SameData(s, f.snd, b, x.rcv.ackNr);
    DatagramsJoin(s, a, b, x.rcv.ackNr);
    var t := MaybeSack(f, m, ring);
    forall j | 0 <= j < |s.window| && (j in b || (j == 0 && Times(f.snd.window, 0) > Times(s.window, 0)))
      ensures Times(t.snd.window, j) > Times(s.window, j)
    {
      assert Times(f.snd.window, j) >= Times(s.window, j);
      assert j in b ==> !Told(f.snd, m, j);
    }
  }

  lemma BeyondSame(s: Snd, f: Snd, k: nat)
    requires Dropped(s, f, k)
    ensures k <= |s.window| && SameButHead(Beyond(s, k), f) && SameButHead(f, Beyond(s, k))
    ensures Beyond(s, k).window == f.window && Head(Beyond(s, k)) == Head(f)
  {
  }

  lemma AckedSends(x: Socket, y: Socket, m: Msg, ring: nat)
    requires ring > 0 && |x.snd.window| <= ring && Pair(x, y) && AckOk(y.rcv, m) && m.ack <= x.snd.seqNr - 1
    ensures Shaped(x.snd)
    ensures var t := Acked(x, m, ring);
            var k := Head(t.snd) - Head(x.snd);
            && 0 <= k <= |x.snd.window| && |t.snd.window| == |x.snd.window| - k && t.rcv == x.rcv
            && AckSent(x, t, Beyond(x.snd, k), m, ring)
            && t.outbox == x.outbox + Datagrams(Beyond(x.snd, k), AckSends(Beyond(x.snd, k), m, x.fastTimeout, Marked(x, m), ring), x.rcv.ackNr)
  {
    hide Pair, AckOk, SndAckLoop, SndDropAcked, OnAckState, FlushNagle, FastRetry, MaybeSack, Dropped, AckSent, AckSends,
      Marked, Datagrams, SameButHead;
    PairShape(x, y);
    AckedWereSent(x, y, m);
    AckStateMarks(x, m);
    ReleaseIs(x.snd, m.ack);
    hide AckCount;
    var x1 := Release(OnAckState(x, m), AckCount(x.snd, m.ack));
    var k := Head(x1.snd) - Head(x.snd);
    DroppedShape(x.snd, x1.snd, k);
    BeyondSame(x.snd, x1.snd, k);
    AfterRelease(x, x1, m, ring, k);
  }

  lemma AckStateMarks(x: Socket, m: Msg)
    ensures var t := OnAckState(x, m);
            && t.fastResend == Marked(x, m) && t.fastTimeout == x.fastTimeout && t.outbox == x.outbox && t.rcv == x.rcv && t.snd == x.snd
  {
    hide WrappingLess, Wrap, AckCount;
    var x1 := OnHandshake(x, m);
    assert x1.fastResend == x.fastResend && x1.fastTimeout == x.fastTimeout && x1.outbox == x.outbox && x1.rcv == x.rcv && x1.snd == x.snd;
    var x2 := OnFinAcked(x1, AckCount(x.snd, m.ack));
    assert x2.fastResend == x.fastResend && x2.fastTimeout == x.fastTimeout && x2.outbox == x.outbox && x2.rcv == x.rcv && x2.snd == x.snd;
    hide OnHandshake, OnFinAcked;
  }

  lemma AfterRelease(x: Socket, x1: Socket, m: Msg, ring: nat, k: nat)
    requires ring > 0 && |x.snd.window| <= ring && k <= |x.snd.window| && Head(x1.snd) > m.ack
    requires SameButHead(Beyond(x.snd, k), x1.snd) && SameButHead(x1.snd, Beyond(x.snd, k)) && Beyond(x.snd, k).window == x1.snd.window
    requires x1.fastTimeout == x.fastTimeout && x1.fastResend == Marked(x, m) && x1.outbox == x.outbox && x1.rcv == x.rcv
    ensures var t := MaybeSack(FastRetry(FlushNagle(x1)), m, ring);
            var s := Beyond(x.snd, k);
            && |t.snd.window| == |x1.snd.window| && Head(t.snd) == Head(x1.snd) && t.rcv == x.rcv && AckSent(x, t, s, m, ring)
            && t.outbox == x.outbox + Datagrams(s, AckSends(s, m, x.fastTimeout, Marked(x, m), ring), x.rcv.ackNr)
  {
    hide FlushNagle, FastRetry, MaybeSack, Wrap, WrappingLess, Resends, NextMark, Datagrams;
    var s := Beyond(x.snd, k);
    var f := FastRetry(FlushNagle(x1));
    UrgentSends(x1);
    SameJoin(s, x1.snd, f.snd);
    var a := Urgent(s, x.fastTimeout, Marked(x, m));
    SameData(s, x1.snd, a, x.rcv.ackNr);
    SackSends(x, f, s, m, ring, a);
    SackSame(f, m, ring);
  }

  /** A callback set that makes no call. */
  predicate Silent(cb: Callbacks) {
    cb.sent == [] && cb.writable == [] && cb.read == [] && cb.eof == [] && cb.error == []
  }

  /**
   * What an acceptable ack sends, in this order: a lone packet held back for more bytes; the oldest packet once more while
   * the window has not moved past the mark a timeout set; and on a selective ack at most four packets, the one awaited first,
   * then those missing though three beyond them are told, oldest first, none of them again below the mark. It says too
   * when the retry mode ends and where the mark is left. An ack alone, without callbacks that call back, sends nothing else.
   */
  lemma AckAnswers(x: Socket, y: Socket, m: Msg, ring: nat, q: Quota, cb: Callbacks)
    requires ring > 0 && |x.snd.window| <= ring && Pair(x, y) && AckOk(y.rcv, m) && Taken(x, m)
    ensures Shaped(x.snd)
    ensures var t := Incoming(x, m, ring, q, cb);
            var k := Head(t.snd) - Head(x.snd);
            && 0 <= k <= |x.snd.window| && AckSent(x, t, Beyond(x.snd, k), m, ring)
            && (m.kind == State && Silent(cb) ==>
                  t.outbox == x.outbox + Datagrams(Beyond(x.snd, k), AckSends(Beyond(x.snd, k), m, x.fastTimeout, Marked(x, m), ring), x.rcv.ackNr))
  {
    hide Pair, AckOk, Acked, Report, ProcessData, AckSent, Datagrams, AckSends, Onward;
    PairShape(x, y);
    AckedSends(x, y, m, ring);
    AckedShape(x, m, ring);
    var x1 := Acked(x, m, ring);
    ReportTells(x1, x1.snd.popped - x.snd.popped, q, cb);
    var x2 := ProcessAck(x, m, ring, q, cb);
    var offset := m.num - x.rcv.ackNr - 1;
    DataGrows(x2, m, offset, cb);
    var t := Incoming(x, m, ring, q, cb);
    assert t == ProcessData(x2, m, offset, cb);
    OnwardJoin(x1.snd, x2.snd, t.snd);
    assert Head(t.snd) == Head(x1.snd) by {
      OnwardHead(x1.snd, t.snd);
    }
    var s := Beyond(x.snd, Head(x1.snd) - Head(x.snd));
    SentOnward(x, x1, t, s, m, ring);
    if m.kind == State && Silent(cb) {
      QuietReport(x1, x1.snd.popped - x.snd.popped, q, cb);
      QuietData(x2, m, offset, cb);
    }
  }

  lemma OnwardHead(s: Snd, t: Snd)
    requires Onward(s, t)
    ensures Head(t) == Head(s)
  {
  }

  lemma SentOnward(x: Socket, x1: Socket, t: Socket, s: Snd, m: Msg, ring: nat)
    requires ring > 0 && AckSent(x, x1, s, m, ring) && Onward(x1.snd, t.snd) && |s.window| == |x1.snd.window|
    requires x1.outbox <= t.outbox && t.fastTimeout == x1.fastTimeout && t.fastResend == x1.fastResend
    ensures AckSent(x, t, s, m, ring)
  {
    hide AckSends, Datagrams, NextMark, MarkNow, Marked, Wrap;
    forall j | 0 <= j < |s.window| && j in AckSends(s, m, x.fastTimeout, Marked(x, m), ring)
      ensures Times(t.snd.window, j) > Times(s.window, j)
    {
      assert Times(x1.snd.window, j) > Times(s.window, j);
      assert SlotOnward(x1.snd.window[j], t.snd.window[j]);
    }
  }

  lemma QuietReport(x: Socket, bytes: nat, q: Quota, cb: Callbacks)
    requires Shaped(x.snd) && Silent(cb)
    ensures Report(x, bytes, q, cb).outbox == x.outbox
  {
  }

  lemma QuietData(x: Socket, m: Msg, offset: nat, cb: Callbacks)
    requires Shaped(x.snd) && m.kind == State
    ensures ProcessData(x, m, offset, cb).outbox == x.outbox
  {
    hide TakeNew, Drain, NoteFin;
  }

  /** After an ack the connection counts as full only while it is: else on_writable has been called. */
  lemma AckReopens(x: Socket, m: Msg, ring: nat, q: Quota, cb: Callbacks)
    requires Shaped(x.snd) && ring > 0 && Taken(x, m) && m.kind == State && cb.writable == []
    ensures var t := Incoming(x, m, ring, q, cb); t.state == ConnectedFull ==> NoRoom(t.snd, q.packetSize, q)
  {
    hide Acked, DoCalls;
    AckedShape(x, m, ring);
    var x1 := Acked(x, m, ring);
    var x2 := DoCalls(x1.(reported := x1.reported + (x1.snd.popped - x.snd.popped)), cb.sent);
    NoCalls(x1.(state := Connected));
    NoCalls(x2.(state := Connected));
  }

  // ---------------------------------------------------------------- a timeout

  /** A packet that was sent is marked for resending, or sent again since; one that was not waits on. */
  predicate LostOnward(o: Slot, p: Slot) {
    SlotOnward(if o.Some? && o.value.transmissions > 0 then Some(o.value.(needResend := true)) else o, p)
  }

  /** The oldest packet is sent again at once; each other one that was sent is marked, until it is sent again. */
  ghost predicate ResentAll(f: Socket, t: Socket) {
    && Head(t.snd) == Head(f.snd) && |f.snd.window| <= |t.snd.window| && f.outbox <= t.outbox
    && (forall j :: 0 <= j < |f.snd.window| ==> LostOnward(f.snd.window[j], t.snd.window[j]))
    && (f.snd.window != [] && f.snd.window[0].Some? ==>
          && Times(t.snd.window, 0) > Times(f.snd.window, 0) && t.fastTimeout
          && |t.outbox| > |f.outbox| && t.outbox[|f.outbox|] == DatagramOf(f.snd, 0, f.rcv.ackNr))
  }

  lemma ExpiredResends(f: Socket)
    ensures ResentAll(f, OnExpired(f))
  {
    var w := SndLoseAll(f.snd).window;
    LoseAllMarks(f.snd);
    if w != [] && w[0].Some? {
      var g := f.(snd := SndLoseAll(f.snd), fastTimeout := true);
      HeadResent(f, g);
    }
  }

  lemma LoseAllMarks(s: Snd)
    ensures var t := SndLoseAll(s);
            |t.window| == |s.window| && t.seqNr == s.seqNr && forall j :: 0 <= j < |s.window| ==> LostOnward(s.window[j], t.window[j])
  {
  }

  lemma HeadResent(f: Socket, g: Socket)
    requires |g.snd.window| == |f.snd.window| && g.snd.seqNr == f.snd.seqNr && g.snd.window != [] && g.snd.window[0].Some?
    requires g.outbox == f.outbox && g.rcv == f.rcv && g.fastTimeout
    requires forall j :: 0 <= j < |f.snd.window| ==> LostOnward(f.snd.window[j], g.snd.window[j])
    requires f.snd.window[0].Some? && g.snd.window[0].value.data == f.snd.window[0].value.data
    ensures ResentAll(f, Transmit(g, 0))
  {
    var t := Transmit(g, 0);
    forall j | 0 <= j < |f.snd.window| ensures LostOnward(f.snd.window[j], t.snd.window[j]) {
      assert LostOnward(f.snd.window[j], g.snd.window[j]);
    }
  }

  lemma ResentOnward(f: Socket, g: Socket, t: Socket)
    requires ResentAll(f, g) && Forth(g, t)
    ensures ResentAll(f, t)
  {
    forall j | 0 <= j < |f.snd.window| ensures LostOnward(f.snd.window[j], t.snd.window[j]) {
      assert LostOnward(f.snd.window[j], g.snd.window[j]) && SlotOnward(g.snd.window[j], t.snd.window[j]);
    }
    assert f.snd.window != [] ==> SlotOnward(g.snd.window[0], t.snd.window[0]);
  }

  lemma {:induction false} CallsStayDead(x: Socket, cs: seq<Call>)
    requires Shaped(x.snd) && Dead(x.state)
    ensures Dead(DoCalls(x, cs).state)
    decreases |cs|
  {
    if cs != [] {
      CallStaysDead(x, cs[0]);
      CallsStayDead(DoCall(x, cs[0]), cs[1..]);
    }
  }

  lemma CallStaysDead(x: Socket, c: Call)
    requires Shaped(x.snd) && Dead(x.state)
    ensures Dead(DoCall(x, c).state)
  {
    hide WriteLoop, SendFin, EackMask;
  }

  lemma FailKills(x: Socket, cb: Callbacks)
    requires Shaped(x.snd)
    ensures Dead(Fail(x, cb).state)
  {
    CallsStayDead(Abort(x), cb.error);
  }

  /** The datagram that keeps the path open: it acknowledges one packet less. */
  predicate KeepsAlive(t: Socket) {
    t.outbox != [] && var m := t.outbox[|t.outbox| - 1]; m.kind == State && m.num == t.snd.seqNr && m.ack == t.rcv.ackNr - 1 && m.data == []
  }

  lemma AfterExpiryDoes(x: Socket, t: Tick, cb: Callbacks)
    requires Shaped(x.snd)
    ensures var r := AfterExpiry(x, t, cb);
            && Forth(x, r)
            && (t.dead && r.state != SynRecv ==> Dead(r.state))
            && (t.idle && !r.snd.finSent && r.state != SynRecv ==> KeepsAlive(r))
            && (cb.writable == [] && !t.dead ==>
                  r.snd == x.snd && r.state == if x.state == ConnectedFull && !NoRoom(x.snd, t.after.packetSize, t.after) then Connected else x.state)
  {
    hide Fail, EackMask, Forth, DoCalls;
    AfterExpiryGrows(x, t, cb);
    var s1 := Reopen(x, t.after, cb);
    FailKills(s1, cb);
    if cb.writable == [] {
      NoCalls(x.(state := Connected));
    }
    hide Reopen;
    var s2 := if s1.state != SynRecv && t.dead then Fail(s1, cb) else s1;
  }

  lemma NoCalls(x: Socket)
    requires Shaped(x.snd)
    ensures DoCalls(x, []) == x
  {
  }

  /**
   * What a check_timeouts call does, whatever the callbacks do: it flushes; a retransmission timeout, unless it ends the
   * connection, sends the oldest packet again before anything else and marks every other packet that was sent; without one
   * no packet is marked; a connection without a sign of life is ended; and an idle one sends a keep-alive.
   */
  lemma TimeoutDoes(x: Socket, t: Tick, cb: Callbacks)
    requires Shaped(x.snd) && !Dead(x.state)
    ensures var f := Flush(x, t.before);
            var r := CheckTimeouts(x, t, cb);
            if t.expired && (x.state == SynRecv || t.giveUp) then Forth(f, r) && Dead(r.state)
            else
              && (if t.expired then ResentAll(f, r) else Forth(f, r))
              && (t.dead && r.state != SynRecv ==> Dead(r.state))
              && (t.idle && !r.snd.finSent && r.state != SynRecv ==> KeepsAlive(r))
              && (cb.writable == [] && !t.dead ==>
                    r.state == if x.state == ConnectedFull && !NoRoom(r.snd, t.after.packetSize, t.after) then Connected else x.state)
  {
    hide FlushFrom, OnExpired, AfterExpiry, Fail, Forth, ResentAll, NoRoom, KeepsAlive;
    FlushShape(x, 0, t.before);
    var f := Flush(x, t.before);
    if t.expired && (x.state == SynRecv || t.giveUp) {
      FailGrows(f, cb);
      FailKills(f, cb);
    } else {
      ExpiredSame(f);
      var g := if t.expired then OnExpired(f) else f;
      AfterExpiryDoes(g, t, cb);
      if t.expired {
        ExpiredResends(f);
        ResentOnward(f, g, AfterExpiry(g, t, cb));
      }
    }
  }
}
