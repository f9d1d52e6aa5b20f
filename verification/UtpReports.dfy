// What a socket tells the upper layer: bytes accepted only grow, and on_sent is told exactly the bytes released.
module UtpReports {
  import opened Common
  import opened UtpModel
  import opened UtpInvariant
  import opened UtpDelivery
  import opened UtpSystem
  import opened UtpFlush

  predicate Grows(s: Socket, t: Socket) {
    s.accepted <= t.accepted && t.reported == s.reported
  }

  /** And no packet is taken back, no datagram unsent, no packet marked as resent. */
  ghost predicate Forth(s: Socket, t: Socket) {
    && Grows(s, t) && Onward(s.snd, t.snd) && s.outbox <= t.outbox
    && t.fastTimeout == s.fastTimeout && t.fastResend == s.fastResend
  }

  lemma ForthJoin(s: Socket, f: Socket, t: Socket)
    requires Forth(s, f) && Forth(f, t)
    ensures Forth(s, t)
  {
    OnwardJoin(s.snd, f.snd, t.snd);
  }

  lemma SendFinSame(s: Socket, q: Quota)
    requires Shaped(s.snd)
    ensures Forth(s, SendFin(s, q)) && SendFin(s, q).accepted == s.accepted
  {
    hide FlushFrom, Onward;
    SendFinOnward(s, q);
    FlushShape(s.(snd := SndAppend(s.snd.(finSent := true), [], true)), 0, q);
  }

  lemma WriteGrows(s: Socket, data: Bytes, q: Quota)
    requires Shaped(s.snd)
    ensures Forth(s, DoCall(s, CallWrite(data, q)))
  {
    hide WriteLoop, Onward;
    OnwardSame(s.snd);
    if s.state == Connected && !s.snd.finSent {
      WriteLoopSame(s, data, q);
      WriteLoopOnward(s, data, q);
    }
  }

  lemma CallGrows(s: Socket, c: Call)
    requires Shaped(s.snd)
    ensures Forth(s, DoCall(s, c))
  {
    hide Write, SendFin, EackMask, Onward;
    OnwardSame(s.snd);
    match c
    case CallWrite(data, q) =>
      WriteGrows(s, data, q);
    case CallClose(q) =>
      SendFinSame(BeginClose(s), q);
    case CallShutdown(rd, wr, q) =>
      SendFinSame(if rd then s.(rcv := s.rcv.(shutdown := true)) else s, q);
    case CallReadDrained(_, _) =>
    case CallDeferredAck =>
  }

  lemma {:induction false} CallsGrow(s: Socket, cs: seq<Call>)
    requires Shaped(s.snd)
    ensures Forth(s, DoCalls(s, cs))
    decreases |cs|
  {
    hide DoCall, Onward;
    OnwardSame(s.snd);
    if cs != [] {
      CallGrows(s, cs[0]);
      CallsGrow(DoCall(s, cs[0]), cs[1..]);
      ForthJoin(s, DoCall(s, cs[0]), DoCalls(s, cs));
    }
  }

  lemma TimeoutGrows(s: Socket, t: Tick, cb: Callbacks)
    requires Shaped(s.snd)
    ensures Grows(s, CheckTimeouts(s, t, cb))
  {
    hide FlushFrom, OnExpired, AfterExpiry, Fail, Onward;
    if s.state != Destroy {
      FlushShape(s, 0, t.before);
      var s1 := Flush(s, t.before);
      ExpiredSame(s1);
      FailGrows(s1, cb);
      AfterExpiryGrows(if t.expired then OnExpired(s1) else s1, t, cb);
    }
  }

  lemma ExpiredSame(s: Socket)
    requires Shaped(s.snd)
    ensures var t := OnExpired(s); Shaped(t.snd) && t.accepted == s.accepted && t.reported == s.reported && t.state == s.state
  {
  }

  lemma FailGrows(s: Socket, cb: Callbacks)
    requires Shaped(s.snd)
    ensures Forth(s, Fail(s, cb))
  {
    hide DoCalls, Onward;
    CallsGrow(Abort(s), cb.error);
  }

  lemma ReopenGrows(s: Socket, q: Quota, cb: Callbacks)
    requires Shaped(s.snd)
    ensures Forth(s, Reopen(s, q, cb))
  {
    hide DoCalls, IsFull, Onward;
    OnwardSame(s.snd);
    CallsGrow(s.(state := Connected), cb.writable);
  }

  lemma AfterExpiryGrows(s: Socket, t: Tick, cb: Callbacks)
    requires Shaped(s.snd)
    ensures Forth(s, AfterExpiry(s, t, cb))
  {
    hide Reopen, Fail, EackMask, Onward;
    ReopenGrows(s, t.after, cb);
    var s1 := Reopen(s, t.after, cb);
    FailGrows(s1, cb);
    ForthJoin(s, s1, Fail(s1, cb));
  }

  // ---------------------------------------------------------------- an incoming datagram

  /** on_sent is told of the bytes released, if there are any, and the socket is open. */
  lemma ReportTells(s: Socket, bytes: nat, q: Quota, cb: Callbacks)
    requires Shaped(s.snd)
    ensures var t := Report(s, bytes, q, cb);
            && s.accepted <= t.accepted && t.reported == s.reported + (if Open(s.state) then bytes else 0)
            && Onward(s.snd, t.snd) && s.outbox <= t.outbox && t.fastTimeout == s.fastTimeout && t.fastResend == s.fastResend
  {
    hide DoCalls, Reopen, Onward;
    var s1 := s.(reported := s.reported + bytes);
    CallsGrow(s1, cb.sent);
    if Open(s.state) && bytes > 0 {
      ReopenGrows(DoCalls(s1, cb.sent), q, cb);
      ForthJoin(s1, DoCalls(s1, cb.sent), Reopen(DoCalls(s1, cb.sent), q, cb));
    } else {
      ReopenGrows(s, q, cb);
    }
  }

  lemma HandUpGrows(s: Socket, data: Bytes, read: seq<seq<Call>>)
    requires Shaped(s.snd)
    ensures Forth(s, HandUp(s, data, read))
  {
    hide DoCalls, Onward;
    OnwardSame(s.snd);
    if read != [] {
      CallsGrow(s, read[0]);
    }
  }

  lemma ReachFinGrows(s: Socket, cb: Callbacks)
    requires Shaped(s.snd)
    ensures Forth(s, ReachFin(s, cb))
  {
    hide DoCalls, EackMask, Onward;
    CallsGrow(s.(rcv := s.rcv.(finReached := true)), cb.eof);
  }

  lemma {:induction false} DrainGrows(s: Socket, cb: Callbacks)
    requires Shaped(s.snd)
    ensures Forth(s, Drain(s, cb))
    decreases s.rcv.reorder
  {
    hide ReachFin, HandUp, Rest, Onward;
    OnwardSame(s.snd);
    if !s.rcv.finReached && s.rcv.eof == Some(s.rcv.ackNr) {
      ReachFinGrows(s, cb);
    } else if s.rcv.reorder == 0 || s.rcv.ackNr + 1 !in s.rcv.held {
    } else {
      var data := s.rcv.held[s.rcv.ackNr + 1];
      HandUpGrows(s.(rcv := Lift(s.rcv)), data, cb.read);
      DrainGrows(TakeHeld(s, cb.read), cb.(read := Rest(s, data, cb.read)));
      ForthJoin(s, TakeHeld(s, cb.read), Drain(s, cb));
    }
  }

  lemma DataGrows(s: Socket, m: Msg, offset: nat, cb: Callbacks)
    requires Shaped(s.snd)
    ensures Forth(s, ProcessData(s, m, offset, cb))
  {
    hide Drain, HandUp, Rest, EackMask, NoteFin, Onward;
    OnwardSame(s.snd);
    var s1 := s.(rcv := NoteFin(s.rcv, m));
    if m.kind != State && Open(s.state) && offset == 0 {
      HandUpGrows(s1, m.data, cb.read);
      var s2, cb' := TakeNew(s1, m.data, cb.read), cb.(read := Rest(s1, m.data, cb.read));
      DrainGrows(s2, cb');
      ForthJoin(s, s2, Drain(s2, cb'));
    }
  }

  // ---------------------------------------------------------------- any event

  predicate Taken(x: Socket, m: Msg) {
    && 0 <= x.snd.seqNr - 1 - m.ack <= |x.snd.window| + ACK_NR_ALLOWED_WINDOW
    && 0 <= m.num - x.rcv.ackNr - 1 < REORDER_BUFFER_MAX_SIZE
  }

  /** The bytes the event passes to on_sent: those its ack released, on an open connection. */
  function OnSent(x: Socket, e: Event): int
    requires Shaped(x.snd) && (e.Deliver? ==> e.ring > 0)
  {
    if e.Deliver? && Taken(x, e.m) && Open(Acked(x, e.m, e.ring).state)
    then Acked(x, e.m, e.ring).snd.popped - x.snd.popped else 0
  }

  /** Whatever happens at x, and whatever its callbacks call: accepted bytes stay, and `reported` counts what on_sent was told. */
  lemma ReactReports(x: Socket, y: Socket, e: Event)
    requires Pair(x, y) && Pair(y, x) && Settled(x) && Settled(y)
    requires e.Deliver? ==> e.ring > 0 && e.m in y.outbox
    ensures Shaped(x.snd) && OnSent(x, e) >= 0
    ensures x.accepted <= React(x, e).accepted && React(x, e).reported == x.reported + OnSent(x, e)
  {
    hide Pair, RcvInv, HeadLive, DoCall, CheckTimeouts, Fail, Acked, Report, ProcessData, AckOk, SentOk, Flatten, Onward;
    PairShape(x, y);
    match e
    case Local(_, c) => CallGrows(x, c);
    case Timer(_, t, cb) => TimeoutGrows(x, t, cb);
    case Failed(_, cb) => FailGrows(x, cb);
    case Deliver(_, m, ring, q, cb) =>
      FromOutbox(x, y, m);
      AckedKeeps(x, y, m, ring);
      AckedShape(x, m, ring);
      var x1 := Acked(x, m, ring);
      ReportTells(x1, x1.snd.popped - x.snd.popped, q, cb);
      var offset := m.num - x.rcv.ackNr - 1;
      if 0 <= offset {
        DataGrows(ProcessAck(x, m, ring, q, cb), m, offset, cb);
      }
  }
}
