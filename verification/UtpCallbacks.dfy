// The callbacks that are due are run: seen by what a callback that closes the socket leaves behind.
module UtpCallbacks {
  import opened Common
  import opened SeqSpace
  import opened UtpModel
  import opened UtpInvariant
  import opened UtpSystem
  import opened UtpFlush
  import opened UtpReports
  import opened UtpArrival
  import opened UtpResend

  /** utp_close was called, or the socket is about to be destroyed. */
  predicate Closing(x: Socket) {
    x.closeRequested || x.state == Destroy
  }

  predicate OpenOrOver(st: ConnState) {
    Open(st) || st == Destroy
  }

  lemma WriteCloses(x: Socket, data: Bytes, q: Quota)
    requires Shaped(x.snd)
    ensures var t := DoCall(x, CallWrite(data, q));
            t.closeRequested == x.closeRequested && (t.state == x.state || (Open(x.state) && Open(t.state)))
  {
    hide WriteLoop;
    if x.state == Connected && !x.snd.finSent {
      WriteLoopOpen(x, data, q);
    }
  }

  lemma CallCloses(x: Socket, c: Call)
    requires Shaped(x.snd)
    ensures Closing(DoCall(x, c)) <==> Closing(x) || c.CallClose?
    ensures x.state == Reset ==> DoCall(x, c).state == if c.CallClose? then Destroy else Reset
    ensures x.state == Destroy ==> DoCall(x, c).state == Destroy
    ensures Open(x.state) ==> OpenOrOver(DoCall(x, c).state)
  {
    hide Write, SendFin, EackMask;
    match c
    case CallWrite(data, q) => WriteCloses(x, data, q);
    case CallClose(q) => SendFinQueues(BeginClose(x), q);
    case CallShutdown(rd, wr, q) => SendFinQueues(if rd then x.(rcv := x.rcv.(shutdown := true)) else x, q);
    case CallReadDrained(_, _) =>
    case CallDeferredAck =>
  }

  lemma ClosesSplit(cs: seq<Call>)
    requires cs != []
    ensures Closes(cs) <==> cs[0].CallClose? || Closes(cs[1..])
  {
    if Closes(cs[1..]) {
      var i :| 0 <= i < |cs[1..]| && cs[1..][i].CallClose?;
      assert cs[i + 1].CallClose?;
    }
    if Closes(cs) && !cs[0].CallClose? {
      var i :| 0 <= i < |cs| && cs[i].CallClose?;
      assert cs[1..][i - 1].CallClose?;
    }
  }

  lemma {:induction false} CallsClose(x: Socket, cs: seq<Call>)
    requires Shaped(x.snd)
    ensures Closing(DoCalls(x, cs)) <==> Closing(x) || Closes(cs)
    ensures x.state == Reset ==> DoCalls(x, cs).state == if Closes(cs) then Destroy else Reset
    ensures x.state == Destroy ==> DoCalls(x, cs).state == Destroy
    ensures Open(x.state) ==> OpenOrOver(DoCalls(x, cs).state)
    decreases |cs|
  {
    hide DoCall, Closing;
    if cs != [] {
      ClosesSplit(cs);
      hide Closes;
      CallCloses(x, cs[0]);
      CallsClose(DoCall(x, cs[0]), cs[1..]);
    }
  }

  /** A connection that fails is reset, or destroyed when it was closed before, or is from the error callback. */
  lemma FailEnds(x: Socket, cb: Callbacks)
    requires Shaped(x.snd)
    ensures Fail(x, cb).state == if x.closeRequested || Closes(cb.error) then Destroy else Reset
  {
    hide DoCalls;
    CallsClose(Abort(x), cb.error);
  }

  // ---------------------------------------------------------------- the ack part

  /** The state an acceptable ack leaves, before any callback: a first data packet ends the handshake. */
  lemma AckedStateIs(x: Socket, m: Msg, ring: nat)
    requires Shaped(x.snd) && ring > 0 && m.ack <= x.snd.seqNr - 1
    ensures var t := Acked(x, m, ring);
            && t.closeRequested == x.closeRequested
            && t.state == if AllAcked(x, m) && x.closeRequested then Destroy
                          else if x.state == SynRecv && m.kind == Data then Connected else x.state
  {
    hide SndAckLoop, SndDropAcked, FlushNagle, FastRetry, MaybeSack, AckCount, OnAckState, AllAcked, Wrap, WrappingLess;
    AckStateIs(x, m);
    var x1 := Release(OnAckState(x, m), AckCount(x.snd, m.ack));
    NagleState(x1);
    RetryState(FlushNagle(x1));
    SackState(FastRetry(FlushNagle(x1)), m, ring);
  }

  lemma AckStateIs(x: Socket, m: Msg)
    requires m.ack <= x.snd.seqNr - 1
    ensures var t := OnAckState(x, m);
            && t.closeRequested == x.closeRequested && t.snd == x.snd
            && t.state == if AllAcked(x, m) && x.closeRequested then Destroy
                          else if x.state == SynRecv && m.kind == Data then Connected else x.state
  {
    AllAckedIs(x, m);
    hide AckCount, MarkResend, AllAcked;
    var x1 := OnHandshake(x, m);
    assert x1.closeRequested == x.closeRequested && x1.snd == x.snd;
    var x2 := OnFinAcked(x1, AckCount(x.snd, m.ack));
    MarkState(x2, m);
  }

  /** Until a data packet ends the handshake the socket stays as it is, unless closed and all acknowledged. */
  lemma HandshakeEnds(x: Socket, m: Msg, ring: nat, q: Quota, cb: Callbacks)
    requires Shaped(x.snd) && ring > 0 && Taken(x, m) && x.state == SynRecv && m.kind != Data
    ensures Incoming(x, m, ring, q, cb).state == if AllAcked(x, m) && x.closeRequested then Destroy else SynRecv
  {
    hide Acked, DoCalls, IsFull, Receive, EackMask, AllAcked;
    AckedStateIs(x, m, ring);
    AckedShape(x, m, ring);
  }

  lemma ReopenCloses(x: Socket, q: Quota, cb: Callbacks)
    requires Shaped(x.snd)
    ensures Closing(Reopen(x, q, cb)) <==>
            Closing(x) || (x.state == ConnectedFull && !NoRoom(x.snd, q.packetSize, q) && Closes(cb.writable))
    ensures OpenOrOver(x.state) ==> OpenOrOver(Reopen(x, q, cb).state)
  {
    hide DoCalls, Closes;
    CallsClose(x.(state := Connected), cb.writable);
  }

  lemma ReportCloses(x: Socket, bytes: nat, q: Quota, cb: Callbacks)
    requires Shaped(x.snd)
    ensures Open(x.state) ==> OpenOrOver(Report(x, bytes, q, cb).state)
    ensures var t := Report(x, bytes, q, cb);
            && (Closing(x) || (Open(x.state) && bytes > 0 && Closes(cb.sent)) ==> Closing(t))
            && (Closing(t) ==> Closing(x) || (Open(x.state) && bytes > 0 && Closes(cb.sent)) || Closes(cb.writable))
            && (cb.sent == [] ==>
                  (Closing(t) <==> Closing(x) || (x.state == ConnectedFull && !NoRoom(x.snd, q.packetSize, q) && Closes(cb.writable))))
  {
    hide DoCalls, Reopen, Closes, NoRoom;
    var x1 := x.(reported := x.reported + bytes);
    CallsClose(x1, cb.sent);
    ReopenCloses(DoCalls(x1, cb.sent), q, cb);
    ReopenCloses(x, q, cb);
    if cb.sent == [] {
      NoCalls(x1);
      NoneCloses();
    }
  }

  lemma NoneCloses()
    ensures !Closes([])
  {
  }

  // ---------------------------------------------------------------- the data part

  function NonEmpty(ps: seq<Bytes>): nat {
    if ps == [] then 0 else (if ps[0] != [] then 1 else 0) + NonEmpty(ps[1..])
  }

  /** Reading went on, the socket was not closed, and yet the read callback of number k was due: so that one does not close. */
  ghost predicate ReadRun(read: seq<seq<Call>>, ps: seq<Bytes>, t: Socket) {
    !Closing(t) && !t.rcv.shutdown ==> forall k :: 0 <= k < |read| && k < NonEmpty(ps) ==> !Closes(read[k])
  }

  lemma HandUpCloses(x: Socket, data: Bytes, read: seq<seq<Call>>)
    requires Shaped(x.snd)
    ensures Closing(HandUp(x, data, read)) <==> Closing(x) || (data != [] && !x.rcv.shutdown && read != [] && Closes(read[0]))
  {
    hide DoCalls, Closes;
    if read != [] {
      CallsClose(x, read[0]);
    }
  }

  /** None of the read callbacks closes, nor the one for the end. */
  predicate NoneClose(cb: Callbacks) {
    !Closes(cb.eof) && forall k :: 0 <= k < |cb.read| ==> !Closes(cb.read[k])
  }

  lemma ReachFinCloses(x: Socket, cb: Callbacks)
    requires Shaped(x.snd)
    ensures Closing(ReachFin(x, cb)) <==> Closing(x) || Closes(cb.eof)
    ensures ReachFin(x, cb).rcv.consumed == x.rcv.consumed && (x.rcv.shutdown ==> ReachFin(x, cb).rcv.shutdown) && ReachFin(x, cb).rcv.finReached
  {
    hide DoCalls, Closes, EackMask;
    CallsClose(x.(rcv := x.rcv.(finReached := true)), cb.eof);
  }

  /** What a round of the loop leaves. */
  lemma TakeHeldRuns(x: Socket, read: seq<seq<Call>>)
    requires Shaped(x.snd) && x.rcv.ackNr + 1 in x.rcv.held && x.rcv.reorder > 0
    ensures var t, data := TakeHeld(x, read), x.rcv.held[x.rcv.ackNr + 1];
            && (Closing(t) <==> Closing(x) || (data != [] && !x.rcv.shutdown && read != [] && Closes(read[0])))
            && t.rcv.consumed == x.rcv.consumed + [data] && (x.rcv.shutdown ==> t.rcv.shutdown) && t.rcv.finReached == x.rcv.finReached
  {
    hide HandUp, Closes;
    HandUpCloses(x.(rcv := Lift(x.rcv)), x.rcv.held[x.rcv.ackNr + 1], read);
  }

  /** The payloads of a first packet and of those behind it. */
  lemma ReadRunMore(read: seq<seq<Call>>, rest: seq<seq<Call>>, data: Bytes, ps: seq<Bytes>, t: Socket)
    requires rest == if data != [] && read != [] then read[1..] else read
    requires ReadRun(rest, ps, t)
    requires !Closing(t) && !t.rcv.shutdown && data != [] && read != [] ==> !Closes(read[0])
    ensures ReadRun(read, [data] + ps, t)
  {
    hide Closes, Closing;
    if !Closing(t) && !t.rcv.shutdown {
      assert ([data] + ps)[1..] == ps;
      forall k | 0 <= k < |read| && k < NonEmpty([data] + ps) ensures !Closes(read[k]) {
        if data != [] && read != [] && k > 0 {
          assert rest[k - 1] == read[k];
        } else if data == [] {
          assert rest[k] == read[k];
        }
      }
    }
  }

  lemma RestNone(cb: Callbacks, rest: seq<seq<Call>>)
    requires NoneClose(cb) && (rest == cb.read || (cb.read != [] && rest == cb.read[1..]))
    ensures NoneClose(cb.(read := rest))
  {
    forall k | 0 <= k < |rest| ensures !Closes(rest[k]) {
      assert rest[k] == if rest == cb.read then cb.read[k] else cb.read[k + 1];
    }
  }

  /** What the loop behind an in-order packet runs: x before, t after. */
  ghost predicate Ran(x: Socket, cb: Callbacks, t: Socket) {
    && x.rcv.consumed <= t.rcv.consumed && (x.rcv.shutdown ==> t.rcv.shutdown)
    && ReadRun(cb.read, t.rcv.consumed[|x.rcv.consumed|..], t)
    && (Closing(x) || (t.rcv.finReached && !x.rcv.finReached && Closes(cb.eof)) ==> Closing(t))
    && (Closing(t) && NoneClose(cb) ==> Closing(x))
  }

  lemma RanNone(x: Socket, cb: Callbacks)
    ensures Ran(x, cb, x)
  {
    assert x.rcv.consumed[|x.rcv.consumed|..] == [];
  }

  lemma RanFin(x: Socket, cb: Callbacks)
    requires Shaped(x.snd)
    ensures Ran(x, cb, ReachFin(x, cb))
  {
    hide ReachFin, Closes;
    ReachFinCloses(x, cb);
    assert x.rcv.consumed[|x.rcv.consumed|..] == [];
  }

  /** A payload, then the rest. */
  lemma RanMore(x: Socket, f: Socket, t: Socket, cb: Callbacks, rest: seq<seq<Call>>, data: Bytes)
    requires f.rcv.consumed == x.rcv.consumed + [data] && (x.rcv.shutdown ==> f.rcv.shutdown) && f.rcv.finReached == x.rcv.finReached
    requires Closing(f) <==> Closing(x) || (data != [] && !x.rcv.shutdown && cb.read != [] && Closes(cb.read[0]))
    requires rest == if data != [] && !x.rcv.shutdown && cb.read != [] then cb.read[1..] else cb.read
    requires Ran(f, cb.(read := rest), t)
    ensures Ran(x, cb, t)
  {
    hide Closes, Closing, NoneClose;
    var ps := t.rcv.consumed[|f.rcv.consumed|..];
    assert t.rcv.consumed[|x.rcv.consumed|..] == [data] + ps;
    if !x.rcv.shutdown {
      ReadRunMore(cb.read, rest, data, ps, t);
    }
    if NoneClose(cb) {
      RestNone(cb, rest);
      FirstDoesNot(cb);
    }
  }

  lemma FirstDoesNot(cb: Callbacks)
    requires NoneClose(cb)
    ensures cb.read != [] ==> !Closes(cb.read[0])
  {
  }

  lemma {:induction false} DrainRuns(x: Socket, cb: Callbacks)
    requires Shaped(x.snd)
    ensures Ran(x, cb, Drain(x, cb))
    decreases x.rcv.reorder
  {
    hide Ran, ReachFin, TakeHeld, Closes, Closing;
    if !x.rcv.finReached && x.rcv.eof == Some(x.rcv.ackNr) {
      RanFin(x, cb);
    } else if x.rcv.reorder == 0 || x.rcv.ackNr + 1 !in x.rcv.held {
      RanNone(x, cb);
    } else {
      var data := x.rcv.held[x.rcv.ackNr + 1];
      TakeHeldRuns(x, cb.read);
      var f, rest := TakeHeld(x, cb.read), Rest(x, data, cb.read);
      DrainRuns(f, cb.(read := rest));
      RanMore(x, f, Drain(x, cb), cb, rest, data);
    }
  }

  lemma TakeNewRuns(x: Socket, data: Bytes, read: seq<seq<Call>>)
    requires Shaped(x.snd)
    ensures var t := TakeNew(x, data, read);
            && (Closing(t) <==> Closing(x) || (data != [] && !x.rcv.shutdown && read != [] && Closes(read[0])))
            && t.rcv.consumed == x.rcv.consumed + [data] && (x.rcv.shutdown ==> t.rcv.shutdown) && t.rcv.finReached == x.rcv.finReached
  {
    hide HandUp, Closes;
    HandUpCloses(x, data, read);
  }

  lemma DataRuns(x: Socket, m: Msg, offset: nat, cb: Callbacks)
    requires Shaped(x.snd) && Open(x.state)
    ensures Ran(x, cb, ProcessData(x, m, offset, cb))
  {
    hide Drain, TakeNew, Rest, NoteFin, Wrap, Ran;
    RanNone(x, cb);
    NoteSame(x.rcv, m);
    if m.kind != State {
      var x1 := x.(rcv := NoteFin(x.rcv, m));
      if offset == 0 {
        InOrderRuns(x1, m, cb);
        RanFrom(x, x1, cb, Drain(TakeNew(x1, m.data, cb.read), cb.(read := Rest(x1, m.data, cb.read))), ProcessData(x, m, offset, cb));
      } else {
        RanNone(x1, cb);
        RanFrom(x, x1, cb, x1, ProcessData(x, m, offset, cb));
      }
    }
  }

  lemma NoteSame(r: Rcv, m: Msg)
    ensures var t := NoteFin(r, m); t.consumed == r.consumed && t.shutdown == r.shutdown && t.finReached == r.finReached
  {
  }

  lemma RanFrom(x: Socket, x1: Socket, cb: Callbacks, t1: Socket, t: Socket)
    requires Ran(x1, cb, t1) && x1.rcv.consumed == x.rcv.consumed && x1.rcv.shutdown == x.rcv.shutdown && x1.rcv.finReached == x.rcv.finReached
    requires x1.state == x.state && x1.closeRequested == x.closeRequested
    requires t.state == t1.state && t.closeRequested == t1.closeRequested
    requires t.rcv.consumed == t1.rcv.consumed && t.rcv.shutdown == t1.rcv.shutdown && t.rcv.finReached == t1.rcv.finReached
    ensures Ran(x, cb, t)
  {
  }

  lemma InOrderRuns(x: Socket, m: Msg, cb: Callbacks)
    requires Shaped(x.snd)
    ensures Ran(x, cb, Drain(TakeNew(x, m.data, cb.read), cb.(read := Rest(x, m.data, cb.read))))
  {
    hide Ran, Drain, TakeNew, Closes, Closing;
    var f, rest := TakeNew(x, m.data, cb.read), Rest(x, m.data, cb.read);
    TakeNewRuns(x, m.data, cb.read);
    DrainRuns(f, cb.(read := rest));
    RanMore(x, f, Drain(f, cb.(read := rest)), cb, rest, m.data);
  }

  // ---------------------------------------------------------------- the whole of utp_process_incoming and check_timeouts

  /**
   * On an open connection, or when the handshake ends: on_sent runs when bytes are released, on_read for each payload taken
   * that has bytes, while somebody reads, on_eof when the FIN is reached: of each of these a call of utp_close is seen
   * afterwards. And the socket is closed by nothing but its callbacks.
   */
  lemma CallbacksRun(x: Socket, m: Msg, ring: nat, q: Quota, cb: Callbacks)
    requires Shaped(x.snd) && ring > 0 && Taken(x, m) && OpenFor(x, m) && !x.closeRequested
    ensures var t := Incoming(x, m, ring, q, cb);
            && x.rcv.consumed <= t.rcv.consumed && x.snd.popped <= t.snd.popped
            && (t.snd.popped > x.snd.popped && Closes(cb.sent) ==> Closing(t))
            && (t.rcv.finReached && !x.rcv.finReached && Closes(cb.eof) ==> Closing(t))
            && ReadRun(cb.read, t.rcv.consumed[|x.rcv.consumed|..], t)
            && (!Closes(cb.sent) && !Closes(cb.writable) && NoneClose(cb) ==> !Closing(t))
  {
    hide Acked, Report, ProcessData, Closes, Onward, NoneClose, ReadRun;
    AckedStateIs(x, m, ring);
    AckedShape(x, m, ring);
    var x1 := Acked(x, m, ring);
    var bytes := x1.snd.popped - x.snd.popped;
    ReportCloses(x1, bytes, q, cb);
    ReportTells(x1, bytes, q, cb);
    var x2 := ProcessAck(x, m, ring, q, cb);
    var offset := m.num - x.rcv.ackNr - 1;
    DataGrows(x2, m, offset, cb);
    var t := Incoming(x, m, ring, q, cb);
    assert t == ProcessData(x2, m, offset, cb);
    OnwardPopped(x1.snd, x2.snd);
    OnwardPopped(x2.snd, t.snd);
    assert x2.rcv.consumed == x.rcv.consumed && x2.rcv.finReached == x.rcv.finReached;
    if Open(x2.state) {
      DataRuns(x2, m, offset, cb);
    } else {
      DataAfter(x2, m, offset, cb);
      ClosedReads(cb.read, t.rcv.consumed[|x.rcv.consumed|..], t);
    }
  }

  /** On a connection that is over. */
  lemma DataAfter(x: Socket, m: Msg, offset: nat, cb: Callbacks)
    requires Shaped(x.snd) && !Open(x.state) && Closing(x)
    ensures var t := ProcessData(x, m, offset, cb);
            Closing(t) && x.rcv.consumed <= t.rcv.consumed && t.rcv.finReached == x.rcv.finReached
  {
    hide Receive, EackMask;
  }

  lemma ClosedReads(read: seq<seq<Call>>, ps: seq<Bytes>, t: Socket)
    requires Closing(t)
    ensures ReadRun(read, ps, t)
  {
  }

  /** A timeout on a closed or failing connection, and the callbacks for errors and for room in the window. */
  lemma TimeoutCallbacks(x: Socket, t: Tick, cb: Callbacks)
    requires Shaped(x.snd) && !Dead(x.state)
    ensures var r := CheckTimeouts(x, t, cb);
            if t.expired && (x.state == SynRecv || t.giveUp) then r.state == if x.closeRequested || Closes(cb.error) then Destroy else Reset
            else
              && (x.state != SynRecv && t.dead && cb.writable == [] ==>
                    r.state == if x.closeRequested || Closes(cb.error) then Destroy else Reset)
              && (!t.dead && Closing(r) ==> Closing(x) || (x.state == ConnectedFull && Closes(cb.writable)))
              && (!t.dead && !t.expired && x.state == ConnectedFull && Closes(cb.writable) ==>
                    Closing(r) || NoRoom(Flush(x, t.before).snd, t.after.packetSize, t.after))
  {
    hide FlushFrom, OnExpired, Reopen, Fail, NoRoom, Closes, EackMask;
    FlushShape(x, 0, t.before);
    var f := Flush(x, t.before);
    FailEnds(f, cb);
    if !(t.expired && (x.state == SynRecv || t.giveUp)) {
      ExpiredSame(f);
      ExpiredCloses(f);
      var g := if t.expired then OnExpired(f) else f;
      ReopenCloses(g, t.after, cb);
      var s1 := Reopen(g, t.after, cb);
      FailEnds(s1, cb);
      if cb.writable == [] {
        ReopenQuiet(g, t.after, cb);
      }
    }
  }

  lemma ExpiredCloses(x: Socket)
    ensures OnExpired(x).closeRequested == x.closeRequested
  {
  }

  lemma ReopenQuiet(x: Socket, q: Quota, cb: Callbacks)
    requires Shaped(x.snd) && cb.writable == []
    ensures var t := Reopen(x, q, cb); t.closeRequested == x.closeRequested && (t.state == x.state || t.state == Connected)
  {
  }

  lemma OnwardPopped(s: Snd, t: Snd)
    requires Onward(s, t)
    ensures t.popped == s.popped
  {
  }
}
