// dnode/RendezvousFastSession.cpp in place: the sections of one side, as events of the exchange between the two.
module FastSessions {
  import opened Common
  import opened FastModel
  import opened FastSafety

  /** One side; `s` in its methods is the state of the exchange it takes part in, before and after. */
  class RendezvousFastSession {
    const owner: bool
    var live: bool
    var ready: bool
    var stepIdx: int
    var ttl: int
    var next: bool
    var pinging: bool
    var waiting: bool
    ghost var sending: nat
    ghost var pings: nat

    ghost function View(): Peer
      reads this
    {
      Peer(live, stepIdx, ttl, next, pinging, waiting, sending, pings)
    }

    /** The fields are this side of s, as long as the session is not over. */
    ghost predicate Shows(s: State)
      reads this
    {
      var p := if owner then s.a else s.b;
      live == p.live && (live ==> View() == p && (owner ==> ready == s.ready))
    }

    /** With best effort the owner has waited for its ports, and is ready; its first READY is on its way in any case. */
    constructor (owner: bool, bestEffort: bool)
      ensures this.owner == owner && Shows(Initial(bestEffort))
    {
      this.owner := owner;
      ready := owner && bestEffort;
      live, stepIdx, ttl, next := true, if owner then 0 else -1, FIRST_TTL, true;
      pinging, waiting, sending, pings := false, false, 0, 0;
    }

    /**
     * onPingTimeout: a ping goes out only if the other side has passed the turn. `more` says whether the timer is posted
     * again; `ok` whether ports for a next step may be had.
     */
    method OnPingTimeout(ok: bool, ghost s: State) returns (more: bool, ghost s': State)
      requires Inv(s) && Shows(s) && pinging
      modifies this
      ensures Inv(s') && Shows(s')
      ensures if old(live && next) then IsStep(s, if owner then PingA(ok) else PingB, s') else s' == s
      ensures more <==> live && pinging
    {
      s' := s;
      if !live {
        return false, s;
      }
      if !next {
        return true, s;
      }
      s' := Next(s, if owner then PingA(ok) else PingB);
      StepKeeps(s, if owner then PingA(ok) else PingB);
      hide Inv;
      next := false;
      sending, pings := sending + 1, pings + 1;
      ttl := ttl + 1;
      more := true;
      if owner && ttl == LAST_TTL {
        more := false;
        pinging := false;
        if stepIdx == LAST_STEP {
          live := false;
        } else if ok {
          waiting := true;
        } else {
          live := false;
        }
      }
    }

    /** onPingSend: the turn is passed on once the ping is out; an error ends the session. */
    method OnPingSend(err: int, ghost s: State) returns (passOn: bool, ghost s': State)
      requires Inv(s) && Shows(s) && sending > 0
      modifies this
      ensures Inv(s') && Shows(s')
      ensures if old(live) then IsStep(s, if owner then SentA(err == 0) else SentB(err == 0), s') else s' == s
      ensures passOn <==> live && (if owner then s'.toB == s.toB + [NextMsg] else s'.toA == s.toA + [s.b.step])
    {
      s' := s;
      passOn := false;
      if live {
        s' := Next(s, if owner then SentA(err == 0) else SentB(err == 0));
        StepKeeps(s, if owner then SentA(err == 0) else SentB(err == 0));
        hide Inv;
        passOn := err == 0;
        live := err == 0;
      }
      sending := sending - 1;
    }

    /** NEXT, the first message on its way to this side. */
    method OnNext(ghost s: State) returns (ghost s': State)
      requires Inv(s) && Shows(s) && (live ==> if owner then s.toA != [] else s.toB != [] && s.toB[0] == NextMsg)
      modifies this
      ensures Inv(s') && Shows(s') && if old(live) then IsStep(s, if owner then NextA else RecvB, s') else s' == s
    {
      s' := s;
      if live && owner {
        s' := Next(s, NextA);
        StepKeeps(s, NextA);
      } else if live {
        s' := Next(s, RecvB);
        StepKeeps(s, RecvB);
      }
      hide Inv;
      next := true;
    }

    /** READY for the peer of the owner: a new step for which it needs ports. */
    method OnReady(ghost s: State) returns (ghost s': State)
      requires Inv(s) && Shows(s) && !owner && (live ==> s.toB != [] && s.toB[0] == Ready)
      modifies this
      ensures Inv(s') && Shows(s') && if old(live) then IsStep(s, RecvB, s') else s' == s
      ensures live ==> SameStep(s') && s'.toB == []
    {
      s' := s;
      if live {
        s' := Next(s, RecvB);
        StepKeeps(s, RecvB);
        AllNexts(s.toB);
        hide Inv;
        ready := true;
        StartStep();
        waiting := true;
      }
    }

    method StartStep()
      modifies this`stepIdx, this`ttl, this`next, this`pinging, this`waiting, this`sending, this`pings
      ensures View() == NewStep(old(View()), false)
    {
      stepIdx := stepIdx + 1;
      ttl := FIRST_TTL;
      next := true;
      pinging, waiting := false, false;
      sending, pings := 0, 0;
    }

    /** onPortReservation with the ports asked for: the owner starts its next step with READY, its peer gives its address. */
    method OnPortReservation(ghost s: State) returns (ghost s': State)
      requires Inv(s) && Shows(s) && waiting
      modifies this
      ensures Inv(s') && Shows(s') && if old(live) then IsStep(s, if owner then PortsA else PortsB, s') else s' == s
    {
      s' := s;
      if live {
        s' := Next(s, if owner then PortsA else PortsB);
        StepKeeps(s, if owner then PortsA else PortsB);
        hide Inv;
        if owner {
          StartStep();
        } else {
          waiting := false;
        }
      }
    }

    /**
     * The other side's address has come and the socket is ready: pinging starts. An owner that is not ready yet becomes so
     * instead, and sends READY once more; the result says whether it does.
     */
    method OnAddress(ghost s: State) returns (again: bool, ghost s': State)
      requires Inv(s) && Shows(s) && (live ==> if owner then s.addrToA else s.addrToB)
      modifies this
      ensures Inv(s') && Shows(s') && if old(live) then IsStep(s, if owner then AddrA else AddrB, s') else s' == s
      ensures again <==> live && s'.toB == s.toB + [Ready]
    {
      s', again := s, false;
      if live {
        s' := Next(s, if owner then AddrA else AddrB);
        StepKeeps(s, if owner then AddrA else AddrB);
        hide Inv;
        if owner && !ready {
          ready, again := true, true;
        } else {
          pinging := true;
        }
      }
    }

    /** A ping of the other side came through, or the master says so: the session is over. */
    method Finish(ghost s: State) returns (ghost s': State)
      requires Inv(s) && Shows(s)
      modifies this
      ensures Inv(s') && Shows(s') && !live && IsStep(s, if owner then StopA else StopB, s')
    {
      s' := Next(s, if owner then StopA else StopB);
      StepKeeps(s, if owner then StopA else StopB);
      hide Inv;
      live := false;
    }
  }
}
