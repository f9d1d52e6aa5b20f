// What each step must do with a node's connections: when one starts, asks, enters, changes, leaves.
module NodeRuns {
  import opened Common
  import opened NodeModel
  import opened Protocol
  import opened NodeQueue

  // ---------------------------------------------------------------- the head of the queue

  /** No session is connecting through a symmetric NAT. */
  ghost predicate Uncontended(s: State) {
    forall id :: id in s.conns ==> !(s.conns[id].sess == Running && s.conns[id].mode == SymmConn)
  }

  /** The head's session can start: its mode is known, and if it is to connect through a symmetric NAT, no other one does. */
  ghost predicate Startable(s: State) {
    && s.connected && s.queue != [] && s.queue[0] in s.conns
    && var mode := s.conns[s.queue[0]].mode;
       mode == Fast || mode == SymmAcc || (mode == SymmConn && Uncontended(s))
  }

  /** The master has not been asked about the head. */
  predicate Askable(s: State) {
    s.connected && s.queue != [] && s.queue[0] in s.conns && s.conns[s.queue[0]].mode == Unknown && s.conns[s.queue[0]].status == Unsent
  }

  ghost predicate SameOthers(s: State, s': State, id: Id) {
    forall x :: x != id ==> (x in s'.conns <==> x in s.conns) && (x in s.conns ==> s'.conns[x] == s.conns[x])
  }

  /**
   * What one processRendezvous call does: a head that can start leaves the queue, and it is in the table afterwards, running
   * and else as before, exactly when its session did start; one the master was not asked about is asked about; else nothing.
   */
  ghost predicate Drained(s: State, s': State, ok: bool) {
    && s'.nextIdx == s.nextIdx && s'.connected == s.connected && s'.proxying == s.proxying && s'.abandoned == s.abandoned
    && if Startable(s) then
         var id := s.queue[0];
         && s'.queue == s.queue[1..] && s'.draining == s.draining && s'.asked == s.asked && SameOthers(s, s', id)
         && (id in s'.conns <==> ok) && (ok ==> s'.conns[id] == s.conns[id].(sess := Running))
       else
         && s'.queue == s.queue && s'.draining == s.draining - 1
         && if Askable(s) then
              var id := s.queue[0];
              && SameOthers(s, s', id) && id in s'.conns && s'.conns[id] == s.conns[id].(status := Pending) && s'.asked == s.asked + {id}
            else s'.conns == s.conns && s'.asked == s.asked
  }

  lemma DrainExactly(s: State, ok: bool)
    requires Inv(s) && s.draining > 0
    ensures (s.queue != [] ==> s.queue[0] in s.conns) && Drained(s, Next(s, EvDrain(ok)), ok)
  {
    HeadKnown(s);
    assert SymmRunning(s.conns) <==> !Uncontended(s);
  }

  // ---------------------------------------------------------------- entering, leaving, changing

  /** Closed, refused or ended by the master, failed in its session or its proxy, done, or the head whose start failed. */
  ghost predicate LeavesBy(s: State, ev: Event, id: Id) {
    match ev
    case EvClose(k) => k == id
    case EvRefused(k) => k == id
    case EvMet(k, ok, _, _) => k == id && !ok
    case EvProxied(k, ok) => k == id && !ok
    case EvProxyDone(k) => k == id
    case EvDrain(ok) => Startable(s) && s.queue[0] == id && !ok
    case _ => false
  }

  /** A connection is in the table until it leaves in one of these ways, and it then leaves the queue as well. */
  lemma LeavesExactly(s: State, ev: Event, id: Id)
    requires Inv(s) && Enabled(s, ev) && id in s.conns
    ensures s.queue != [] ==> s.queue[0] in s.conns
    ensures var s' := Next(s, ev); (id in s'.conns <==> !LeavesBy(s, ev, id)) && (id !in s'.conns ==> id !in s'.queue)
  {
    StepKeeps(s, ev);
    var s' := Next(s, ev);
    if ev.EvDrain? {
      DrainExactly(s, ev.ok);
    }
    if id in s'.queue {
      IsQueued(s', id);
    }
    hide Inv, SymmRunning, Removed, MayStart;
  }

  /** Over a stretch of a run, a connection is still in the table exactly if it left in none of these ways on the way. */
  lemma {:induction false} NotForgotten(ss: seq<State>, evs: seq<Event>, i: nat, j: nat, id: Id)
    requires IsRun(ss, evs) && i <= j < |ss| && id in ss[i].conns
    requires forall k :: i <= k < j ==> !LeavesBy(ss[k], evs[k], id)
    ensures id in ss[j].conns && (j < |evs| ==> (id !in ss[j + 1].conns <==> LeavesBy(ss[j], evs[j], id)))
    decreases j
  {
    hide Inv, Next, LeavesBy;
    if i < j {
      NotForgotten(ss, evs, i, j - 1, id);
    }
    if j < |evs| {
      RunInv(ss, evs, j);
      assert IsStep(ss[j], evs[j], ss[j + 1]);
      LeavesExactly(ss[j], evs[j], id);
    }
  }

  /** The number the next connection of the node gets: 0 is none. */
  function NextNumber(s: State): nat {
    if s.nextIdx == 0 then 1 else s.nextIdx
  }

  /** Only a registration and an invitation bring a connection into the table: last in the queue, with nothing started. */
  lemma EntersExactly(s: State, ev: Event, id: Id)
    requires Inv(s) && Enabled(s, ev) && id !in s.conns
    ensures s.queue != [] ==> s.queue[0] in s.conns
    ensures var s' := Next(s, ev);
            && (id in s'.conns <==> (ev.EvRegister? && s.connected && id == Id(ev.node, NextNumber(s))) || (ev.EvInvited? && ev.id == id))
            && (id in s'.conns ==>
                  && s'.queue == s.queue + [id] && SameOthers(s, s', id) && s'.conns[id].sess == (if ev.EvInvited? then Ready else NoSession)
                  && !s'.conns[id].bound && s'.conns[id].mode == (if ev.EvInvited? then ev.mode else Unknown)
                  && (s'.conns[id].status == Pending <==> ev.EvInvited? || (s.queue == [] && Uncontended(s)))
                  && s'.conns[id].status != Established
                  && s'.asked == s.asked + if ev.EvRegister? && s.queue == [] && Uncontended(s) then {id} else {})
  {
    HeadKnown(s);
    if ev.EvDrain? {
      DrainExactly(s, ev.ok);
    }
    hide Removed, MayStart;
  }

  /** What a step may change of a connection that stays: each field by its own events and by no other. */
  lemma ChangesExactly(s: State, ev: Event, id: Id)
    requires Inv(s) && Enabled(s, ev) && id in s.conns && !LeavesBy(s, ev, id)
    ensures s.queue != [] ==> s.queue[0] in s.conns
    ensures id in Next(s, ev).conns
    ensures var c, d := s.conns[id], Next(s, ev).conns[id];
            && d.mode == (if ev.EvAccepted? && ev.id == id then ev.mode else c.mode)
            && (d.status == Established <==>
                  c.status == Established || (ev.EvMet? && ev.id == id) || (ev.EvConfirmed? && ev.id == id && c.sess != NoSession))
            && (c.status == Unsent ==> (d.status == Unsent <==> !(ev.EvDrain? && s.connected && s.queue != [] && s.queue[0] == id)))
            && d.sess == (if ev.EvMet? && ev.id == id then NoSession
                          else if ev.EvDrain? && Startable(s) && s.queue[0] == id then Running else c.sess)
            && d.bound == (if ev.EvMet? && ev.id == id then ev.kept else c.bound || (ev.EvProxied? && ev.id == id))
  {
    LeavesExactly(s, ev, id);
    assert ConnOk(s, id);
    if ev.EvDrain? {
      DrainExactly(s, ev.ok);
    }
    if s.queue != [] {
      assert QueuedOk(s, 0);
    }
    hide Inv, SymmRunning, Removed, MayStart;
  }

  // ---------------------------------------------------------------- the order of the queue

  /** Taking an id off the queue leaves the others in their order. */
  lemma {:induction false} RemovedKeepsOrder(a: seq<Id>, b: seq<Id>, id: Id)
    requires NoDup(a + [id] + b)
    ensures Removed(a + [id] + b, id) == a + b
    decreases |a|
  {
    var q := a + [id] + b;
    if a == [] {
      assert q[1..] == b && q[0] == id;
      assert forall k :: 0 <= k < |b| ==> b[k] == q[k + 1];
      RemovedNone(b, id);
    } else {
      assert q[1..] == a[1..] + [id] + b && q[0] == a[0];
      assert forall k :: 0 <= k < |q[1..]| ==> q[1..][k] == q[k + 1];
      assert q[|a|] == id;
      RemovedKeepsOrder(a[1..], b, id);
    }
  }

  lemma {:induction false} RemovedNone(b: seq<Id>, id: Id)
    requires id !in b
    ensures Removed(b, id) == b
  {
    if b != [] {
      RemovedNone(b[1..], id);
    }
  }

  /** A queued connection moves only forward, and only when those before it leave: none overtakes it. */
  lemma QueueExactly(s: State, ev: Event, a: seq<Id>, id: Id, b: seq<Id>)
    requires Inv(s) && Enabled(s, ev) && s.queue == a + [id] + b
    ensures s.queue != [] ==> s.queue[0] in s.conns
    ensures var q := Next(s, ev).queue;
            if ev.EvClose? || ev.EvRefused? then (ev.id == id ==> q == a + b) && (ev.id !in s.queue ==> q == s.queue)
            else if ev.EvDrain? then q == if Startable(s) then s.queue[1..] else s.queue
            else if (ev.EvRegister? && s.connected) || (ev.EvInvited? && ev.id !in s.conns) then |q| == |s.queue| + 1 && s.queue <= q
            else q == s.queue
  {
    HeadKnown(s);
    if ev.EvDrain? {
      DrainExactly(s, ev.ok);
    } else if ev.EvClose? || ev.EvRefused? {
      if ev.id == id {
        assert s.queue[|a|] == id;
        IsQueued(s, id);
        RemovedKeepsOrder(a, b, id);
      } else if ev.id !in s.queue {
        RemovedNone(s.queue, ev.id);
      }
    }
    hide SymmRunning, Removed, MayStart;
  }
}
