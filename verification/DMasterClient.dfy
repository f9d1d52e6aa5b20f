// dnode/DMasterClient.cpp in place.
module MasterClients {
  import opened Common
  import opened NodeModel
  import opened Protocol
  import opened NodeQueue
  import opened NodeRuns

  class DMasterClient {
    const nodeId: nat
    var conns: map<Id, Conn>
    var queue: seq<Id>
    var nextIdx: nat
    var connected: bool
    ghost var draining: nat
    ghost var proxying: set<Id>
    ghost var asked: set<Id>
    ghost var abandoned: set<Id>

    ghost function View(): State
      reads this
    {
      State(conns, queue, nextIdx, connected, draining, proxying, asked, abandoned)
    }

    ghost predicate Valid()
      reads this
    {
      Inv(View())
    }

    constructor (nodeId: nat)
      ensures Valid() && this.nodeId == nodeId && View() == Initial(false)
    {
      this.nodeId := nodeId;
      conns, queue, nextIdx, connected := map[], [], 0, false;
      draining, proxying, asked, abandoned := 0, {}, {}, {};
    }

    /** onConnect: only now are connections registered. */
    method OnConnect(err: int)
      requires Valid() && Enabled(View(), EvConnect)
      modifies this
      ensures Valid() && if err == 0 then IsStep(old(View()), EvConnect, View()) else View() == old(View())
    {
      StepKeeps(View(), EvConnect);
      hide Inv;
      if err == 0 {
        connected := true;
      }
    }

    /** The connection to the master is lost; nothing more is asked of it. */
    method OnLost()
      requires Valid()
      modifies this
      ensures Valid() && IsStep(old(View()), EvLost, View())
    {
      StepKeeps(View(), EvLost);
      hide Inv;
      connected := false;
    }

    /** Looks for a running session that connects through a symmetric NAT. */
    method FindSymmRunning() returns (running: bool)
      ensures running == SymmRunning(conns)
    {
      running := false;
      var todo := conns.Keys;
      while todo != {}
        invariant todo <= conns.Keys
        invariant forall id :: id in conns && id !in todo ==> !IsSymmRunning(conns[id])
        decreases |todo|
      {
        var id :| id in todo;
        if IsSymmRunning(conns[id]) {
          return true;
        }
        todo := todo - {id};
      }
    }

    /** nextConnIdx_++, past 0. */
    method TakeIdx() returns (idx: nat)
      modifies this`nextIdx
      ensures (idx, nextIdx) == FreshIdx(old(nextIdx))
    {
      idx := nextIdx;
      nextIdx := (nextIdx + 1) % WRAP;
      if idx == 0 {
        idx := nextIdx;
        nextIdx := (nextIdx + 1) % WRAP;
      }
    }

    /** registerConnection, for an address with a route; None when not connected to the master. */
    method RegisterConnection() returns (r: Option<Id>)
      requires Valid() && Enabled(View(), EvRegister(nodeId))
      modifies this
      ensures Valid() && IsStep(old(View()), EvRegister(nodeId), View())
      ensures r.Some? <==> old(connected)
      ensures r.Some? ==> r.value in conns && r.value !in old(conns) && queue == old(queue) + [r.value]
    {
      StepKeeps(View(), EvRegister(nodeId));
      hide Inv, SymmRunning, FreshIdx;
      if !connected {
        return None;
      }
      var idx := TakeIdx();
      var id := Id(nodeId, idx);
      var running := FindSymmRunning();
      var status := Unsent;
      if !running && queue == [] {
        status := Pending;
        asked := asked + {id};
      }
      conns := conns[id := Conn(Unknown, status, NoSession, false)];
      queue := queue + [id];
      r := Some(id);
    }

    /** Takes an id off the queue wherever it is. */
    method RemoveFromQueue(id: Id)
      modifies this`queue
      ensures queue == Removed(old(queue), id)
    {
      hide Removed;
      var kept := [];
      ghost var all := queue;
      assert all[0..] == all;
      for i := 0 to |queue|
        invariant queue == all && kept + Removed(all[i..], id) == Removed(all, id)
      {
        RemovedStep(all, i, id);
        ghost var more := if all[i] == id then [] else [all[i]];
        assert kept + (more + Removed(all[i + 1..], id)) == (kept + more) + Removed(all[i + 1..], id);
        if queue[i] != id {
          kept := kept + [queue[i]];
        }
      }
      RemovedDone(all, id);
      queue := kept;
    }

    /**
     * closeConnection: the connection goes, wherever it is. The master is told when it was still waiting. The caller
     * drains the queue afterwards.
     */
    method CloseConnection(id: Id) returns (tell: bool)
      requires Valid()
      modifies this
      ensures Valid() && IsStep(old(View()), EvClose(id), View())
      ensures tell <==> id in old(conns) && old(conns)[id].status == Pending
    {
      StepKeeps(View(), EvClose(id));
      hide Inv;
      tell := false;
      if id in conns {
        tell := conns[id].status == Pending;
        abandoned := if Waiting(View(), id) then abandoned + {id} else abandoned;
        conns := conns - {id};
        RemoveFromQueue(id);
        draining := draining + 1;
      }
    }

    /** A final status from the master: the connection goes, wherever it is. */
    method OnFinalStatus(id: Id)
      requires Valid()
      modifies this
      ensures Valid() && IsStep(old(View()), EvRefused(id), View())
      ensures id !in conns && id !in queue && id !in asked
    {
      StepKeeps(View(), EvRefused(id));
      if id in conns {
        RemovedIs(queue, id);
      } else if id in queue {
        IsQueued(View(), id);
      }
      hide Inv;
      asked, abandoned := asked - {id}, abandoned - {id};
      if id in conns {
        conns := conns - {id};
        RemoveFromQueue(id);
        draining := draining + 1;
      }
    }

    method OnRecvMsgConn(id: Id, mode: Mode)
      requires Valid() && Enabled(View(), EvInvited(id, mode))
      modifies this
      ensures Valid() && IsStep(old(View()), EvInvited(id, mode), View())
    {
      StepKeeps(View(), EvInvited(id, mode));
      hide Inv;
      if id !in conns {
        conns := conns[id := Conn(mode, Pending, Ready, false)];
        queue := queue + [id];
        draining := draining + 1;
      }
    }

    /** The pending status: the master tells which mode to use. */
    method OnPending(id: Id, mode: Mode)
      requires Valid() && Enabled(View(), EvAccepted(id, mode))
      modifies this
      ensures Valid() && IsStep(old(View()), EvAccepted(id, mode), View())
    {
      StepKeeps(View(), EvAccepted(id, mode));
      hide Inv;
      asked, abandoned := asked - {id}, abandoned - {id};
      if id in conns {
        conns := conns[id := conns[id].(mode := mode)];
        draining := draining + 1;
      }
    }

    method OnEstablished(id: Id)
      requires Valid() && Enabled(View(), EvConfirmed(id))
      modifies this
      ensures Valid() && IsStep(old(View()), EvConfirmed(id), View())
    {
      StepKeeps(View(), EvConfirmed(id));
      hide Inv;
      if id in conns {
        if conns[id].sess != NoSession {
          conns := conns[id := conns[id].(status := Established)];
        }
        draining := draining + 1;
      }
    }

    /** onRendezvous up to the callback; the master is told unless it was the one that said so. */
    method OnRendezvous(id: Id, ok: bool, kept: bool, ghost proxy: bool) returns (tell: bool)
      requires Valid() && Enabled(View(), EvMet(id, ok, kept, proxy))
      modifies this
      ensures Valid() && IsStep(old(View()), EvMet(id, ok, kept, proxy), View())
      ensures tell <==> id in old(conns) && (!ok || old(conns)[id].status != Established)
    {
      StepKeeps(View(), EvMet(id, ok, kept, proxy));
      hide Inv;
      tell := false;
      if id in conns {
        var c := conns[id];
        tell := !ok || c.status != Established;
        if ok {
          conns := conns[id := c.(status := Established, sess := NoSession, bound := kept)];
          proxying := if proxy then proxying + {id} else proxying;
        } else {
          conns := conns - {id};
        }
        draining := draining + 1;
      }
    }

    /** One call of processRendezvous: starts the session of the head if it may, or asks the master about it. */
    method ProcessRendezvous(ok: bool) returns (more: bool)
      requires Valid() && draining > 0
      modifies this
      ensures Valid() && IsStep(old(View()), EvDrain(ok), View()) && Drained(old(View()), View(), ok)
      ensures more <==> Startable(old(View()))
      ensures more ==> queue == old(queue)[1..] && draining == old(draining)
      ensures more ==> (old(queue)[0] in conns <==> ok) && (ok ==> conns[old(queue)[0]] == old(conns)[old(queue)[0]].(sess := Running))
      ensures !more ==> queue == old(queue) && draining == old(draining) - 1
      ensures !more && connected && queue != [] ==>
                && queue[0] in conns
                && var c := conns[queue[0]];
                   (c.mode == Unknown && c.status == Pending) || (c.mode == SymmConn && SymmRunning(conns))
    {
      HeadFacts();
      StepKeeps(View(), EvDrain(ok));
      DrainExactly(View(), ok);
      hide Inv, Drained;
      more := false;
      if connected {
        var running := FindSymmRunning();
        if queue != [] {
          var id := queue[0];
          var c := conns[id];
          if c.mode == Unknown && c.status == Unsent {
            conns := conns[id := c.(status := Pending)];
            asked := asked + {id};
          } else if MayStart(c, running) {
            queue := queue[1..];
            conns := if ok then conns[id := c.(sess := Running)] else conns - {id};
            more := true;
          }
        }
      }
      if !more {
        draining := draining - 1;
      }
    }

    lemma HeadFacts()
      requires Valid()
      ensures queue != [] ==> queue[0] in conns && conns[queue[0]].status != Established
    {
      if queue != [] {
        assert QueuedOk(View(), 0);
      }
    }

    /**
     * The draining loop, when the callbacks it makes add no work: it ends, and afterwards the head of the queue waits
     * for the master or for a symmetric session to end. `oks` tells which sessions start.
     */
    method DrainQueue(oks: seq<bool>)
      requires Valid() && draining > 0 && |oks| > |queue|
      modifies this
      ensures Valid() && draining == old(draining) - 1 && |queue| <= |old(queue)|
      ensures connected && queue != [] ==>
                && queue[0] in conns
                && var c := conns[queue[0]];
                   (c.mode == Unknown && c.status == Pending) || (c.mode == SymmConn && SymmRunning(conns))
    {
      hide Inv, IsStep;
      var i := 0;
      var more := ProcessRendezvous(oks[0]);
      while more
        invariant Valid() && i + |queue| + (if more then 1 else 0) <= |old(queue)|
        invariant draining == if more then old(draining) else old(draining) - 1
        invariant !more && connected && queue != [] ==>
                    && queue[0] in conns
                    && var c := conns[queue[0]];
                       (c.mode == Unknown && c.status == Pending) || (c.mode == SymmConn && SymmRunning(conns))
        decreases |queue|, more
      {
        i := i + 1;
        more := ProcessRendezvous(oks[i]);
      }
    }
  }
}
