// dmaster/Server.cpp in place.
module Servers {
  import opened Common
  import opened Protocol
  import opened MasterModel
  import opened MasterSafety

  /** Every connection that has left so far was one of `sid`'s and its other end was told, once. */
  ghost predicate ToldSoFar(m: Master, sid: nat, conns: map<Id, Link>, ms: seq<Sent>) {
    && (forall id :: id in conns ==> id in m.conns && conns[id] == m.conns[id])
    && (forall i :: 0 <= i < |ms| ==> IsNotice(m, sid, ms[i]) && ms[i].msg.id !in conns)
    && (forall i, j :: 0 <= i < j < |ms| ==> ms[i].msg.id != ms[j].msg.id)
    && (forall id :: id in m.conns && id !in conns ==> exists i :: 0 <= i < |ms| && ms[i].msg.id == id)
  }

  lemma TellOne(m: Master, sid: nat, conns: map<Id, Link>, ms: seq<Sent>, id: Id)
    requires ToldSoFar(m, sid, conns, ms) && id in conns && Ends(conns[id], sid)
    ensures ToldSoFar(m, sid, conns - {id}, ms + [FinalFor(conns[id], id, sid, CanceledCode)])
  {
    var x := FinalFor(conns[id], id, sid, CanceledCode);
    var ms', conns' := ms + [x], conns - {id};
    assert IsNotice(m, sid, x);
    forall k | k in m.conns && k !in conns' ensures exists i :: 0 <= i < |ms'| && ms'[i].msg.id == k {
      if k == id {
        assert ms'[|ms|].msg.id == id;
      } else {
        var i :| 0 <= i < |ms| && ms[i].msg.id == k;
        assert ms'[i].msg.id == k;
      }
    }
  }

  method EndedBy(ghost m: Master, conns: map<Id, Link>, sid: nat) returns (conns': map<Id, Link>, ms: seq<Sent>)
    requires m.conns == conns
    ensures Notices(m, sid, ms)
    ensures conns' == map id | id in conns && !Ends(conns[id], sid) :: conns[id]
  {
    conns', ms := conns, [];
    var todo := conns.Keys;
    while todo != {}
      invariant todo <= conns'.Keys && ToldSoFar(m, sid, conns', ms)
      invariant forall id :: id in conns' && id !in todo ==> !Ends(conns[id], sid)
      decreases |todo|
    {
      var id :| id in todo;
      var l := conns'[id];
      if Ends(l, sid) {
        TellOne(m, sid, conns', ms, id);
        ms := ms + [FinalFor(l, id, sid, CanceledCode)];
        conns' := conns' - {id};
      }
      todo := todo - {id};
    }
    forall id | id in conns && id !in conns' ensures Ends(conns[id], sid) {
      var i :| 0 <= i < |ms| && ms[i].msg.id == id;
      assert IsNotice(m, sid, ms[i]);
    }
    assert conns' == map id | id in conns && !Ends(conns[id], sid) :: conns[id];
  }

  class Server {
    var sessions: map<nat, Sess>
    var conns: map<Id, Link>
    var out: seq<Sent>

    ghost function View(): Master
      reads this
    {
      Master(sessions, conns, out)
    }

    ghost predicate Valid()
      reads this
    {
      Inv(View())
    }

    constructor ()
      ensures Valid() && View() == Initial()
    {
      sessions, conns, out := map[], map[], [];
    }

    /** findPersistentSession. */
    method FindPersistentSession(node: nat) returns (found: Option<nat>)
      ensures Finds(sessions, node, found)
    {
      var todo := sessions.Keys;
      while todo != {}
        invariant todo <= sessions.Keys
        invariant forall sid :: sid in sessions && sid !in todo ==> !IsPersistent(sessions, sid, node)
        decreases |todo|
      {
        var sid :| sid in todo;
        if IsPersistent(sessions, sid, node) {
          return Some(sid);
        }
        todo := todo - {sid};
      }
      found := None;
    }

    /** The loop of removeSession, erasing while it iterates: the ends left behind are told, in whatever order. */
    method EndConnections(sid: nat) returns (ghost ms: seq<Sent>)
      modifies this`conns, this`out
      ensures Notices(old(View()), sid, ms) && out == old(out) + ms
      ensures conns == map id | id in old(conns) && !Ends(old(conns)[id], sid) :: old(conns)[id]
    {
      hide Notices;
      var conns', told := EndedBy(View(), conns, sid);
      ms := told;
      conns, out := conns', out + told;
    }

    /** removeSession; also what a session error does. */
    method RemoveSession(sid: nat) returns (ghost ms: seq<Sent>)
      requires Valid() && sid in sessions
      modifies this
      ensures Valid() && IsStep(old(View()), EvError(sid, ms), View())
    {
      hide Inv;
      ms := [];
      ghost var m := View();
      if sessions[sid].kind == Persistent {
        ms := EndConnections(sid);
      }
      StepKeeps(m, EvError(sid, ms));
      sessions := sessions - {sid};
    }

    method OnAccept(sid: nat, hasPeer: bool)
      requires Valid() && sid !in sessions
      modifies this
      ensures Valid() && IsStep(old(View()), EvAccept(sid, hasPeer), View())
    {
      hide Inv;
      StepKeeps(View(), EvAccept(sid, hasPeer));
      sessions := sessions[sid := Sess(Silent, 0, false, hasPeer)];
    }

    /** HELLO: an older persistent session of the node is removed. */
    method OnSessionStartPersistent(sid: nat, node: nat, symm: bool) returns (ghost other: Option<nat>, ghost ms: seq<Sent>)
      requires Valid() && sid in sessions && sessions[sid].kind == Silent
      modifies this
      ensures Valid() && IsStep(old(View()), EvHello(sid, node, symm, other, ms), View())
    {
      hide Inv;
      ms := [];
      ghost var m := View();
      var found := FindPersistentSession(node);
      other := found;
      if found.Some? {
        ms := EndConnections(found.value);
      }
      StepKeeps(m, EvHello(sid, node, symm, other, ms));
      sessions := sessions[sid := sessions[sid].(kind := Persistent, node := node, symm := symm)];
      if found.Some? {
        sessions := sessions - {found.value};
      }
    }

    /** HELLO_FAST and HELLO_SYMM: the other end of the connection is told the address the session comes from. */
    method OnSessionHello(sid: nat, node: nat, msg: Msg) returns (ghost found: Option<nat>)
      requires Valid() && sid in sessions && sessions[sid].kind == Silent && msg.PeerMsg?
      modifies this
      ensures Valid() && IsStep(old(View()), EvHelloBrief(sid, node, msg, found), View())
    {
      hide Inv;
      var f := FindPersistentSession(node);
      found := f;
      StepKeeps(View(), EvHelloBrief(sid, node, msg, found));
      sessions := sessions[sid := sessions[sid].(kind := Brief, node := node)];
      if sessions[sid].hasPeer && f.Some? {
        RelayMsg(f.value, msg);
      }
    }

    method RelayMsg(sid: nat, msg: Msg)
      modifies this`out
      ensures View() == Relay(old(View()), sid, msg)
    {
      if msg.id in conns {
        var l := conns[msg.id];
        if sid == l.src {
          out := out + [Sent(l.dst, msg)];
        } else if sid == l.dst {
          out := out + [Sent(l.src, msg)];
        }
      }
    }

    /** READY and NEXT. */
    method OnSessionReadyNext(sid: nat, msg: Msg)
      requires Valid() && Enabled(View(), EvRelay(sid, msg))
      modifies this`out
      ensures Valid() && IsStep(old(View()), EvRelay(sid, msg), View())
    {
      hide Inv;
      StepKeeps(View(), EvRelay(sid, msg));
      RelayMsg(sid, msg);
    }

    method OnSessionConnCreate(sid: nat, id: Id, dstNode: nat) returns (ghost found: Option<nat>)
      requires Valid() && sid in sessions && sessions[sid].kind == Persistent
      modifies this
      ensures Valid() && IsStep(old(View()), EvCreate(sid, id, dstNode, found), View())
      ensures CreateOutcome(old(View()), View(), sid, id, dstNode)
    {
      hide Inv, CreateOutcome;
      var dst := FindPersistentSession(dstNode);
      found := dst;
      StepKeeps(View(), EvCreate(sid, id, dstNode, found));
      CreateExactly(View(), sid, id, dstNode, found);
      var s := sessions[sid];
      if s.node != id.node || dstNode == id.node || !s.hasPeer || id in conns {
        SendStatus(sid, id, UnknownCode, Unknown);
        return;
      }
      if dst.None? {
        SendStatus(sid, id, NotFoundCode, Unknown);
        return;
      }
      var d := sessions[dst.value];
      if !d.hasPeer {
        SendStatus(sid, id, UnknownCode, Unknown);
        return;
      }
      if s.symm && d.symm {
        SendStatus(sid, id, SymmCode, Unknown);
        return;
      }
      var srcMode, dstMode := Fast, Fast;
      if s.symm {
        srcMode, dstMode := SymmConn, SymmAcc;
      } else if d.symm {
        srcMode, dstMode := SymmAcc, SymmConn;
      }
      conns := conns[id := Link(sid, dst.value, srcMode, dstMode)];
      out := out + [Sent(sid, StatusMsg(id, PendingCode, srcMode)), Sent(dst.value, RequestMsg(id, dstMode))];
    }

    method SendStatus(sid: nat, id: Id, code: Code, mode: Mode)
      modifies this`out
      ensures out == old(out) + [Sent(sid, StatusMsg(id, code, mode))]
    {
      out := out + [Sent(sid, StatusMsg(id, code, mode))];
    }

    method OnSessionConnClose(sid: nat, id: Id, established: bool)
      requires Valid() && sid in sessions && sessions[sid].kind == Persistent
      modifies this
      ensures Valid() && IsStep(old(View()), EvClose(sid, id, established), View())
    {
      hide Inv;
      StepKeeps(View(), EvClose(sid, id, established));
      if id !in conns {
        return;
      }
      var l := conns[id];
      var code := if established then EstablishedCode else CanceledCode;
      if sid == l.src {
        SendStatus(l.dst, id, code, l.dstMode);
      } else if sid == l.dst {
        SendStatus(l.src, id, code, l.srcMode);
      } else {
        return;
      }
      conns := conns - {id};
    }
  }
}
