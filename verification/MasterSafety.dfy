// What holds of the master in every run.
module MasterSafety {
  import opened Common
  import opened Protocol
  import opened MasterModel

  lemma {:induction false} CountAppend(a: seq<Sent>, b: seq<Sent>, id: Id)
    ensures Openings(a + b, id) == Openings(a, id) + Openings(b, id)
    ensures Finals(a + b, id) == Finals(a, id) + Finals(b, id)
  {
    if b == [] {
      assert a + b == a;
    } else {
      var n := |b| - 1;
      assert (a + b)[..|a + b| - 1] == a + b[..n];
      CountAppend(a, b[..n], id);
    }
  }

  lemma CountOne(x: Sent, id: Id)
    ensures Openings([x], id) == (if IsOpening(x, id) then 1 else 0) && Finals([x], id) == if IsFinal(x, id) then 1 else 0
  {
    assert [x][..0] == [];
  }

  lemma CountTwo(x: Sent, y: Sent, id: Id)
    ensures Openings([x, y], id) == (if IsOpening(x, id) then 1 else 0) + (if IsOpening(y, id) then 1 else 0)
    ensures Finals([x, y], id) == (if IsFinal(x, id) then 1 else 0) + (if IsFinal(y, id) then 1 else 0)
  {
    assert [x, y] == [x] + [y];
    CountAppend([x], [y], id);
    CountOne(x, id);
    CountOne(y, id);
  }

  /** A list of notices has one for a connection that is named in it, and none for others. */
  lemma {:induction false} CountNotices(m: Master, sid: nat, ms: seq<Sent>, id: Id)
    requires forall i :: 0 <= i < |ms| ==> IsNotice(m, sid, ms[i])
    requires forall i, j :: 0 <= i < j < |ms| ==> ms[i].msg.id != ms[j].msg.id
    ensures Openings(ms, id) == 0
    ensures Finals(ms, id) == if exists i :: 0 <= i < |ms| && ms[i].msg.id == id then 1 else 0
  {
    if ms != [] {
      var n := |ms| - 1;
      CountNotices(m, sid, ms[..n], id);
      assert IsNotice(m, sid, ms[n]);
      assert forall i :: 0 <= i < n ==> ms[..n][i] == ms[i];
      if ms[n].msg.id == id {
        assert !exists i :: 0 <= i < n && ms[..n][i].msg.id == id;
      }
    }
  }

  lemma NamedIffEnds(m: Master, sid: nat, ms: seq<Sent>, id: Id)
    requires Notices(m, sid, ms)
    ensures (exists i :: 0 <= i < |ms| && ms[i].msg.id == id) <==> id in m.conns && Ends(m.conns[id], sid)
  {
    if exists i :: 0 <= i < |ms| && ms[i].msg.id == id {
      var i :| 0 <= i < |ms| && ms[i].msg.id == id;
      assert IsNotice(m, sid, ms[i]);
    }
  }

  /** Removing a persistent session ends exactly its connections, each with one status to the other end. */
  lemma WithoutKeeps(m: Master, sid: nat, ms: seq<Sent>)
    requires Inv(m) && Notices(m, sid, ms)
    ensures Inv(Without(m, sid, ms))
  {
    var m' := Without(m, sid, ms);
    forall id | id in m'.conns ensures LinkOk(m', id) {
      assert LinkOk(m, id);
    }
    forall id ensures Balanced(m', id) {
      assert Balanced(m, id);
      CountAppend(m.out, ms, id);
      CountNotices(m, sid, ms, id);
      NamedIffEnds(m, sid, ms, id);
    }
  }

  /** A session that takes part in no connection changes or goes. */
  lemma SessionKeeps(m: Master, m': Master, sid: nat)
    requires Inv(m) && m'.conns == m.conns && m'.out == m.out && OneEach(m'.sessions)
    requires sid in m.sessions ==> m.sessions[sid].kind != Persistent
    requires forall x :: x in m.sessions && x != sid ==> x in m'.sessions && m'.sessions[x] == m.sessions[x]
    ensures Inv(m')
  {
    forall id | id in m'.conns ensures LinkOk(m', id) {
      assert LinkOk(m, id);
    }
    forall id ensures Balanced(m', id) {
      assert Balanced(m, id);
    }
  }

  lemma HelloKeeps(m: Master, sid: nat, node: nat, symm: bool, other: Option<nat>, ms: seq<Sent>)
    requires Inv(m) && Enabled(m, EvHello(sid, node, symm, other, ms))
    ensures Inv(HelloPersistent(m, sid, node, symm, other, ms))
  {
    var hello := m.sessions[sid].(kind := Persistent, node := node, symm := symm);
    if other.Some? {
      WithoutKeeps(m, other.value, ms);
      var m1 := Without(m, other.value, ms);
      var m2 := m1.(sessions := m1.sessions[sid := hello]);
      SessionKeeps(m1, m2, sid);
      assert m2.sessions == m.sessions[sid := hello] - {other.value};
      assert HelloPersistent(m, sid, node, symm, other, ms) == m2;
    } else {
      SessionKeeps(m, m.(sessions := m.sessions[sid := hello]), sid);
    }
  }

  lemma SendKeeps(m: Master, m': Master, ms: seq<Sent>)
    requires Inv(m) && m' == m.(out := m.out + ms) && forall id :: Openings(ms, id) == Finals(ms, id)
    ensures Inv(m')
  {
    forall id | id in m'.conns ensures LinkOk(m', id) {
      assert LinkOk(m, id);
    }
    forall id ensures Balanced(m', id) {
      assert Balanced(m, id);
      CountAppend(m.out, ms, id);
    }
  }

  lemma RelayKeeps(m: Master, sid: nat, msg: Msg)
    requires Inv(m) && (msg.PeerMsg? || msg.ReadyMsg? || msg.NextMsg?)
    ensures Inv(Relay(m, sid, msg))
  {
    if msg.id in m.conns && Ends(m.conns[msg.id], sid) {
      var x := Sent(if sid == m.conns[msg.id].src then m.conns[msg.id].dst else m.conns[msg.id].src, msg);
      forall id ensures Openings([x], id) == Finals([x], id) {
        CountOne(x, id);
      }
      SendKeeps(m, Relay(m, sid, msg), [x]);
    }
  }

  lemma HelloBriefKeeps(m: Master, sid: nat, node: nat, msg: Msg, found: Option<nat>)
    requires Inv(m) && Enabled(m, EvHelloBrief(sid, node, msg, found))
    ensures Inv(HelloBrief(m, sid, node, msg, found))
  {
    var m1 := m.(sessions := m.sessions[sid := m.sessions[sid].(kind := Brief, node := node)]);
    SessionKeeps(m, m1, sid);
    if found.Some? {
      RelayKeeps(m1, found.value, msg);
    }
  }

  lemma CreateKeeps(m: Master, sid: nat, id: Id, dstNode: nat, found: Option<nat>)
    requires Inv(m) && Enabled(m, EvCreate(sid, id, dstNode, found))
    ensures Inv(Create(m, sid, id, dstNode, found))
  {
    var m' := Create(m, sid, id, dstNode, found);
    match Refusal(m, sid, id, dstNode, found) {
      case Some(code) =>
        var x := Sent(sid, StatusMsg(id, code, Unknown));
        forall k ensures Openings([x], k) == Finals([x], k) {
          CountOne(x, k);
        }
        SendKeeps(m, m', [x]);
      case None =>
        var l := m'.conns[id];
        var x, y := Sent(sid, StatusMsg(id, PendingCode, l.srcMode)), Sent(l.dst, RequestMsg(id, l.dstMode));
        forall k | k in m'.conns ensures LinkOk(m', k) {
          if k != id {
            assert LinkOk(m, k);
          }
        }
        forall k ensures Balanced(m', k) {
          assert Balanced(m, k);
          CountAppend(m.out, [x, y], k);
          CountTwo(x, y, k);
        }
    }
  }

  lemma CloseKeeps(m: Master, sid: nat, id: Id, established: bool)
    requires Inv(m)
    ensures Inv(Close(m, sid, id, established))
  {
    if id in m.conns && Ends(m.conns[id], sid) {
      var m', x := Close(m, sid, id, established), FinalFor(m.conns[id], id, sid, if established then EstablishedCode else CanceledCode);
      forall k | k in m'.conns ensures LinkOk(m', k) {
        assert LinkOk(m, k);
      }
      forall k ensures Balanced(m', k) {
        assert Balanced(m, k);
        CountAppend(m.out, [x], k);
        CountOne(x, k);
      }
    }
  }

  /** Every step keeps the invariant. */
  lemma StepKeeps(m: Master, ev: Event)
    requires Inv(m) && Enabled(m, ev)
    ensures Inv(Next(m, ev))
  {
    match ev {
      case EvAccept(sid, hasPeer) => SessionKeeps(m, Next(m, ev), sid);
      case EvHello(sid, node, symm, other, ms) => HelloKeeps(m, sid, node, symm, other, ms);
      case EvHelloBrief(sid, node, msg, found) => HelloBriefKeeps(m, sid, node, msg, found);
      case EvCreate(sid, id, dstNode, found) => CreateKeeps(m, sid, id, dstNode, found);
      case EvClose(sid, id, established) => CloseKeeps(m, sid, id, established);
      case EvRelay(sid, msg) => RelayKeeps(m, sid, msg);
      case EvError(sid, ms) =>
        if m.sessions[sid].kind == Persistent {
          WithoutKeeps(m, sid, ms);
        } else {
          SessionKeeps(m, Next(m, ev), sid);
        }
    }
  }

  // ---------------------------------------------------------------- runs

  function Initial(): Master {
    Master(map[], map[], [])
  }

  ghost predicate IsRun(ss: seq<Master>, evs: seq<Event>) {
    |ss| == |evs| + 1 && ss[0] == Initial() && forall i :: 0 <= i < |evs| ==> IsStep(ss[i], evs[i], ss[i + 1])
  }

  lemma {:induction false} RunInv(ss: seq<Master>, evs: seq<Event>, i: nat)
    requires IsRun(ss, evs) && i < |ss|
    ensures Inv(ss[i])
  {
    if i == 0 {
      forall id ensures Balanced(ss[0], id) {
      }
    } else {
      RunInv(ss, evs, i - 1);
      hide Inv, Next, Enabled;
      assert IsStep(ss[i - 1], evs[i - 1], ss[i]);
      StepKeeps(ss[i - 1], evs[i - 1]);
    }
  }

  /** Of the two ends of a connection, the one that is not `sid`. */
  function OtherEnd(l: Link, sid: nat): nat {
    if sid == l.src then l.dst else l.src
  }

  /**
   * One final status for the connection was sent: to the end that did not close it, which is still there, with `code`
   * and that end's own mode.
   */
  ghost predicate ToldOnce(m: Master, m': Master, id: Id, sid: nat, code: Code)
    requires id in m.conns
  {
    var l := m.conns[id];
    && Ends(l, sid) && |m.out| <= |m'.out| && Finals(m'.out, id) == Finals(m.out, id) + 1
    && exists x :: x in m'.out[|m.out|..] && IsFinal(x, id) && x.to == OtherEnd(l, sid) != sid && x.to in m'.sessions
                   && x.msg.code == code && x.msg.mode == (if x.to == l.src then l.srcMode else l.dstMode)
  }

  /** The session that ends connections in a step: the one that closes, is replaced by a new HELLO of its node, or fails. */
  function Ender(ev: Event): nat {
    match ev
    case EvHello(_, _, _, Some(other), _) => other
    case _ => ev.sid
  }

  function EndCode(ev: Event): Code {
    if ev.EvClose? && ev.established then EstablishedCode else CanceledCode
  }

  lemma CloseTells(m: Master, sid: nat, id: Id, established: bool)
    requires Inv(m) && id in m.conns && Ends(m.conns[id], sid)
    ensures ToldOnce(m, Close(m, sid, id, established), id, sid, EndCode(EvClose(sid, id, established)))
  {
    var m', x := Close(m, sid, id, established), FinalFor(m.conns[id], id, sid, if established then EstablishedCode else CanceledCode);
    CountAppend(m.out, [x], id);
    CountOne(x, id);
    assert LinkOk(m, id);
    assert m'.out[|m.out|..] == [x] && x in [x];
  }

  lemma WithoutCounts(m: Master, sid: nat, ms: seq<Sent>, id: Id)
    requires Notices(m, sid, ms) && id in m.conns && Ends(m.conns[id], sid)
    ensures Finals(m.out + ms, id) == Finals(m.out, id) + 1
  {
    CountAppend(m.out, ms, id);
    CountNotices(m, sid, ms, id);
    NamedIffEnds(m, sid, ms, id);
  }

  lemma NoticeFor(m: Master, sid: nat, ms: seq<Sent>, id: Id) returns (x: Sent)
    requires Notices(m, sid, ms) && id in m.conns && Ends(m.conns[id], sid)
    ensures x in ms && x == FinalFor(m.conns[id], id, sid, CanceledCode)
  {
    var i :| 0 <= i < |ms| && ms[i].msg.id == id;
    assert IsNotice(m, sid, ms[i]);
    x := ms[i];
  }

  lemma WithoutTells(m: Master, m': Master, sid: nat, ms: seq<Sent>, id: Id)
    requires Inv(m) && Notices(m, sid, ms) && id in m.conns && Ends(m.conns[id], sid)
    requires m'.out == m.out + ms && forall x :: x in m.sessions && x != sid ==> x in m'.sessions
    ensures ToldOnce(m, m', id, sid, CanceledCode)
  {
    hide Finals, Openings, Notices;
    WithoutCounts(m, sid, ms, id);
    var x := NoticeFor(m, sid, ms, id);
    assert LinkOk(m, id);
    assert m'.out[|m.out|..] == ms;
  }

  /**
   * A connection that leaves the table in a step was ended by one of its two sessions; the other, which is still there,
   * is sent the final status that says how, and that is the only final status for the connection in that step.
   */
  lemma LeavesWithOneStatus(m: Master, ev: Event, id: Id)
    requires Inv(m) && Enabled(m, ev) && id in m.conns && id !in Next(m, ev).conns
    ensures ToldOnce(m, Next(m, ev), id, Ender(ev), EndCode(ev))
  {
    hide Inv, Notices, ToldOnce;
    match ev {
      case EvClose(sid, k, established) => CloseTells(m, sid, id, established);
      case EvHello(sid, node, symm, other, ms) => WithoutTells(m, Next(m, ev), other.value, ms, id);
      case EvError(sid, ms) => WithoutTells(m, Next(m, ev), sid, ms, id);
      case _ =>
    }
  }

  // ---------------------------------------------------------------- what each step must do

  /**
   * Of every connection in every run: an end connects exactly when its session is symmetric, it accepts exactly when the
   * other end connects, and neither does exactly when neither session is symmetric.
   */
  lemma ModesComplement(ss: seq<Master>, evs: seq<Event>, i: nat, id: Id)
    requires IsRun(ss, evs) && i < |ss| && id in ss[i].conns
    ensures var l, sessions := ss[i].conns[id], ss[i].sessions;
            && l.src in sessions && l.dst in sessions
            && (l.srcMode == SymmConn <==> sessions[l.src].symm) && (l.dstMode == SymmConn <==> sessions[l.dst].symm)
            && (l.srcMode == SymmConn <==> l.dstMode == SymmAcc) && (l.dstMode == SymmConn <==> l.srcMode == SymmAcc)
            && (l.srcMode == Fast == l.dstMode <==> !sessions[l.src].symm && !sessions[l.dst].symm)
            && !(l.srcMode == SymmConn && l.dstMode == SymmConn)
  {
    RunInv(ss, evs, i);
    assert LinkOk(ss[i], id);
  }

  /** The session may create connection id to the persistent session d. */
  predicate MayJoin(m: Master, sid: nat, id: Id, dstNode: nat, d: nat)
    requires sid in m.sessions
  {
    var s := m.sessions[sid];
    && s.node == id.node && dstNode != id.node && s.hasPeer && id !in m.conns
    && IsPersistent(m.sessions, d, dstNode) && m.sessions[d].hasPeer && !(s.symm && m.sessions[d].symm)
  }

  /** The connection is in the table, each end in the mode that fits, and both are sent their own. */
  ghost predicate Joined(m: Master, m': Master, sid: nat, id: Id, d: nat)
    requires sid in m.sessions && d in m.sessions
  {
    && m'.sessions == m.sessions && id in m'.conns && m'.conns - {id} == m.conns
    && var l := m'.conns[id];
       && l.src == sid && l.dst == d
       && Fits(l.srcMode, m.sessions[sid].symm, m.sessions[d].symm) && Fits(l.dstMode, m.sessions[d].symm, m.sessions[sid].symm)
       && m'.out == m.out + [Sent(sid, StatusMsg(id, PendingCode, l.srcMode)), Sent(d, RequestMsg(id, l.dstMode))]
  }

  /** Nothing changes, and the session is told why: a request that is wrong by itself or twice, then an unknown node, then its NAT. */
  ghost predicate TurnedDown(m: Master, m': Master, sid: nat, id: Id, dstNode: nat)
    requires sid in m.sessions
  {
    var s := m.sessions[sid];
    && m'.sessions == m.sessions && m'.conns == m.conns
    && exists code :: m'.out == m.out + [Sent(sid, StatusMsg(id, code, Unknown))]
         && (code == NotFoundCode <==>
               s.node == id.node != dstNode && s.hasPeer && id !in m.conns && forall d :: d in m.sessions ==> !IsPersistent(m.sessions, d, dstNode))
         && (code == SymmCode <==>
               && s.node == id.node != dstNode && s.hasPeer && id !in m.conns
               && exists d: nat :: IsPersistent(m.sessions, d, dstNode) && m.sessions[d].hasPeer && s.symm && m.sessions[d].symm)
         && (code == NotFoundCode || code == SymmCode || code == UnknownCode)
  }

  /** CONN_CREATE succeeds exactly when one of the node's persistent sessions may be joined. */
  ghost predicate CreateOutcome(m: Master, m': Master, sid: nat, id: Id, dstNode: nat)
    requires sid in m.sessions
  {
    && (forall d :: d in m.sessions && MayJoin(m, sid, id, dstNode, d) ==> Joined(m, m', sid, id, d))
    && ((forall d :: d in m.sessions ==> !MayJoin(m, sid, id, dstNode, d)) ==> TurnedDown(m, m', sid, id, dstNode))
  }

  lemma CreateExactly(m: Master, sid: nat, id: Id, dstNode: nat, found: Option<nat>)
    requires Inv(m) && Enabled(m, EvCreate(sid, id, dstNode, found))
    ensures CreateOutcome(m, Next(m, EvCreate(sid, id, dstNode, found)), sid, id, dstNode)
  {
    var m' := Next(m, EvCreate(sid, id, dstNode, found));
    forall d: nat | IsPersistent(m.sessions, d, dstNode) ensures found == Some(d) {
      assert found.Some? ==> IsPersistent(m.sessions, found.value, dstNode);
    }
    forall d | d in m.sessions && MayJoin(m, sid, id, dstNode, d) ensures Joined(m, m', sid, id, d) {
      assert m'.conns - {id} == m.conns;
    }
    if forall d :: d in m.sessions ==> !MayJoin(m, sid, id, dstNode, d) {
      assert found.Some? ==> !MayJoin(m, sid, id, dstNode, found.value);
      var code := Refusal(m, sid, id, dstNode, found).value;
      assert m'.out == m.out + [Sent(sid, StatusMsg(id, code, Unknown))];
    }
  }

  /** A step ends a connection exactly when it is closed by an end, or an end fails, or says HELLO anew. */
  predicate EndedIn(m: Master, ev: Event, id: Id)
    requires id in m.conns
  {
    var l := m.conns[id];
    match ev
    case EvClose(sid, k, _) => k == id && Ends(l, sid)
    case EvError(sid, _) => Ends(l, sid)
    case EvHello(_, node, _, _, _) =>
      (l.src in m.sessions && m.sessions[l.src].node == node) || (l.dst in m.sessions && m.sessions[l.dst].node == node)
    case _ => false
  }

  /** A connection stays in the table, unchanged, until it is ended; and only CONN_CREATE adds one. */
  lemma EndsExactly(m: Master, ev: Event, id: Id)
    requires Inv(m) && Enabled(m, ev)
    ensures var m' := Next(m, ev);
            && (id in m.conns ==> (id in m'.conns <==> !EndedIn(m, ev, id)) && (id in m'.conns ==> m'.conns[id] == m.conns[id]))
            && (id !in m.conns && id in m'.conns ==> ev.EvCreate? && ev.id == id)
  {
    if id in m.conns {
      assert LinkOk(m, id);
      if ev.EvHello? {
        HelloEnds(m, ev, id);
      }
    }
  }

  lemma HelloEnds(m: Master, ev: Event, id: Id)
    requires Inv(m) && Enabled(m, ev) && id in m.conns && ev.EvHello?
    ensures EndedIn(m, ev, id) <==> ev.other.Some? && Ends(m.conns[id], ev.other.value)
  {
    var l := m.conns[id];
    assert LinkOk(m, id);
    assert m.sessions[l.src].node == ev.node ==> IsPersistent(m.sessions, l.src, ev.node);
    assert m.sessions[l.dst].node == ev.node ==> IsPersistent(m.sessions, l.dst, ev.node);
    assert ev.other.Some? ==> IsPersistent(m.sessions, ev.other.value, ev.node);
  }

  /** After HELLO the node's one persistent session is the one that said it, with the NAT it told; other nodes keep theirs. */
  lemma HelloReplaces(m: Master, ev: Event, a: nat, node: nat)
    requires Inv(m) && Enabled(m, ev) && ev.EvHello?
    ensures var t := Next(m, ev).sessions;
            && (IsPersistent(t, a, node) <==> if node == ev.node then a == ev.sid else IsPersistent(m.sessions, a, node))
            && (a in t <==> a in m.sessions && !IsPersistent(m.sessions, a, ev.node))
            && (a in t ==> t[a] == if a == ev.sid then Sess(Persistent, ev.node, ev.symm, m.sessions[a].hasPeer) else m.sessions[a])
  {
    if IsPersistent(m.sessions, a, ev.node) {
      assert ev.other.Some? ==> IsPersistent(m.sessions, ev.other.value, ev.node);
    }
  }

  /** READY and NEXT reach the other end exactly when the sender is an end of the connection. */
  lemma RelayExactly(m: Master, ev: Event)
    requires Inv(m) && Enabled(m, ev) && ev.EvRelay?
    ensures var id := ev.msg.id;
            var m' := Next(m, ev);
            && m'.sessions == m.sessions && m'.conns == m.conns
            && (id in m.conns && Ends(m.conns[id], ev.sid) ==>
                  m'.out == m.out + [Sent(if ev.sid == m.conns[id].src then m.conns[id].dst else m.conns[id].src, ev.msg)])
            && (id in m.conns && Ends(m.conns[id], ev.sid) <==> m'.out != m.out)
  {
    if ev.msg.id in m.conns && Ends(m.conns[ev.msg.id], ev.sid) {
      assert |Next(m, ev).out| == |m.out| + 1;
    }
  }

  /** The address a short session comes from is told to the other end of its node's connection, exactly when it has one. */
  lemma PeerTold(m: Master, ev: Event, d: nat)
    requires Inv(m) && Enabled(m, ev) && ev.EvHelloBrief? && IsPersistent(m.sessions, d, ev.node)
    ensures var id := ev.msg.id;
            var m' := Next(m, ev);
            && m'.conns == m.conns
            && m'.out == m.out + if m.sessions[ev.sid].hasPeer && id in m.conns && m.conns[id].src == d then [Sent(m.conns[id].dst, ev.msg)]
                                 else if m.sessions[ev.sid].hasPeer && id in m.conns && m.conns[id].dst == d then [Sent(m.conns[id].src, ev.msg)]
                                 else []
  {
    assert ev.found.Some? ==> IsPersistent(m.sessions, ev.found.value, ev.node);
    assert ev.found == Some(d);
  }

  /** Everything relayed for a connection goes to one of its ends, and comes from the other. */
  lemma RelaysBetweenEnds(ss: seq<Master>, evs: seq<Event>, i: nat)
    requires IsRun(ss, evs) && i < |evs| && evs[i].EvRelay? && ss[i + 1].out != ss[i].out
    ensures var l := ss[i].conns[evs[i].msg.id];
            var x := ss[i + 1].out[|ss[i].out|];
            && ss[i + 1].out == ss[i].out + [x] && x.msg == evs[i].msg
            && x.to != evs[i].sid && Ends(l, x.to) && Ends(l, evs[i].sid) && x.to in ss[i].sessions
  {
    RunInv(ss, evs, i);
    assert IsStep(ss[i], evs[i], ss[i + 1]);
    assert LinkOk(ss[i], evs[i].msg.id);
  }
}
