// dmaster/Server.cpp: the sessions of the nodes and the connections between them.
module MasterModel {
  import opened Common
  import opened Protocol

  /** Kinds of sessions: before HELLO, a node's own session, or a short one for probing or for one rendezvous. */
  datatype Kind = Silent | Persistent | Brief

  datatype Sess = Sess(kind: Kind, node: nat, symm: bool, hasPeer: bool)

  datatype Link = Link(src: nat, dst: nat, srcMode: Mode, dstMode: Mode)

  datatype Code = PendingCode | EstablishedCode | CanceledCode | UnknownCode | NotFoundCode | SymmCode

  datatype Msg =
    | StatusMsg(id: Id, code: Code, mode: Mode)
    | RequestMsg(id: Id, mode: Mode)
    | PeerMsg(id: Id, symm: bool)
    | ReadyMsg(id: Id)
    | NextMsg(id: Id)

  datatype Sent = Sent(to: nat, msg: Msg)

  /** `out` is everything sent so far. */
  datatype Master = Master(sessions: map<nat, Sess>, conns: map<Id, Link>, out: seq<Sent>)

  // ---------------------------------------------------------------- parts

  predicate IsPersistent(sessions: map<nat, Sess>, sid: nat, node: nat) {
    sid in sessions && sessions[sid].kind == Persistent && sessions[sid].node == node
  }

  /** `found` is the persistent session of the node, if there is one. */
  ghost predicate Finds(sessions: map<nat, Sess>, node: nat, found: Option<nat>) {
    match found
    case Some(sid) => IsPersistent(sessions, sid, node)
    case None => forall sid :: sid in sessions ==> !IsPersistent(sessions, sid, node)
  }

  predicate Ends(l: Link, sid: nat) {
    l.src == sid || l.dst == sid
  }

  /** What the other end of a connection is told when `sid` closes it. */
  function FinalFor(l: Link, id: Id, sid: nat, code: Code): Sent
    requires Ends(l, sid)
  {
    if sid == l.src then Sent(l.dst, StatusMsg(id, code, l.dstMode)) else Sent(l.src, StatusMsg(id, code, l.srcMode))
  }

  predicate IsNotice(m: Master, sid: nat, x: Sent) {
    x.msg.StatusMsg? && x.msg.id in m.conns && Ends(m.conns[x.msg.id], sid) && x == FinalFor(m.conns[x.msg.id], x.msg.id, sid, CanceledCode)
  }

  /** `ms` tells, once each, the other ends of all connections of `sid`. */
  ghost predicate Notices(m: Master, sid: nat, ms: seq<Sent>) {
    && (forall i :: 0 <= i < |ms| ==> IsNotice(m, sid, ms[i]))
    && (forall i, j :: 0 <= i < j < |ms| ==> ms[i].msg.id != ms[j].msg.id)
    && (forall id :: id in m.conns && Ends(m.conns[id], sid) ==> exists i :: 0 <= i < |ms| && ms[i].msg.id == id)
  }

  ghost function Without(m: Master, sid: nat, ms: seq<Sent>): Master {
    m.(sessions := m.sessions - {sid}, conns := map id | id in m.conns && !Ends(m.conns[id], sid) :: m.conns[id], out := m.out + ms)
  }

  /** removeSession, where a session that is not persistent takes no connections with it. */
  ghost function RemoveSession(m: Master, sid: nat, ms: seq<Sent>): Master
    requires sid in m.sessions
  {
    if m.sessions[sid].kind == Persistent then Without(m, sid, ms) else m.(sessions := m.sessions - {sid})
  }

  ghost function HelloPersistent(m: Master, sid: nat, node: nat, symm: bool, other: Option<nat>, ms: seq<Sent>): Master
    requires sid in m.sessions
  {
    var m1 := m.(sessions := m.sessions[sid := m.sessions[sid].(kind := Persistent, node := node, symm := symm)]);
    if other.Some? then Without(m1, other.value, ms) else m1
  }

  function Modes(srcSymm: bool, dstSymm: bool): (Mode, Mode) {
    if srcSymm then (SymmConn, SymmAcc) else if dstSymm then (SymmAcc, SymmConn) else (Fast, Fast)
  }

  /** Why a connection is refused, if it is. */
  function Refusal(m: Master, sid: nat, id: Id, dstNode: nat, found: Option<nat>): Option<Code>
    requires sid in m.sessions && (found.Some? ==> found.value in m.sessions)
  {
    var s := m.sessions[sid];
    if s.node != id.node || dstNode == id.node || !s.hasPeer || id in m.conns then Some(UnknownCode)
    else if found.None? then Some(NotFoundCode)
    else if !m.sessions[found.value].hasPeer then Some(UnknownCode)
    else if s.symm && m.sessions[found.value].symm then Some(SymmCode)
    else None
  }

  function Create(m: Master, sid: nat, id: Id, dstNode: nat, found: Option<nat>): Master
    requires sid in m.sessions && (found.Some? ==> found.value in m.sessions)
  {
    match Refusal(m, sid, id, dstNode, found)
    case Some(code) => m.(out := m.out + [Sent(sid, StatusMsg(id, code, Unknown))])
    case None =>
      assert found.Some?;
      var (srcMode, dstMode) := Modes(m.sessions[sid].symm, m.sessions[found.value].symm);
      m.(conns := m.conns[id := Link(sid, found.value, srcMode, dstMode)],
         out := m.out + [Sent(sid, StatusMsg(id, PendingCode, srcMode)), Sent(found.value, RequestMsg(id, dstMode))])
  }

  function Close(m: Master, sid: nat, id: Id, established: bool): Master {
    if id !in m.conns || !Ends(m.conns[id], sid) then m
    else m.(conns := m.conns - {id},
            out := m.out + [FinalFor(m.conns[id], id, sid, if established then EstablishedCode else CanceledCode)])
  }

  /** READY and NEXT, and the peer address from HELLO_FAST and HELLO_SYMM, go from one end to the other. */
  function Relay(m: Master, sid: nat, msg: Msg): Master {
    if msg.id !in m.conns || !Ends(m.conns[msg.id], sid) then m
    else m.(out := m.out + [Sent(if sid == m.conns[msg.id].src then m.conns[msg.id].dst else m.conns[msg.id].src, msg)])
  }

  function HelloBrief(m: Master, sid: nat, node: nat, msg: Msg, found: Option<nat>): Master
    requires sid in m.sessions
  {
    var m1 := m.(sessions := m.sessions[sid := m.sessions[sid].(kind := Brief, node := node)]);
    if !m.sessions[sid].hasPeer || found.None? then m1 else Relay(m1, found.value, msg)
  }

  // ---------------------------------------------------------------- steps

  datatype Event =
    | EvAccept(sid: nat, hasPeer: bool)
    | EvHello(sid: nat, node: nat, symm: bool, other: Option<nat>, ms: seq<Sent>)
    | EvHelloBrief(sid: nat, node: nat, msg: Msg, found: Option<nat>)
    | EvCreate(sid: nat, id: Id, dstNode: nat, found: Option<nat>)
    | EvClose(sid: nat, id: Id, established: bool)
    | EvRelay(sid: nat, msg: Msg)
    | EvError(sid: nat, ms: seq<Sent>)

  /** Each session says HELLO once, and only persistent sessions create, close and relay, as the node's client does. */
  ghost predicate Enabled(m: Master, ev: Event) {
    match ev
    case EvAccept(sid, _) => sid !in m.sessions
    case EvHello(sid, node, symm, other, ms) =>
      && sid in m.sessions && m.sessions[sid].kind == Silent && Finds(m.sessions, node, other)
      && (other.Some? ==> Notices(m, other.value, ms))
    case EvHelloBrief(sid, node, msg, found) =>
      sid in m.sessions && m.sessions[sid].kind == Silent && Finds(m.sessions, node, found) && msg.PeerMsg?
    case EvCreate(sid, id, dstNode, found) => sid in m.sessions && m.sessions[sid].kind == Persistent && Finds(m.sessions, dstNode, found)
    case EvClose(sid, id, _) => sid in m.sessions && m.sessions[sid].kind == Persistent
    case EvRelay(sid, msg) => sid in m.sessions && m.sessions[sid].kind == Persistent && (msg.ReadyMsg? || msg.NextMsg?)
    case EvError(sid, ms) => sid in m.sessions && (m.sessions[sid].kind == Persistent ==> Notices(m, sid, ms))
  }

  ghost function Next(m: Master, ev: Event): Master
    requires Enabled(m, ev)
  {
    match ev
    case EvAccept(sid, hasPeer) => m.(sessions := m.sessions[sid := Sess(Silent, 0, false, hasPeer)])
    case EvHello(sid, node, symm, other, ms) => HelloPersistent(m, sid, node, symm, other, ms)
    case EvHelloBrief(sid, node, msg, found) => HelloBrief(m, sid, node, msg, found)
    case EvCreate(sid, id, dstNode, found) => Create(m, sid, id, dstNode, found)
    case EvClose(sid, id, established) => Close(m, sid, id, established)
    case EvRelay(sid, msg) => Relay(m, sid, msg)
    case EvError(sid, ms) => RemoveSession(m, sid, ms)
  }

  ghost predicate IsStep(m: Master, ev: Event, m': Master) {
    Enabled(m, ev) && m' == Next(m, ev)
  }

  // ---------------------------------------------------------------- what every step keeps

  /** A connection joins two different live persistent sessions, in modes that fit each other and their NATs. */
  ghost predicate LinkOk(m: Master, id: Id)
    requires id in m.conns
  {
    var l := m.conns[id];
    && l.src in m.sessions && l.dst in m.sessions && l.src != l.dst
    && m.sessions[l.src].kind == Persistent && m.sessions[l.dst].kind == Persistent
    && m.sessions[l.src].node == id.node && m.sessions[l.dst].node != id.node
    && !(m.sessions[l.src].symm && m.sessions[l.dst].symm)
    && Fits(l.srcMode, m.sessions[l.src].symm, m.sessions[l.dst].symm) && Fits(l.dstMode, m.sessions[l.dst].symm, m.sessions[l.src].symm)
  }

  /** The mode of one end: it connects when its own NAT is symmetric, accepts when the other's is, and else both do. */
  predicate Fits(mode: Mode, symm: bool, otherSymm: bool) {
    (mode == SymmConn <==> symm) && (mode == SymmAcc <==> otherSymm) && (mode == Fast <==> !symm && !otherSymm)
  }

  /** A node has at most one persistent session. */
  ghost predicate OneEach(sessions: map<nat, Sess>) {
    forall a, b ::
      (a in sessions && b in sessions && sessions[a].kind == Persistent && IsPersistent(sessions, b, sessions[a].node)) ==> a == b
  }

  predicate IsOpening(x: Sent, id: Id) {
    x.msg.RequestMsg? && x.msg.id == id
  }

  /** The statuses that end a connection: established or cancelled. */
  predicate IsFinal(x: Sent, id: Id) {
    x.msg.StatusMsg? && x.msg.id == id && (x.msg.code == EstablishedCode || x.msg.code == CanceledCode)
  }

  function Openings(out: seq<Sent>, id: Id): nat {
    if out == [] then 0 else Openings(out[..|out| - 1], id) + if IsOpening(out[|out| - 1], id) then 1 else 0
  }

  function Finals(out: seq<Sent>, id: Id): nat {
    if out == [] then 0 else Finals(out[..|out| - 1], id) + if IsFinal(out[|out| - 1], id) then 1 else 0
  }

  /** Every opening of a connection is matched by one final status once the connection has left the table. */
  ghost predicate Balanced(m: Master, id: Id) {
    Openings(m.out, id) == Finals(m.out, id) + if id in m.conns then 1 else 0
  }

  ghost predicate Inv(m: Master) {
    && OneEach(m.sessions)
    && (forall id {:trigger LinkOk(m, id)} :: id in m.conns ==> LinkOk(m, id))
    && (forall id {:trigger Balanced(m, id)} :: Balanced(m, id))
  }
}
