// dnode/DMasterClient.cpp: the connections of a node and the queue of those waiting for rendezvous, one section run
// under the lock at a time.
module NodeModel {
  import opened Common
  import opened Protocol

  const WRAP: nat := 0x1_0000_0000

  datatype Status = Unsent | Pending | Established

  datatype Session = NoSession | Ready | Running

  /** `bound` is whether a port or a proxy session is kept for the connection. */
  datatype Conn = Conn(mode: Mode, status: Status, sess: Session, bound: bool)

  /**
   * `draining` counts the threads that have yet to run the loop that drains the queue; `proxying` holds the connections
   * being handed to a proxy. `asked` holds the ids whose CONN_CREATE was sent and not answered, `abandoned` those of
   * them that were closed while they waited for the answer.
   */
  datatype State = State(conns: map<Id, Conn>, queue: seq<Id>, nextIdx: nat, connected: bool, draining: nat, proxying: set<Id>,
                         asked: set<Id>, abandoned: set<Id>)

  /** The connection waits for the master to answer its CONN_CREATE. */
  predicate Waiting(s: State, id: Id) {
    id in s.conns && s.conns[id].mode == Unknown && s.conns[id].status == Pending
  }

  /** A symmetric session that connects is under way. */
  predicate SymmRunning(conns: map<Id, Conn>) {
    exists id :: id in conns && IsSymmRunning(conns[id])
  }

  predicate IsSymmRunning(c: Conn) {
    c.sess == Running && c.mode == SymmConn
  }

  function Removed(queue: seq<Id>, id: Id): (r: seq<Id>) {
    if queue == [] then [] else (if queue[0] == id then [] else [queue[0]]) + Removed(queue[1..], id)
  }

  /** The next connection index; 0 is skipped. */
  function FreshIdx(nextIdx: nat): (nat, nat) {
    if nextIdx == 0 then (1, 2) else (nextIdx, (nextIdx + 1) % WRAP)
  }

  // ---------------------------------------------------------------- the sections

  /** registerConnection: the first to wait asks the master at once. */
  function Register(s: State, node: nat): State {
    if !s.connected then s else
      var (idx, next) := FreshIdx(s.nextIdx);
      var id := Id(node, idx);
      var status := if !SymmRunning(s.conns) && s.queue == [] then Pending else Unsent;
      s.(conns := s.conns[id := Conn(Unknown, status, NoSession, false)], queue := s.queue + [id], nextIdx := next,
         asked := if status == Pending then s.asked + {id} else s.asked)
  }

  function Drop(s: State, id: Id): State {
    s.(conns := s.conns - {id}, queue := Removed(s.queue, id), draining := s.draining + 1)
  }

  /** onRecvMsgConn: the other side of a connection asks for rendezvous. */
  function Invited(s: State, id: Id, mode: Mode): State {
    if id in s.conns then s
    else s.(conns := s.conns[id := Conn(mode, Pending, Ready, false)], queue := s.queue + [id], draining := s.draining + 1)
  }

  function Answered(s: State, id: Id): State {
    s.(asked := s.asked - {id}, abandoned := s.abandoned - {id})
  }

  /** The master's answer to a created connection. */
  function Accepted(s: State, id: Id, mode: Mode): State {
    if id !in s.conns then Answered(s, id)
    else Answered(s, id).(conns := s.conns[id := s.conns[id].(mode := mode)], draining := s.draining + 1)
  }

  function Confirmed(s: State, id: Id): State {
    if id !in s.conns then s
    else if s.conns[id].sess == NoSession then s.(draining := s.draining + 1)
    else s.(conns := s.conns[id := s.conns[id].(status := Established)], draining := s.draining + 1)
  }

  /** closeConnection. */
  function Closed(s: State, id: Id): State {
    if id !in s.conns then s
    else Drop(s, id).(abandoned := if Waiting(s, id) then s.abandoned + {id} else s.abandoned)
  }

  /** A refusal or the end of a connection, from the master. */
  function Refused(s: State, id: Id): State {
    if id !in s.conns then Answered(s, id) else Answered(Drop(s, id), id)
  }

  /** onRendezvous up to the callback: the session is over, for better or worse; `proxy` is whether a proxy is started next. */
  function Met(s: State, id: Id, ok: bool, kept: bool, proxy: bool): State {
    if id !in s.conns then s
    else if ok then s.(conns := s.conns[id := s.conns[id].(status := Established, sess := NoSession, bound := kept)],
                       draining := s.draining + 1, proxying := if proxy then s.proxying + {id} else s.proxying)
    else s.(conns := s.conns - {id}, draining := s.draining + 1)
  }

  /** onRendezvous after the proxy was started, or not. */
  function Proxied(s: State, id: Id, ok: bool): State {
    var s1 := s.(proxying := s.proxying - {id});
    if id !in s.conns then s1
    else if ok then s1.(conns := s.conns[id := s.conns[id].(bound := true)])
    else s1.(conns := s.conns - {id})
  }

  function ProxyDone(s: State, id: Id): State {
    s.(conns := s.conns - {id})
  }

  /** The head of the queue may start its session now. */
  predicate MayStart(c: Conn, symmRunning: bool) {
    c.mode == Fast || c.mode == SymmAcc || (!symmRunning && c.mode == SymmConn)
  }

  /** One call of processRendezvous, with whether a session that is started does start; the result says whether to go on. */
  function Process(s: State, ok: bool): (State, bool)
    requires s.queue != [] ==> s.queue[0] in s.conns
  {
    if !s.connected || s.queue == [] then (s, false)
    else
      var id := s.queue[0];
      var c := s.conns[id];
      if c.mode == Unknown && c.status == Unsent then
        (s.(conns := s.conns[id := c.(status := Pending)], asked := s.asked + {id}), false)
      else if MayStart(c, SymmRunning(s.conns)) then
        (s.(queue := s.queue[1..], conns := if ok then s.conns[id := c.(sess := Running)] else s.conns - {id}), true)
      else (s, false)
  }

  function Drain(s: State, ok: bool): State
    requires s.queue != [] ==> s.queue[0] in s.conns
    requires s.draining > 0
  {
    var (s', more) := Process(s, ok);
    if more then s' else s'.(draining := s.draining - 1)
  }

  // ---------------------------------------------------------------- steps

  datatype Event =
    | EvRegister(node: nat)
    | EvClose(id: Id)
    | EvRefused(id: Id)
    | EvInvited(id: Id, mode: Mode)
    | EvAccepted(id: Id, mode: Mode)
    | EvConfirmed(id: Id)
    | EvMet(id: Id, ok: bool, kept: bool, proxy: bool)
    | EvProxied(id: Id, ok: bool)
    | EvProxyDone(id: Id)
    | EvDrain(ok: bool)
    | EvConnect
    | EvLost

  /**
   * What may happen: ids are not used again while they are in use or unanswered, the master accepts a connection once,
   * after it was asked, and confirms one only after its session started; only started sessions end and only proxies that
   * were given a connection are done. The client connects to the master before anything is queued.
   */
  ghost predicate Enabled(s: State, ev: Event) {
    match ev
    case EvRegister(node) => Id(node, FreshIdx(s.nextIdx).0) !in s.conns.Keys + s.proxying + s.asked
    case EvClose(id) => true
    case EvRefused(id) => true
    case EvInvited(id, mode) => mode != Unknown && id !in s.proxying
    case EvAccepted(id, mode) => mode != Unknown && (id in s.conns ==> Waiting(s, id))
    case EvConfirmed(id) => id in s.conns ==> s.conns[id].sess != Ready
    case EvMet(id, ok, kept, proxy) => id in s.conns ==> s.conns[id].sess == Running
    case EvProxied(id, ok) => id in s.proxying
    case EvProxyDone(id) => id in s.conns ==> id in s.proxying || s.conns[id].bound
    case EvDrain(ok) => s.draining > 0
    case EvConnect => !s.connected && s.queue == []
    case EvLost => true
  }

  ghost function Next(s: State, ev: Event): State
    requires Enabled(s, ev) && (s.queue != [] ==> s.queue[0] in s.conns)
  {
    match ev
    case EvRegister(node) => Register(s, node)
    case EvClose(id) => Closed(s, id)
    case EvRefused(id) => Refused(s, id)
    case EvInvited(id, mode) => Invited(s, id, mode)
    case EvAccepted(id, mode) => Accepted(s, id, mode)
    case EvConfirmed(id) => Confirmed(s, id)
    case EvMet(id, ok, kept, proxy) => Met(s, id, ok, kept, proxy)
    case EvProxied(id, ok) => Proxied(s, id, ok)
    case EvProxyDone(id) => ProxyDone(s, id)
    case EvDrain(ok) => Drain(s, ok)
    case EvConnect => s.(connected := true)
    case EvLost => s.(connected := false)
  }

  ghost predicate IsStep(s: State, ev: Event, s': State) {
    (s.queue != [] ==> s.queue[0] in s.conns) && Enabled(s, ev) && s' == Next(s, ev)
  }

  // ---------------------------------------------------------------- what every step keeps

  /** A queued connection has not started, and no port or proxy is kept for it; one that waits for the master is the first. */
  ghost predicate QueuedOk(s: State, i: nat)
    requires i < |s.queue|
  {
    && s.queue[i] in s.conns
    && var c := s.conns[s.queue[i]];
       && c.sess != Running && !c.bound && c.status != Established && s.queue[i] !in s.proxying
       && (i > 0 ==> !(c.mode == Unknown && c.status == Pending))
  }

  /** A connection waits in the queue, runs its session or is established: none is forgotten. */
  ghost predicate ConnOk(s: State, id: Id)
    requires id in s.conns
  {
    var c := s.conns[id];
    && (id in s.queue || c.sess == Running || c.status == Established)
    && (c.mode == Unknown ==> c.sess == NoSession && id in s.queue)
    && (c.status == Unsent ==> c.mode == Unknown) && (c.sess == Ready ==> id in s.queue)
    && (id in s.proxying || c.bound ==> c.status == Established && c.sess == NoSession)
  }

  ghost predicate AtMostOne(s: State) {
    forall a, b :: a in s.conns && b in s.conns && IsSymmRunning(s.conns[a]) && IsSymmRunning(s.conns[b]) ==> a == b
  }

  /**
   * The first in the queue waits for the master, or for the symmetric session under way, or some thread is about to
   * drain the queue: the queue never stalls.
   */
  ghost predicate Moving(s: State) {
    s.connected && s.queue != [] ==>
      || s.draining > 0 || SymmRunning(s.conns)
      || (s.queue[0] in s.conns && s.conns[s.queue[0]].mode == Unknown && s.conns[s.queue[0]].status == Pending)
  }

  ghost predicate Inv(s: State) {
    && NoDup(s.queue)
    && (forall i {:trigger QueuedOk(s, i)} :: 0 <= i < |s.queue| ==> QueuedOk(s, i))
    && (forall id {:trigger ConnOk(s, id)} :: id in s.conns ==> ConnOk(s, id))
    && AtMostOne(s) && Moving(s)
  }
}
