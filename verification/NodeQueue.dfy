// What holds of a node's connections in every run.
module NodeQueue {
  import opened Common
  import opened NodeModel
  import opened Protocol

  lemma {:induction false} RemovedIs(queue: seq<Id>, id: Id)
    requires NoDup(queue)
    ensures NoDup(Removed(queue, id)) && forall x :: x in Removed(queue, id) <==> x in queue && x != id
    ensures queue != [] && queue[0] != id ==> Removed(queue, id) != [] && Removed(queue, id)[0] == queue[0]
    ensures id !in queue ==> Removed(queue, id) == queue
  {
    if queue != [] {
      RemovedIs(queue[1..], id);
      assert queue == [queue[0]] + queue[1..];
      assert queue[0] !in queue[1..];
    }
  }

  lemma RemovedStep(queue: seq<Id>, i: nat, id: Id)
    requires i < |queue|
    ensures Removed(queue[i..], id) == (if queue[i] == id then [] else [queue[i]]) + Removed(queue[i + 1..], id)
  {
    assert queue[i..][1..] == queue[i + 1..];
  }

  lemma RemovedDone(queue: seq<Id>, id: Id)
    ensures Removed(queue[|queue|..], id) == []
  {
  }

  /** A connection that is not started may be queued last. */
  lemma QueuedAgain(s: State, s': State, id: Id)
    requires Inv(s) && id !in s.conns && id !in s.proxying && s'.queue == s.queue + [id] && s'.proxying == s.proxying
    requires id in s'.conns && s'.conns == s.conns[id := s'.conns[id]]
    requires var c := s'.conns[id];
             && c.sess != Running && !c.bound && c.status != Established && (c.mode == Unknown ==> c.sess == NoSession)
             && (c.status == Unsent ==> c.mode == Unknown) && (s.queue != [] ==> !(c.mode == Unknown && c.status == Pending))
    requires Moving(s')
    ensures Inv(s')
  {
    forall i | 0 <= i < |s.queue| ensures s.queue[i] in s.conns {
      assert QueuedOk(s, i);
    }
    forall i | 0 <= i < |s'.queue| ensures QueuedOk(s', i) {
      if i < |s.queue| {
        assert QueuedOk(s, i);
      }
    }
    forall x | x in s'.conns ensures ConnOk(s', x) {
      if x != id {
        assert ConnOk(s, x);
      } else {
        assert s'.queue[|s.queue|] == id;
      }
    }
  }

  lemma RegisterKeeps(s: State, node: nat)
    requires Inv(s) && Enabled(s, EvRegister(node))
    ensures Inv(Register(s, node))
  {
    if s.connected {
      var s' := Register(s, node);
      var id := Id(node, FreshIdx(s.nextIdx).0);
      assert SymmRunning(s.conns) ==> SymmRunning(s'.conns) by {
        if SymmRunning(s.conns) {
          var x :| x in s.conns && IsSymmRunning(s.conns[x]);
          assert IsSymmRunning(s'.conns[x]);
        }
      }
      if s.queue != [] {
        assert QueuedOk(s, 0);
      }
      QueuedAgain(s, s', id);
    }
  }

  /** That the counter has not come round to an id still waiting is needed: it would be queued twice. */
  lemma ReusedIdQueuedTwice(s: State, node: nat)
    requires s.connected && Id(node, FreshIdx(s.nextIdx).0) in s.queue
    ensures !NoDup(Register(s, node).queue)
  {
    var id, q := Id(node, FreshIdx(s.nextIdx).0), Register(s, node).queue;
    var i :| 0 <= i < |s.queue| && s.queue[i] == id;
    assert q[i] == q[|s.queue|];
  }

  lemma InvitedKeeps(s: State, id: Id, mode: Mode)
    requires Inv(s) && mode != Unknown && id !in s.proxying
    ensures Inv(Invited(s, id, mode))
  {
    if id !in s.conns {
      QueuedAgain(s, Invited(s, id, mode), id);
    }
  }

  lemma DropKeeps(s: State, id: Id)
    requires Inv(s)
    ensures Inv(Drop(s, id))
  {
    RemovedIs(s.queue, id);
    var s' := Drop(s, id);
    forall i | 0 <= i < |s'.queue| ensures QueuedOk(s', i) {
      assert s'.queue[i] in s.queue;
      var j :| 0 <= j < |s.queue| && s.queue[j] == s'.queue[i];
      assert QueuedOk(s, j);
      assert j == 0 ==> s'.queue[0] == s'.queue[i];
    }
    forall x | x in s'.conns ensures ConnOk(s', x) {
      assert ConnOk(s, x);
    }
  }

  lemma ClosedKeeps(s: State, id: Id)
    requires Inv(s)
    ensures Inv(Closed(s, id)) && Inv(Refused(s, id))
  {
    if id in s.conns {
      DropKeeps(s, id);
      SameConns(Drop(s, id), Closed(s, id));
      SameConns(Drop(s, id), Refused(s, id));
    } else {
      SameConns(s, Refused(s, id));
    }
  }

  /** A connection that is not queued changes or goes. */
  lemma OutsideKeeps(s: State, s': State, id: Id)
    requires Inv(s) && id !in s.queue && s'.queue == s.queue
    requires forall x :: x in s'.conns && x != id ==> x in s.conns && s'.conns[x] == s.conns[x]
    requires forall x :: x in s.conns && x != id ==> x in s'.conns
    requires forall x :: x != id ==> (x in s'.proxying <==> x in s.proxying)
    requires id in s'.conns ==>
               && ConnOk(s', id) && (IsSymmRunning(s'.conns[id]) ==> id in s.conns && IsSymmRunning(s.conns[id]))
    requires Moving(s')
    ensures Inv(s')
  {
    forall i | 0 <= i < |s'.queue| ensures QueuedOk(s', i) {
      assert QueuedOk(s, i);
      assert s.queue[i] in s.queue;
    }
    forall x | x in s'.conns ensures ConnOk(s', x) {
      if x != id {
        assert ConnOk(s, x);
      }
    }
  }

  lemma NotQueued(s: State, id: Id)
    requires Inv(s) && id in s.conns
    requires s.conns[id].sess == Running || s.conns[id].bound || s.conns[id].status == Established || id in s.proxying
    ensures id !in s.queue
  {
    forall i | 0 <= i < |s.queue| ensures s.queue[i] != id {
      assert QueuedOk(s, i);
    }
  }

  lemma IsQueued(s: State, id: Id)
    requires Inv(s) && id in s.queue
    ensures id in s.conns && id !in s.proxying
  {
    var i :| 0 <= i < |s.queue| && s.queue[i] == id;
    assert QueuedOk(s, i);
  }

  lemma MetKeeps(s: State, id: Id, ok: bool, kept: bool, proxy: bool)
    requires Inv(s) && Enabled(s, EvMet(id, ok, kept, proxy))
    ensures Inv(Met(s, id, ok, kept, proxy))
  {
    if id in s.conns {
      NotQueued(s, id);
      assert ConnOk(s, id);
      OutsideKeeps(s, Met(s, id, ok, kept, proxy), id);
    }
  }

  /** Losing a connection that runs no session leaves a running one running. */
  lemma StillMoving(s: State, s': State, id: Id)
    requires Moving(s) && s'.queue == s.queue && s'.draining == s.draining && s'.connected == s.connected && id !in s.queue
    requires forall x :: x in s.conns && x != id ==> x in s'.conns && s'.conns[x] == s.conns[x]
    requires id in s.conns ==> !IsSymmRunning(s.conns[id])
    ensures Moving(s')
  {
    if SymmRunning(s.conns) {
      var x :| x in s.conns && IsSymmRunning(s.conns[x]);
      assert x in s'.conns && IsSymmRunning(s'.conns[x]);
    }
  }

  lemma ProxiedKeeps(s: State, id: Id, ok: bool)
    requires Inv(s) && id in s.proxying
    ensures Inv(Proxied(s, id, ok))
  {
    var s' := Proxied(s, id, ok);
    if id in s.queue {
      IsQueued(s, id);
    }
    assert id in s.conns ==> ConnOk(s, id);
    StillMoving(s, s', id);
    OutsideKeeps(s, s', id);
  }

  lemma ProxyDoneKeeps(s: State, id: Id)
    requires Inv(s) && Enabled(s, EvProxyDone(id))
    ensures Inv(ProxyDone(s, id))
  {
    if id in s.conns {
      NotQueued(s, id);
      assert ConnOk(s, id);
      StillMoving(s, ProxyDone(s, id), id);
      OutsideKeeps(s, ProxyDone(s, id), id);
    } else {
      assert ProxyDone(s, id) == s;
    }
  }

  lemma ConfirmedKeeps(s: State, id: Id)
    requires Inv(s) && Enabled(s, EvConfirmed(id))
    ensures Inv(Confirmed(s, id))
  {
    if id in s.conns {
      assert ConnOk(s, id);
      if s.conns[id].sess == NoSession {
        SameConns(s, Confirmed(s, id));
      } else {
        NotQueued(s, id);
        OutsideKeeps(s, Confirmed(s, id), id);
      }
    }
  }

  lemma SameConns(s: State, s': State)
    requires Inv(s) && s'.conns == s.conns && s'.queue == s.queue && s'.proxying == s.proxying && Moving(s')
    ensures Inv(s')
  {
    forall i | 0 <= i < |s'.queue| ensures QueuedOk(s', i) {
      assert QueuedOk(s, i);
    }
    forall x | x in s'.conns ensures ConnOk(s', x) {
      assert ConnOk(s, x);
    }
  }

  /** The first in the queue learns its mode, or is asked about. */
  lemma HeadKeeps(s: State, s': State)
    requires Inv(s) && s.queue != [] && s'.queue == s.queue && s'.proxying == s.proxying && Moving(s')
    requires s.queue[0] in s.conns && s.queue[0] in s'.conns && s'.conns == s.conns[s.queue[0] := s'.conns[s.queue[0]]]
    requires var c, c' := s.conns[s.queue[0]], s'.conns[s.queue[0]];
             c'.sess == c.sess && c'.bound == c.bound && c'.status == Pending && (c'.mode == Unknown ==> c.mode == Unknown)
    ensures Inv(s')
  {
    assert QueuedOk(s, 0);
    assert ConnOk(s, s.queue[0]);
    forall i | 0 <= i < |s'.queue| ensures QueuedOk(s', i) {
      assert QueuedOk(s, i);
    }
    forall x | x in s'.conns ensures ConnOk(s', x) {
      if x != s.queue[0] {
        assert ConnOk(s, x);
      }
    }
  }

  /** A connection that waits for the master is the first in the queue. */
  lemma WaitingIsFirst(s: State, id: Id)
    requires Inv(s) && Waiting(s, id)
    ensures s.queue != [] && s.queue[0] == id
  {
    assert ConnOk(s, id);
    var i :| 0 <= i < |s.queue| && s.queue[i] == id;
    assert QueuedOk(s, i);
  }

  lemma AcceptedKeeps(s: State, id: Id, mode: Mode)
    requires Inv(s) && Enabled(s, EvAccepted(id, mode))
    ensures Inv(Accepted(s, id, mode))
  {
    if id in s.conns {
      WaitingIsFirst(s, id);
      HeadKeeps(s, Accepted(s, id, mode));
    } else {
      SameConns(s, Accepted(s, id, mode));
    }
  }

  /** The head leaves the queue to run its session, or because that did not start. */
  lemma StartKeeps(s: State, s': State)
    requires Inv(s) && s.queue != [] && s'.queue == s.queue[1..] && s'.proxying == s.proxying && s'.draining > 0
    requires s.queue[0] in s.conns && s.conns[s.queue[0]].mode != Unknown
    requires s.conns[s.queue[0]].mode == SymmConn ==> !SymmRunning(s.conns)
    requires s'.conns == s.conns - {s.queue[0]} || s'.conns == s.conns[s.queue[0] := s.conns[s.queue[0]].(sess := Running)]
    ensures Inv(s')
  {
    assert QueuedOk(s, 0);
    assert ConnOk(s, s.queue[0]);
    assert s.queue == [s.queue[0]] + s.queue[1..];
    forall i | 0 <= i < |s'.queue| ensures QueuedOk(s', i) {
      assert QueuedOk(s, i + 1);
    }
    forall x | x in s'.conns ensures ConnOk(s', x) {
      assert ConnOk(s, x);
    }
  }

  lemma DrainKeeps(s: State, ok: bool)
    requires Inv(s) && s.draining > 0 && (s.queue != [] ==> s.queue[0] in s.conns)
    ensures Inv(Drain(s, ok))
  {
    var s' := Drain(s, ok);
    var (s1, more) := Process(s, ok);
    if more {
      StartKeeps(s, s');
    } else if s.connected && s.queue != [] {
      var id := s.queue[0];
      assert ConnOk(s, id) && QueuedOk(s, 0);
      if s1 == s {
        SameConns(s, s');
      } else {
        HeadKeeps(s, s');
      }
    } else {
      SameConns(s, s');
    }
  }

  lemma HeadKnown(s: State)
    requires Inv(s)
    ensures s.queue != [] ==> s.queue[0] in s.conns
  {
    if s.queue != [] {
      assert QueuedOk(s, 0);
    }
  }

  /** Every step keeps the invariant. */
  lemma StepKeeps(s: State, ev: Event)
    requires Inv(s) && Enabled(s, ev)
    ensures s.queue != [] ==> s.queue[0] in s.conns
    ensures Inv(Next(s, ev))
  {
    HeadKnown(s);
    match ev {
      case EvRegister(node) => RegisterKeeps(s, node);
      case EvClose(id) => ClosedKeeps(s, id);
      case EvRefused(id) => ClosedKeeps(s, id);
      case EvInvited(id, mode) => InvitedKeeps(s, id, mode);
      case EvAccepted(id, mode) => AcceptedKeeps(s, id, mode);
      case EvConfirmed(id) => ConfirmedKeeps(s, id);
      case EvMet(id, ok, kept, proxy) => MetKeeps(s, id, ok, kept, proxy);
      case EvProxied(id, ok) => ProxiedKeeps(s, id, ok);
      case EvProxyDone(id) => ProxyDoneKeeps(s, id);
      case EvDrain(ok) => DrainKeeps(s, ok);
      case EvConnect => SameConns(s, s.(connected := true));
      case EvLost => SameConns(s, s.(connected := false));
    }
  }

  // ---------------------------------------------------------------- runs

  function Initial(connected: bool): State {
    State(map[], [], 0, connected, 0, {}, {}, {})
  }

  ghost predicate IsRun(ss: seq<State>, evs: seq<Event>) {
    |ss| == |evs| + 1 && ss[0] == Initial(ss[0].connected) && forall i :: 0 <= i < |evs| ==> IsStep(ss[i], evs[i], ss[i + 1])
  }

  lemma {:induction false} RunInv(ss: seq<State>, evs: seq<Event>, i: nat)
    requires IsRun(ss, evs) && i < |ss|
    ensures Inv(ss[i])
  {
    if i > 0 {
      RunInv(ss, evs, i - 1);
      hide Inv, Next, Enabled;
      assert IsStep(ss[i - 1], evs[i - 1], ss[i]);
      StepKeeps(ss[i - 1], evs[i - 1]);
    }
  }

  // ---------------------------------------------------------------- unanswered CONN_CREATEs

  /** The unanswered ids are those that wait and those that were closed while they waited. */
  ghost predicate AskedOk(s: State) {
    forall id {:trigger id in s.asked} {:trigger id in s.abandoned} {:trigger Waiting(s, id)} ::
      id in s.asked <==> id in s.abandoned || Waiting(s, id)
  }

  /** What AskedOk says of one id. */
  predicate AskedAt(s: State, id: Id) {
    id in s.asked <==> id in s.abandoned || Waiting(s, id)
  }

  lemma AskedRegister(s: State, node: nat, id: Id)
    requires Enabled(s, EvRegister(node)) && AskedAt(s, id)
    requires AskedAt(s, Id(node, FreshIdx(s.nextIdx).0)) && (s.queue != [] ==> s.queue[0] in s.conns)
    ensures AskedAt(Next(s, EvRegister(node)), id)
  {
    hide SymmRunning;
  }

  lemma AskedAnswer(s: State, ev: Event, id: Id)
    requires Enabled(s, ev) && AskedAt(s, id) && (ev.EvClose? || ev.EvRefused? || ev.EvAccepted? || ev.EvInvited?)
    requires s.queue != [] ==> s.queue[0] in s.conns
    ensures AskedAt(Next(s, ev), id)
  {
    hide SymmRunning, Removed;
  }

  lemma AskedSession(s: State, ev: Event, id: Id)
    requires Enabled(s, ev) && AskedAt(s, id) && (ev.EvConfirmed? || ev.EvMet? || ev.EvProxied? || ev.EvProxyDone?)
    requires s.queue != [] ==> s.queue[0] in s.conns
    requires id in s.conns ==> ConnOk(s, id)
    ensures AskedAt(Next(s, ev), id)
  {
    hide SymmRunning, Removed;
  }

  lemma AskedDrain(s: State, ok: bool, id: Id)
    requires Enabled(s, EvDrain(ok)) && AskedAt(s, id) && (s.queue != [] ==> s.queue[0] in s.conns)
    requires id in s.conns ==> ConnOk(s, id)
    ensures AskedAt(Next(s, EvDrain(ok)), id)
  {
    hide SymmRunning, Removed;
  }

  lemma AskedKeeps(s: State, ev: Event)
    requires Inv(s) && AskedOk(s) && Enabled(s, ev)
    ensures s.queue != [] ==> s.queue[0] in s.conns
    ensures AskedOk(Next(s, ev))
  {
    HeadKnown(s);
    forall id ensures id in s.conns ==> ConnOk(s, id) {
    }
    hide Inv, ConnOk, Enabled, Next, AskedOk;
    forall id ensures AskedAt(Next(s, ev), id) {
      AskedIs(s, id);
      match ev {
        case EvRegister(node) =>
          AskedIs(s, Id(node, FreshIdx(s.nextIdx).0));
          AskedRegister(s, node, id);
        case EvClose(_) => AskedAnswer(s, ev, id);
        case EvRefused(_) => AskedAnswer(s, ev, id);
        case EvAccepted(_, _) => AskedAnswer(s, ev, id);
        case EvInvited(_, _) => AskedAnswer(s, ev, id);
        case EvConfirmed(_) => AskedSession(s, ev, id);
        case EvMet(_, _, _, _) => AskedSession(s, ev, id);
        case EvProxied(_, _) => AskedSession(s, ev, id);
        case EvProxyDone(_) => AskedSession(s, ev, id);
        case EvDrain(ok) => AskedDrain(s, ok, id);
        case EvConnect => AskedLine(s, ev, id);
        case EvLost => AskedLine(s, ev, id);
      }
    }
    AskedAll(Next(s, ev));
  }

  lemma AskedLine(s: State, ev: Event, id: Id)
    requires Enabled(s, ev) && AskedAt(s, id) && (ev.EvConnect? || ev.EvLost?) && (s.queue != [] ==> s.queue[0] in s.conns)
    ensures AskedAt(Next(s, ev), id)
  {
  }

  lemma AskedIs(s: State, id: Id)
    requires AskedOk(s)
    ensures AskedAt(s, id)
  {
  }

  lemma AskedAll(s: State)
    requires forall id {:trigger AskedAt(s, id)} :: AskedAt(s, id)
    ensures AskedOk(s)
  {
    forall id ensures id in s.asked <==> id in s.abandoned || Waiting(s, id) {
      assert AskedAt(s, id);
    }
  }

  lemma {:induction false} RunAsked(ss: seq<State>, evs: seq<Event>, i: nat)
    requires IsRun(ss, evs) && i < |ss|
    ensures AskedOk(ss[i])
  {
    if i > 0 {
      RunAsked(ss, evs, i - 1);
      RunInv(ss, evs, i - 1);
      hide Inv, Next, Enabled, AskedOk;
      assert IsStep(ss[i - 1], evs[i - 1], ss[i]);
      AskedKeeps(ss[i - 1], evs[i - 1]);
    }
  }

  predicate Answers(ev: Event, id: Id) {
    (ev.EvAccepted? || ev.EvRefused?) && ev.id == id
  }

  /** The connection was closed at step k while it waited, and nothing answered it before step i. */
  ghost predicate ClosedWaiting(ss: seq<State>, evs: seq<Event>, i: nat, id: Id, k: nat) {
    && k < i <= |evs| && i < |ss| && evs[k] == EvClose(id) && Waiting(ss[k], id)
    && forall l :: k < l < i ==> !Answers(evs[l], id)
  }

  lemma AbandonedStep(s: State, ev: Event, id: Id)
    requires Enabled(s, ev) && (s.queue != [] ==> s.queue[0] in s.conns)
    ensures id in Next(s, ev).abandoned <==> (ev == EvClose(id) && Waiting(s, id)) || (id in s.abandoned && !Answers(ev, id))
  {
    hide SymmRunning, Removed;
  }

  /** An unanswered connection that no longer waits is exactly one that was closed while it waited. */
  lemma {:induction false} AbandonedIsClosed(ss: seq<State>, evs: seq<Event>, i: nat, id: Id)
    requires IsRun(ss, evs) && i < |ss|
    ensures id in ss[i].abandoned <==> exists k :: ClosedWaiting(ss, evs, i, id, k)
  {
    hide Next, Enabled;
    if i > 0 {
      AbandonedIsClosed(ss, evs, i - 1, id);
      assert IsStep(ss[i - 1], evs[i - 1], ss[i]);
      AbandonedStep(ss[i - 1], evs[i - 1], id);
      if id in ss[i].abandoned {
        if evs[i - 1] == EvClose(id) && Waiting(ss[i - 1], id) {
          assert ClosedWaiting(ss, evs, i, id, i - 1);
        } else {
          var k :| ClosedWaiting(ss, evs, i - 1, id, k);
          ClosedStep(ss, evs, i, id, k);
        }
      }
      if exists k :: ClosedWaiting(ss, evs, i, id, k) {
        var k :| ClosedWaiting(ss, evs, i, id, k);
        ClosedStep(ss, evs, i, id, k);
      }
    }
  }

  lemma ClosedStep(ss: seq<State>, evs: seq<Event>, i: nat, id: Id, k: nat)
    requires 0 < i < |ss| == |evs| + 1
    ensures ClosedWaiting(ss, evs, i, id, k) <==>
            if k == i - 1 then evs[k] == EvClose(id) && Waiting(ss[k], id)
            else ClosedWaiting(ss, evs, i - 1, id, k) && !Answers(evs[i - 1], id)
  {
  }

  /**
   * In every state of every run, an id has an unanswered CONN_CREATE exactly when its connection waits for the master,
   * and then it is the head of the queue, or was closed while it waited and not answered since.
   */
  lemma Unanswered(ss: seq<State>, evs: seq<Event>, i: nat, id: Id)
    requires IsRun(ss, evs) && i < |ss|
    ensures id in ss[i].asked <==> Waiting(ss[i], id) || exists k :: ClosedWaiting(ss, evs, i, id, k)
    ensures Waiting(ss[i], id) ==> ss[i].queue != [] && ss[i].queue[0] == id
  {
    RunInv(ss, evs, i);
    RunAsked(ss, evs, i);
    AbandonedIsClosed(ss, evs, i, id);
    hide IsRun, ClosedWaiting, Inv;
    if Waiting(ss[i], id) {
      WaitingIsFirst(ss[i], id);
    }
  }

  /** Two connections are registered, and the first is closed while it waits. */
  function CloseHead(node: nat): (seq<State>, seq<Event>) {
    var a, b := Id(node, 1), Id(node, 2);
    var pending, unsent := Conn(Unknown, Pending, NoSession, false), Conn(Unknown, Unsent, NoSession, false);
    ([Initial(true),
      State(map[a := pending], [a], 2, true, 0, {}, {a}, {}),
      State(map[a := pending, b := unsent], [a, b], 3, true, 0, {}, {a}, {}),
      State(map[b := unsent], [b], 3, true, 1, {}, {a}, {a}),
      State(map[b := pending], [b], 3, true, 0, {}, {a, b}, {a})],
     [EvRegister(node), EvRegister(node), EvClose(a), EvDrain(true)])
  }

  lemma RegisterTwo(node: nat)
    ensures var (ss, evs) := CloseHead(node); IsStep(ss[0], evs[0], ss[1]) && IsStep(ss[1], evs[1], ss[2])
  {
    hide Removed;
    var (ss, evs) := CloseHead(node);
    assert Register(ss[0], node) == ss[1];
    assert Register(ss[1], node) == ss[2];
  }

  lemma CloseFirst(node: nat)
    ensures var (ss, evs) := CloseHead(node); IsStep(ss[2], evs[2], ss[3])
  {
    hide SymmRunning;
    var (ss, evs) := CloseHead(node);
    var a, b := Id(node, 1), Id(node, 2);
    RemovedIs([b], a);
    assert [a, b][1..] == [b];
    assert Removed([a, b], a) == [b];
    assert ss[2].conns - {a} == ss[3].conns;
  }

  lemma AskNext(node: nat)
    ensures var (ss, evs) := CloseHead(node); IsStep(ss[3], evs[3], ss[4]) && |ss[4].asked| == 2
  {
    hide SymmRunning, Removed;
    var (ss, evs) := CloseHead(node);
    assert Drain(ss[3], true) == ss[4];
  }

  /** So two CONN_CREATEs can be unanswered at once: closing the head sends the next one without waiting. */
  lemma TwoUnanswered(node: nat)
    ensures var (ss, evs) := CloseHead(node); IsRun(ss, evs) && |ss| == 5 && |ss[4].asked| == 2 && ss[4].queue == [Id(node, 2)]
  {
    hide IsStep;
    RegisterTwo(node);
    CloseFirst(node);
    AskNext(node);
    var (ss, evs) := CloseHead(node);
    forall i | 0 <= i < |evs| ensures IsStep(ss[i], evs[i], ss[i + 1]) {
      if i == 0 {
      } else if i == 1 {
      } else if i == 2 {
      } else {
        assert i == 3;
      }
    }
  }
}
