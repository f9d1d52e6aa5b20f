// Waiting requests: whenever the first of a class could be served, something that will serve it is under way, except in
// two situations the code does not cover.
module PortWakeup {
  import opened Common
  import opened PortModel
  import opened PortInvariant

  /** At time t the first request of class k cannot be served. */
  ghost predicate Quiet(c: Config, s: State, k: nat, t: int)
    requires k < |s.requests| && k < |c.quota| && k < |s.reserved|
  {
    !HeadFits(c, s, k) || s.requests[k][0].n < 1 || s.requests[k][0].n > |Pickable(s.ports, t)|
  }

  /** A run over the requests is posted, a decay timer is running, or the reactor has yet to serve class k. */
  ghost predicate Coming(s: State, k: nat) {
    s.kicks > 0 || s.timers != [] || (s.handler.Working? && s.handler.next <= k)
  }

  /** The time up to which class k has been looked at. */
  ghost function SeenAt(s: State, k: nat): int
    requires IsTimed(s.handler) ==> k < |s.handler.at|
  {
    if IsTimed(s.handler) then s.handler.at[k] else s.clock
  }

  ghost predicate WokenAt(c: Config, s: State, k: nat)
    requires Shape(c, s) && k < 2
  {
    Coming(s, k) || Quiet(c, s, k, SeenAt(s, k))
  }

  /** No request that could be served is forgotten. */
  ghost predicate Woken(c: Config, s: State)
    requires Shape(c, s)
  {
    WokenAt(c, s, 0) && WokenAt(c, s, 1)
  }

  lemma SubsetSize(a: set<nat>, b: set<nat>)
    requires a <= b
    ensures |a| <= |b|
  {
    assert b == a + (b - a);
  }

  /** With fewer ports to pick from and no more quota, nothing becomes servable. */
  lemma QuietLess(c: Config, s: State, s': State, k: nat, t: int, t': int)
    requires Shape(c, s) && Shape(c, s') && k < 2 && Quiet(c, s, k, t)
    requires s'.requests[k] == s.requests[k] && s'.reserved[k] >= s.reserved[k]
    requires Pickable(s'.ports, t') <= Pickable(s.ports, t)
    ensures Quiet(c, s', k, t')
  {
    SubsetSize(Pickable(s'.ports, t'), Pickable(s.ports, t));
  }

  /** With no timer running, no port decays as time passes. */
  lemma NothingDecays(c: Config, s: State, now: int)
    requires Inv(c, s) && ClockOk(c, s, now) && s.timers == [] && !IsTimed(s.handler)
    ensures Pickable(s.ports, now) == Pickable(s.ports, s.clock)
  {
  }

  /** A step that serves no one: the ports of class k only become fewer, and time passes. */
  lemma WokenStays(c: Config, s: State, s': State, k: nat)
    requires Inv(c, s) && Shape(c, s') && k < 2 && WokenAt(c, s, k) && ClockOk(c, s, s'.clock)
    requires Coming(s, k) ==> Coming(s', k)
    requires !Coming(s, k) ==>
               && IsTimed(s'.handler) == IsTimed(s.handler)
               && (IsTimed(s.handler) ==> k < |s'.handler.at| && s'.handler.at[k] == s.handler.at[k])
               && s'.requests[k] == s.requests[k] && s'.reserved[k] >= s.reserved[k]
               && forall t :: Pickable(s'.ports, t) <= Pickable(s.ports, t)
    ensures WokenAt(c, s', k)
  {
    if !Coming(s, k) {
      if !IsTimed(s.handler) {
        NothingDecays(c, s, s'.clock);
      }
      QuietLess(c, s, s', k, SeenAt(s, k), SeenAt(s', k));
    }
  }

  lemma ReserveWoken(c: Config, s: State, k: nat, n: int, r: nat, ids: seq<nat>, now: int)
    requires Inv(c, s) && Woken(c, s) && Enabled(c, s, EvReserve(k, n, r, ids, now))
    ensures Woken(c, ReserveNow(c, s, k, n, r, ids, now))
  {
    var s' := ReserveNow(c, s, k, n, r, ids, now);
    WokenStays(c, s, s', 0);
    WokenStays(c, s, s', 1);
  }

  lemma UseWoken(c: Config, s: State, r: nat, now: int)
    requires Inv(c, s) && Woken(c, s) && ClockOk(c, s, now) && HasPorts(s, r)
    ensures Woken(c, Use(c, s, r, now))
  {
    var s' := Use(c, s, r, now);
    forall p | p in s.held[r] ensures p < |s.ports| && s.ports[p].status != Free {
      assert OwnedBy(s.ports, s.held, s.owner, r, p);
    }
    assert forall t :: Pickable(s'.ports, t) <= Pickable(s.ports, t);
    WokenStays(c, s, s', 0);
    WokenStays(c, s, s', 1);
  }

  /** A class is done only when its first request cannot be served. */
  lemma ServeWoken(c: Config, s: State, ids: seq<nat>, now: int)
    requires Inv(c, s) && Woken(c, s) && Enabled(c, s, EvServe(ids, now))
    ensures Woken(c, Serve(c, s, ids, now))
  {
    hide Accounts, Owned, Queued, Decays, Timed, NoDup;
    var k, s' := s.handler.next, Serve(c, s, ids, now);
    MarkedFewer(s.ports, ids, Kind(k));
    hide Marked, Pickable;
    WokenStays(c, s, s', 1 - k);
    if !HeadFits(c, s, k) || ids == [] {
      assert Quiet(c, s', k, now);
    }
  }

  lemma MarkedFewer(ports: seq<Port>, ids: seq<nat>, st: Status)
    requires st != Free
    ensures forall t :: Pickable(Marked(ports, ids, st), t) <= Pickable(ports, t)
  {
  }

  // ---------------------------------------------------------------- the two gaps

  /** Cancelling r uncovers a request of class k that could be served now, with nothing under way. */
  ghost predicate Uncovers(c: Config, s: State, r: nat, k: nat)
    requires Shape(c, s) && k < 2
  {
    && !Coming(s, k) && |s.requests[k]| >= 2 && s.requests[k][0].r == r
    && 1 <= s.requests[k][1].n <= c.quota[k] - s.reserved[k]
    && s.requests[k][1].n <= |Pickable(s.ports, SeenAt(s, k))|
  }

  lemma CancelHead(q: seq<Request>, r: nat)
    requires OnceEach(q)
    ensures q != [] && q[0].r == r ==> Dropped(q, r) == q[1..]
    ensures q != [] && q[0].r != r ==> Dropped(q, r) != [] && Dropped(q, r)[0] == q[0]
    ensures q == [] ==> Dropped(q, r) == []
  {
  }

  lemma CancelWokenAt(c: Config, s: State, r: nat, k: nat)
    requires Inv(c, s) && k < 2 && WokenAt(c, s, k)
    ensures WokenAt(c, Cancel(s, r), k) <==> !Uncovers(c, s, r, k)
  {
    CancelHead(s.requests[k], r);
  }

  /** A cancelled request leaves the others to be served exactly when it was not the one they were waiting behind. */
  lemma CancelWoken(c: Config, s: State, r: nat)
    requires Inv(c, s) && Woken(c, s)
    ensures Woken(c, Cancel(s, r)) <==> !Uncovers(c, s, r, 0) && !Uncovers(c, s, r, 1)
  {
    CancelWokenAt(c, s, r, 0);
    CancelWokenAt(c, s, r, 1);
  }

  /**
   * When the decay timeout, having looked at class k at handler.at[k], reads the clock for the last time at `now`: no run
   * over the requests is posted, no port decays any more, and the first request of class k, within its quota, asks for
   * more ports than could be picked then but no more than can be picked now.
   */
  ghost predicate Overlooks(c: Config, s: State, now: int, k: nat)
    requires Shape(c, s) && k < 2 && s.handler.Working? && s.handler.next == 2
  {
    && s.kicks == 0 && (forall p :: 0 <= p < |s.ports| ==> !(now < s.ports[p].decay < NEVER))
    && HeadFits(c, s, k) && |Pickable(s.ports, s.handler.at[k])| < s.requests[k][0].n <= |Pickable(s.ports, now)|
  }

  lemma FinishTimerWokenAt(c: Config, s: State, e: Option<int>, now: int, k: nat)
    requires k < 2 && Inv(c, s) && WokenAt(c, s, k) && Enabled(c, s, EvFinishTimer(e, now))
    ensures WokenAt(c, FinishTimer(s, e, now), k) <==> !Overlooks(c, s, now, k)
  {
    hide Accounts, Owned, Queued, Decays;
    var s' := FinishTimer(s, e, now);
    assert Quiet(c, s', k, now) == Quiet(c, s, k, now);
  }

  /** The decay timeout leaves no request unserved exactly when it overlooks neither class. */
  lemma FinishTimerWoken(c: Config, s: State, e: Option<int>, now: int)
    requires Inv(c, s) && Woken(c, s) && Enabled(c, s, EvFinishTimer(e, now))
    ensures Woken(c, FinishTimer(s, e, now)) <==> !Overlooks(c, s, now, 0) && !Overlooks(c, s, now, 1)
  {
    hide Inv, WokenAt;
    FinishTimerWokenAt(c, s, e, now, 0);
    FinishTimerWokenAt(c, s, e, now, 1);
  }

  /** That takes a free port whose decay ends between the clock reading that served class k and the last one. */
  lemma OverlookedPort(c: Config, s: State, e: Option<int>, now: int, k: nat)
    requires Inv(c, s) && Woken(c, s) && Enabled(c, s, EvFinishTimer(e, now)) && k < 2 && Overlooks(c, s, now, k)
    ensures exists p :: 0 <= p < |s.ports| && s.ports[p].status == Free && s.handler.at[k] < s.ports[p].decay <= now
  {
    if forall p :: 0 <= p < |s.ports| && s.ports[p].status == Free ==> !(s.handler.at[k] < s.ports[p].decay <= now) {
      SubsetSize(Pickable(s.ports, now), Pickable(s.ports, s.handler.at[k]));
    }
  }

  // ---------------------------------------------------------------- runs

  /** The event is one of the two that can leave a request unserved. */
  ghost predicate Forgets(c: Config, s: State, ev: Event)
    requires Shape(c, s) && Enabled(c, s, ev)
  {
    match ev
    case EvCancel(r) => Uncovers(c, s, r, 0) || Uncovers(c, s, r, 1)
    case EvFinishTimer(e, now) => Overlooks(c, s, now, 0) || Overlooks(c, s, now, 1)
    case _ => false
  }

  lemma OtherWoken(c: Config, s: State, ev: Event)
    requires Inv(c, s) && Woken(c, s) && Enabled(c, s, ev)
    requires ev.EvStartKick? || ev.EvStartTimer? || ev.EvFinishKick? || ev.EvPosted? || ev.EvEnqueue? || ev.EvKeepalive? || ev.EvRelease?
    ensures Shape(c, Next(c, s, ev)) && Woken(c, Next(c, s, ev))
  {
    StepKeeps(c, s, ev);
  }

  /** A step forgets a request exactly when it is one of those two. */
  lemma StepWoken(c: Config, s: State, ev: Event)
    requires Inv(c, s) && Woken(c, s) && Enabled(c, s, ev)
    ensures Inv(c, Next(c, s, ev)) && (Woken(c, Next(c, s, ev)) <==> !Forgets(c, s, ev))
  {
    hide Accounts, Owned, Queued, Decays, Timed, WokenAt, Uncovers, Overlooks, GoodPick;
    StepKeeps(c, s, ev);
    match ev {
      case EvReserve(k, n, r, ids, now) => ReserveWoken(c, s, k, n, r, ids, now);
      case EvUse(r, now) => UseWoken(c, s, r, now);
      case EvServe(ids, now) => ServeWoken(c, s, ids, now);
      case EvCancel(r) => CancelWoken(c, s, r);
      case EvFinishTimer(e, now) => FinishTimerWoken(c, s, e, now);
      case _ => OtherWoken(c, s, ev);
    }
  }

  function Initial(c: Config, clock: int): (s: State)
    requires |c.quota| == 2
  {
    var n := c.quota[0] + c.quota[1];
    State(seq(n, _ => Port(Free, 0)), [[], []], [0, 0], map[], false, [], 0, Idle, clock, seq(n, _ => None))
  }

  lemma InitialInv(c: Config, clock: int)
    requires |c.quota| == 2 && clock >= 0
    ensures Inv(c, Initial(c, clock)) && Woken(c, Initial(c, clock))
  {
    var s := Initial(c, clock);
    assert Holders(s.ports, Symm) == {} && Holders(s.ports, Fast) == {};
  }

  /** The states of a run: any interleaving of the callers' threads, the reactor and the clock. */
  ghost predicate IsRun(c: Config, ss: seq<State>, evs: seq<Event>) {
    && |c.quota| == 2 && |ss| == |evs| + 1 && ss[0].clock >= 0 && ss[0] == Initial(c, ss[0].clock)
    && forall i :: 0 <= i < |evs| ==> IsStep(c, ss[i], evs[i], ss[i + 1])
  }

  ghost predicate Remembers(c: Config, s: State, ev: Event) {
    Shape(c, s) && Enabled(c, s, ev) && !Forgets(c, s, ev)
  }

  /**
   * In every state of every run the accounts, the owners, the queues, the decay times and the timer are right; and no
   * request that could be served is forgotten as long as neither of the two gaps was hit.
   */
  lemma {:induction false} RunSafe(c: Config, ss: seq<State>, evs: seq<Event>, i: nat)
    requires IsRun(c, ss, evs) && i < |ss|
    ensures Inv(c, ss[i])
    ensures (forall j :: 0 <= j < i ==> Remembers(c, ss[j], evs[j])) ==> Woken(c, ss[i])
  {
    hide Inv, Woken, Forgets, Next, Enabled;
    if i == 0 {
      InitialInv(c, ss[0].clock);
    } else {
      RunSafe(c, ss, evs, i - 1);
      assert IsStep(c, ss[i - 1], evs[i - 1], ss[i]);
      StepKeeps(c, ss[i - 1], evs[i - 1]);
      if forall j :: 0 <= j < i ==> Remembers(c, ss[j], evs[j]) {
        StepWoken(c, ss[i - 1], evs[i - 1]);
      }
    }
  }

  /** Only the first waiting request of a class can get ports, by being served, and it gets exactly as many as it asked for. */
  lemma FirstComeFirstServed(c: Config, s: State, ev: Event, k: nat, i: nat)
    requires Inv(c, s) && Enabled(c, s, ev) && k < 2 && i < |s.requests[k]|
    ensures var q, s' := s.requests[k][i], Next(c, s, ev);
            q.r in s'.held && (s'.held[q.r] != [] ==> i == 0 && ev.EvServe? && |s'.held[q.r]| == q.n)
  {
    hide Owned, Decays, Timed, Accounts;
    var q := s.requests[k][i];
    assert q.r in s.held && s.held[q.r] == [];
    if ev.EvServe? && s.handler.next != k {
      assert s.requests[s.handler.next] != [] ==> s.requests[s.handler.next][0].r != q.r;
    }
  }

  /** What the invariant says of the timer: one is running while a port decays, and it goes off within one ms of the end. */
  lemma TimerInTime(c: Config, s: State, p: nat)
    requires Inv(c, s) && p < |s.ports| && s.clock < s.ports[p].decay < NEVER
    ensures s.decayRunning
    ensures IsTimed(s.handler) || (|s.timers| == 1 && s.timers[0].since + s.timers[0].delay * MS <= s.ports[p].decay + MS)
  {
    assert InTime(s.timers, s.ports[p]);
  }

  /** A timer handed to the reactor at `now` is late by no more than the time since it was decided on. */
  lemma PostedInTime(c: Config, s: State, now: int, p: nat)
    requires Inv(c, s) && Enabled(c, s, EvPosted(now)) && p < |s.ports| && now < s.ports[p].decay < NEVER
    ensures Posted(s, now).timers[0].Armed?
    ensures Posted(s, now).timers[0].due <= s.ports[p].decay + MS + (now - s.timers[0].since)
  {
    TimerInTime(c, s, p);
  }

  // ---------------------------------------------------------------- both gaps are real

  /** Some run ends in s. */
  ghost predicate Reachable(c: Config, s: State) {
    exists ss, evs :: IsRun(c, ss, evs) && ss[|evs|] == s
  }

  lemma ReachInitial(c: Config, clock: int)
    requires |c.quota| == 2 && clock >= 0
    ensures Reachable(c, Initial(c, clock))
  {
    assert IsRun(c, [Initial(c, clock)], []);
  }

  lemma Reach(c: Config, s: State, ev: Event, s': State)
    requires Reachable(c, s) && IsStep(c, s, ev, s')
    ensures Reachable(c, s')
  {
    hide IsStep, Initial;
    var ss, evs :| IsRun(c, ss, evs) && ss[|evs|] == s;
    var ss', evs' := ss + [s'], evs + [ev];
    forall i | 0 <= i < |evs'| ensures IsStep(c, ss'[i], evs'[i], ss'[i + 1]) {
      if i < |evs| {
        assert IsStep(c, ss[i], evs[i], ss[i + 1]);
      }
    }
    assert IsRun(c, ss', evs');
  }

  /** One run over the requests that serves no one. */
  lemma ReachIdleRun(c: Config, s: State)
    requires Shape(c, s) && Reachable(c, s) && s.handler.Idle? && s.kicks > 0 && ClockOk(c, s, s.clock)
    requires Quiet(c, s, 0, s.clock) && Quiet(c, s, 1, s.clock)
    ensures Reachable(c, s.(kicks := s.kicks - 1))
  {
    hide Reachable;
    var now := s.clock;
    var s1 := StartKick(s);
    Reach(c, s, EvStartKick, s1);
    var s2 := Serve(c, s1, [], now);
    Reach(c, s1, EvServe([], now), s2);
    var s3 := Serve(c, s2, [], now);
    Reach(c, s2, EvServe([], now), s3);
    Reach(c, s3, EvFinishKick, FinishKick(s3));
    assert FinishKick(s3) == s.(kicks := s.kicks - 1);
  }

  lemma PickOne(ports: seq<Port>, now: int, p: nat)
    requires p < |ports| && ports[p].status == Free && ports[p].decay <= now
    ensures GoodPick(ports, now, 1, [p])
  {
    assert p in Pickable(ports, now);
    SubsetSize({p}, Pickable(ports, now));
  }

  /** Two ports are asked for while one is in use, and a request for one port waits behind. */
  function BlockedHead(kicks: nat): State {
    State([Port(Fast, 0), Port(Free, 0)], [[], [Request(2, 1), Request(1, 2)]], [0, 1],
          map[0 := [0], 1 := [], 2 := []], false, [], kicks, Idle, 5, [Some(0), None])
  }

  lemma BlockedHeadQuiet(kicks: nat)
    ensures Quiet(Config([0, 2], 10), BlockedHead(kicks), 0, 5) && Quiet(Config([0, 2], 10), BlockedHead(kicks), 1, 5)
  {
  }

  lemma BlockedHeadReached()
    ensures Reachable(Config([0, 2], 10), BlockedHead(0))
  {
    hide Reachable;
    var c := Config([0, 2], 10);
    var s0 := Initial(c, 5);
    ReachInitial(c, 5);
    assert s0.ports == [Port(Free, 0), Port(Free, 0)] && s0.owner == [None, None];
    PickOne(s0.ports, 5, 0);
    var s1 := s0.(ports := [Port(Fast, 0), Port(Free, 0)], reserved := [0, 1], held := map[0 := [0]], owner := [Some(0), None]);
    assert Marked(s0.ports, [0], Fast) == s1.ports && Owners(s0.owner, [0], Some(0)) == s1.owner;
    Reach(c, s0, EvReserve(1, 1, 0, [0], 5), s1);
    var s2 := Enqueue(s1, 1, 2, 1);
    Reach(c, s1, EvEnqueue(1, 2, 1), s2);
    var s3 := Enqueue(s2, 1, 1, 2);
    Reach(c, s2, EvEnqueue(1, 1, 2), s3);
    assert s3.requests[1] == [Request(2, 1), Request(1, 2)];
    assert s3.requests == BlockedHead(2).requests && s3.held == BlockedHead(2).held;
    BlockedHeadQuiet(2);
    ReachIdleRun(c, BlockedHead(2));
    BlockedHeadQuiet(1);
    ReachIdleRun(c, BlockedHead(1));
  }

  /** Cancelling the first request then forgets the second. */
  lemma CancelForgets()
    ensures var c, s := Config([0, 2], 10), BlockedHead(0);
            Reachable(c, s) && Woken(c, s) && Enabled(c, s, EvCancel(1)) && !Woken(c, Cancel(s, 1))
  {
    BlockedHeadReached();
    hide Reachable;
    BlockedHeadQuiet(0);
    var c, s := Config([0, 2], 10), BlockedHead(0);
    assert Pickable(s.ports, 5) == {1};
    assert Dropped(s.requests[1], 1) == [Request(1, 2)];
    assert HeadFits(c, Cancel(s, 1), 1);
  }

  const T1 := MS + 1
  const T2 := 11 * MS
  const SLOW := Config([0, 2], 10)

  /** Both ports are free but still decay, the second a little past the timer's end. */
  function BothDecay(requests: seq<seq<Request>>, held: map<nat, seq<nat>>, timers: seq<Timer>,
                     kicks: nat, handler: Handler, clock: int): State
  {
    State([Port(Free, 10 * MS), Port(Free, 11 * MS + 1)], requests, [0, 0], held, true, timers, kicks, handler, clock, [None, None])
  }

  lemma BothUsed()
    ensures Reachable(SLOW, State([Port(Fast, 10 * MS), Port(Fast, 11 * MS + 1)], [[], []], [0, 2], map[0 := [0], 1 := [1]], true,
                                  [Armed(0, 11, T2)], 0, Idle, T1, [Some(0), Some(1)]))
  {
    hide Reachable;
    var c := SLOW;
    var s0 := Initial(c, 0);
    ReachInitial(c, 0);
    assert s0.ports == [Port(Free, 0), Port(Free, 0)] && s0.owner == [None, None];
    PickOne(s0.ports, 0, 0);
    var s1 := s0.(ports := [Port(Fast, 0), Port(Free, 0)], reserved := [0, 1], held := map[0 := [0]], owner := [Some(0), None]);
    assert Marked(s0.ports, [0], Fast) == s1.ports && Owners(s0.owner, [0], Some(0)) == s1.owner;
    Reach(c, s0, EvReserve(1, 1, 0, [0], 0), s1);
    PickOne(s1.ports, 0, 1);
    var s2 := s1.(ports := [Port(Fast, 0), Port(Fast, 0)], reserved := [0, 2],
                  held := map[0 := [0], 1 := [1]], owner := [Some(0), Some(1)]);
    assert Marked(s1.ports, [1], Fast) == s2.ports && Owners(s1.owner, [1], Some(1)) == s2.owner;
    Reach(c, s1, EvReserve(1, 1, 1, [1], 0), s2);
    UsedBoth(c, s2);
  }

  lemma UsedBoth(c: Config, s: State)
    requires c == SLOW && Reachable(c, s)
    requires s == State([Port(Fast, 0), Port(Fast, 0)], [[], []], [0, 2], map[0 := [0], 1 := [1]], false, [], 0, Idle, 0,
                        [Some(0), Some(1)])
    ensures Reachable(c, State([Port(Fast, 10 * MS), Port(Fast, 11 * MS + 1)], [[], []], [0, 2], map[0 := [0], 1 := [1]], true,
                               [Armed(0, 11, T2)], 0, Idle, T1, [Some(0), Some(1)]))
  {
    hide Reachable;
    var s1 := s.(ports := [Port(Fast, 10 * MS), Port(Fast, 0)], decayRunning := true, timers := [ToPost(0, 11)]);
    assert Redecayed(s.ports, [0], 10 * MS) == s1.ports;
    Reach(c, s, EvUse(0, 0), s1);
    var s2 := s1.(timers := [Armed(0, 11, T2)]);
    Reach(c, s1, EvPosted(0), s2);
    var s3 := s2.(ports := [Port(Fast, 10 * MS), Port(Fast, 11 * MS + 1)], clock := T1);
    assert Redecayed(s2.ports, [1], 11 * MS + 1) == s3.ports;
    Reach(c, s2, EvUse(1, T1), s3);
  }

  /** The first of the two is free again. */
  function OneFreed(): State {
    State([Port(Free, 10 * MS), Port(Fast, 11 * MS + 1)], [[], []], [0, 1], map[0 := [], 1 := [1]], true, [Armed(0, 11, T2)], 1, Idle,
          T1, [None, Some(1)])
  }

  lemma FirstFreed()
    ensures Reachable(SLOW, OneFreed())
  {
    BothUsed();
    hide Reachable;
    var s := State([Port(Fast, 10 * MS), Port(Fast, 11 * MS + 1)], [[], []], [0, 2], map[0 := [0], 1 := [1]], true,
                   [Armed(0, 11, T2)], 0, Idle, T1, [Some(0), Some(1)]);
    assert Released(s.ports, [0], T1 + 10 * MS) == OneFreed().ports && Owners(s.owner, [0], None) == OneFreed().owner;
    assert !SomeKeptAlive(s.ports, [0]);
    hide Released, Owners, SomeKeptAlive;
    Reach(SLOW, s, EvRelease(0, T1), OneFreed());
  }

  lemma BothFreed()
    ensures Reachable(SLOW, BothDecay([[], []], map[0 := [], 1 := []], [Armed(0, 11, T2)], 2, Idle, T1))
  {
    FirstFreed();
    hide Reachable;
    var s1, s2 := OneFreed(), BothDecay([[], []], map[0 := [], 1 := []], [Armed(0, 11, T2)], 2, Idle, T1);
    assert Released(s1.ports, [1], T1 + 10 * MS) == s2.ports && Owners(s1.owner, [1], None) == s2.owner;
    assert !SomeKeptAlive(s1.ports, [1]);
    hide Released, Owners, SomeKeptAlive;
    Reach(SLOW, s1, EvRelease(1, T1), s2);
  }

  /** The timeout has looked at both classes when its timer ended, when one of the two ports asked for still decayed. */
  function LateDecay(): State {
    BothDecay([[], [Request(2, 2)]], map[0 := [], 1 := [], 2 := []], [], 0, Working(2, true, [T2, T2]), T2)
  }

  lemma TwoWanted(kicks: nat)
    ensures var s := BothDecay([[], [Request(2, 2)]], map[0 := [], 1 := [], 2 := []], [Armed(0, 11, T2)], kicks, Idle, T1);
            Quiet(SLOW, s, 0, T1) && Quiet(SLOW, s, 1, T1)
  {
    var s := BothDecay([[], [Request(2, 2)]], map[0 := [], 1 := [], 2 := []], [Armed(0, 11, T2)], kicks, Idle, T1);
    assert Pickable(s.ports, T1) == {};
  }

  lemma LateDecayReached()
    ensures Reachable(SLOW, LateDecay())
  {
    BothFreed();
    hide Reachable;
    var c, held := SLOW, map[0 := [], 1 := [], 2 := []];
    var s0 := BothDecay([[], []], map[0 := [], 1 := []], [Armed(0, 11, T2)], 2, Idle, T1);
    var s1 := BothDecay([[], [Request(2, 2)]], held, [Armed(0, 11, T2)], 3, Idle, T1);
    assert Enqueue(s0, 1, 2, 2).requests[1] == [Request(2, 2)];
    assert Enqueue(s0, 1, 2, 2).requests == s1.requests && Enqueue(s0, 1, 2, 2).held == s1.held;
    Reach(c, s0, EvEnqueue(1, 2, 2), s1);
    TwoWanted(3);
    ReachIdleRun(c, s1);
    TwoWanted(2);
    ReachIdleRun(c, s1.(kicks := 2));
    TwoWanted(1);
    ReachIdleRun(c, s1.(kicks := 1));
    var s2 := s1.(kicks := 0);
    var s3 := StartTimer(s2, T2);
    Reach(c, s2, EvStartTimer(T2), s3);
    var s4 := Serve(c, s3, [], T2);
    Reach(c, s3, EvServe([], T2), s4);
    assert Pickable(s4.ports, T2) == {0};
    Reach(c, s4, EvServe([], T2), Serve(c, s4, [], T2));
    assert Serve(c, s4, [], T2).handler.at == [T2, T2];
  }

  /** Reading the clock again when that one has decayed too then forgets the request. */
  lemma TimeoutForgets()
    ensures var c, s := SLOW, LateDecay();
            && Reachable(c, s) && Woken(c, s) && Enabled(c, s, EvFinishTimer(None, T2 + 5)) && !Woken(c, FinishTimer(s, None, T2 + 5))
  {
    LateDecayReached();
    hide Reachable;
    var c, s := SLOW, LateDecay();
    assert Pickable(s.ports, T2) == {0} && Pickable(s.ports, T2 + 5) == {0, 1};
    var s' := FinishTimer(s, None, T2 + 5);
    assert !Quiet(c, s', 1, T2 + 5);
  }
}
