// dnode/PortAllocator.cpp in place: each method is one section run under the lock.
module PortAllocators {
  import opened Common
  import opened PortModel
  import opened PortInvariant
  import opened PortOrder
  import opened PortWakeup

  // ---------------------------------------------------------------- each section is a step

  lemma Shapes(c: Config, s: State)
    requires Inv(c, s)
    ensures Shape(c, s)
  {
  }

  lemma ReserveStep(c: Config, s: State, k: nat, n: int, r: nat, ids: seq<nat>, now: int)
    requires Inv(c, s) && ClockOk(c, s, now) && k < 2 && r !in s.held
    requires n <= c.quota[k] - s.reserved[k] ==> GoodPick(s.ports, now, n, ids)
    ensures IsStep(c, s, EvReserve(k, n, r, ids, now), ReserveNow(c, s, k, n, r, ids, now)) && Inv(c, ReserveNow(c, s, k, n, r, ids, now))
  {
    ReserveKeeps(c, s, k, n, r, ids, now);
  }

  lemma ServeStep(c: Config, s: State, ids: seq<nat>, now: int)
    requires Inv(c, s) && ClockOk(c, s, now) && s.handler.Working? && s.handler.next < 2
    requires HeadFits(c, s, s.handler.next) ==> GoodPick(s.ports, now, s.requests[s.handler.next][0].n, ids)
    ensures IsStep(c, s, EvServe(ids, now), Serve(c, s, ids, now)) && Inv(c, Serve(c, s, ids, now))
    ensures !HeadFits(c, s, s.handler.next) || ids == [] ==> Quiet(c, Serve(c, s, ids, now), s.handler.next, now)
    ensures Quiet(c, s, 1 - s.handler.next, now) ==> Quiet(c, Serve(c, s, ids, now), 1 - s.handler.next, now)
  {
    ServeKeeps(c, s, ids, now);
    Shapes(c, s);
    hide Inv, Serve, GoodPick, Quiet;
    ServeQuiet(c, s, ids, now);
  }

  lemma ServeQuiet(c: Config, s: State, ids: seq<nat>, now: int)
    requires Shape(c, s) && s.handler.Working? && s.handler.next < 2
    requires HeadFits(c, s, s.handler.next) ==> GoodPick(s.ports, now, s.requests[s.handler.next][0].n, ids)
    ensures Shape(c, Serve(c, s, ids, now))
    ensures !HeadFits(c, s, s.handler.next) || ids == [] ==> Quiet(c, Serve(c, s, ids, now), s.handler.next, now)
    ensures Quiet(c, s, 1 - s.handler.next, now) ==> Quiet(c, Serve(c, s, ids, now), 1 - s.handler.next, now)
  {
    hide NoDup;
    if Quiet(c, s, 1 - s.handler.next, now) {
      QuietLess(c, s, Serve(c, s, ids, now), 1 - s.handler.next, now, now);
    }
  }

  lemma QuietIdle(c: Config, s: State, t: int)
    requires Shape(c, s)
    ensures Quiet(c, s, 0, t) ==> Quiet(c, s.(handler := Idle), 0, t)
    ensures Quiet(c, s, 1, t) ==> Quiet(c, s.(handler := Idle), 1, t)
  {
  }

  lemma KeepaliveStep(c: Config, s: State, r: nat)
    requires Inv(c, s) && HasPorts(s, r)
    ensures IsStep(c, s, EvKeepalive(r), Keepalive(s, r)) && Inv(c, Keepalive(s, r))
  {
    KeepaliveKeeps(c, s, r);
  }

  lemma UseStep(c: Config, s: State, r: nat, now: int)
    requires Inv(c, s) && ClockOk(c, s, now) && HasPorts(s, r)
    ensures IsStep(c, s, EvUse(r, now), Use(c, s, r, now)) && Inv(c, Use(c, s, r, now))
  {
    UseKeeps(c, s, r, now);
  }

  lemma ReleaseStep(c: Config, s: State, r: nat, now: int)
    requires Inv(c, s) && ClockOk(c, s, now) && HasPorts(s, r)
    ensures IsStep(c, s, EvRelease(r, now), Release(c, s, r, now)) && Inv(c, Release(c, s, r, now))
  {
    ReleaseKeeps(c, s, r, now);
  }

  lemma CancelStep(c: Config, s: State, r: nat)
    requires Inv(c, s) && r in s.held && s.held[r] == []
    ensures IsStep(c, s, EvCancel(r), Cancel(s, r)) && Inv(c, Cancel(s, r))
  {
    CancelKeeps(c, s, r);
  }

  // ---------------------------------------------------------------- the allocator

  class PortAllocator {
    const c: Config
    var ports: seq<Port>
    var order: seq<nat>
    var requests: seq<seq<Request>>
    var reserved: seq<int>
    var held: map<nat, seq<nat>>
    var decayRunning: bool
    var timers: seq<Timer>
    var kicks: nat
    ghost var handler: Handler
    ghost var clock: int
    ghost var owner: seq<Option<nat>>

    ghost function View(): State
      reads this
    {
      State(ports, requests, reserved, held, decayRunning, timers, kicks, handler, clock, owner)
    }

    ghost predicate Valid()
      reads this
    {
      Inv(c, View()) && Ordered(ports, order)
    }

    constructor (numSymm: nat, numFast: nat, decayMs: nat, ghost now: int)
      requires now >= 0
      ensures Valid() && c == Config([numSymm, numFast], decayMs) && View() == Initial(c, now)
    {
      var config := Config([numSymm, numFast], decayMs);
      c := config;
      ports := seq(numSymm + numFast, _ => Port(Free, 0));
      order := seq(numSymm + numFast, i => i);
      requests, reserved, held, decayRunning := [[], []], [0, 0], map[], false;
      timers, kicks := [], 0;
      handler, clock, owner := Idle, now, seq(numSymm + numFast, _ => None);
      new;
      InitialInv(config, now);
      InOrder(ports, order);
    }

    /** Hands picked ports to reservation r. */
    method Grant(k: nat, n: int, r: nat, ids: seq<nat>, marked: seq<Port>)
      requires k < |reserved|
      modifies this`ports, this`reserved, this`held, this`owner
      ensures View() == old(View()).(ports := marked, reserved := old(reserved)[k := old(reserved)[k] + n],
                                     held := old(held)[r := ids], owner := Owners(old(owner), ids, Some(r)))
    {
      ports, reserved, held := marked, reserved[k := reserved[k] + n], held[r := ids];
      owner := Owners(owner, ids, Some(r));
    }

    /** Takes n ports of class k back from reservation r, which keeps `kept`. */
    method TakeBack(k: nat, n: nat, r: nat, ghost gone: seq<nat>, kept: seq<nat>)
      requires k < |reserved|
      modifies this`reserved, this`held, this`owner, this`kicks
      ensures View() == old(View()).(reserved := old(reserved)[k := old(reserved)[k] - n], held := old(held)[r := kept],
                                     owner := Owners(old(owner), gone, None), kicks := old(kicks) + 1)
    {
      reserved, held := reserved[k := reserved[k] - n], held[r := kept];
      owner := Owners(owner, gone, None);
      kicks := kicks + 1;
    }

    /** reserveSymmPorts and reserveFastPorts; an empty result is the null reservation. */
    method Reserve(k: nat, n: int, r: nat, now: int) returns (ids: seq<nat>)
      requires Valid() && k < 2 && r !in held && ClockOk(c, View(), now)
      modifies this
      ensures Valid() && IsStep(c, old(View()), EvReserve(k, n, r, ids, now), View())
      ensures ids != [] <==> 1 <= n <= old(c.quota[k] - reserved[k]) && n <= old(|Pickable(ports, now)|)
    {
      hide Inv, IsStep, Ordered, Marked, Owners, Pickable, Picks, NoDup;
      Shapes(c, View());
      ids := [];
      if n <= c.quota[k] - reserved[k] {
        var ports';
        ports', ids := ReservePorts(ports, order, n, Kind(k), now);
        ReserveStep(c, View(), k, n, r, ids, now);
        if ids != [] {
          Grant(k, n, r, ids, ports');
        }
      } else {
        ReserveStep(c, View(), k, n, r, ids, now);
      }
      clock := now;
    }

    /** reserveSymmPortsBestEffort and reserveFastPortsBestEffort. */
    method ReserveBestEffort(k: nat, n: int, r: nat)
      requires Valid() && k < 2 && r !in held
      modifies this
      ensures Valid() && IsStep(c, old(View()), EvEnqueue(k, n, r), View())
    {
      hide Accounts, Owned, Queued, Decays, Timed;
      StepKeeps(c, View(), EvEnqueue(k, n, r));
      requests := requests[k := requests[k] + [Request(n, r)]];
      held := held[r := []];
      kicks := kicks + 1;
    }

    method StartDecaying(now: int)
      modifies this`decayRunning, this`timers
      ensures View() == StartDecay(c, old(View()), now)
    {
      if !decayRunning {
        decayRunning := true;
        timers := timers + [ToPost(now, c.decayMs + 1)];
      }
    }

    method UseReservation(r: nat, now: int)
      requires Valid() && r in held && held[r] != [] && ClockOk(c, View(), now)
      modifies this
      ensures Valid() && IsStep(c, old(View()), EvUse(r, now), View())
    {
      hide Inv, IsStep, Ordered, Redecayed;
      KindOfHeld(c, View(), r);
      UseStep(c, View(), r, now);
      ports, order := RekeyAll(ports, order, held[r], now + c.decayMs * MS);
      clock := now;
      StartDecaying(now);
    }

    method KeepaliveReservation(r: nat)
      requires Valid() && r in held && held[r] != []
      modifies this
      ensures Valid() && IsStep(c, old(View()), EvKeepalive(r), View())
    {
      hide Inv, IsStep, Ordered, Marked, Owners, Redecayed;
      KindOfHeld(c, View(), r);
      KeepaliveStep(c, View(), r);
      Shapes(c, View());
      var ids := held[r];
      var ports', k := KeepFirst(ports, ids);
      MarkedKeys(ports, order, ids[1..], Free);
      TakeBack(k, |ids| - 1, r, ids[1..], [ids[0]]);
      ports, order := RekeyAll(ports', order, [ids[0]], NEVER);
    }

    /** Frees all ports of a reservation but the first; also the class of the last one. */
    static method KeepFirst(ports: seq<Port>, ids: seq<nat>) returns (ports': seq<Port>, k: nat)
      requires ids != [] && NoDup(ids) && forall i :: 0 <= i < |ids| ==> ids[i] < |ports|
      ensures ports' == Marked(ports, ids[1..], Free) && k == KindOf(ports, ids)
    {
      ports', k := ports, 1;
      assert Marked(ports, [], Free) == ports;
      hide Marked;
      for i := 0 to |ids|
        invariant ports' == Marked(ports, if i == 0 then [] else ids[1..i], Free)
        invariant i > 0 ==> k == KindOf(ports, ids[..i])
      {
        if i == 0 {
          k := if ports'[ids[i]].status == Symm then 0 else 1;
        } else {
          assert ids[i] !in ids[1..i] && ids[1..i + 1] == ids[1..i] + [ids[i]];
          MarkedSnoc(ports, ids[1..i], ids[i], Free);
          k := if ports'[ids[i]].status == Symm then 0 else 1;
          ports' := ports'[ids[i] := ports'[ids[i]].(status := Free)];
        }
      }
      assert ids[1..|ids|] == ids[1..] && ids[..|ids|] == ids;
    }

    method FreeReservation(r: nat, now: int)
      requires Valid() && r in held && ClockOk(c, View(), now)
      modifies this
      ensures Valid()
      ensures IsStep(c, old(View()), if old(held[r]) == [] then EvCancel(r) else EvRelease(r, now), View())
    {
      hide Inv, IsStep, Ordered;
      if held[r] == [] {
        CancelRequest(r);
      } else {
        ReleasePorts(r, now);
      }
    }

    method CancelRequest(r: nat)
      requires Valid() && r in held && held[r] == []
      modifies this`requests
      ensures Valid() && IsStep(c, old(View()), EvCancel(r), View())
    {
      hide Inv, IsStep, Ordered, Dropped;
      Shapes(c, View());
      CancelStep(c, View(), r);
      var q0 := DropRequest(requests[0], r);
      var q1 := DropRequest(requests[1], r);
      requests := [q0, q1];
    }

    method ReleasePorts(r: nat, now: int)
      requires Valid() && r in held && held[r] != [] && ClockOk(c, View(), now)
      modifies this
      ensures Valid() && IsStep(c, old(View()), EvRelease(r, now), View())
    {
      hide Inv, IsStep, Ordered, Marked, Owners, Released, NoDup, SomeKeptAlive;
      Shapes(c, View());
      KindOfHeld(c, View(), r);
      ReleaseStep(c, View(), r, now);
      var ids := held[r];
      var ports', order', k, started := ReleaseAll(ports, order, ids, now + c.decayMs * MS);
      TakeBack(k, |ids|, r, ids, []);
      ports, order := ports', order';
      clock := now;
      if started {
        StartDecaying(now);
      }
    }

    /** Erases the first request of reservation r, if there is one. */
    static method DropRequest(q: seq<Request>, r: nat) returns (d: seq<Request>)
      ensures d == Dropped(q, r)
    {
      for i := 0 to |q|
        invariant forall j :: 0 <= j < i ==> q[j].r != r
      {
        if q[i].r == r {
          DroppedAt(q, r, i);
          return q[..i] + q[i + 1..];
        }
      }
      DroppedNone(q, r);
      return q;
    }

    /**
     * One turn of processRequests for class k; when the head is served its callback runs after this, with the lock
     * released. An empty result ends the loop.
     */
    method ServeHead(k: nat, now: int) returns (ids: seq<nat>)
      requires Valid() && handler.Working? && handler.next == k < 2 && ClockOk(c, View(), now)
      modifies this
      ensures Valid() && IsStep(c, old(View()), EvServe(ids, now), View())
      ensures ids != [] <==> old(HeadFits(c, View(), k) && 1 <= requests[k][0].n <= |Pickable(ports, now)|)
      ensures |reserved| == 2 && requests == if ids == [] then old(requests) else old(requests)[k := old(requests)[k][1..]]
      ensures handler.Working? && handler.timed == old(handler.timed) && handler.next == (if ids == [] then k + 1 else k) && clock == now
      ensures ids == [] ==> Quiet(c, View(), k, now)
      ensures old(Quiet(c, View(), 1 - k, now)) ==> Quiet(c, View(), 1 - k, now)
    {
      hide Inv, IsStep, Ordered, Marked, Owners, Pickable, Picks, NoDup, Quiet, ClockOk;
      Shapes(c, View());
      ids := [];
      if requests[k] != [] && requests[k][0].n <= c.quota[k] - reserved[k] {
        var ports';
        var q := requests[k][0];
        ports', ids := ReservePorts(ports, order, q.n, Kind(k), now);
        ServeStep(c, View(), ids, now);
        if ids != [] {
          Grant(k, q.n, q.r, ids, ports');
          requests := requests[k := requests[k][1..]];
        }
      } else {
        ServeStep(c, View(), ids, now);
      }
      if ids == [] {
        handler := Working(k + 1, handler.timed, handler.at + [now]);
      }
      clock := now;
    }

    /** processRequests when the callbacks leave the allocator alone: serves the class in order until its head must wait. */
    method ProcessRequests(k: nat, now: int)
      requires Valid() && handler.Working? && handler.next == k < 2 && ClockOk(c, View(), now)
      modifies this
      ensures Valid() && handler.Working? && handler.timed == old(handler.timed) && handler.next == k + 1 && clock == now
      ensures Quiet(c, View(), k, now) && clock == now && (old(Quiet(c, View(), 1 - k, now)) ==> Quiet(c, View(), 1 - k, now))
      ensures exists n :: 0 <= n <= |old(requests)[k]| && requests == old(requests)[k := old(requests)[k][n..]]
    {
      hide Inv, IsStep, Ordered, Pickable, Quiet;
      Shapes(c, View());
      ghost var served := 0;
      assert old(requests)[k][0..] == old(requests)[k];
      var ids := ServeHead(k, now);
      while ids != []
        invariant Valid() && clock == now && handler.Working? && handler.timed == old(handler.timed)
        invariant handler.next == if ids == [] then k + 1 else k
        invariant served + (if ids == [] then 0 else 1) <= |old(requests)[k]|
        invariant requests == old(requests)[k := old(requests)[k][served + (if ids == [] then 0 else 1)..]]
        invariant |requests| == 2 && |reserved| == 2 && (ids == [] ==> Quiet(c, View(), k, now))
        invariant old(Quiet(c, View(), 1 - k, now)) ==> Quiet(c, View(), 1 - k, now)
        decreases |requests[k]|, |ids|
      {
        served := served + 1;
        ids := ServeHead(k, now);
      }
    }

    /** The reactor takes up a posted onProcessRequests. */
    method BeginRun()
      requires Valid() && handler.Idle? && kicks > 0
      modifies this
      ensures Valid() && IsStep(c, old(View()), EvStartKick, View())
    {
      hide Accounts, Owned, Queued, Decays, Timed;
      StepKeeps(c, View(), EvStartKick);
      kicks := kicks - 1;
      handler := Working(0, false, []);
    }

    /** The reactor runs the decay timeout, which is due. */
    method BeginDecayTimeout(now: int)
      requires Valid() && handler.Idle? && |timers| > 0 && timers[0].Armed? && timers[0].due <= now && ClockOk(c, View(), now)
      modifies this
      ensures Valid() && IsStep(c, old(View()), EvStartTimer(now), View())
    {
      hide Accounts, Owned, Queued, Decays, Timed;
      StepKeeps(c, View(), EvStartTimer(now));
      timers := [];
      handler, clock := Working(0, true, []), now;
    }

    /** The timer decided on is handed to the reactor, after the lock was released. */
    method PostTimer(now: int)
      requires Valid() && |timers| > 0 && timers[0].ToPost? && ClockOk(c, View(), now)
      modifies this
      ensures Valid() && IsStep(c, old(View()), EvPosted(now), View())
    {
      hide Accounts, Owned, Queued, Decays, Timed;
      StepKeeps(c, View(), EvPosted(now));
      timers := timers[0 := Post(timers[0], now)];
      clock := now;
    }

    /** onProcessRequests when the callbacks leave the allocator alone: afterwards no waiting request could be served. */
    method OnProcessRequests(now: int)
      requires Valid() && handler.Idle? && kicks > 0 && ClockOk(c, View(), now)
      modifies this
      ensures Valid() && handler.Idle? && Quiet(c, View(), 0, now) && Quiet(c, View(), 1, now)
    {
      hide Accounts, Owned, Queued, Decays, Timed, Quiet, Pickable;
      BeginRun();
      ProcessRequests(0, now);
      ProcessRequests(1, now);
      StepKeeps(c, View(), EvFinishKick);
      QuietIdle(c, View(), now);
      handler := Idle;
    }

    /** The end of onDecayTimeout, after both classes were served. */
    method FinishDecayTimeout(now: int)
      requires Valid() && handler.Working? && handler.next == 2 && handler.timed && ClockOk(c, View(), now)
      modifies this
      ensures Valid() && exists e :: IsStep(c, old(View()), EvFinishTimer(e, now), View())
    {
      NoneLater();
      hide Accounts, Owned, Queued, Decays, Timed;
      decayRunning := false;
      var e := NextDecay(ports, order, now);
      ghost var s := old(View());
      assert Enabled(c, s, EvFinishTimer(e, now));
      StepKeeps(c, s, EvFinishTimer(e, now));
      if e.Some? {
        decayRunning := true;
        timers := timers + [ToPost(now, (e.value - now) / MS + 1)];
      }
      handler, clock := Idle, now;
      assert IsStep(c, s, EvFinishTimer(e, now), View());
    }

    lemma NoneLater()
      requires Valid()
      ensures forall p :: 0 <= p < |ports| ==> ports[p].decay <= NEVER
    {
    }
  }

  lemma {:induction false} DroppedAt(q: seq<Request>, r: nat, i: nat)
    requires i < |q| && q[i].r == r && forall j :: 0 <= j < i ==> q[j].r != r
    ensures Dropped(q, r) == q[..i] + q[i + 1..]
  {
    if i > 0 {
      DroppedAt(q[1..], r, i - 1);
      assert [q[0]] + q[1..][..i - 1] == q[..i];
      assert q[1..][i..] == q[i + 1..];
    }
  }

  lemma {:induction false} DroppedNone(q: seq<Request>, r: nat)
    requires forall j :: 0 <= j < |q| ==> q[j].r != r
    ensures Dropped(q, r) == q
  {
    if q != [] {
      DroppedNone(q[1..], r);
    }
  }
}
