// What each section must do with the ports, the reservations and the queues, and the rest a used port is given.
module PortRuns {
  import opened Common
  import opened PortModel
  import opened PortInvariant
  import opened PortWakeup

  // ---------------------------------------------------------------- decay times

  /** A port's decay time moves when it is used, kept alive, or released after that, and at no other time. */
  lemma DecayExactly(c: Config, s: State, ev: Event, p: nat)
    requires Inv(c, s) && Enabled(c, s, ev) && p < |s.ports|
    ensures var s' := Next(c, s, ev);
            && |s'.ports| == |s.ports|
            && s'.ports[p].decay ==
               if ev.EvUse? && p in s.held[ev.r] then ev.now + c.decayMs * 1_000_000
               else if ev.EvKeepalive? && p == s.held[ev.r][0] then NEVER
               else if ev.EvRelease? && p in s.held[ev.r] && s.ports[p].decay == NEVER then ev.now + c.decayMs * 1_000_000
               else s.ports[p].decay
  {
    hide Accounts, Owned, Queued, Decays, Timed, GoodPick, IsEarliest, HeadFits;
  }

  lemma ClockOnward(c: Config, s: State, ev: Event)
    requires Inv(c, s) && Enabled(c, s, ev)
    ensures s.clock <= Next(c, s, ev).clock
  {
    hide Accounts, Owned, Queued, Decays, Timed, GoodPick, IsEarliest, HeadFits;
  }

  predicate TakenIn(s: State, s': State, p: nat) {
    p < |s.ports| == |s'.ports| && s.ports[p].status == Free && s'.ports[p].status != Free
  }

  /** A free port is taken only by a reservation made, or a request served, after it has decayed. */
  lemma TakenDecayed(c: Config, s: State, ev: Event, p: nat)
    requires Inv(c, s) && Enabled(c, s, ev) && TakenIn(s, Next(c, s, ev), p)
    ensures (ev.EvReserve? || ev.EvServe?) && s.ports[p].decay <= ev.now
  {
    hide Accounts, Queued, Timed, IsEarliest, Decays;
    if ev.EvReserve? {
      if ev.n <= c.quota[ev.k] - s.reserved[ev.k] && ev.ids != [] {
        PickIsFree(s.ports, ev.now, ev.n, ev.ids);
      }
    } else if ev.EvServe? {
      if HeadFits(c, s, s.handler.next) && ev.ids != [] {
        PickIsFree(s.ports, ev.now, s.requests[s.handler.next][0].n, ev.ids);
      }
    } else {
      OnlyFreed(c, s, ev, p);
    }
  }

  lemma OnlyFreed(c: Config, s: State, ev: Event, p: nat)
    requires Inv(c, s) && Enabled(c, s, ev) && !ev.EvReserve? && !ev.EvServe? && p < |s.ports|
    ensures var s' := Next(c, s, ev); |s'.ports| == |s.ports| && (s'.ports[p].status == s.ports[p].status || s'.ports[p].status == Free)
  {
    hide Accounts, Owned, Queued, Decays, Timed, GoodPick, IsEarliest, HeadFits;
  }

  /** The port is used, or given up after it was kept alive. */
  predicate RestsFrom(s: State, ev: Event, p: nat) {
    && (ev.EvUse? || ev.EvRelease?) && ev.r in s.held && p in s.held[ev.r] && p < |s.ports|
    && (ev.EvRelease? ==> s.ports[p].decay == NEVER)
  }

  /** Port p does not decay before one decay time after t, and t is past. */
  predicate Rests(c: Config, s: State, t: int, p: nat) {
    p < |s.ports| && t <= s.clock && t + c.decayMs * 1_000_000 < NEVER && s.ports[p].decay >= t + c.decayMs * 1_000_000
  }

  lemma RestBegins(c: Config, s: State, ev: Event, p: nat)
    requires Inv(c, s) && Enabled(c, s, ev) && RestsFrom(s, ev, p)
    ensures Rests(c, Next(c, s, ev), ev.now, p)
  {
    hide Inv;
    DecayExactly(c, s, ev, p);
    hide Redecayed, Released, Marked;
  }

  lemma RestGoesOn(c: Config, s: State, ev: Event, t: int, p: nat)
    requires Inv(c, s) && Enabled(c, s, ev) && Rests(c, s, t, p)
    ensures Rests(c, Next(c, s, ev), t, p)
  {
    DecayExactly(c, s, ev, p);
    ClockOnward(c, s, ev);
    hide Inv, Next;
  }

  lemma {:induction false} RestsUntil(c: Config, ss: seq<State>, evs: seq<Event>, i: nat, j: nat, p: nat)
    requires IsRun(c, ss, evs) && i < j < |ss| && RestsFrom(ss[i], evs[i], p)
    ensures Rests(c, ss[j], evs[i].now, p)
    decreases j
  {
    hide Inv, Next, Enabled, Rests;
    RunSafe(c, ss, evs, j - 1);
    assert IsStep(c, ss[j - 1], evs[j - 1], ss[j]);
    if i < j - 1 {
      RestsUntil(c, ss, evs, i, j - 1, p);
      RestGoesOn(c, ss[j - 1], evs[j - 1], evs[i].now, p);
    } else {
      RestBegins(c, ss[i], evs[i], p);
    }
  }

  /**
   * A port that is used, or given up after it was kept alive, is not taken for another reservation, in any run, before its
   * decay time has passed.
   */
  lemma PortsRest(c: Config, ss: seq<State>, evs: seq<Event>, i: nat, j: nat, p: nat)
    requires IsRun(c, ss, evs) && i < j < |evs| && RestsFrom(ss[i], evs[i], p) && TakenIn(ss[j], ss[j + 1], p)
    ensures (evs[j].EvReserve? || evs[j].EvServe?) && evs[j].now >= evs[i].now + c.decayMs * 1_000_000
  {
    hide Inv, Next, Enabled;
    RestsUntil(c, ss, evs, i, j, p);
    RunSafe(c, ss, evs, j);
    assert IsStep(c, ss[j], evs[j], ss[j + 1]);
    TakenDecayed(c, ss[j], evs[j], p);
  }

  // ---------------------------------------------------------------- reservations

  /** n ports can be had within the quota of class k: they are free and have decayed. */
  ghost predicate Grantable(c: Config, s: State, k: nat, n: int, now: int)
    requires k < |c.quota| && k < |s.reserved|
  {
    1 <= n <= c.quota[k] - s.reserved[k] && n <= |Pickable(s.ports, now)|
  }

  ghost predicate Serves(c: Config, s: State, ev: Event)
    requires Shape(c, s)
  {
    && ev.EvServe? && s.handler.Working? && s.handler.next < 2 && s.requests[s.handler.next] != []
    && Grantable(c, s, s.handler.next, s.requests[s.handler.next][0].n, ev.now)
  }

  /** Reservation r has the n ports that were free and decayed. */
  ghost predicate Got(s: State, s': State, r: nat, n: int, now: int) {
    r in s'.held && |s'.held[r]| == n && NoDup(s'.held[r]) && forall p :: p in s'.held[r] ==> p in Pickable(s.ports, now)
  }

  /** When a reservation gets its ports, keeps one of them, and loses them. */
  lemma HeldExactly(c: Config, s: State, ev: Event, r: nat)
    requires Inv(c, s) && Enabled(c, s, ev)
    ensures var s' := Next(c, s, ev);
            if ev.EvReserve? && ev.r == r then
              (r in s'.held <==> Grantable(c, s, ev.k, ev.n, ev.now)) && (r in s'.held ==> Got(s, s', r, ev.n, ev.now))
            else if ev.EvEnqueue? && ev.r == r then r in s'.held && s'.held[r] == []
            else if ev.EvKeepalive? && ev.r == r then r in s'.held && s'.held[r] == [s.held[r][0]]
            else if ev.EvRelease? && ev.r == r then r in s'.held && s'.held[r] == []
            else if Serves(c, s, ev) && s.requests[s.handler.next][0].r == r then Got(s, s', r, s.requests[s.handler.next][0].n, ev.now)
            else (r in s'.held <==> r in s.held) && (r in s.held ==> s'.held[r] == s.held[r])
  {
    hide Accounts, Owned, Queued, Decays, Timed, IsEarliest, Pickable, Marked, Owners, Redecayed, Released, Dropped;
    match ev {
      case EvReserve(k, n, q, ids, now) =>
      case EvServe(ids, now) =>
      case EvRelease(q, now) =>
      case _ =>
    }
  }

  // ---------------------------------------------------------------- the queues

  lemma {:induction false} DroppedKeepsOrder(a: seq<Request>, x: Request, b: seq<Request>)
    requires OnceEach(a + [x] + b)
    ensures Dropped(a + [x] + b, x.r) == a + b
    decreases |a|
  {
    var q := a + [x] + b;
    if a == [] {
      assert q[0] == x && q[1..] == b;
    } else {
      assert q[0] == a[0] && q[|a|] == x && q[1..] == a[1..] + [x] + b;
      assert forall k :: 0 <= k < |q[1..]| ==> q[1..][k] == q[k + 1];
      DroppedKeepsOrder(a[1..], x, b);
    }
  }

  lemma {:induction false} DroppedNone(q: seq<Request>, r: nat)
    requires forall x :: x in q ==> x.r != r
    ensures Dropped(q, r) == q
  {
    if q != [] {
      DroppedNone(q[1..], r);
    }
  }

  /**
   * A waiting request keeps its place until those before it are served or cancelled, and leaves the queue exactly by being
   * served as its head or by being cancelled; new requests wait behind all others of their class.
   */
  lemma QueueExactly(c: Config, s: State, ev: Event, k: nat, a: seq<Request>, x: Request, b: seq<Request>)
    requires Inv(c, s) && Enabled(c, s, ev) && k < 2 && s.requests[k] == a + [x] + b
    ensures var q := s.requests[k];
            var q' := Next(c, s, ev).requests[k];
            && (ev.EvCancel? && ev.r == x.r ==> q' == a + b)
            && (ev.EvCancel? && (forall y :: y in q ==> y.r != ev.r) ==> q' == q)
            && (!ev.EvCancel? ==>
                  q' == if ev.EvEnqueue? && ev.k == k then q + [Request(ev.n, ev.r)]
                        else if Serves(c, s, ev) && s.handler.next == k then q[1..] else q)
  {
    hide Accounts, Owned, Decays, Timed, IsEarliest, Pickable, Marked, Owners, Redecayed, Released;
    match ev {
      case EvCancel(r) =>
        if r == x.r {
          DroppedKeepsOrder(a, x, b);
        } else if forall y :: y in s.requests[k] ==> y.r != r {
          DroppedNone(s.requests[k], r);
        }
      case EvServe(ids, now) =>
      case EvRelease(_, _) =>
      case _ =>
    }
  }

  /** A request to an empty queue is its only one. */
  lemma FirstWaiter(c: Config, s: State, ev: Event, k: nat)
    requires Inv(c, s) && Enabled(c, s, ev) && k < 2 && s.requests[k] == []
    ensures Next(c, s, ev).requests[k] == if ev.EvEnqueue? && ev.k == k then [Request(ev.n, ev.r)] else []
  {
    hide Accounts, Owned, Queued, Decays, Timed, IsEarliest, Pickable, Marked, Owners, Redecayed, Released, GoodPick;
    match ev {
      case EvServe(ids, now) =>
      case EvRelease(_, _) =>
      case _ =>
    }
  }
}
