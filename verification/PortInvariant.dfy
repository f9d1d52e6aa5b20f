// Every critical section of the port allocator keeps the invariant.
module PortInvariant {
  import opened Common
  import opened PortModel

  // ---------------------------------------------------------------- ownership

  lemma FreeIsUnowned(ports: seq<Port>, held: map<nat, seq<nat>>, owner: seq<Option<nat>>, p: nat)
    requires Owned(ports, held, owner) && p < |ports|
    ensures owner[p].None? <==> ports[p].status == Free
    ensures owner[p].Some? ==> owner[p].value in held && p in held[owner[p].value]
  {
    if owner[p].Some? {
      assert OwnedBy(ports, held, owner, owner[p].value, p);
    }
  }

  lemma HeldIs(ports: seq<Port>, held: map<nat, seq<nat>>, owner: seq<Option<nat>>, r: nat, i: nat)
    requires Owned(ports, held, owner) && r in held && i < |held[r]|
    ensures held[r][i] < |ports| && held[r][0] < |ports| && owner[held[r][i]] == Some(r)
    ensures ports[held[r][i]].status != Free && ports[held[r][i]].status == ports[held[r][0]].status
  {
    assert held[r][i] in held[r];
    assert OwnedBy(ports, held, owner, r, held[r][i]);
  }

  /** Free ports go to a reservation that had none. */
  lemma OwnedReserve(ports: seq<Port>, held: map<nat, seq<nat>>, owner: seq<Option<nat>>, r: nat, ids: seq<nat>, st: Status)
    requires Owned(ports, held, owner) && (r in held ==> held[r] == []) && ids != [] && NoDup(ids) && st != Free
    requires forall p :: p in ids ==> p < |ports| && ports[p].status == Free
    ensures Owned(Marked(ports, ids, st), held[r := ids], Owners(owner, ids, Some(r)))
  {
    var ports', held', owner' := Marked(ports, ids, st), held[r := ids], Owners(owner, ids, Some(r));
    forall p | 0 <= p < |ports| && owner'[p].Some? ensures owner'[p].value in held' && p in held'[owner'[p].value] {
      FreeIsUnowned(ports, held, owner, p);
    }
    forall q, p | q in held' && p in held'[q] ensures OwnedBy(ports', held', owner', q, p) {
      if q == r {
        assert ids[0] in ids;
      } else {
        assert OwnedBy(ports, held, owner, q, p);
        assert OwnedBy(ports, held, owner, q, held[q][0]);
        FreeIsUnowned(ports, held, owner, p);
      }
    }
  }

  /** Some ports of a reservation go free, the others stay. */
  lemma OwnedFree(ports: seq<Port>, held: map<nat, seq<nat>>, owner: seq<Option<nat>>, ports': seq<Port>,
                  r: nat, gone: seq<nat>, kept: seq<nat>)
    requires Owned(ports, held, owner) && r in held && NoDup(kept) && |ports'| == |ports|
    requires forall p :: p in held[r] <==> p in gone || p in kept
    requires forall p :: p in gone ==> p !in kept
    requires forall p :: 0 <= p < |ports| ==> ports'[p].status == if p in gone then Free else ports[p].status
    ensures Owned(ports', held[r := kept], Owners(owner, gone, None))
  {
    var held', owner' := held[r := kept], Owners(owner, gone, None);
    forall p | p in gone ensures OwnedBy(ports, held, owner, r, p) {
      assert p in held[r];
    }
    forall p | 0 <= p < |ports| && owner'[p].None? ensures ports'[p].status == Free {
      FreeIsUnowned(ports, held, owner, p);
    }
    forall p | 0 <= p < |ports| && owner'[p].Some? ensures owner'[p].value in held' && p in held'[owner'[p].value] {
      FreeIsUnowned(ports, held, owner, p);
    }
    forall q, p | q in held' && p in held'[q] ensures OwnedBy(ports', held', owner', q, p) {
      assert OwnedBy(ports, held, owner, q, p);
      assert held'[q][0] in held'[q];
      assert OwnedBy(ports, held, owner, q, held'[q][0]);
    }
  }

  lemma OwnedSameStatus(ports: seq<Port>, held: map<nat, seq<nat>>, owner: seq<Option<nat>>, ports': seq<Port>)
    requires Owned(ports, held, owner) && |ports'| == |ports|
    requires forall p :: 0 <= p < |ports| ==> ports'[p].status == ports[p].status
    ensures Owned(ports', held, owner)
  {
    forall q, p | q in held && p in held[q] ensures OwnedBy(ports', held, owner, q, p) {
      assert OwnedBy(ports, held, owner, q, p);
    }
  }

  // ---------------------------------------------------------------- accounting

  lemma HoldersMarked(ports: seq<Port>, ids: seq<nat>, st: Status)
    requires NoDup(ids) && st != Free && forall p :: p in ids ==> p < |ports| && ports[p].status == Free
    ensures |Holders(Marked(ports, ids, st), st)| == |Holders(ports, st)| + |ids|
    ensures forall o :: o != Free && o != st ==> Holders(Marked(ports, ids, st), o) == Holders(ports, o)
  {
    ElementsSize(ids);
    assert Holders(Marked(ports, ids, st), st) == Holders(ports, st) + Elements(ids);
    assert Holders(ports, st) !! Elements(ids);
  }

  lemma HoldersFreed(ports: seq<Port>, ports': seq<Port>, ids: seq<nat>, st: Status)
    requires NoDup(ids) && st != Free && |ports'| == |ports|
    requires forall p :: p in ids ==> p < |ports| && ports[p].status == st
    requires forall p :: 0 <= p < |ports| ==> ports'[p].status == if p in ids then Free else ports[p].status
    ensures |Holders(ports', st)| == |Holders(ports, st)| - |ids|
    ensures forall o :: o != Free && o != st ==> Holders(ports', o) == Holders(ports, o)
  {
    ElementsSize(ids);
    assert Holders(ports, st) == Holders(ports', st) + Elements(ids);
    assert Holders(ports', st) !! Elements(ids);
  }

  lemma AccountsReserve(c: Config, ports: seq<Port>, reserved: seq<int>, k: nat, ids: seq<nat>)
    requires |c.quota| == 2 && |reserved| == 2 && Accounts(c, ports, reserved) && k < 2
    requires NoDup(ids) && (forall p :: p in ids ==> p < |ports| && ports[p].status == Free) && |ids| <= c.quota[k] - reserved[k]
    ensures Accounts(c, Marked(ports, ids, Kind(k)), reserved[k := reserved[k] + |ids|])
  {
    HoldersMarked(ports, ids, Kind(k));
  }

  lemma AccountsFree(c: Config, ports: seq<Port>, reserved: seq<int>, ports': seq<Port>, k: nat, ids: seq<nat>)
    requires |c.quota| == 2 && |reserved| == 2 && Accounts(c, ports, reserved) && k < 2 && |ports'| == |ports|
    requires NoDup(ids) && forall p :: p in ids ==> p < |ports| && ports[p].status == Kind(k)
    requires forall p :: 0 <= p < |ports| ==> ports'[p].status == if p in ids then Free else ports[p].status
    ensures Accounts(c, ports', reserved[k := reserved[k] - |ids|])
  {
    HoldersFreed(ports, ports', ids, Kind(k));
  }

  lemma AccountsSame(c: Config, ports: seq<Port>, reserved: seq<int>, ports': seq<Port>)
    requires |c.quota| == 2 && |reserved| == 2 && Accounts(c, ports, reserved) && |ports'| == |ports|
    requires forall p :: 0 <= p < |ports| ==> ports'[p].status == ports[p].status
    ensures Accounts(c, ports', reserved)
  {
    assert Holders(ports', Symm) == Holders(ports, Symm);
    assert Holders(ports', Fast) == Holders(ports, Fast);
  }

  // ---------------------------------------------------------------- queues

  lemma {:induction false} DroppedIs(q: seq<Request>, r: nat)
    requires OnceEach(q)
    ensures forall x :: x in Dropped(q, r) <==> x in q && x.r != r
    ensures OnceEach(Dropped(q, r))
  {
    if q != [] {
      assert forall x :: x in q <==> x == q[0] || x in q[1..];
      if q[0].r != r {
        DroppedIs(q[1..], r);
        var d := Dropped(q[1..], r);
        forall i, j | 0 <= i < j < |[q[0]] + d| ensures ([q[0]] + d)[i].r != ([q[0]] + d)[j].r {
          if i == 0 {
            assert d[j - 1] in q[1..];
          }
        }
      } else {
        assert forall x :: x in q[1..] ==> x.r != r;
      }
    }
  }

  lemma QueuedCancel(requests: seq<seq<Request>>, held: map<nat, seq<nat>>, r: nat)
    requires |requests| == 2 && Queued(requests, held)
    ensures Queued([Dropped(requests[0], r), Dropped(requests[1], r)], held)
  {
    DroppedIs(requests[0], r);
    DroppedIs(requests[1], r);
    var d0, d1 := Dropped(requests[0], r), Dropped(requests[1], r);
    forall i, j | 0 <= i < |d0| && 0 <= j < |d1| ensures d0[i].r != d1[j].r {
      assert d0[i] in requests[0] && d1[j] in requests[1];
    }
    forall i | 0 <= i < |d0| ensures d0[i].r in held && held[d0[i].r] == [] {
      assert d0[i] in requests[0];
    }
    forall i | 0 <= i < |d1| ensures d1[i].r in held && held[d1[i].r] == [] {
      assert d1[i] in requests[1];
    }
  }

  /** A reservation that does not wait may get or lose ports. */
  lemma QueuedHeld(requests: seq<seq<Request>>, held: map<nat, seq<nat>>, r: nat, ids: seq<nat>)
    requires |requests| == 2 && Queued(requests, held) && (r in held ==> held[r] != [])
    ensures Queued(requests, held[r := ids])
  {
  }

  lemma QueuedAdd(requests: seq<seq<Request>>, held: map<nat, seq<nat>>, k: nat, n: int, r: nat)
    requires |requests| == 2 && Queued(requests, held) && r !in held && k < 2
    ensures Queued(requests[k := requests[k] + [Request(n, r)]], held[r := []])
  {
  }

  lemma QueuedServe(requests: seq<seq<Request>>, held: map<nat, seq<nat>>, k: nat, ids: seq<nat>)
    requires |requests| == 2 && Queued(requests, held) && k < 2 && requests[k] != []
    ensures requests[k][0].r in held && held[requests[k][0].r] == []
    ensures Queued(requests[k := requests[k][1..]], held[requests[k][0].r := ids])
  {
  }

  // ---------------------------------------------------------------- decay times and the timer

  /** Nothing decays sooner or later than it did, except to the time given. */
  ghost predicate DecayMoves(c: Config, ports: seq<Port>, ports': seq<Port>, d: int) {
    |ports'| == |ports| && forall p :: 0 <= p < |ports| ==> ports'[p].decay == ports[p].decay || ports'[p].decay == d
  }

  lemma TimedLater(c: Config, ports: seq<Port>, decayRunning: bool, timers: seq<Timer>, timed: bool, clock: int, now: int)
    requires Timed(c, ports, decayRunning, timers, timed, clock) && clock <= now
    ensures Timed(c, ports, decayRunning, timers, timed, now)
  {
  }

  lemma DecaysLater(c: Config, ports: seq<Port>, held: map<nat, seq<nat>>, owner: seq<Option<nat>>, clock: int, now: int)
    requires Decays(c, ports, held, owner, clock) && clock <= now
    ensures Decays(c, ports, held, owner, now)
  {
  }

  lemma TimedStart(c: Config, s: State, s0: State, now: int)
    requires |s.ports| == |s0.ports| && ClockOk(c, s, now) && DecayMoves(c, s.ports, s0.ports, now + c.decayMs * MS)
    requires s0.decayRunning == s.decayRunning && s0.timers == s.timers && s0.handler == s.handler && s0.clock == now
    requires Timed(c, s.ports, s.decayRunning, s.timers, IsTimed(s.handler), s.clock)
    ensures var s1 := StartDecay(c, s0, now); Timed(c, s1.ports, s1.decayRunning, s1.timers, IsTimed(s1.handler), s1.clock)
  {
    var s1 := StartDecay(c, s0, now);
    forall p | 0 <= p < |s1.ports| && now < s1.ports[p].decay < NEVER ensures s1.decayRunning && InTime(s1.timers, s1.ports[p]) {
      assert s1.ports[p] == s0.ports[p];
      if s0.ports[p].decay == s.ports[p].decay && s.decayRunning {
        assert InTime(s.timers, s.ports[p]);
      }
    }
  }

  // ---------------------------------------------------------------- every step keeps the invariant

  lemma PickIsFree(ports: seq<Port>, now: int, n: int, ids: seq<nat>)
    requires GoodPick(ports, now, n, ids) && ids != []
    ensures |ids| == n && NoDup(ids) && forall p :: p in ids ==> p < |ports| && ports[p].status == Free && ports[p].decay <= now
  {
  }

  /** Handing picked ports to a reservation without ports. */
  lemma GrantKeeps(c: Config, s: State, s': State, k: nat, r: nat, ids: seq<nat>, n: int, now: int)
    requires Inv(c, s) && ClockOk(c, s, now) && k < 2 && (r in s.held ==> s.held[r] == [])
    requires ids != [] && GoodPick(s.ports, now, n, ids) && n <= c.quota[k] - s.reserved[k]
    requires s'.ports == Marked(s.ports, ids, Kind(k)) && s'.reserved == s.reserved[k := s.reserved[k] + n]
    requires s'.held == s.held[r := ids] && s'.owner == Owners(s.owner, ids, Some(r)) && s'.clock == now
    requires s'.handler == s.handler && s'.timers == s.timers && s'.decayRunning == s.decayRunning
    requires |s'.requests| == 2 && Queued(s'.requests, s'.held)
    ensures Inv(c, s')
  {
    PickIsFree(s.ports, now, n, ids);
    OwnedReserve(s.ports, s.held, s.owner, r, ids, Kind(k));
    AccountsReserve(c, s.ports, s.reserved, k, ids);
    TimedSame(c, s.ports, s'.ports, s.decayRunning, s.timers, IsTimed(s.handler), s.clock, now);
    assert Decays(c, s'.ports, s'.held, s'.owner, now) by {
      forall p | 0 <= p < |s.ports| && s'.ports[p].decay == NEVER
        ensures s'.owner[p] == s.owner[p] && s'.owner[p].Some? && s'.owner[p].value in s'.held && s'.held[s'.owner[p].value] == [p]
      {
      }
    }
  }

  lemma TimedSame(c: Config, ports: seq<Port>, ports': seq<Port>, decayRunning: bool, timers: seq<Timer>, timed: bool, clock: int, now: int)
    requires Timed(c, ports, decayRunning, timers, timed, clock) && clock <= now && |ports'| == |ports|
    requires forall p :: 0 <= p < |ports| ==> ports'[p].decay == ports[p].decay || !(now < ports'[p].decay < NEVER)
    ensures Timed(c, ports', decayRunning, timers, timed, now)
  {
    forall p | 0 <= p < |ports'| && now < ports'[p].decay < NEVER ensures decayRunning && InTime(timers, ports'[p]) {
      assert decayRunning && InTime(timers, ports[p]);
    }
  }

  lemma ReserveKeeps(c: Config, s: State, k: nat, n: int, r: nat, ids: seq<nat>, now: int)
    requires Inv(c, s) && ClockOk(c, s, now) && k < 2 && r !in s.held
    requires n <= c.quota[k] - s.reserved[k] ==> GoodPick(s.ports, now, n, ids)
    ensures Inv(c, ReserveNow(c, s, k, n, r, ids, now))
  {
    hide Owned, Queued, Decays, Timed, Accounts, GoodPick;
    if n > c.quota[k] - s.reserved[k] || ids == [] {
      TimedLater(c, s.ports, s.decayRunning, s.timers, IsTimed(s.handler), s.clock, now);
      DecaysLater(c, s.ports, s.held, s.owner, s.clock, now);
    } else {
      QueuedHeld(s.requests, s.held, r, ids);
      GrantKeeps(c, s, ReserveNow(c, s, k, n, r, ids, now), k, r, ids, n, now);
    }
  }

  lemma ServeKeeps(c: Config, s: State, ids: seq<nat>, now: int)
    requires Inv(c, s) && ClockOk(c, s, now) && s.handler.Working? && s.handler.next < 2
    requires HeadFits(c, s, s.handler.next) ==> GoodPick(s.ports, now, s.requests[s.handler.next][0].n, ids)
    ensures Inv(c, Serve(c, s, ids, now))
  {
    hide Owned, Queued, Decays, Timed, Accounts, GoodPick;
    var k := s.handler.next;
    if !HeadFits(c, s, k) || ids == [] {
      TimedLater(c, s.ports, s.decayRunning, s.timers, IsTimed(s.handler), s.clock, now);
      DecaysLater(c, s.ports, s.held, s.owner, s.clock, now);
    } else {
      QueuedServe(s.requests, s.held, k, ids);
      GrantKeeps(c, s, Serve(c, s, ids, now), k, s.requests[k][0].r, ids, s.requests[k][0].n, now);
    }
  }

  lemma EnqueueKeeps(c: Config, s: State, k: nat, n: int, r: nat)
    requires Inv(c, s) && k < 2 && r !in s.held
    ensures Inv(c, Enqueue(s, k, n, r))
  {
    QueuedAdd(s.requests, s.held, k, n, r);
    var held' := s.held[r := []];
    forall q, p | q in held' && p in held'[q] ensures OwnedBy(s.ports, held', s.owner, q, p) {
      assert OwnedBy(s.ports, s.held, s.owner, q, p);
    }
  }

  lemma UseKeeps(c: Config, s: State, r: nat, now: int)
    requires Inv(c, s) && ClockOk(c, s, now) && HasPorts(s, r)
    ensures Inv(c, Use(c, s, r, now))
  {
    hide Owned, Queued, Timed, Accounts, Decays;
    UsedDecays(c, s, r, now);
    var d := now + c.decayMs * MS;
    var ports' := Redecayed(s.ports, s.held[r], d);
    OwnedSameStatus(s.ports, s.held, s.owner, ports');
    AccountsSame(c, s.ports, s.reserved, ports');
    assert DecayMoves(c, s.ports, ports', d);
    TimedStart(c, s, s.(ports := ports', clock := now), now);
  }

  lemma UsedDecays(c: Config, s: State, r: nat, now: int)
    requires Inv(c, s) && ClockOk(c, s, now) && HasPorts(s, r)
    ensures Decays(c, Redecayed(s.ports, s.held[r], now + c.decayMs * MS), s.held, s.owner, now)
  {
  }

  lemma KindOfHeld(c: Config, s: State, r: nat)
    requires Inv(c, s) && r in s.held && s.held[r] != []
    ensures HasPorts(s, r) && KindOf(s.ports, s.held[r]) < 2 && NoDup(s.held[r])
    ensures forall p :: p in s.held[r] ==> p < |s.ports| && s.ports[p].status == Kind(KindOf(s.ports, s.held[r]))
  {
    HeldIs(s.ports, s.held, s.owner, r, |s.held[r]| - 1);
    forall i | 0 <= i < |s.held[r]|
      ensures s.held[r][i] < |s.ports| && s.ports[s.held[r][i]].status == Kind(KindOf(s.ports, s.held[r]))
    {
      HeldIs(s.ports, s.held, s.owner, r, i);
    }
  }

  lemma KeepaliveKeeps(c: Config, s: State, r: nat)
    requires Inv(c, s) && HasPorts(s, r)
    ensures Inv(c, Keepalive(s, r))
  {
    hide Owned, Queued, Decays, Timed, Accounts, Marked, Redecayed;
    KeptBooks(c, s, r);
    KeptDecays(c, s, r);
    KeptTimed(c, s, r);
  }

  lemma KeptTimed(c: Config, s: State, r: nat)
    requires Inv(c, s) && HasPorts(s, r)
    ensures Timed(c, Keepalive(s, r).ports, s.decayRunning, s.timers, IsTimed(s.handler), s.clock)
  {
    hide Owned, Queued, Decays, Timed, Accounts;
    TimedSame(c, s.ports, Keepalive(s, r).ports, s.decayRunning, s.timers, IsTimed(s.handler), s.clock, s.clock);
  }

  lemma KeptBooks(c: Config, s: State, r: nat)
    requires Inv(c, s) && HasPorts(s, r)
    ensures var s' := Keepalive(s, r);
            Shape(c, s') && Accounts(c, s'.ports, s'.reserved) && Owned(s'.ports, s'.held, s'.owner) && Queued(s'.requests, s'.held)
  {
    hide Owned, Queued, Decays, Timed, Accounts;
    KindOfHeld(c, s, r);
    var ids, k := s.held[r], KindOf(s.ports, s.held[r]);
    var s' := Keepalive(s, r);
    assert ids == [ids[0]] + ids[1..];
    assert NoDup(ids[1..]) && ids[0] !in ids[1..];
    OwnedFree(s.ports, s.held, s.owner, s'.ports, r, ids[1..], [ids[0]]);
    AccountsFree(c, s.ports, s.reserved, s'.ports, k, ids[1..]);
    QueuedHeld(s.requests, s.held, r, [ids[0]]);
  }

  lemma KeptDecays(c: Config, s: State, r: nat)
    requires Inv(c, s) && HasPorts(s, r)
    ensures var s' := Keepalive(s, r); Decays(c, s'.ports, s'.held, s'.owner, s'.clock)
  {
    hide Queued, Timed, Accounts;
    var ids, s' := s.held[r], Keepalive(s, r);
    forall i | 0 <= i < |ids| ensures s.owner[ids[i]] == Some(r) {
      HeldIs(s.ports, s.held, s.owner, r, i);
    }
    assert NoDup(ids) && ids[0] !in ids[1..];
    forall p | 0 <= p < |s.ports| && s'.ports[p].decay == NEVER
      ensures s'.owner[p].Some? && s'.owner[p].value in s'.held && s'.held[s'.owner[p].value] == [p]
    {
      if p != ids[0] {
        assert s.held[s.owner[p].value] == [p];
        assert s.owner[p].value != r;
      }
    }
  }

  lemma ReleaseKeeps(c: Config, s: State, r: nat, now: int)
    requires Inv(c, s) && ClockOk(c, s, now) && HasPorts(s, r)
    ensures Inv(c, Release(c, s, r, now))
  {
    hide Owned, Queued, Decays, Timed, Accounts, SomeKeptAlive;
    ReleasedBooks(c, s, r, now);
    ReleasedDecays(c, s, r, now);
    ReleasedTimed(c, s, r, now);
  }

  lemma ReleasedBooks(c: Config, s: State, r: nat, now: int)
    requires Inv(c, s) && HasPorts(s, r)
    ensures var s1 := Unreserved(c, s, r, now);
            Shape(c, s1) && Accounts(c, s1.ports, s1.reserved) && Owned(s1.ports, s1.held, s1.owner) && Queued(s1.requests, s1.held)
  {
    hide Owned, Queued, Decays, Timed, Accounts;
    KindOfHeld(c, s, r);
    var ids, k := s.held[r], KindOf(s.ports, s.held[r]);
    var ports' := Released(s.ports, ids, now + c.decayMs * MS);
    OwnedFree(s.ports, s.held, s.owner, ports', r, ids, []);
    AccountsFree(c, s.ports, s.reserved, ports', k, ids);
    QueuedHeld(s.requests, s.held, r, []);
  }

  lemma ReleasedTimed(c: Config, s: State, r: nat, now: int)
    requires Inv(c, s) && ClockOk(c, s, now) && HasPorts(s, r)
    ensures var s' := Release(c, s, r, now); Timed(c, s'.ports, s'.decayRunning, s'.timers, IsTimed(s'.handler), s'.clock)
  {
    hide Owned, Queued, Decays, Timed, Accounts;
    var s1 := Unreserved(c, s, r, now);
    if SomeKeptAlive(s.ports, s.held[r]) {
      TimedStart(c, s, s1, now);
    } else {
      forall p | 0 <= p < |s.ports| && p in s.held[r] ensures s.ports[p].decay != NEVER {
        var i :| 0 <= i < |s.held[r]| && s.held[r][i] == p;
      }
      TimedSame(c, s.ports, s1.ports, s.decayRunning, s.timers, IsTimed(s.handler), s.clock, now);
    }
  }

  lemma ReleasedDecays(c: Config, s: State, r: nat, now: int)
    requires Inv(c, s) && ClockOk(c, s, now) && HasPorts(s, r)
    ensures Decays(c, Released(s.ports, s.held[r], now + c.decayMs * MS), s.held[r := []], Owners(s.owner, s.held[r], None), now)
  {
    var ids := s.held[r];
    var ports', held', owner' := Released(s.ports, ids, now + c.decayMs * MS), s.held[r := []], Owners(s.owner, ids, None);
    forall p | 0 <= p < |s.ports| && ports'[p].decay == NEVER
      ensures owner'[p].Some? && owner'[p].value in held' && held'[owner'[p].value] == [p]
    {
      assert p !in ids && s.held[s.owner[p].value] == [p] && p in [p];
    }
  }

  lemma FinishTimerKeeps(c: Config, s: State, e: Option<int>, now: int)
    requires Inv(c, s) && ClockOk(c, s, now) && s.handler.Working? && s.handler.next == 2 && s.handler.timed && IsEarliest(s.ports, now, e)
    ensures Inv(c, FinishTimer(s, e, now))
  {
    if e.Some? {
      var delay := (e.value - now) / MS + 1;
      assert e.value - now < delay * MS <= e.value - now + MS;
      var p :| 0 <= p < |s.ports| && s.ports[p].decay == e.value;
      assert s.ports[p].decay <= s.clock + c.decayMs * MS;
    }
  }

  lemma StartTimerKeeps(c: Config, s: State, now: int)
    requires Inv(c, s) && ClockOk(c, s, now) && s.handler.Idle? && |s.timers| > 0
    ensures Inv(c, StartTimer(s, now))
  {
  }

  lemma PostedKeeps(c: Config, s: State, now: int)
    requires Inv(c, s) && ClockOk(c, s, now) && |s.timers| > 0
    ensures Inv(c, Posted(s, now))
  {
    var s' := Posted(s, now);
    forall p | 0 <= p < |s.ports| && now < s.ports[p].decay < NEVER ensures s'.decayRunning && InTime(s'.timers, s.ports[p]) {
      assert InTime(s.timers, s.ports[p]);
    }
  }

  lemma CancelKeeps(c: Config, s: State, r: nat)
    requires Inv(c, s)
    ensures Inv(c, Cancel(s, r))
  {
    QueuedCancel(s.requests, s.held, r);
  }

  /** Every step keeps the invariant. */
  lemma StepKeeps(c: Config, s: State, ev: Event)
    requires Inv(c, s) && Enabled(c, s, ev)
    ensures Inv(c, Next(c, s, ev))
  {
    match ev {
      case EvReserve(k, n, r, ids, now) => ReserveKeeps(c, s, k, n, r, ids, now);
      case EvEnqueue(k, n, r) => EnqueueKeeps(c, s, k, n, r);
      case EvUse(r, now) => UseKeeps(c, s, r, now);
      case EvKeepalive(r) => KeepaliveKeeps(c, s, r);
      case EvRelease(r, now) => ReleaseKeeps(c, s, r, now);
      case EvCancel(r) => CancelKeeps(c, s, r);
      case EvServe(ids, now) => ServeKeeps(c, s, ids, now);
      case EvStartKick =>
      case EvStartTimer(now) => StartTimerKeeps(c, s, now);
      case EvFinishKick =>
      case EvFinishTimer(e, now) => FinishTimerKeeps(c, s, e, now);
      case EvPosted(now) => PostedKeeps(c, s, now);
    }
  }
}
