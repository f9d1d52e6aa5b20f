// Runs of a fast rendezvous that meet the bounds, and one with a second READY.
module FastRuns {
  import opened Common
  import opened FastModel
  import opened FastSafety

  /** Some run ends in s. */
  ghost predicate Reachable(s: State) {
    exists ss, evs :: IsRun(ss, evs) && ss[|evs|] == s
  }

  lemma ReachInitial(ready: bool)
    ensures Reachable(Initial(ready))
  {
    assert IsRun([Initial(ready)], []);
  }

  lemma Reach(s: State, ev: Event, s': State)
    requires Reachable(s) && IsStep(s, ev, s')
    ensures Reachable(s')
  {
    hide IsStep;
    var ss, evs :| IsRun(ss, evs) && ss[|evs|] == s;
    var ss', evs' := ss + [s'], evs + [ev];
    forall i | 0 <= i < |evs'| ensures IsStep(ss'[i], evs'[i], ss'[i + 1]) {
      if i < |evs| {
        assert IsStep(ss[i], evs[i], ss[i + 1]);
      }
    }
    assert IsRun(ss', evs');
  }

  // ---------------------------------------------------------------- the second READY

  /** An owner that did not wait for its ports: its peer is in its second step before anyone has pinged. */
  lemma SecondReady()
    ensures exists s :: Reachable(s) && SameStep(s) && s.b.step == s.a.step + 1 && s.a.pings == s.b.pings == 0
  {
    ReachInitial(false);
    hide Reachable;
    var s0 := Initial(false);
    var s1 := s0.(b := NewStep(s0.b, true), toB := []);
    assert [Ready][1..] == [];
    Reach(s0, RecvB, s1);
    var s2 := s1.(b := s1.b.(waiting := false), addrToA := true);
    Reach(s1, PortsB, s2);
    var s3 := s2.(toB := [Ready], addrToA := false, ready := true, extra := 1);
    assert [] + [Ready] == [Ready];
    Reach(s2, AddrA, s3);
    var s4 := s3.(b := NewStep(s3.b, true), toB := []);
    Reach(s3, RecvB, s4);
    assert SameStep(s4) && s4.b.step == s4.a.step + 1 && s4.a.pings == s4.b.pings == 0;
  }

  // ---------------------------------------------------------------- the owner ahead, in every step

  function Copies<T>(n: nat, x: T): (r: seq<T>) {
    seq(n, _ => x)
  }

  lemma OneMore<T>(n: nat, x: T)
    ensures Copies(n, x) + [x] == Copies(n + 1, x) && Copies(n + 1, x)[1..] == Copies(n, x) && Copies(n + 1, x)[0] == x
  {
  }

  function Side(step: int, k: nat, turn: bool, sending: nat): Peer {
    Peer(true, step, FIRST_TTL + k, turn, true, false, sending, k)
  }

  /** Both sides ping in step a.step; n NEXTs are on their way to the peer, `toA` to the owner. */
  function Both(a: Peer, b: Peer, n: nat, toA: seq<int>, freshA: nat, staleA: nat, gotB: nat): State {
    State(a, b, Copies(n, NextMsg), toA, false, false, freshA, staleA, gotB, a.pings, true, 0)
  }

  /** The owner has used i of the NEXTs left over from the steps before to ping i times; its peer has not pinged. */
  function Ahead(st: nat, i: nat): State
    requires i <= 2 * st
  {
    Both(Side(st, i, true, 0), Side(st, 0, true, 0), i, Copies(2 * st - i, st - 1), 0, i, 0)
  }

  lemma ReachAheadNext(st: nat, i: nat)
    requires i < 2 * st && st <= LAST_STEP && Reachable(Ahead(st, i))
    ensures Reachable(Ahead(st, i + 1))
  {
    hide Reachable;
    var toA := Copies(2 * st - i, st - 1);
    var s1 := Both(Side(st, i + 1, false, 1), Side(st, 0, true, 0), i, toA, 0, i, 0);
    Reach(Ahead(st, i), PingA(true), s1);
    var s2 := Both(Side(st, i + 1, false, 0), Side(st, 0, true, 0), i + 1, toA, 0, i, 0);
    OneMore(i, NextMsg);
    Reach(s1, SentA(true), s2);
    OneMore(2 * st - i - 1, st - 1);
    Reach(s2, NextA, Ahead(st, i + 1));
  }

  lemma {:induction false} ReachAhead(st: nat, i: nat)
    requires i <= 2 * st && st <= LAST_STEP && Reachable(Ahead(st, 0))
    ensures Reachable(Ahead(st, i))
  {
    if i > 0 {
      ReachAhead(st, i - 1);
      ReachAheadNext(st, i - 1);
    }
  }

  /** Its peer has caught up by i pings. */
  function Caught(st: nat, i: nat): State
    requires i <= 2 * st
  {
    Both(Side(st, 2 * st, true, 0), Side(st, i, true, 0), 2 * st - i, Copies(i, st), 0, 2 * st, i)
  }

  lemma ReachCaughtNext(st: nat, i: nat)
    requires i < 2 * st && st <= LAST_STEP && Reachable(Caught(st, i))
    ensures Reachable(Caught(st, i + 1))
  {
    hide Reachable;
    var a, n := Side(st, 2 * st, true, 0), 2 * st - i;
    var s1 := Both(a, Side(st, i + 1, false, 1), n, Copies(i, st), 0, 2 * st, i);
    Reach(Caught(st, i), PingB, s1);
    var s2 := Both(a, Side(st, i + 1, false, 0), n, Copies(i + 1, st), 0, 2 * st, i);
    OneMore(i, st);
    Reach(s1, SentB(true), s2);
    OneMore(n - 1, NextMsg);
    Reach(s2, RecvB, Caught(st, i + 1));
  }

  lemma {:induction false} ReachCaught(st: nat, i: nat)
    requires i <= 2 * st && st <= LAST_STEP && Reachable(Caught(st, 0))
    ensures Reachable(Caught(st, i))
  {
    if i > 0 {
      ReachCaught(st, i - 1);
      ReachCaughtNext(st, i - 1);
    }
  }

  /** Both have pinged k times, and two NEXTs for each step before are always on their way to the owner. */
  function Level(st: nat, k: nat): State
    requires 2 * st <= k
  {
    Both(Side(st, k, true, 0), Side(st, k, true, 0), 0, Copies(2 * st, st), k - 2 * st, 2 * st, k)
  }

  lemma ReachLevelNext(st: nat, k: nat)
    requires 2 * st <= k < 62 && st <= LAST_STEP && Reachable(Level(st, k))
    ensures Reachable(Level(st, k + 1))
  {
    hide Reachable;
    var toA, fre, stale := Copies(2 * st, st), k - 2 * st, 2 * st;
    OneMore(0, NextMsg);
    OneMore(2 * st, st);
    var s1 := Both(Side(st, k + 1, false, 1), Side(st, k, true, 0), 0, toA, fre, stale, k);
    Reach(Level(st, k), PingA(true), s1);
    var s2 := Both(Side(st, k + 1, false, 0), Side(st, k, true, 0), 1, toA, fre, stale, k);
    Reach(s1, SentA(true), s2);
    var s3 := Both(Side(st, k + 1, false, 0), Side(st, k + 1, false, 1), 1, toA, fre, stale, k);
    Reach(s2, PingB, s3);
    var s4 := Both(Side(st, k + 1, false, 0), Side(st, k + 1, false, 0), 1, Copies(2 * st + 1, st), fre, stale, k);
    Reach(s3, SentB(true), s4);
    var s5 := Both(Side(st, k + 1, false, 0), Side(st, k + 1, true, 0), 0, Copies(2 * st + 1, st), fre, stale, k + 1);
    Reach(s4, RecvB, s5);
    Reach(s5, NextA, Level(st, k + 1));
  }

  lemma {:induction false} ReachLevel(st: nat, k: nat)
    requires 2 * st <= k <= 62 && st <= LAST_STEP && Reachable(Level(st, 2 * st))
    ensures Reachable(Level(st, k))
    decreases k
  {
    if k > 2 * st {
      ReachLevel(st, k - 1);
      ReachLevelNext(st, k - 1);
    }
  }

  /** The step is over for the owner, after 63 pings. */
  function Over(st: nat, sendA: nat, b: Peer, n: nat, toA: seq<int>, gotB: nat): State
    requires 2 * st <= 62
  {
    Both(Peer(true, st, LAST_TTL, false, false, true, sendA, 63), b, n, toA, 62 - 2 * st, 2 * st, gotB)
  }

  /** The peer pings and passes the turn on. */
  lemma ReachPeerPing(st: nat, k: nat, n: nat, m: nat, gotB: nat)
    requires st < LAST_STEP && Reachable(Over(st, 0, Side(st, k, true, 0), n, Copies(m, st), gotB))
    ensures Reachable(Over(st, 0, Side(st, k + 1, false, 0), n, Copies(m + 1, st), gotB))
  {
    hide Reachable;
    var s0 := Over(st, 0, Side(st, k, true, 0), n, Copies(m, st), gotB);
    var s1 := Over(st, 0, Side(st, k + 1, false, 1), n, Copies(m, st), gotB);
    Reach(s0, PingB, s1);
    OneMore(m, st);
    Reach(s1, SentB(true), Over(st, 0, Side(st, k + 1, false, 0), n, Copies(m + 1, st), gotB));
  }

  /** Two more pings of the peer, which got the turn once more: two more NEXTs are left over. */
  lemma ReachOver(st: nat)
    requires st < LAST_STEP && Reachable(Level(st, 62))
    ensures Reachable(Over(st, 0, Side(st, 64, false, 0), 0, Copies(2 * st + 2, st), 63))
  {
    hide Reachable;
    var b := Side(st, 62, true, 0);
    var s1, s2 := Over(st, 1, b, 0, Copies(2 * st, st), 62), Over(st, 0, b, 1, Copies(2 * st, st), 62);
    Reach(Level(st, 62), PingA(true), s1);
    OneMore(0, NextMsg);
    Reach(s1, SentA(true), s2);
    ReachPeerPing(st, 62, 1, 2 * st, 62);
    var s3 := Over(st, 0, Side(st, 63, true, 0), 0, Copies(2 * st + 1, st), 63);
    Reach(Over(st, 0, Side(st, 63, false, 0), 1, Copies(2 * st + 1, st), 62), RecvB, s3);
    ReachPeerPing(st, 63, 0, 2 * st + 1, 63);
  }

  /** The next step, entered with them on their way. */
  lemma ReachStep(st: nat)
    requires st < LAST_STEP && Reachable(Over(st, 0, Side(st, 64, false, 0), 0, Copies(2 * st + 2, st), 63))
    ensures Reachable(Ahead(st + 1, 0))
  {
    hide Reachable;
    var s0, toA := Over(st, 0, Side(st, 64, false, 0), 0, Copies(2 * st + 2, st), 63), Copies(2 * st + 2, st);
    var a := Peer(true, st + 1, FIRST_TTL, true, false, false, 0, 0);
    var s1 := State(a, s0.b, [Ready], toA, false, false, 0, 0, 63, 63, true, 0);
    assert Copies(0, NextMsg) + [Ready] == [Ready];
    Reach(s0, PortsA, s1);
    var s2 := State(a, a.(waiting := true), [], toA, false, false, 0, 0, 0, 0, true, 0);
    assert [Ready][1..] == [];
    Reach(s1, RecvB, s2);
    ReachPinging(st + 1, toA);
  }

  lemma ReachPinging(st: nat, toA: seq<int>)
    requires var a := Peer(true, st, FIRST_TTL, true, false, false, 0, 0);
             Reachable(State(a, a.(waiting := true), [], toA, false, false, 0, 0, 0, 0, true, 0))
    requires toA == Copies(2 * st, st - 1)
    ensures Reachable(Ahead(st, 0))
  {
    hide Reachable;
    var a := Peer(true, st, FIRST_TTL, true, false, false, 0, 0);
    var s2 := State(a, a.(waiting := true), [], toA, false, false, 0, 0, 0, 0, true, 0);
    var s3 := State(a, a, [], toA, true, false, 0, 0, 0, 0, true, 0);
    Reach(s2, PortsB, s3);
    var s4 := State(a.(pinging := true), a, [], toA, false, true, 0, 0, 0, 0, true, 0);
    Reach(s3, AddrA, s4);
    assert Copies(0, NextMsg) == [];
    Reach(s4, AddrB, Ahead(st, 0));
  }

  lemma {:induction false} ReachEveryStep(st: nat)
    requires st <= LAST_STEP
    ensures Reachable(Ahead(st, 0))
  {
    if st == 0 {
      ReachInitial(true);
      hide Reachable;
      var s0 := Initial(true);
      var a := Peer(true, 0, FIRST_TTL, true, false, false, 0, 0);
      assert [Ready][1..] == [] && Copies(0, -1) == [];
      Reach(s0, RecvB, State(a, a.(waiting := true), [], [], false, false, 0, 0, 0, 0, true, 0));
      ReachPinging(0, []);
    } else {
      ReachEveryStep(st - 1);
      hide Reachable;
      ReachAhead(st - 1, 2 * (st - 1));
      assert Ahead(st - 1, 2 * (st - 1)) == Caught(st - 1, 0);
      ReachCaught(st - 1, 2 * (st - 1));
      assert Caught(st - 1, 2 * (st - 1)) == Level(st - 1, 2 * (st - 1));
      ReachLevel(st - 1, 62);
      ReachOver(st - 1);
      ReachStep(st - 1);
    }
  }

  /** Both bounds of PingsInTurn are met in every step: by an owner 1 + 2 * st pings ahead and by a peer one ping ahead. */
  lemma BoundsMet(st: nat)
    requires st <= LAST_STEP
    ensures exists s :: Reachable(s) && SameStep(s) && s.a.step == st && s.a.pings == s.b.pings + 1 + 2 * st
    ensures exists s :: Reachable(s) && SameStep(s) && s.a.step == st && s.b.pings == s.a.pings + 1
  {
    ReachEveryStep(st);
    hide Reachable;
    var b := Side(st, 0, true, 0);
    var s1 := Both(Side(st, 0, true, 0), Side(st, 1, false, 1), 0, Copies(2 * st, st - 1), 0, 0, 0);
    Reach(Ahead(st, 0), PingB, s1);
    assert SameStep(s1);
    ReachAhead(st, 2 * st);
    var s2 := Both(Side(st, 2 * st + 1, false, 1), b, 2 * st, Copies(0, st - 1), 0, 2 * st, 0);
    Reach(Ahead(st, 2 * st), PingA(true), s2);
    assert SameStep(s2) && s2.a.step == st && s2.a.pings == s2.b.pings + 1 + 2 * st;
  }
}
