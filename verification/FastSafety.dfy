// What holds in every run of a fast rendezvous.
module FastSafety {
  import opened Common
  import opened FastModel

  lemma {:induction false} NextsSnoc(ms: seq<Msg>, x: Msg)
    ensures Nexts(ms + [x]) == Nexts(ms) + (if x == NextMsg then 1 else 0) && Nexts(ms) <= |ms|
  {
    if ms == [] {
      assert [x][1..] == [];
    } else {
      assert (ms + [x])[1..] == ms[1..] + [x];
      NextsSnoc(ms[1..], x);
    }
  }

  lemma {:induction false} TaggedSnoc(ts: seq<int>, x: int, step: int)
    ensures Tagged(ts + [x], step) == Tagged(ts, step) + (if x == step then 1 else 0)
  {
    if ts == [] {
      assert [x][1..] == [];
    } else {
      assert (ts + [x])[1..] == ts[1..] + [x];
      TaggedSnoc(ts[1..], x, step);
    }
  }

  lemma {:induction false} TaggedNone(ts: seq<int>, step: int)
    requires forall i :: 0 <= i < |ts| ==> ts[i] < step
    ensures Tagged(ts, step) == 0
  {
    if ts != [] {
      TaggedNone(ts[1..], step);
    }
  }

  /** READY is the last of several messages only if the first is a NEXT. */
  lemma {:induction false} AllNexts(ms: seq<Msg>)
    requires ms != []
    ensures Nexts(ms) == |ms| ==> ms[0] == NextMsg && Nexts(ms[1..]) == |ms[1..]|
    ensures Nexts(ms) == |ms| - 1 && ms[|ms| - 1] == Ready && ms[0] == Ready ==> |ms| == 1
    ensures ms[0] == NextMsg ==> Nexts(ms[1..]) == Nexts(ms) - 1
    ensures Nexts(ms) <= |ms|
  {
    NextsSnoc(ms[1..], Ready);
    if |ms| > 1 {
      var last := |ms| - 1;
      assert ms == ms[..last] + [ms[last]];
      NextsSnoc(ms[..last], ms[last]);
      assert ms[1..] == ms[1..last] + [ms[last]];
      NextsSnoc(ms[1..last], ms[last]);
    }
  }

  lemma RecvKeeps(s: State)
    requires Inv(s) && Enabled(s, RecvB)
    ensures Inv(Next(s, RecvB))
  {
    AllNexts(s.toB);
    var s' := Next(s, RecvB);
    if s.toB[0] == Ready {
      assert !SameStep(s) && |s.toB| == 1 && s'.toB == [];
      TaggedNone(s.toA, Round(s));
    } else if !SameStep(s) {
      assert |s.toB| > 1;
      assert s'.toB[|s'.toB| - 1] == s.toB[|s.toB| - 1];
    }
  }

  lemma NextKeeps(s: State)
    requires Inv(s) && Enabled(s, NextA)
    ensures Inv(Next(s, NextA))
  {
    hide Nexts;
    var s' := Next(s, NextA);
    forall i | 0 <= i < |s'.toA| ensures s'.toA[i] <= s'.b.step {
      assert s'.toA[i] == s.toA[i + 1];
    }
    assert s.toA[0] <= s.b.step;
    TaggedTail(s.toA, Round(s));
    hide Tagged;
    if s.toA[0] == Round(s) {
    } else {
    }
  }

  lemma TaggedTail(ts: seq<int>, step: int)
    requires ts != []
    ensures Tagged(ts, step) == (if ts[0] == step then 1 else 0) + Tagged(ts[1..], step)
  {
  }

  lemma SentBKeeps(s: State, ok: bool)
    requires Inv(s) && Enabled(s, SentB(ok))
    ensures Inv(Next(s, SentB(ok)))
  {
    TaggedSnoc(s.toA, s.b.step, Round(s));
  }

  lemma SentAKeeps(s: State, ok: bool)
    requires Inv(s) && Enabled(s, SentA(ok))
    ensures Inv(Next(s, SentA(ok)))
  {
    NextsSnoc(s.toB, NextMsg);
  }

  lemma PortsAKeeps(s: State)
    requires Inv(s) && Enabled(s, PortsA)
    ensures Inv(Next(s, PortsA))
  {
    NextsSnoc(s.toB, Ready);
  }

  lemma PingKeeps(s: State, ev: Event)
    requires Inv(s) && Enabled(s, ev) && (ev.PingA? || ev.PingB?)
    ensures Inv(Next(s, ev))
  {
    hide Nexts, Tagged;
  }

  /** The peer's address starts the owner's pings, or sends the peer to another step first. */
  lemma AddrAKeeps(s: State)
    requires Inv(s) && Enabled(s, AddrA)
    ensures Inv(Next(s, AddrA))
  {
    NextsSnoc(s.toB, Ready);
    hide Nexts, Tagged;
    if s.ready {
    } else {
    }
  }

  lemma AddrKeeps(s: State, ev: Event)
    requires Inv(s) && Enabled(s, ev) && (ev.PortsB? || ev.AddrB? || ev.StopA? || ev.StopB?)
    ensures Inv(Next(s, ev))
  {
    hide Nexts, Tagged;
  }

  /** Every event keeps the invariant. */
  lemma StepKeeps(s: State, ev: Event)
    requires Inv(s) && Enabled(s, ev)
    ensures Inv(Next(s, ev))
  {
    hide Inv, Next, Enabled;
    match ev {
      case PingA(ok) => PingKeeps(s, ev);
      case SentA(ok) => SentAKeeps(s, ok);
      case PortsA => PortsAKeeps(s);
      case NextA => NextKeeps(s);
      case AddrA => AddrAKeeps(s);
      case PingB => PingKeeps(s, ev);
      case SentB(ok) => SentBKeeps(s, ok);
      case PortsB => AddrKeeps(s, ev);
      case RecvB => RecvKeeps(s);
      case AddrB => AddrKeeps(s, ev);
      case StopA => AddrKeeps(s, ev);
      case StopB => AddrKeeps(s, ev);
    }
  }

  // ---------------------------------------------------------------- messages left over from earlier steps

  /** The NEXT messages a peer one step behind can still send. */
  function Potential(s: State): int {
    if SameStep(s) || s.a.step == 0 then 0 else s.b.sending + (LAST_TTL - 1) - s.b.pings
  }

  /** The messages of earlier steps that the owner got in this one, has on their way, or may yet get: two for each step before. */
  ghost predicate StaleOk(s: State) {
    && (s.a.waiting ==> s.a.ttl == LAST_TTL)
    && (s.a.step == 0 && (!SameStep(s) || !s.ready) ==> s.toA == [] && s.b.sending == 0 && !s.b.pinging && !s.addrToB)
    && s.staleA + |s.toA| - Tagged(s.toA, Round(s)) + Potential(s) <= 2 * s.a.step
  }

  /** A finished step had 63 pings of the owner, hence 62 NEXTs of the peer, which sent at most 64. */
  lemma PortsStale(s: State)
    requires Inv(s) && StaleOk(s) && Enabled(s, PortsA)
    ensures StaleOk(Next(s, PortsA))
  {
    var s' := Next(s, PortsA);
    TaggedNone(s'.toA, Round(s'));
  }

  lemma RecvStale(s: State)
    requires Inv(s) && StaleOk(s) && Enabled(s, RecvB)
    ensures StaleOk(Next(s, RecvB))
  {
    AllNexts(s.toB);
    if !SameStep(s) {
      TaggedNone(s.toA, Round(s));
    }
  }

  lemma SentBStale(s: State, ok: bool)
    requires Inv(s) && StaleOk(s) && Enabled(s, SentB(ok))
    ensures StaleOk(Next(s, SentB(ok)))
  {
    hide Nexts;
    TaggedSnoc(s.toA, s.b.step, Round(s));
  }

  lemma OtherStale(s: State, ev: Event)
    requires Inv(s) && StaleOk(s) && Enabled(s, ev) && !ev.PortsA? && !ev.RecvB? && !ev.SentB?
    ensures StaleOk(Next(s, ev))
  {
    hide Nexts;
    match ev {
      case NextA => assert s.toA[0] <= s.b.step;
      case _ =>
    }
  }

  lemma StepStale(s: State, ev: Event)
    requires Inv(s) && StaleOk(s) && Enabled(s, ev)
    ensures StaleOk(Next(s, ev))
  {
    hide Inv, Next, Enabled, StaleOk;
    match ev {
      case PortsA => PortsStale(s);
      case RecvB => RecvStale(s);
      case SentB(ok) => SentBStale(s, ok);
      case _ => OtherStale(s, ev);
    }
  }

  // ---------------------------------------------------------------- runs

  /** The owner has its ports and has said so; `ready` tells whether it waited for them, as a best effort does. */
  function Initial(ready: bool): State {
    State(Peer(true, 0, FIRST_TTL, true, false, false, 0, 0), Peer(true, -1, FIRST_TTL, true, false, false, 0, 0),
          [Ready], [], false, false, 0, 0, 0, 0, ready, 0)
  }

  ghost predicate IsRun(ss: seq<State>, evs: seq<Event>) {
    |ss| == |evs| + 1 && ss[0] == Initial(ss[0].ready) && forall i :: 0 <= i < |evs| ==> IsStep(ss[i], evs[i], ss[i + 1])
  }

  lemma InitialOk(ready: bool)
    ensures Inv(Initial(ready)) && StaleOk(Initial(ready))
  {
    assert [Ready][1..] == [] && Nexts([Ready]) == 0;
  }

  lemma {:induction false} RunInv(ss: seq<State>, evs: seq<Event>, i: nat)
    requires IsRun(ss, evs) && i < |ss|
    ensures Inv(ss[i])
  {
    hide Inv, Next, Enabled;
    if i == 0 {
      InitialOk(ss[0].ready);
    } else {
      RunInv(ss, evs, i - 1);
      assert IsStep(ss[i - 1], evs[i - 1], ss[i]);
      StepKeeps(ss[i - 1], evs[i - 1]);
    }
  }

  /** While both sides ping in the same step, one of them can ping, or a ping or a NEXT is on its way: neither waits for ever. */
  lemma SomeoneMoves(ss: seq<State>, evs: seq<Event>, i: nat)
    requires IsRun(ss, evs) && i < |ss|
    requires ss[i].a.live && ss[i].b.live && ss[i].a.pinging && ss[i].b.pinging
    ensures Enabled(ss[i], PingA(true)) || Enabled(ss[i], PingB) || Enabled(ss[i], SentA(true)) || Enabled(ss[i], SentB(true))
            || Enabled(ss[i], NextA) || Enabled(ss[i], RecvB)
  {
    RunInv(ss, evs, i);
    if ss[i].toB == [] {
      assert Nexts(ss[i].toB) == 0;
    }
  }

  lemma {:induction false} RunStale(ss: seq<State>, evs: seq<Event>, i: nat)
    requires IsRun(ss, evs) && i < |ss|
    ensures StaleOk(ss[i])
  {
    hide Inv, Next, Enabled, StaleOk;
    if i == 0 {
      InitialOk(ss[0].ready);
    } else {
      RunStale(ss, evs, i - 1);
      RunInv(ss, evs, i - 1);
      assert IsStep(ss[i - 1], evs[i - 1], ss[i]);
      StepStale(ss[i - 1], evs[i - 1]);
    }
  }

  /**
   * While both are in one step the peer is never more than one ping ahead of the owner, and the owner never more than one
   * ahead of the peer in the first step, three in the second and five in the third; so neither TTL can run away.
   */
  lemma PingsInTurn(ss: seq<State>, evs: seq<Event>, i: nat)
    requires IsRun(ss, evs) && i < |ss|
    ensures var s := ss[i];
            && (SameStep(s) ==> s.b.pings - 1 <= s.a.pings <= s.b.pings + 1 + 2 * s.a.step)
            && s.a.pings <= 63 && s.b.pings <= 64 && s.a.ttl <= 65 && s.b.ttl <= 66 && s.a.step <= 2
  {
    RunInv(ss, evs, i);
    RunStale(ss, evs, i);
    TaggedAtMost(ss[i].toA, Round(ss[i]));
  }

  lemma {:induction false} TaggedAtMost(ts: seq<int>, step: int)
    ensures Tagged(ts, step) <= |ts|
  {
    if ts != [] {
      TaggedAtMost(ts[1..], step);
    }
  }

  /** In the present step of the owner, the NEXTs it got that were sent in earlier ones. */
  ghost function LeftOvers(ss: seq<State>, evs: seq<Event>, i: nat): nat
    requires i < |ss| == |evs| + 1
  {
    if i == 0 || evs[i - 1] == PortsA then 0
    else LeftOvers(ss, evs, i - 1) + One(evs[i - 1] == NextA && ss[i - 1].toA != [] && ss[i - 1].toA[0] != Round(ss[i - 1]))
  }

  lemma {:induction false} StaleIsLeftOver(ss: seq<State>, evs: seq<Event>, i: nat)
    requires IsRun(ss, evs) && i < |ss|
    ensures ss[i].staleA == LeftOvers(ss, evs, i)
  {
    if i > 0 {
      StaleIsLeftOver(ss, evs, i - 1);
      assert IsStep(ss[i - 1], evs[i - 1], ss[i]);
      StaleStep(ss[i - 1], evs[i - 1]);
    }
  }

  lemma StaleStep(s: State, ev: Event)
    requires Enabled(s, ev)
    ensures Next(s, ev).staleA == if ev == PortsA then 0 else s.staleA + One(ev == NextA && s.toA != [] && s.toA[0] != Round(s))
  {
  }

  /** The owner gets ahead of its turn only by such messages, by one ping for each; there are two at most for each step before. */
  lemma AheadByLeftOvers(ss: seq<State>, evs: seq<Event>, i: nat)
    requires IsRun(ss, evs) && i < |ss|
    ensures SameStep(ss[i]) ==> -1 <= ss[i].a.pings - ss[i].b.pings <= 1 + LeftOvers(ss, evs, i)
    ensures LeftOvers(ss, evs, i) <= 2 * ss[i].a.step
  {
    RunInv(ss, evs, i);
    RunStale(ss, evs, i);
    StaleIsLeftOver(ss, evs, i);
    TaggedAtMost(ss[i].toA, Round(ss[i]));
    hide LeftOvers, Tagged, Nexts;
  }
}
