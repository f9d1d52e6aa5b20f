// dnode/PortAllocator: every critical section as a step over a value state, with what all of them keep.
module PortModel {
  import opened Common

  // Times are nanoseconds of a steady clock; NEVER is its largest value.
  const MS: int := 1_000_000
  const NEVER: int := 0x7fff_ffff_ffff_ffff

  datatype Status = Free | Symm | Fast

  datatype Port = Port(status: Status, decay: int)

  /** quota[0] ports for symmetric and quota[1] for fast rendezvous; a used port decays for decayMs. */
  datatype Config = Config(quota: seq<nat>, decayMs: nat)

  function Kind(k: nat): Status {
    if k == 0 then Symm else Fast
  }

  /** A request of n ports for reservation r, waiting to be served. */
  datatype Request = Request(n: int, r: nat)

  /** A decay timer decided on at `since` for delay ms later: not yet handed to the reactor, or due at a fixed time. */
  datatype Timer = ToPost(since: int, delay: nat) | Armed(since: int, delay: nat, due: int)

  /**
   * What the reactor thread is doing: nothing, or serving requests, class `next` being the next one to serve and `at`
   * the clock readings at which the earlier ones stopped. `timed` tells the decay timeout from a plain request.
   */
  datatype Handler = Idle | Working(next: nat, timed: bool, at: seq<int>)

  /**
   * held[r] are the ports of reservation r, owner[p] the reservation of port p, kicks the posted request runs, clock
   * the latest clock reading.
   */
  datatype State = State(ports: seq<Port>, requests: seq<seq<Request>>, reserved: seq<int>, held: map<nat, seq<nat>>,
                         decayRunning: bool, timers: seq<Timer>, kicks: nat, handler: Handler, clock: int,
                         owner: seq<Option<nat>>)

  // ---------------------------------------------------------------- changes to ports

  function Marked(ports: seq<Port>, ids: seq<nat>, st: Status): (r: seq<Port>)
    ensures |r| == |ports|
  {
    seq(|ports|, p requires 0 <= p < |ports| => if p in ids then ports[p].(status := st) else ports[p])
  }

  function Redecayed(ports: seq<Port>, ids: seq<nat>, d: int): (r: seq<Port>)
    ensures |r| == |ports|
  {
    seq(|ports|, p requires 0 <= p < |ports| => if p in ids then ports[p].(decay := d) else ports[p])
  }

  /** All of `ids` freed, the kept alive ones starting to decay. */
  function Released(ports: seq<Port>, ids: seq<nat>, d: int): (r: seq<Port>)
    ensures |r| == |ports|
  {
    seq(|ports|, p requires 0 <= p < |ports| =>
      if p in ids then Port(Free, if ports[p].decay == NEVER then d else ports[p].decay) else ports[p])
  }

  function Owners(owner: seq<Option<nat>>, ids: seq<nat>, o: Option<nat>): (r: seq<Option<nat>>)
    ensures |r| == |owner|
  {
    seq(|owner|, p requires 0 <= p < |owner| => if p in ids then o else owner[p])
  }

  function Holders(ports: seq<Port>, st: Status): set<nat> {
    set p | 0 <= p < |ports| && ports[p].status == st
  }

  /** Free and decayed at time t. */
  function Pickable(ports: seq<Port>, t: int): set<nat> {
    set p | 0 <= p < |ports| && ports[p].status == Free && ports[p].decay <= t
  }

  /** What a reservation of n ports at `now` picks: n free decayed ports if n > 0 and there are so many, else nothing. */
  ghost predicate GoodPick(ports: seq<Port>, now: int, n: int, ids: seq<nat>) {
    if 1 <= n <= |Pickable(ports, now)| then
      |ids| == n && NoDup(ids) && forall p :: p in ids ==> p in Pickable(ports, now)
    else
      ids == []
  }

  /** e is the earliest time after `now` at which a port decays, if any does. */
  ghost predicate IsEarliest(ports: seq<Port>, now: int, e: Option<int>) {
    && (forall p :: 0 <= p < |ports| && now < ports[p].decay < NEVER ==> e.Some? && e.value <= ports[p].decay)
    && (e.Some? ==> now < e.value < NEVER && exists p :: 0 <= p < |ports| && ports[p].decay == e.value)
  }

  function KindOf(ports: seq<Port>, ids: seq<nat>): nat
    requires ids != [] && ids[|ids| - 1] < |ports|
  {
    if ports[ids[|ids| - 1]].status == Symm then 0 else 1
  }

  // ---------------------------------------------------------------- the critical sections

  function ReserveNow(c: Config, s: State, k: nat, n: int, r: nat, ids: seq<nat>, now: int): State
    requires k < |c.quota| && k < |s.reserved|
  {
    if n > c.quota[k] - s.reserved[k] || ids == [] then s.(clock := now)
    else s.(ports := Marked(s.ports, ids, Kind(k)), reserved := s.reserved[k := s.reserved[k] + n], held := s.held[r := ids],
            owner := Owners(s.owner, ids, Some(r)), clock := now)
  }

  function Enqueue(s: State, k: nat, n: int, r: nat): State
    requires k < |s.requests|
  {
    s.(requests := s.requests[k := s.requests[k] + [Request(n, r)]], held := s.held[r := []], kicks := s.kicks + 1)
  }

  function StartDecay(c: Config, s: State, now: int): State {
    if s.decayRunning then s else s.(decayRunning := true, timers := s.timers + [ToPost(now, c.decayMs + 1)])
  }

  function Use(c: Config, s: State, r: nat, now: int): State
    requires r in s.held
  {
    StartDecay(c, s.(ports := Redecayed(s.ports, s.held[r], now + c.decayMs * MS), clock := now), now)
  }

  /** Keeps the first port of r, reserved and never decaying, and frees the others. */
  function Keepalive(s: State, r: nat): State
    requires r in s.held && s.held[r] != [] && s.held[r][|s.held[r]| - 1] < |s.ports| && |s.reserved| == 2
  {
    var ids, k := s.held[r], KindOf(s.ports, s.held[r]);
    s.(ports := Redecayed(Marked(s.ports, ids[1..], Free), [ids[0]], NEVER),
       reserved := s.reserved[k := s.reserved[k] - (|ids| - 1)],
       held := s.held[r := [ids[0]]], owner := Owners(s.owner, ids[1..], None), kicks := s.kicks + 1)
  }

  function Unreserved(c: Config, s: State, r: nat, now: int): State
    requires r in s.held && s.held[r] != [] && s.held[r][|s.held[r]| - 1] < |s.ports| && |s.reserved| == 2
  {
    var ids, k := s.held[r], KindOf(s.ports, s.held[r]);
    s.(ports := Released(s.ports, ids, now + c.decayMs * MS), reserved := s.reserved[k := s.reserved[k] - |ids|],
       held := s.held[r := []], owner := Owners(s.owner, ids, None), kicks := s.kicks + 1, clock := now)
  }

  predicate SomeKeptAlive(ports: seq<Port>, ids: seq<nat>) {
    exists i :: 0 <= i < |ids| && ids[i] < |ports| && ports[ids[i]].decay == NEVER
  }

  /** Frees all ports of r; a kept alive port starts to decay. */
  function Release(c: Config, s: State, r: nat, now: int): State
    requires r in s.held && s.held[r] != [] && s.held[r][|s.held[r]| - 1] < |s.ports| && |s.reserved| == 2
  {
    if SomeKeptAlive(s.ports, s.held[r]) then StartDecay(c, Unreserved(c, s, r, now), now) else Unreserved(c, s, r, now)
  }

  /** The queue without its first request for r. */
  function Dropped(q: seq<Request>, r: nat): (d: seq<Request>)
    ensures |d| <= |q| && forall x :: x in d ==> x in q
  {
    if q == [] then [] else if q[0].r == r then q[1..] else [q[0]] + Dropped(q[1..], r)
  }

  /** Freeing a reservation that has no ports yet: its request leaves the queue, and nobody is told. */
  function Cancel(s: State, r: nat): State
    requires |s.requests| == 2
  {
    s.(requests := [Dropped(s.requests[0], r), Dropped(s.requests[1], r)])
  }

  /** The request at the head of class k may be served within the quota. */
  predicate HeadFits(c: Config, s: State, k: nat)
    requires k < |s.requests| && k < |c.quota| && k < |s.reserved|
  {
    s.requests[k] != [] && s.requests[k][0].n <= c.quota[k] - s.reserved[k]
  }

  /** One turn of the serving loop, having picked `ids` if the head fits: the head is served, or the class is done. */
  function Serve(c: Config, s: State, ids: seq<nat>, now: int): State
    requires s.handler.Working? && s.handler.next < |s.requests| == |c.quota| == |s.reserved|
  {
    var k := s.handler.next;
    if !HeadFits(c, s, k) || ids == [] then
      s.(handler := Working(k + 1, s.handler.timed, s.handler.at + [now]), clock := now)
    else
      var q := s.requests[k][0];
      s.(ports := Marked(s.ports, ids, Kind(k)), reserved := s.reserved[k := s.reserved[k] + q.n], held := s.held[q.r := ids],
         owner := Owners(s.owner, ids, Some(q.r)), requests := s.requests[k := s.requests[k][1..]], clock := now)
  }

  function StartKick(s: State): State
    requires s.kicks > 0
  {
    s.(kicks := s.kicks - 1, handler := Working(0, false, []))
  }

  function StartTimer(s: State, now: int): State {
    s.(timers := [], handler := Working(0, true, []), clock := now)
  }

  function FinishKick(s: State): State {
    s.(handler := Idle)
  }

  function FinishTimer(s: State, e: Option<int>, now: int): State
    requires e.Some? ==> now <= e.value
  {
    s.(handler := Idle, decayRunning := e.Some?, clock := now,
       timers := if e.Some? then s.timers + [ToPost(now, (e.value - now) / MS + 1)] else s.timers)
  }

  function Post(t: Timer, now: int): Timer {
    Armed(t.since, t.delay, now + t.delay * MS)
  }

  function Posted(s: State, now: int): State
    requires |s.timers| > 0
  {
    s.(timers := s.timers[0 := Post(s.timers[0], now)], clock := now)
  }

  // ---------------------------------------------------------------- steps

  datatype Event =
    | EvReserve(k: nat, n: int, r: nat, ids: seq<nat>, now: int)
    | EvEnqueue(k: nat, n: int, r: nat)
    | EvUse(r: nat, now: int)
    | EvKeepalive(r: nat)
    | EvRelease(r: nat, now: int)
    | EvCancel(r: nat)
    | EvServe(ids: seq<nat>, now: int)
    | EvStartKick
    | EvStartTimer(now: int)
    | EvFinishKick
    | EvFinishTimer(e: Option<int>, now: int)
    | EvPosted(now: int)

  ghost predicate Shape(c: Config, s: State) {
    && |c.quota| == 2 && |s.requests| == 2 && |s.reserved| == 2 && |s.owner| == |s.ports|
    && (s.handler.Working? ==> s.handler.next <= 2 && |s.handler.at| == s.handler.next)
  }

  ghost predicate HasPorts(s: State, r: nat) {
    r in s.held && s.held[r] != [] && forall i :: 0 <= i < |s.held[r]| ==> s.held[r][i] < |s.ports|
  }

  predicate ClockOk(c: Config, s: State, now: int) {
    s.clock <= now && now + c.decayMs * MS < NEVER
  }

  /** What may happen next. Ports are picked as GoodPick says; new reservations are new. */
  ghost predicate Enabled(c: Config, s: State, ev: Event)
    requires Shape(c, s)
  {
    match ev
    case EvReserve(k, n, r, ids, now) =>
      ClockOk(c, s, now) && k < 2 && r !in s.held && (n <= c.quota[k] - s.reserved[k] ==> GoodPick(s.ports, now, n, ids))
    case EvEnqueue(k, n, r) => k < 2 && r !in s.held
    case EvUse(r, now) => ClockOk(c, s, now) && HasPorts(s, r)
    case EvKeepalive(r) => HasPorts(s, r)
    case EvRelease(r, now) => ClockOk(c, s, now) && HasPorts(s, r)
    case EvCancel(r) => r in s.held && s.held[r] == []
    case EvServe(ids, now) =>
      && ClockOk(c, s, now) && s.handler.Working? && s.handler.next < 2
      && (HeadFits(c, s, s.handler.next) ==> GoodPick(s.ports, now, s.requests[s.handler.next][0].n, ids))
    case EvStartKick => s.handler.Idle? && s.kicks > 0
    case EvStartTimer(now) => ClockOk(c, s, now) && s.handler.Idle? && |s.timers| > 0 && s.timers[0].Armed? && s.timers[0].due <= now
    case EvFinishKick => s.handler.Working? && s.handler.next == 2 && !s.handler.timed
    case EvFinishTimer(e, now) =>
      ClockOk(c, s, now) && s.handler.Working? && s.handler.next == 2 && s.handler.timed && IsEarliest(s.ports, now, e)
    case EvPosted(now) => ClockOk(c, s, now) && |s.timers| > 0 && s.timers[0].ToPost?
  }

  ghost function Next(c: Config, s: State, ev: Event): State
    requires Shape(c, s) && Enabled(c, s, ev)
  {
    match ev
    case EvReserve(k, n, r, ids, now) => ReserveNow(c, s, k, n, r, ids, now)
    case EvEnqueue(k, n, r) => Enqueue(s, k, n, r)
    case EvUse(r, now) => Use(c, s, r, now)
    case EvKeepalive(r) => Keepalive(s, r)
    case EvRelease(r, now) => Release(c, s, r, now)
    case EvCancel(r) => Cancel(s, r)
    case EvServe(ids, now) => Serve(c, s, ids, now)
    case EvStartKick => StartKick(s)
    case EvStartTimer(now) => StartTimer(s, now)
    case EvFinishKick => FinishKick(s)
    case EvFinishTimer(e, now) => FinishTimer(s, e, now)
    case EvPosted(now) => Posted(s, now)
  }

  ghost predicate IsStep(c: Config, s: State, ev: Event, s': State) {
    Shape(c, s) && Enabled(c, s, ev) && s' == Next(c, s, ev)
  }

  // ---------------------------------------------------------------- what every step keeps

  /** The reserved counters are the numbers of ports in each reserved status, within quota. */
  ghost predicate Accounts(c: Config, ports: seq<Port>, reserved: seq<int>)
    requires |c.quota| == 2 && |reserved| == 2
  {
    && reserved[0] == |Holders(ports, Symm)| <= c.quota[0]
    && reserved[1] == |Holders(ports, Fast)| <= c.quota[1]
  }

  ghost predicate OwnedBy(ports: seq<Port>, held: map<nat, seq<nat>>, owner: seq<Option<nat>>, r: nat, p: nat)
    requires r in held
  {
    && p < |ports| == |owner| && owner[p] == Some(r) && held[r] != [] && ports[p].status != Free
    && held[r][0] < |ports| && ports[p].status == ports[held[r][0]].status
  }

  /** Every reserved port is in exactly one reservation, once; all ports of a reservation are of one class. */
  ghost predicate Owned(ports: seq<Port>, held: map<nat, seq<nat>>, owner: seq<Option<nat>>) {
    && |owner| == |ports|
    && (forall p :: 0 <= p < |ports| && owner[p].None? ==> ports[p].status == Free)
    && (forall p :: 0 <= p < |ports| && owner[p].Some? ==> owner[p].value in held && p in held[owner[p].value])
    && (forall r, p :: r in held && p in held[r] ==> OwnedBy(ports, held, owner, r, p))
    && (forall r :: r in held ==> NoDup(held[r]))
  }

  ghost predicate Waiting(q: seq<Request>, held: map<nat, seq<nat>>) {
    forall i :: 0 <= i < |q| ==> q[i].r in held && held[q[i].r] == []
  }

  ghost predicate Apart(q0: seq<Request>, q1: seq<Request>) {
    forall i, j :: 0 <= i < |q0| && 0 <= j < |q1| ==> q0[i].r != q1[j].r
  }

  ghost predicate OnceEach(q: seq<Request>) {
    forall i, j :: 0 <= i < j < |q| ==> q[i].r != q[j].r
  }

  /** Each waiting reservation has no ports and waits once. */
  ghost predicate Queued(requests: seq<seq<Request>>, held: map<nat, seq<nat>>)
    requires |requests| == 2
  {
    && Waiting(requests[0], held) && Waiting(requests[1], held) && OnceEach(requests[0]) && OnceEach(requests[1])
    && Apart(requests[0], requests[1])
  }

  /** No port decays later than one decay time from now, except the single port of a kept alive reservation. */
  ghost predicate Decays(c: Config, ports: seq<Port>, held: map<nat, seq<nat>>, owner: seq<Option<nat>>, clock: int) {
    && |owner| == |ports|
    && forall p :: 0 <= p < |ports| ==>
         || (ports[p].decay <= clock + c.decayMs * MS && ports[p].decay < NEVER)
         || (ports[p].decay == NEVER && owner[p].Some? && owner[p].value in held && held[owner[p].value] == [p])
  }

  /** The timer goes off no later than one ms after port p decays, counting from when it was decided on. */
  ghost predicate InTime(timers: seq<Timer>, port: Port) {
    |timers| == 1 ==> timers[0].since + timers[0].delay * MS <= port.decay + MS
  }

  /** A decay is pending only while the decay timer runs; there is one timer, and it is in time for every port. */
  ghost predicate Timed(c: Config, ports: seq<Port>, decayRunning: bool, timers: seq<Timer>, timed: bool, clock: int) {
    && |timers| <= 1 && (timed ==> timers == []) && (decayRunning <==> |timers| == 1 || timed)
    && (forall p :: 0 <= p < |ports| && clock < ports[p].decay < NEVER ==> decayRunning && InTime(timers, ports[p]))
    && (|timers| == 1 ==> timers[0].since <= clock && timers[0].since + timers[0].delay * MS <= clock + c.decayMs * MS + MS)
  }

  predicate IsTimed(h: Handler) {
    h.Working? && h.timed
  }

  ghost predicate Inv(c: Config, s: State) {
    && Shape(c, s) && Accounts(c, s.ports, s.reserved) && Owned(s.ports, s.held, s.owner) && Queued(s.requests, s.held)
    && Decays(c, s.ports, s.held, s.owner, s.clock)
    && Timed(c, s.ports, s.decayRunning, s.timers, IsTimed(s.handler), s.clock)
  }
}
