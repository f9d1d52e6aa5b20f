// dutil/SysReactor.cpp: the reactor thread and any number of other threads, as interleaved steps; every section run
// under the lock is one step.
module ReactorModel {
  import opened Common

  datatype Events = Events(rd: bool, wr: bool)

  const NOTHING := Events(false, false)

  /** A registered handler and the events it wants. */
  datatype Info = Info(h: nat, events: Events)

  /** What the reactor thread polls a descriptor for. */
  datatype Entry = Entry(cookie: nat, events: Events, notInEpoll: bool)

  /** One thing epoll reported, in the order the loop looks at it; an error counts as both a read and a write. */
  datatype Item = Signal | Read(fd: int) | Write(fd: int)

  /** Where the reactor thread is. User code runs in Handling and Callbacks; a thread that never ran is in Callbacks too. */
  datatype Pc = Callbacks | Updated | Polling | Dispatching(batch: seq<Item>) | Handling(h: nat, batch: seq<Item>)

  /** Another thread inside remove(h), having noted the poll iteration. */
  datatype Wait = Wait(h: nat, saved: nat)

  /**
   * sockOf holds the handlers that have a handle; gone those whose removal by another thread gave the handle back. recent
   * counts the signals sent since the last poll ended.
   */
  datatype State = State(handlers: map<nat, Info>, poll: map<int, Entry>, epoll: map<int, Events>, inPoll: bool,
                         iteration: nat, current: Option<nat>, nextCookie: nat, signals: nat,
                         cookieOf: map<nat, nat>, sockOf: map<nat, int>, pc: Pc, waiting: map<nat, Wait>, gone: set<nat>, recent: nat)

  // ---------------------------------------------------------------- the sections

  function Signalled(s: State, remote: bool): State {
    if remote then s.(signals := s.signals + 1, recent := s.recent + 1) else s
  }

  function Add(s: State, h: nat, fd: int, ev: Events, remote: bool): State {
    Signalled(s.(cookieOf := s.cookieOf[h := s.nextCookie], sockOf := s.sockOf[h := fd], nextCookie := s.nextCookie + 1,
                 handlers := s.handlers[s.nextCookie := Info(h, ev)], gone := s.gone - {h}), remote)
  }

  predicate IsRegistered(s: State, h: nat) {
    h in s.cookieOf && s.cookieOf[h] in s.handlers
  }

  function Update(s: State, h: nat, ev: Events, remote: bool): State
    requires h in s.cookieOf
  {
    if s.cookieOf[h] !in s.handlers || s.handlers[s.cookieOf[h]].events == ev then s
    else Signalled(s.(handlers := s.handlers[s.cookieOf[h] := s.handlers[s.cookieOf[h]].(events := ev)]), remote)
  }

  /** The last part of remove: the descriptor leaves epoll at once, its poll entry is marked, the handle goes back. */
  function Detach(s: State, h: nat): State
    requires h in s.cookieOf && h in s.sockOf
  {
    var fd := s.sockOf[h];
    var s1 := s.(sockOf := s.sockOf - {h});
    if fd in s.poll && s.poll[fd].cookie == s.cookieOf[h] then
      s1.(poll := s.poll[fd := s.poll[fd].(notInEpoll := true)],
          epoll := if s.poll[fd].events != NOTHING then s.epoll - {fd} else s.epoll)
    else s1
  }

  function Unregister(s: State, h: nat): State
    requires h in s.cookieOf
  {
    s.(handlers := s.handlers - {s.cookieOf[h]})
  }

  /** remove on the reactor thread. */
  function RemoveHere(s: State, h: nat): State
    requires h in s.cookieOf && h in s.sockOf
  {
    Detach(Unregister(s, h), h)
  }

  /** remove on thread t, up to where it waits. */
  function RemoveBegin(s: State, t: nat, h: nat): State
    requires h in s.cookieOf
  {
    Signalled(Unregister(s, h), true).(waiting := s.waiting[t := Wait(h, s.iteration)])
  }

  /** What remove waits for. */
  predicate MustWait(s: State, w: Wait) {
    (s.inPoll && s.iteration <= w.saved) || s.current == Some(w.h)
  }

  function RemoveEnd(s: State, t: nat): State
    requires t in s.waiting && s.waiting[t].h in s.cookieOf && s.waiting[t].h in s.sockOf
  {
    Detach(s, s.waiting[t].h).(waiting := s.waiting - {t}, gone := s.gone + {s.waiting[t].h})
  }

  function PollBegin(s: State): State {
    s.(inPoll := true, pc := Polling)
  }

  function PollEnd(s: State, pc: Pc): State {
    s.(inPoll := false, iteration := s.iteration + 1, recent := 0, pc := pc)
  }

  /** The handler that an item is for, if it is still registered. */
  function Target(s: State, x: Item): Option<nat> {
    if x.Signal? || x.fd !in s.poll then None
    else
      var e := s.poll[x.fd];
      if (if x.Read? then e.events.rd else e.events.wr) && e.cookie in s.handlers then Some(s.handlers[e.cookie].h) else None
  }

  function Dispatch(s: State): State
    requires s.pc.Dispatching? && s.pc.batch != [] && (s.pc.batch[0].Signal? ==> s.signals > 0)
  {
    var x, rest := s.pc.batch[0], s.pc.batch[1..];
    if x.Signal? then s.(signals := s.signals - 1, pc := Dispatching(rest))
    else if Target(s, x).Some? then s.(current := Target(s, x), pc := Handling(Target(s, x).value, rest))
    else s.(pc := Dispatching(rest))
  }

  function Handled(s: State): State
    requires s.pc.Handling?
  {
    s.(current := None, pc := Dispatching(s.pc.batch))
  }

  // ---------------------------------------------------------------- steps

  datatype Event =
    | EvAdd(h: nat, fd: int, ev: Events, remote: bool)
    | EvUpdate(h: nat, ev: Events, remote: bool)
    | EvRemoveHere(h: nat)
    | EvRemoveBegin(t: nat, h: nat)
    | EvRemoveEnd(t: nat)
    | EvPollBegin
    | EvPollEnd(batch: seq<Item>)
    | EvInterrupted
    | EvDispatch
    | EvHandled
    | EvBatchDone
    | EvUpdates(poll: map<int, Entry>)

  /** What epoll should hold: the entries with events that were not taken out. */
  ghost function Wanted(poll: map<int, Entry>): map<int, Events> {
    map fd | fd in poll && poll[fd].events != NOTHING && !poll[fd].notInEpoll :: poll[fd].events
  }

  /** The poll entries are exactly those of the registered handlers. */
  ghost predicate Mirrors(handlers: map<nat, Info>, sockOf: map<nat, int>, poll: map<int, Entry>) {
    && (forall c :: c in handlers && handlers[c].h in sockOf ==>
          sockOf[handlers[c].h] in poll && poll[sockOf[handlers[c].h]] == Entry(c, handlers[c].events, false))
    && (forall fd :: fd in poll ==>
          && poll[fd].cookie in handlers && handlers[poll[fd].cookie].h in sockOf
          && sockOf[handlers[poll[fd].cookie].h] == fd)
  }

  /** The reactor thread runs user code, from which it may call the reactor. */
  predicate InUserCode(s: State) {
    s.pc.Handling? || s.pc.Callbacks?
  }

  function CountSignals(batch: seq<Item>): nat {
    if batch == [] then 0 else (if batch[0].Signal? then 1 else 0) + CountSignals(batch[1..])
  }

  /**
   * A handler is added with a handle no other handler has; each thread removes one handler at a time; epoll reports the
   * signal socket at most once, and only if there is a signal.
   */
  ghost predicate Enabled(s: State, ev: Event) {
    match ev
    case EvAdd(h, fd, _, remote) => h !in s.sockOf && fd !in s.sockOf.Values && (!remote ==> InUserCode(s))
    case EvUpdate(h, _, remote) => h in s.cookieOf && (!remote ==> InUserCode(s))
    case EvRemoveHere(h) => IsRegistered(s, h) && h in s.sockOf && InUserCode(s)
    case EvRemoveBegin(t, h) => IsRegistered(s, h) && t !in s.waiting
    case EvRemoveEnd(t) => t in s.waiting && s.waiting[t].h in s.cookieOf && s.waiting[t].h in s.sockOf && !MustWait(s, s.waiting[t])
    case EvPollBegin => s.pc.Updated?
    case EvPollEnd(batch) => s.pc.Polling? && CountSignals(batch) <= 1 && (CountSignals(batch) == 1 ==> s.signals > 0)
    case EvInterrupted => s.pc.Polling?
    case EvDispatch => s.pc.Dispatching? && s.pc.batch != [] && (s.pc.batch[0].Signal? ==> s.signals > 0)
    case EvHandled => s.pc.Handling?
    case EvBatchDone => s.pc.Dispatching? && s.pc.batch == []
    case EvUpdates(poll) => s.pc.Callbacks? && Mirrors(s.handlers, s.sockOf, poll)
  }

  ghost function Next(s: State, ev: Event): State
    requires Enabled(s, ev)
  {
    match ev
    case EvAdd(h, fd, evs, remote) => Add(s, h, fd, evs, remote)
    case EvUpdate(h, evs, remote) => Update(s, h, evs, remote)
    case EvRemoveHere(h) => RemoveHere(s, h)
    case EvRemoveBegin(t, h) => RemoveBegin(s, t, h)
    case EvRemoveEnd(t) => RemoveEnd(s, t)
    case EvPollBegin => PollBegin(s)
    case EvPollEnd(batch) => PollEnd(s, Dispatching(batch))
    case EvInterrupted => PollEnd(s, Updated)
    case EvDispatch => Dispatch(s)
    case EvHandled => Handled(s)
    case EvBatchDone => s.(pc := Callbacks)
    case EvUpdates(poll) => s.(poll := poll, epoll := Wanted(poll), pc := Updated)
  }

  ghost predicate IsStep(s: State, ev: Event, s': State) {
    Enabled(s, ev) && s' == Next(s, ev)
  }

  // ---------------------------------------------------------------- what every step keeps

  /** A handler with a handle is registered under its own cookie, or some thread is removing it. */
  ghost predicate Held(s: State, h: nat) {
    && h in s.cookieOf && s.cookieOf[h] < s.nextCookie
    && (s.cookieOf[h] in s.handlers ==> s.handlers[s.cookieOf[h]].h == h)
  }

  /** A registered handler has its handle, and the cookie it is registered under. */
  ghost predicate CookieOk(s: State, c: nat)
    requires c in s.handlers
  {
    var h := s.handlers[c].h;
    c < s.nextCookie && h in s.sockOf && h in s.cookieOf && s.cookieOf[h] == c
  }

  /** Handlers with handles have different descriptors, and cookies no other handler has. */
  ghost predicate Distinct(s: State, g: nat, h: nat) {
    && (g in s.sockOf && h in s.sockOf && s.sockOf[g] == s.sockOf[h] ==> g == h)
    && (g in s.sockOf && g in s.cookieOf && h in s.cookieOf && s.cookieOf[g] == s.cookieOf[h] ==> g == h)
  }

  ghost predicate Registry(s: State) {
    && (forall h {:trigger Held(s, h)} :: h in s.sockOf ==> Held(s, h))
    && (forall c {:trigger CookieOk(s, c)} :: c in s.handlers ==> CookieOk(s, c))
    && (forall g, h {:trigger Distinct(s, g, h)} :: Distinct(s, g, h))
    && (forall h :: h in s.cookieOf ==> s.cookieOf[h] < s.nextCookie)
  }

  /** The entry of a handler that has its handle is for its descriptor and not taken out of epoll. */
  ghost predicate EntryOk(s: State, fd: int, h: nat)
    requires fd in s.poll && h in s.sockOf && h in s.cookieOf
  {
    s.poll[fd].cookie == s.cookieOf[h] ==> fd == s.sockOf[h] && !s.poll[fd].notInEpoll
  }

  ghost predicate Entries(s: State) {
    && (forall fd :: fd in s.poll ==> s.poll[fd].cookie < s.nextCookie)
    && (forall fd, h {:trigger EntryOk(s, fd, h)} :: fd in s.poll && h in s.sockOf && h in s.cookieOf ==> EntryOk(s, fd, h))
    && s.epoll == Wanted(s.poll)
  }

  ghost predicate WaitOk(s: State, w: Wait) {
    && w.h in s.sockOf && w.h in s.cookieOf && s.cookieOf[w.h] !in s.handlers
    && w.saved <= s.iteration && (w.saved == s.iteration ==> s.recent >= 1)
  }

  ghost predicate Waits(s: State) {
    && (forall t {:trigger WaitOk(s, s.waiting[t])} :: t in s.waiting ==> WaitOk(s, s.waiting[t]))
    && (forall t, u :: t in s.waiting && u in s.waiting && s.waiting[t].h == s.waiting[u].h ==> t == u)
  }

  /** A handler given back to another thread has no handle, is not registered and is not being run. */
  ghost predicate Away(s: State, h: nat) {
    && h !in s.sockOf && h in s.cookieOf && s.cookieOf[h] !in s.handlers && s.current != Some(h)
  }

  ghost predicate GoneOk(s: State) {
    forall h {:trigger Away(s, h)} :: h in s.gone ==> Away(s, h)
  }

  function Batch(pc: Pc): seq<Item> {
    if pc.Dispatching? || pc.Handling? then pc.batch else []
  }

  ghost predicate Control(s: State) {
    && (s.inPoll <==> s.pc.Polling?)
    && s.current == (if s.pc.Handling? then Some(s.pc.h) else None)
    && CountSignals(Batch(s.pc)) <= 1 && s.signals >= s.recent + CountSignals(Batch(s.pc))
  }

  ghost predicate Inv(s: State) {
    Registry(s) && Entries(s) && Waits(s) && GoneOk(s) && Control(s)
  }
}
