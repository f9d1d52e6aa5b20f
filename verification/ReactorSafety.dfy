// What holds in every interleaving of the reactor thread with the threads that add, update and remove handlers.
module ReactorSafety {
  import opened Common
  import opened ReactorModel

  lemma CountTail(batch: seq<Item>)
    requires batch != []
    ensures CountSignals(batch) == (if batch[0].Signal? then 1 else 0) + CountSignals(batch[1..])
  {
  }

  /** Steps that add no handler: the handlers and handles left are among those there were. */
  lemma RegistryShrinks(s: State, s': State)
    requires Registry(s) && s'.cookieOf == s.cookieOf && s'.nextCookie == s.nextCookie
    requires forall h :: h in s'.sockOf ==> h in s.sockOf && s'.sockOf[h] == s.sockOf[h]
    requires forall c :: c in s'.handlers ==> c in s.handlers && s'.handlers[c].h == s.handlers[c].h && s.handlers[c].h in s'.sockOf
    ensures Registry(s')
  {
    forall g | g in s'.sockOf ensures Held(s', g) {
      assert Held(s, g);
    }
    forall c | c in s'.handlers ensures CookieOk(s', c) {
      assert CookieOk(s, c);
    }
    forall g, h ensures Distinct(s', g, h) {
      assert Distinct(s, g, h);
    }
  }

  lemma HasHandle(s: State, c: nat)
    requires Registry(s) && c in s.handlers
    ensures s.handlers[c].h in s.sockOf && s.handlers[c].h in s.cookieOf && s.cookieOf[s.handlers[c].h] == c && c < s.nextCookie
  {
    assert CookieOk(s, c);
  }

  lemma AddRegistry(s: State, h: nat, fd: int, ev: Events, remote: bool)
    requires Registry(s) && h !in s.sockOf && fd !in s.sockOf.Values
    ensures Registry(Add(s, h, fd, ev, remote))
  {
    var s' := Add(s, h, fd, ev, remote);
    forall g | g in s'.sockOf ensures Held(s', g) {
      assert g != h ==> Held(s, g);
    }
    forall c | c in s'.handlers ensures CookieOk(s', c) {
      if c != s.nextCookie {
        assert CookieOk(s, c);
      }
    }
    forall g, k ensures Distinct(s', g, k) {
      assert Distinct(s, g, k);
      assert g in s.sockOf ==> s.sockOf[g] in s.sockOf.Values;
      assert k in s.sockOf ==> s.sockOf[k] in s.sockOf.Values;
    }
  }

  lemma AddEntries(s: State, h: nat, fd: int, ev: Events, remote: bool)
    requires Entries(s)
    ensures Entries(Add(s, h, fd, ev, remote))
  {
    var s' := Add(s, h, fd, ev, remote);
    forall f, g | f in s'.poll && g in s'.sockOf && g in s'.cookieOf ensures EntryOk(s', f, g) {
      if g != h && g in s.cookieOf {
        assert EntryOk(s, f, g);
      }
    }
  }

  lemma AddKeeps(s: State, h: nat, fd: int, ev: Events, remote: bool)
    requires Inv(s) && h !in s.sockOf && fd !in s.sockOf.Values
    ensures Inv(Add(s, h, fd, ev, remote))
  {
    var s' := Add(s, h, fd, ev, remote);
    AddRegistry(s, h, fd, ev, remote);
    AddEntries(s, h, fd, ev, remote);
    AddWaits(s, h, fd, ev, remote);
    hide Registry, Entries, Waits, GoneOk;
  }

  lemma AddWaits(s: State, h: nat, fd: int, ev: Events, remote: bool)
    requires Registry(s) && Waits(s) && GoneOk(s) && h !in s.sockOf
    ensures Waits(Add(s, h, fd, ev, remote)) && GoneOk(Add(s, h, fd, ev, remote))
  {
    var s' := Add(s, h, fd, ev, remote);
    forall t | t in s'.waiting ensures WaitOk(s', s'.waiting[t]) {
      assert WaitOk(s, s.waiting[t]);
      assert Held(s, s.waiting[t].h);
    }
    forall g | g in s'.gone ensures Away(s', g) {
      assert Away(s, g);
    }
  }

  lemma UpdateKeeps(s: State, h: nat, ev: Events, remote: bool)
    requires Inv(s) && h in s.cookieOf
    ensures Inv(Update(s, h, ev, remote))
  {
    UpdateRegistry(s, h, ev, remote);
    UpdateWaits(s, h, ev, remote);
    hide Registry, Entries, Waits, GoneOk;
  }

  lemma UpdateRegistry(s: State, h: nat, ev: Events, remote: bool)
    requires Registry(s) && Entries(s) && h in s.cookieOf
    ensures Registry(Update(s, h, ev, remote)) && Entries(Update(s, h, ev, remote))
  {
    var s' := Update(s, h, ev, remote);
    UpdateFrame(s, h, ev, remote);
    hide Update;
    forall c | c in s'.handlers ensures s.handlers[c].h in s'.sockOf {
      HasHandle(s, c);
    }
    hide Registry;
    RegistryShrinks(s, s');
    forall f, g | f in s'.poll && g in s'.sockOf && g in s'.cookieOf ensures EntryOk(s', f, g) {
      assert EntryOk(s, f, g);
    }
  }

  /** Updating changes the events of a registered handler, and may signal. */
  lemma UpdateFrame(s: State, h: nat, ev: Events, remote: bool)
    requires h in s.cookieOf
    ensures var s' := Update(s, h, ev, remote);
            && s' == s.(handlers := s'.handlers, signals := s'.signals, recent := s'.recent)
            && s'.handlers.Keys == s.handlers.Keys && forall c :: c in s.handlers ==> s'.handlers[c].h == s.handlers[c].h
  {
  }

  lemma UpdateWaits(s: State, h: nat, ev: Events, remote: bool)
    requires Waits(s) && GoneOk(s) && h in s.cookieOf
    ensures Waits(Update(s, h, ev, remote)) && GoneOk(Update(s, h, ev, remote))
  {
    var s' := Update(s, h, ev, remote);
    forall t | t in s'.waiting ensures WaitOk(s', s'.waiting[t]) {
      assert WaitOk(s, s.waiting[t]);
    }
    forall g | g in s'.gone ensures Away(s', g) {
      assert Away(s, g);
    }
  }

  lemma WantedDetach(poll: map<int, Entry>, fd: int)
    requires fd in poll && !poll[fd].notInEpoll
    ensures Wanted(poll[fd := poll[fd].(notInEpoll := true)]) ==
            if poll[fd].events != NOTHING then Wanted(poll) - {fd} else Wanted(poll)
  {
  }

  /** Giving a handle back, once its handler is no longer registered. */
  lemma DetachKeeps(s: State, h: nat)
    requires Registry(s) && Entries(s) && GoneOk(s) && h in s.sockOf && h in s.cookieOf && s.cookieOf[h] !in s.handlers
    ensures Registry(Detach(s, h)) && Entries(Detach(s, h)) && GoneOk(Detach(s, h))
  {
    DetachRegistry(s, h);
    DetachEntries(s, h);
  }

  lemma DetachRegistry(s: State, h: nat)
    requires Registry(s) && GoneOk(s) && h in s.sockOf && h in s.cookieOf && s.cookieOf[h] !in s.handlers
    ensures Registry(Detach(s, h)) && GoneOk(Detach(s, h))
  {
    var s' := Detach(s, h);
    forall c | c in s'.handlers ensures s.handlers[c].h in s'.sockOf {
      HasHandle(s, c);
    }
    RegistryShrinks(s, s');
    forall g | g in s'.gone ensures Away(s', g) {
      assert Away(s, g);
    }
  }

  lemma DetachEntries(s: State, h: nat)
    requires Registry(s) && Entries(s) && h in s.sockOf && h in s.cookieOf
    ensures Entries(Detach(s, h))
  {
    var s' := Detach(s, h);
    var fd := s.sockOf[h];
    if fd in s.poll && s.poll[fd].cookie == s.cookieOf[h] {
      assert EntryOk(s, fd, h);
      WantedDetach(s.poll, fd);
    }
    forall f, g | f in s'.poll && g in s'.sockOf && g in s'.cookieOf ensures EntryOk(s', f, g) {
      assert EntryOk(s, f, g) && Distinct(s, g, h);
    }
  }

  lemma UnregisterKeeps(s: State, h: nat)
    requires Inv(s) && IsRegistered(s, h)
    ensures var s' := Unregister(s, h); Registry(s') && Entries(s') && GoneOk(s') && Waits(s') && h in s'.sockOf
  {
    var s' := Unregister(s, h);
    HasHandle(s, s.cookieOf[h]);
    assert s.handlers[s.cookieOf[h]].h == h by {
      assert Distinct(s, s.handlers[s.cookieOf[h]].h, h);
    }
    forall c | c in s'.handlers ensures s.handlers[c].h in s'.sockOf {
      HasHandle(s, c);
    }
    RegistryShrinks(s, s');
    forall f, g | f in s'.poll && g in s'.sockOf && g in s'.cookieOf ensures EntryOk(s', f, g) {
      assert EntryOk(s, f, g);
    }
    forall g | g in s'.gone ensures Away(s', g) {
      assert Away(s, g);
    }
    forall t | t in s'.waiting ensures WaitOk(s', s'.waiting[t]) {
      assert WaitOk(s, s.waiting[t]);
    }
  }

  lemma RemoveHereKeeps(s: State, h: nat)
    requires Inv(s) && IsRegistered(s, h) && h in s.sockOf
    ensures Inv(RemoveHere(s, h))
  {
    UnregisterKeeps(s, h);
    hide Registry, Entries, GoneOk;
    DetachKeeps(Unregister(s, h), h);
    var s' := RemoveHere(s, h);
    forall t | t in s'.waiting ensures WaitOk(s', s'.waiting[t]) {
      assert WaitOk(s, s.waiting[t]);
    }
  }

  lemma RemoveBeginKeeps(s: State, t: nat, h: nat)
    requires Inv(s) && IsRegistered(s, h) && t !in s.waiting
    ensures Inv(RemoveBegin(s, t, h))
  {
    hide Registry, Entries, GoneOk;
    var s1, s' := Unregister(s, h), RemoveBegin(s, t, h);
    UnregisterKeeps(s, h);
    SameRegistry(s1, s');
    forall u | u in s'.waiting ensures WaitOk(s', s'.waiting[u]) {
      assert u != t ==> WaitOk(s, s.waiting[u]);
    }
    forall u | u in s.waiting ensures s.waiting[u].h != h {
      assert WaitOk(s, s.waiting[u]);
    }
  }

  /** The registry, the entries and the handlers given back do not depend on the rest. */
  lemma SameRegistry(s: State, s': State)
    requires Registry(s) && Entries(s) && GoneOk(s)
    requires s'.handlers == s.handlers && s'.poll == s.poll && s'.epoll == s.epoll && s'.cookieOf == s.cookieOf
    requires s'.sockOf == s.sockOf && s'.nextCookie == s.nextCookie && s'.gone == s.gone
    requires s'.current == s.current || s'.current.None? || s'.current.value !in s.gone
    ensures Registry(s') && Entries(s') && GoneOk(s')
  {
    forall c | c in s'.handlers ensures s.handlers[c].h in s'.sockOf {
      HasHandle(s, c);
    }
    RegistryShrinks(s, s');
    forall f, g | f in s'.poll && g in s'.sockOf && g in s'.cookieOf ensures EntryOk(s', f, g) {
      assert EntryOk(s, f, g);
    }
    forall g | g in s'.gone ensures Away(s', g) {
      assert Away(s, g);
    }
  }

  lemma RemoveEndKeeps(s: State, t: nat)
    requires Inv(s) && t in s.waiting && s.waiting[t].h in s.cookieOf && s.waiting[t].h in s.sockOf && !MustWait(s, s.waiting[t])
    ensures Inv(RemoveEnd(s, t))
  {
    var h, s' := s.waiting[t].h, RemoveEnd(s, t);
    assert WaitOk(s, s.waiting[t]);
    hide Registry, Entries, GoneOk;
    DetachKeeps(s, h);
    var s1 := Detach(s, h);
    GoneToo(s1, s', h);
    forall u | u in s'.waiting ensures WaitOk(s', s'.waiting[u]) {
      assert WaitOk(s, s.waiting[u]);
    }
  }

  lemma GoneToo(s: State, s': State, h: nat)
    requires Registry(s) && Entries(s) && GoneOk(s) && Away(s, h)
    requires s' == s.(waiting := s'.waiting, gone := s.gone + {h})
    ensures Registry(s') && Entries(s') && GoneOk(s')
  {
    forall c | c in s'.handlers ensures s.handlers[c].h in s'.sockOf {
      HasHandle(s, c);
    }
    RegistryShrinks(s, s');
    forall g | g in s'.gone ensures Away(s', g) {
      assert Away(s, g);
    }
    forall f, g | f in s'.poll && g in s'.sockOf && g in s'.cookieOf ensures EntryOk(s', f, g) {
      assert EntryOk(s, f, g);
    }
  }

  lemma PollEndKeeps(s: State, pc: Pc)
    requires Inv(s) && s.pc.Polling? && (pc.Dispatching? || pc.Updated?)
    requires CountSignals(Batch(pc)) <= 1 && (CountSignals(Batch(pc)) == 1 ==> s.signals > 0)
    ensures Inv(PollEnd(s, pc))
  {
    var s' := PollEnd(s, pc);
    SameRegistry(s, s');
    forall u | u in s'.waiting ensures WaitOk(s', s'.waiting[u]) {
      assert WaitOk(s, s.waiting[u]);
    }
  }

  lemma TargetNotGone(s: State, x: Item)
    requires Registry(s) && GoneOk(s)
    ensures Target(s, x).Some? ==> Target(s, x).value !in s.gone
  {
    if Target(s, x).Some? {
      HasHandle(s, s.poll[x.fd].cookie);
    }
    forall h | h in s.gone ensures Target(s, x) != Some(h) {
      assert Away(s, h);
    }
  }

  lemma DispatchKeeps(s: State)
    requires Inv(s) && s.pc.Dispatching? && s.pc.batch != [] && (s.pc.batch[0].Signal? ==> s.signals > 0)
    ensures Inv(Dispatch(s))
  {
    hide Registry, Entries, GoneOk, Target, Waits, Control;
    TargetNotGone(s, s.pc.batch[0]);
    DispatchControl(s);
    DispatchFrame(s);
    hide Dispatch;
    SameRegistry(s, Dispatch(s));
    SameWaits(s, Dispatch(s));
  }

  lemma SameWaits(s: State, s': State)
    requires Waits(s) && s'.waiting == s.waiting && s'.handlers == s.handlers && s'.sockOf == s.sockOf && s'.cookieOf == s.cookieOf
    requires s'.iteration == s.iteration && s'.recent == s.recent
    ensures Waits(s')
  {
    forall u | u in s'.waiting ensures WaitOk(s', s'.waiting[u]) {
      assert WaitOk(s, s.waiting[u]);
    }
  }

  /** Dispatching an item changes only the signals and what the reactor thread does. */
  lemma DispatchFrame(s: State)
    requires s.pc.Dispatching? && s.pc.batch != [] && (s.pc.batch[0].Signal? ==> s.signals > 0)
    ensures var s' := Dispatch(s);
            && s' == s.(signals := s'.signals, current := s'.current, pc := s'.pc)
            && (s'.current == s.current || s'.current == Target(s, s.pc.batch[0]))
  {
    hide Target;
    var x := s.pc.batch[0];
    if x.Signal? {
    } else if Target(s, x).Some? {
    } else {
    }
  }

  lemma DispatchControl(s: State)
    requires Control(s) && s.pc.Dispatching? && s.pc.batch != [] && (s.pc.batch[0].Signal? ==> s.signals > 0)
    ensures Control(Dispatch(s))
  {
    hide Target, CountSignals;
    CountTail(s.pc.batch);
    var x := s.pc.batch[0];
    if x.Signal? {
    } else if Target(s, x).Some? {
    } else {
    }
  }

  /** Steps of the reactor thread that only move it on. */
  lemma MoveKeeps(s: State, s': State)
    requires Inv(s) && s' == s.(inPoll := s'.inPoll, current := s'.current, pc := s'.pc)
    requires Control(s') && s'.current.None?
    ensures Inv(s')
  {
    SameRegistry(s, s');
    forall u | u in s'.waiting ensures WaitOk(s', s'.waiting[u]) {
      assert WaitOk(s, s.waiting[u]);
    }
  }

  lemma UpdatesKeeps(s: State, poll: map<int, Entry>)
    requires Inv(s) && Enabled(s, EvUpdates(poll))
    ensures Inv(s.(poll := poll, epoll := Wanted(poll), pc := Updated))
  {
    var s' := s.(poll := poll, epoll := Wanted(poll), pc := Updated);
    forall c | c in s.handlers ensures s.handlers[c].h in s.sockOf && c < s.nextCookie {
      HasHandle(s, c);
    }
    RegistryShrinks(s, s');
    forall f, g | f in poll && g in s'.sockOf && g in s'.cookieOf ensures EntryOk(s', f, g) {
      assert Held(s, g);
    }
    forall u | u in s'.waiting ensures WaitOk(s', s'.waiting[u]) {
      assert WaitOk(s, s.waiting[u]);
    }
    forall g | g in s'.gone ensures Away(s', g) {
      assert Away(s, g);
    }
  }

  /** Every step keeps the invariant. */
  lemma StepKeeps(s: State, ev: Event)
    requires Inv(s) && Enabled(s, ev)
    ensures Inv(Next(s, ev))
  {
    hide Registry, Entries, Waits, GoneOk;
    match ev {
      case EvAdd(h, fd, evs, remote) => AddKeeps(s, h, fd, evs, remote);
      case EvUpdate(h, evs, remote) => UpdateKeeps(s, h, evs, remote);
      case EvRemoveHere(h) => RemoveHereKeeps(s, h);
      case EvRemoveBegin(t, h) => RemoveBeginKeeps(s, t, h);
      case EvRemoveEnd(t) => RemoveEndKeeps(s, t);
      case EvPollBegin => MoveKeeps(s, PollBegin(s));
      case EvPollEnd(batch) => PollEndKeeps(s, Dispatching(batch));
      case EvInterrupted => PollEndKeeps(s, Updated);
      case EvDispatch => DispatchKeeps(s);
      case EvHandled => MoveKeeps(s, Handled(s));
      case EvBatchDone => MoveKeeps(s, s.(pc := Callbacks));
      case EvUpdates(poll) => UpdatesKeeps(s, poll);
    }
  }

  // ---------------------------------------------------------------- runs

  function Initial(): State {
    State(map[], map[], map[], false, 0, None, 0, 0, map[], map[], Callbacks, map[], {}, 0)
  }

  ghost predicate IsRun(ss: seq<State>, evs: seq<Event>) {
    |ss| == |evs| + 1 && ss[0] == Initial() && forall i :: 0 <= i < |evs| ==> IsStep(ss[i], evs[i], ss[i + 1])
  }

  lemma {:induction false} RunInv(ss: seq<State>, evs: seq<Event>, i: nat)
    requires IsRun(ss, evs) && i < |ss|
    ensures Inv(ss[i])
  {
    hide Inv, Next, Enabled;
    if i == 0 {
      InitialInv();
    } else {
      RunInv(ss, evs, i - 1);
      assert IsStep(ss[i - 1], evs[i - 1], ss[i]);
      StepKeeps(ss[i - 1], evs[i - 1]);
    }
  }

  lemma InitialInv()
    ensures Inv(Initial())
  {
  }

  ghost predicate Adds(ev: Event, h: nat) {
    ev.EvAdd? && ev.h == h
  }

  lemma GoneStays(s: State, ev: Event, h: nat)
    requires Enabled(s, ev) && h in s.gone && !Adds(ev, h)
    ensures h in Next(s, ev).gone
  {
    hide Mirrors, Wanted, CountSignals, Target, MustWait, InUserCode;
    match ev {
      case EvAdd(g, fd, evs, remote) =>
      case EvUpdate(g, evs, remote) =>
      case EvRemoveHere(g) =>
      case EvRemoveBegin(t, g) =>
      case EvRemoveEnd(t) =>
      case _ =>
    }
  }

  lemma {:induction false} GoneForGood(ss: seq<State>, evs: seq<Event>, h: nat, i: nat, j: nat)
    requires IsRun(ss, evs) && i <= j < |ss| && h in ss[i].gone && forall k :: i <= k < j ==> !Adds(evs[k], h)
    ensures h in ss[j].gone
  {
    hide Next, Enabled;
    if i < j {
      GoneForGood(ss, evs, h, i, j - 1);
      assert IsStep(ss[j - 1], evs[j - 1], ss[j]);
      GoneStays(ss[j - 1], evs[j - 1], h);
    }
  }

  /**
   * Once remove has given the handle of h back to another thread, no read or write handler of h is running, and none
   * starts, until h is added again.
   */
  lemma RemovedIsSilent(ss: seq<State>, evs: seq<Event>, t: nat, h: nat, i: nat, j: nat)
    requires IsRun(ss, evs) && i < j < |ss| && evs[i] == EvRemoveEnd(t) && t in ss[i].waiting && ss[i].waiting[t].h == h
    requires forall k :: i < k < j ==> !Adds(evs[k], h)
    ensures ss[j].current != Some(h) && !(ss[j].pc.Handling? && ss[j].pc.h == h) && !IsRegistered(ss[j], h)
  {
    assert IsStep(ss[i], evs[i], ss[i + 1]);
    assert h in ss[i + 1].gone;
    GoneForGood(ss, evs, h, i + 1, j);
    RunInv(ss, evs, j);
    assert Away(ss[j], h);
  }

  /**
   * In every state epoll holds the entries with events that were not taken out, and the entry of a handler that has its
   * handle is for its own descriptor and not taken out; after an update pass the entries are those of the handlers.
   */
  lemma EpollMirrors(ss: seq<State>, evs: seq<Event>, i: nat)
    requires IsRun(ss, evs) && i < |ss|
    ensures ss[i].epoll == Wanted(ss[i].poll)
    ensures forall fd, h {:trigger ss[i].poll[fd], ss[i].sockOf[h]} ::
              fd in ss[i].poll && h in ss[i].sockOf && h in ss[i].cookieOf && ss[i].poll[fd].cookie == ss[i].cookieOf[h] ==>
                ss[i].sockOf[h] == fd && !ss[i].poll[fd].notInEpoll
    ensures i > 0 && evs[i - 1].EvUpdates? ==> Mirrors(ss[i].handlers, ss[i].sockOf, ss[i].poll)
  {
    RunInv(ss, evs, i);
    forall fd, h | fd in ss[i].poll && h in ss[i].sockOf && h in ss[i].cookieOf && ss[i].poll[fd].cookie == ss[i].cookieOf[h]
      ensures ss[i].sockOf[h] == fd && !ss[i].poll[fd].notInEpoll
    {
      assert EntryOk(ss[i], fd, h);
    }
    if i > 0 {
      assert IsStep(ss[i - 1], evs[i - 1], ss[i]);
    }
  }

  /** A thread that waits for the poll to end in remove is not left waiting: a signal is there to end the poll. */
  lemma PollWillEnd(ss: seq<State>, evs: seq<Event>, i: nat, t: nat)
    requires IsRun(ss, evs) && i < |ss| && t in ss[i].waiting && ss[i].inPoll && ss[i].iteration <= ss[i].waiting[t].saved
    ensures ss[i].signals > 0
  {
    RunInv(ss, evs, i);
    assert WaitOk(ss[i], ss[i].waiting[t]);
  }

  /** A handler being run while another thread removes it: a second remove then returns at once, with no handle. */
  function SecondRemove(): (seq<State>, seq<Event>) {
    var rd := Events(true, false);
    var poll := map[5 := Entry(0, rd, false)];
    var s1 := Add(Initial(), 0, 5, rd, false);
    var s2 := s1.(poll := poll, epoll := map[5 := rd], pc := Updated);
    var s3 := PollBegin(s2);
    var s4 := PollEnd(s3, Dispatching([Read(5)]));
    var s5 := s4.(current := Some(0), pc := Handling(0, []));
    ([Initial(), s1, s2, s3, s4, s5, RemoveBegin(s5, 1, 0)],
     [EvAdd(0, 5, rd, false), EvUpdates(poll), EvPollBegin, EvPollEnd([Read(5)]), EvDispatch, EvRemoveBegin(1, 0)])
  }

  lemma SecondRemoveStarts()
    ensures var (ss, evs) := SecondRemove(); IsStep(ss[0], evs[0], ss[1]) && IsStep(ss[1], evs[1], ss[2]) && IsStep(ss[2], evs[2], ss[3])
  {
    var (ss, evs) := SecondRemove();
    assert ss[2].epoll == Wanted(ss[2].poll);
  }

  lemma SecondRemoveEnds()
    ensures var (ss, evs) := SecondRemove(); IsStep(ss[3], evs[3], ss[4]) && IsStep(ss[4], evs[4], ss[5]) && IsStep(ss[5], evs[5], ss[6])
  {
    var (ss, evs) := SecondRemove();
    assert [Read(5)][1..] == [] && CountSignals([]) == 0;
    CountTail([Read(5)]);
  }

  /** No step but an add makes an unregistered handler registered, and none but a dispatch of a registered one runs it. */
  lemma UnregisteredStays(s: State, ev: Event, h: nat)
    requires Inv(s) && Enabled(s, ev) && !IsRegistered(s, h) && !Adds(ev, h)
    ensures !IsRegistered(Next(s, ev), h)
    ensures Next(s, ev).current == Some(h) ==> s.current == Some(h)
  {
    match ev {
      case EvAdd(g, fd, evs, remote) => AddOther(s, ev, h);
      case EvDispatch => DispatchOther(s, h);
      case _ => RestOther(s, ev, h);
    }
  }

  lemma AddOther(s: State, ev: Event, h: nat)
    requires Registry(s) && Enabled(s, ev) && ev.EvAdd? && ev.h != h && !IsRegistered(s, h)
    ensures !IsRegistered(Next(s, ev), h) && Next(s, ev).current == s.current
  {
    hide InUserCode, CookieOk;
    if h in s.cookieOf {
      KnownCookie(s, h);
    }
  }

  lemma KnownCookie(s: State, h: nat)
    requires Registry(s) && h in s.cookieOf
    ensures s.cookieOf[h] < s.nextCookie
  {
  }

  lemma DispatchOther(s: State, h: nat)
    requires Registry(s) && Enabled(s, EvDispatch) && !IsRegistered(s, h)
    ensures !IsRegistered(Next(s, EvDispatch), h) && (Next(s, EvDispatch).current == Some(h) ==> s.current == Some(h))
  {
    var x := s.pc.batch[0];
    if Target(s, x).Some? {
      HasHandle(s, s.poll[x.fd].cookie);
    }
  }

  lemma RestOther(s: State, ev: Event, h: nat)
    requires Enabled(s, ev) && !ev.EvAdd? && !ev.EvDispatch? && !IsRegistered(s, h)
    ensures !IsRegistered(Next(s, ev), h) && (Next(s, ev).current == Some(h) ==> s.current == Some(h))
  {
    hide Mirrors, Wanted, CountSignals, MustWait, InUserCode;
  }

  lemma {:induction false} NeverStartsAgain(ss: seq<State>, evs: seq<Event>, h: nat, i: nat, j: nat)
    requires IsRun(ss, evs) && i <= j < |ss| && !IsRegistered(ss[i], h) && forall k :: i <= k < j ==> !Adds(evs[k], h)
    ensures !IsRegistered(ss[j], h) && (ss[j].current == Some(h) ==> ss[i].current == Some(h))
  {
    hide Next, Enabled, Inv;
    if i < j {
      NeverStartsAgain(ss, evs, h, i, j - 1);
      RunInv(ss, evs, j - 1);
      assert IsStep(ss[j - 1], evs[j - 1], ss[j]);
      UnregisteredStays(ss[j - 1], evs[j - 1], h);
    }
  }

  /**
   * A remove that finds h no longer registered gives no handle back. From then on, until h is added again, h is silent
   * exactly when it was not being run at that moment.
   */
  lemma SilentExactly(ss: seq<State>, evs: seq<Event>, h: nat, i: nat, j: nat)
    requires IsRun(ss, evs) && i <= j < |ss| && !IsRegistered(ss[i], h) && forall k :: i <= k < j ==> !Adds(evs[k], h)
    ensures (forall k :: i <= k <= j ==> ss[k].current != Some(h)) <==> ss[i].current != Some(h)
  {
    hide IsRun, IsRegistered;
    if ss[i].current != Some(h) {
      forall k | i <= k <= j ensures ss[k].current != Some(h) {
        NeverStartsAgain(ss, evs, h, i, k);
      }
    }
  }

  /** The other case is reached: h was taken out by a first remove while it was being run. */
  lemma NoHandleNoPromise()
    ensures var (ss, evs) := SecondRemove(); IsRun(ss, evs) && !IsRegistered(ss[6], 0) && ss[6].current == Some(0)
  {
    hide IsStep;
    SecondRemoveStarts();
    SecondRemoveEnds();
    var (ss, evs) := SecondRemove();
    forall i | 0 <= i < |evs| ensures IsStep(ss[i], evs[i], ss[i + 1]) {
      if i == 0 {
      } else if i == 1 {
      } else if i == 2 {
      } else if i == 3 {
      } else if i == 4 {
      } else {
        assert i == 5;
      }
    }
  }
}
