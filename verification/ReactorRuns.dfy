// What the reactor must do: events reach the handlers that ask for them, and no change goes unnoticed.
module ReactorRuns {
  import opened Common
  import opened ReactorModel
  import opened ReactorSafety

  // ---------------------------------------------------------------- which handler is run

  predicate Asks(ev: Events, x: Item) {
    (x.Read? && ev.rd) || (x.Write? && ev.wr)
  }

  /** The descriptor's poll entry carries the cookie h is registered under now, and asks for this kind of event. */
  predicate Reaches(s: State, x: Item, h: nat) {
    && !x.Signal? && x.fd in s.poll && IsRegistered(s, h)
    && s.poll[x.fd].cookie == s.cookieOf[h] && Asks(s.poll[x.fd].events, x)
  }

  /** The one registered handler with a cookie. */
  lemma OwnCookie(s: State, h: nat)
    requires Registry(s) && IsRegistered(s, h)
    ensures h in s.sockOf && s.handlers[s.cookieOf[h]].h == h
  {
    var g := s.handlers[s.cookieOf[h]].h;
    HasHandle(s, s.cookieOf[h]);
    assert Distinct(s, g, h);
  }

  lemma DispatchReaches(s: State, h: nat)
    requires Inv(s) && Enabled(s, EvDispatch)
    ensures var s', x, rest := Next(s, EvDispatch), s.pc.batch[0], s.pc.batch[1..];
            && (s'.current == Some(h) <==> Reaches(s, x, h))
            && (Reaches(s, x, h) ==> s'.pc == Handling(h, rest))
            && (s'.current.None? ==> s'.pc == Dispatching(rest))
            && s'.signals == s.signals - (if x.Signal? then 1 else 0)
            && s' == s.(current := s'.current, pc := s'.pc, signals := s'.signals)
  {
    var x := s.pc.batch[0];
    if IsRegistered(s, h) {
      OwnCookie(s, h);
    }
    if x.Signal? || x.fd !in s.poll {
    } else if s.poll[x.fd].cookie in s.handlers {
      HasHandle(s, s.poll[x.fd].cookie);
    }
    hide Registry, Entries, Waits, GoneOk;
  }

  /**
   * In every state of every run: a handler is run after a step exactly when the item just dispatched is on a descriptor
   * whose entry carries the handler's present cookie and asks for that kind of event, or when it was being run and goes on.
   */
  lemma RunExactly(ss: seq<State>, evs: seq<Event>, i: nat, h: nat)
    requires IsRun(ss, evs) && i < |evs|
    ensures evs[i].EvDispatch? ==> ss[i].pc.Dispatching? && ss[i].pc.batch != []
    ensures ss[i + 1].current == Some(h) <==>
            if evs[i].EvDispatch? then Reaches(ss[i], ss[i].pc.batch[0], h) else ss[i].current == Some(h) && !evs[i].EvHandled?
    ensures ss[i + 1].current == Some(h) <==> ss[i + 1].pc.Handling? && ss[i + 1].pc.h == h
    ensures evs[i].EvDispatch? ==> Batch(ss[i + 1].pc) == ss[i].pc.batch[1..]
  {
    RunInv(ss, evs, i);
    RunInv(ss, evs, i + 1);
    assert IsStep(ss[i], evs[i], ss[i + 1]);
    hide Registry, Entries, Waits, GoneOk;
    if evs[i].EvDispatch? {
      DispatchReaches(ss[i], h);
    } else {
      CurrentStays(ss[i], evs[i]);
    }
  }

  lemma CurrentStays(s: State, ev: Event)
    requires Enabled(s, ev) && !ev.EvDispatch?
    ensures Next(s, ev).current == if ev.EvHandled? then None else s.current
  {
    hide Mirrors, Wanted, CountSignals, MustWait, InUserCode;
  }

  // ---------------------------------------------------------------- the events a handler is registered for

  predicate Removes(ev: Event, h: nat) {
    (ev.EvRemoveHere? || ev.EvRemoveBegin?) && ev.h == h
  }

  /** A handler is registered from its add to its remove, for the events of its last add or update. */
  lemma RegisteredExactly(s: State, ev: Event, h: nat)
    requires Inv(s) && Enabled(s, ev)
    ensures var s' := Next(s, ev);
            && (IsRegistered(s', h) <==> Adds(ev, h) || (IsRegistered(s, h) && !Removes(ev, h)))
            && (IsRegistered(s', h) ==>
                  s'.handlers[s'.cookieOf[h]].events ==
                  if Adds(ev, h) || (ev.EvUpdate? && ev.h == h) then ev.ev else s.handlers[s.cookieOf[h]].events)
  {
    match ev {
      case EvAdd(g, fd, evs, remote) => AddRegisters(s, ev, h);
      case EvUpdate(g, evs, remote) => UpdateRegisters(s, ev, h);
      case EvRemoveHere(g) => OthersRegistered(s, g, h);
      case EvRemoveBegin(t, g) => OthersRegistered(s, g, h);
      case _ => SameHandlers(s, ev);
    }
    hide Inv, Mirrors, Wanted, CountSignals, MustWait, InUserCode;
  }

  lemma AddRegisters(s: State, ev: Event, h: nat)
    requires Registry(s) && Enabled(s, ev) && ev.EvAdd?
    ensures var s' := Next(s, ev);
            && (IsRegistered(s', h) <==> ev.h == h || IsRegistered(s, h))
            && (ev.h == h ==> s'.handlers[s'.cookieOf[h]].events == ev.ev)
            && (ev.h != h && IsRegistered(s, h) ==> s'.handlers[s'.cookieOf[h]] == s.handlers[s.cookieOf[h]])
  {
    hide InUserCode;
    if h in s.cookieOf {
      KnownCookie(s, h);
    }
  }

  lemma UpdateRegisters(s: State, ev: Event, h: nat)
    requires Registry(s) && Enabled(s, ev) && ev.EvUpdate?
    ensures var s' := Next(s, ev);
            && (IsRegistered(s', h) <==> IsRegistered(s, h))
            && (IsRegistered(s, h) ==> s'.handlers[s'.cookieOf[h]].events == if ev.h == h then ev.ev else s.handlers[s.cookieOf[h]].events)
  {
    hide InUserCode;
    if IsRegistered(s, h) {
      OwnCookie(s, h);
    }
    if IsRegistered(s, ev.h) {
      OwnCookie(s, ev.h);
    }
  }

  /** Unregistering one handler leaves the others registered. */
  lemma OthersRegistered(s: State, g: nat, h: nat)
    requires Registry(s) && IsRegistered(s, g)
    ensures IsRegistered(Unregister(s, g), h) <==> h != g && IsRegistered(s, h)
  {
    OwnCookie(s, g);
    if IsRegistered(s, h) {
      OwnCookie(s, h);
    }
  }

  lemma SameHandlers(s: State, ev: Event)
    requires Enabled(s, ev) && !ev.EvAdd? && !ev.EvUpdate? && !ev.EvRemoveHere? && !ev.EvRemoveBegin?
    ensures Next(s, ev).handlers == s.handlers && Next(s, ev).cookieOf == s.cookieOf
  {
    hide Mirrors, Wanted, CountSignals, MustWait, InUserCode, Dispatch;
    match ev {
      case EvRemoveEnd(t) =>
      case EvDispatch => DispatchFrame(s);
      case EvHandled =>
      case _ =>
    }
  }

  // ---------------------------------------------------------------- from an update pass to a dispatch

  /** The entry of h is what h is registered for. */
  predicate Fresh(s: State, h: nat) {
    && IsRegistered(s, h) && h in s.sockOf && s.sockOf[h] in s.poll
    && s.poll[s.sockOf[h]] == Entry(s.cookieOf[h], s.handlers[s.cookieOf[h]].events, false)
  }

  predicate Touches(ev: Event, h: nat) {
    (ev.EvAdd? || ev.EvUpdate? || ev.EvRemoveHere? || ev.EvRemoveBegin?) && ev.h == h
  }

  lemma UpdatesFreshen(s: State, ev: Event, h: nat)
    requires Inv(s) && Enabled(s, ev) && ev.EvUpdates? && IsRegistered(s, h)
    ensures var s' := Next(s, ev);
            Fresh(s', h) && h in s.sockOf && s'.handlers == s.handlers && s'.cookieOf == s.cookieOf && s'.sockOf == s.sockOf
  {
    OwnCookie(s, h);
  }

  lemma DetachOther(s: State, g: nat, h: nat)
    requires Registry(s) && Fresh(s, h) && g in s.cookieOf && g in s.sockOf && g != h
    ensures Fresh(Detach(s, g), h) && Detach(s, g).sockOf[h] == s.sockOf[h]
  {
    assert Distinct(s, g, h);
  }

  lemma FreshStays(s: State, ev: Event, h: nat)
    requires Inv(s) && Enabled(s, ev) && Fresh(s, h) && !Touches(ev, h)
    ensures var s' := Next(s, ev);
            && Fresh(s', h) && s'.sockOf[h] == s.sockOf[h] && s'.handlers[s'.cookieOf[h]].events == s.handlers[s.cookieOf[h]].events
  {
    RegisteredExactly(s, ev, h);
    match ev {
      case EvRemoveHere(g) =>
        FreshUnregistered(s, g, h);
        UnregisterKeeps(s, g);
        DetachOther(Unregister(s, g), g, h);
      case EvRemoveBegin(t, g) =>
        FreshUnregistered(s, g, h);
      case EvRemoveEnd(t) =>
        assert WaitOk(s, s.waiting[t]);
        DetachOther(s, s.waiting[t].h, h);
      case EvUpdates(poll) =>
        UpdatesFreshen(s, ev, h);
      case _ =>
        FreshRest(s, ev, h);
    }
    hide Inv, Mirrors, Wanted, CountSignals, MustWait, InUserCode;
  }

  lemma FreshUnregistered(s: State, g: nat, h: nat)
    requires Registry(s) && Fresh(s, h) && IsRegistered(s, g) && g != h
    ensures Fresh(Unregister(s, g), h) && Unregister(s, g).handlers[s.cookieOf[h]] == s.handlers[s.cookieOf[h]]
  {
    OthersRegistered(s, g, h);
  }

  lemma FreshRest(s: State, ev: Event, h: nat)
    requires Registry(s) && Enabled(s, ev) && Fresh(s, h) && !Touches(ev, h)
    requires !ev.EvRemoveHere? && !ev.EvRemoveBegin? && !ev.EvRemoveEnd? && !ev.EvUpdates?
    ensures Fresh(Next(s, ev), h) && Next(s, ev).sockOf[h] == s.sockOf[h]
  {
    hide CountSignals, InUserCode, Target;
    KnownCookie(s, h);
    OwnCookie(s, h);
    if ev.EvUpdate? && IsRegistered(s, ev.h) {
      OwnCookie(s, ev.h);
    }
  }

  lemma {:induction false} FreshUntilTouched(ss: seq<State>, evs: seq<Event>, h: nat, i: nat, j: nat)
    requires IsRun(ss, evs) && i < j < |ss| && evs[i].EvUpdates? && IsRegistered(ss[i], h)
    requires forall k :: i < k < j ==> !Touches(evs[k], h)
    ensures Fresh(ss[j], h) && h in ss[i].sockOf && ss[j].sockOf[h] == ss[i].sockOf[h]
    ensures ss[j].handlers[ss[j].cookieOf[h]].events == ss[i].handlers[ss[i].cookieOf[h]].events
  {
    hide Inv, Next, Enabled;
    RunInv(ss, evs, j - 1);
    assert IsStep(ss[j - 1], evs[j - 1], ss[j]);
    if j == i + 1 {
      UpdatesFreshen(ss[i], evs[i], h);
    } else {
      FreshUntilTouched(ss, evs, h, i, j - 1);
      FreshStays(ss[j - 1], evs[j - 1], h);
    }
  }

  /**
   * From an update pass until it is added, updated or removed again, a registered handler is run for an item exactly when
   * the item is on its own descriptor and of a kind the handler was registered for.
   */
  lemma EventsReachTheirHandler(ss: seq<State>, evs: seq<Event>, h: nat, i: nat, j: nat)
    requires IsRun(ss, evs) && i < j < |evs| && evs[i].EvUpdates? && IsRegistered(ss[i], h) && evs[j].EvDispatch?
    requires forall k :: i < k < j ==> !Touches(evs[k], h)
    ensures h in ss[i].sockOf && ss[j].pc.Dispatching? && ss[j].pc.batch != []
    ensures var x := ss[j].pc.batch[0];
            ss[j + 1].current == Some(h) <==>
            !x.Signal? && x.fd == ss[i].sockOf[h] && Asks(ss[i].handlers[ss[i].cookieOf[h]].events, x)
  {
    FreshUntilTouched(ss, evs, h, i, j);
    RunExactly(ss, evs, j, h);
    RunInv(ss, evs, j);
    var x, s := ss[j].pc.batch[0], ss[j];
    if !x.Signal? && x.fd in s.poll && s.poll[x.fd].cookie == s.cookieOf[h] {
      assert EntryOk(s, x.fd, h);
    }
  }

  // ---------------------------------------------------------------- no change goes unnoticed

  /** About to poll, or polling. */
  predicate AtPoll(s: State) {
    s.pc.Updated? || s.pc.Polling?
  }

  /** What is polled is what the handlers ask for, or a signal is there that ends the poll. */
  ghost predicate Noticed(s: State) {
    AtPoll(s) ==> s.signals > 0 || Mirrors(s.handlers, s.sockOf, s.poll)
  }

  lemma EndMirrors(s: State, t: nat)
    requires Inv(s) && Enabled(s, EvRemoveEnd(t)) && Mirrors(s.handlers, s.sockOf, s.poll)
    ensures var s' := RemoveEnd(s, t); Mirrors(s'.handlers, s'.sockOf, s'.poll)
  {
    var h := s.waiting[t].h;
    assert WaitOk(s, s.waiting[t]);
    forall c | c in s.handlers ensures s.handlers[c].h != h {
      HasHandle(s, c);
    }
  }

  lemma NoticedStays(s: State, ev: Event)
    requires Inv(s) && Enabled(s, ev) && Noticed(s)
    ensures Noticed(Next(s, ev))
  {
    hide Mirrors, Wanted, CountSignals, Dispatch, MustWait, Update;
    match ev {
      case EvUpdate(h, evs, remote) => UpdateNoticed(s, h, evs, remote);
      case EvRemoveEnd(t) =>
        if AtPoll(s) && s.signals == 0 {
          EndMirrors(s, t);
        }
      case EvDispatch => DispatchLeaves(s);
      case EvHandled =>
      case _ =>
    }
    hide Inv;
  }

  lemma UpdateNoticed(s: State, h: nat, ev: Events, remote: bool)
    requires h in s.cookieOf && Noticed(s) && (!remote ==> !AtPoll(s))
    ensures Noticed(Update(s, h, ev, remote))
  {
    hide Mirrors;
  }

  lemma DispatchLeaves(s: State)
    requires s.pc.Dispatching? && s.pc.batch != [] && (s.pc.batch[0].Signal? ==> s.signals > 0)
    ensures !AtPoll(Dispatch(s))
  {
    hide Target;
    var x := s.pc.batch[0];
    if x.Signal? {
    } else if Target(s, x).Some? {
    } else {
    }
  }

  /**
   * In every state of every run in which the reactor thread polls or is about to: unless a signal is there to end the poll,
   * the entries polled are exactly those of the registered handlers, with the events they ask for.
   */
  lemma {:induction false} ChangesNoticed(ss: seq<State>, evs: seq<Event>, i: nat)
    requires IsRun(ss, evs) && i < |ss|
    ensures Noticed(ss[i])
  {
    if i > 0 {
      hide Inv, Next, Enabled;
      ChangesNoticed(ss, evs, i - 1);
      RunInv(ss, evs, i - 1);
      assert IsStep(ss[i - 1], evs[i - 1], ss[i]);
      NoticedStays(ss[i - 1], evs[i - 1]);
    }
  }

  // ---------------------------------------------------------------- nothing is polled without its handle

  ghost predicate HasOwner(s: State, fd: int)
    requires fd in s.poll
  {
    exists h :: h in s.sockOf && h in s.cookieOf && s.sockOf[h] == fd && s.cookieOf[h] == s.poll[fd].cookie
  }

  /** An entry that was not taken out of epoll belongs to a handler that still has its handle. */
  ghost predicate Owned(s: State) {
    forall fd {:trigger HasOwner(s, fd)} :: fd in s.poll && !s.poll[fd].notInEpoll ==> HasOwner(s, fd)
  }

  lemma OwnedDetach(s: State, h: nat)
    requires Registry(s) && Owned(s) && h in s.sockOf && h in s.cookieOf
    ensures Owned(Detach(s, h))
  {
    var s' := Detach(s, h);
    forall fd | fd in s'.poll && !s'.poll[fd].notInEpoll ensures HasOwner(s', fd) {
      assert HasOwner(s, fd);
      var g :| g in s.sockOf && g in s.cookieOf && s.sockOf[g] == fd && s.cookieOf[g] == s.poll[fd].cookie;
      assert g in s'.sockOf && s'.sockOf[g] == fd;
    }
  }

  lemma OwnedAdd(s: State, ev: Event)
    requires Owned(s) && Enabled(s, ev) && ev.EvAdd?
    ensures Owned(Next(s, ev))
  {
    var s' := Next(s, ev);
    forall fd | fd in s'.poll && !s'.poll[fd].notInEpoll ensures HasOwner(s', fd) {
      assert HasOwner(s, fd);
      var g :| g in s.sockOf && g in s.cookieOf && s.sockOf[g] == fd && s.cookieOf[g] == s.poll[fd].cookie;
      assert g in s'.sockOf && s'.sockOf[g] == fd;
    }
  }

  lemma OwnedUpdates(s: State, ev: Event)
    requires Registry(s) && Enabled(s, ev) && ev.EvUpdates?
    ensures Owned(Next(s, ev))
  {
    var s' := Next(s, ev);
    forall fd | fd in s'.poll ensures HasOwner(s', fd) {
      HasHandle(s, s'.poll[fd].cookie);
      assert s'.handlers[s'.poll[fd].cookie].h in s'.sockOf;
    }
  }

  lemma OwnedSame(s: State, s': State)
    requires Owned(s) && s'.poll == s.poll && s'.sockOf == s.sockOf && s'.cookieOf == s.cookieOf
    ensures Owned(s')
  {
    forall fd | fd in s'.poll && !s'.poll[fd].notInEpoll ensures HasOwner(s', fd) {
      assert HasOwner(s, fd);
    }
  }

  lemma PollSame(s: State, ev: Event)
    requires Enabled(s, ev) && !ev.EvAdd? && !ev.EvUpdates? && !ev.EvRemoveHere? && !ev.EvRemoveEnd?
    ensures var s' := Next(s, ev); s'.poll == s.poll && s'.sockOf == s.sockOf && s'.cookieOf == s.cookieOf
  {
    hide CountSignals, MustWait, InUserCode, Dispatch, Mirrors;
    match ev {
      case EvUpdate(h, evs, remote) => UpdateFrame(s, h, evs, remote);
      case EvRemoveBegin(t, h) =>
      case EvDispatch => DispatchFrame(s);
      case EvHandled =>
      case _ =>
    }
  }

  lemma OwnedStays(s: State, ev: Event)
    requires Inv(s) && Enabled(s, ev) && Owned(s)
    ensures Owned(Next(s, ev))
  {
    hide Owned, Mirrors, Wanted, CountSignals;
    match ev {
      case EvAdd(_, _, _, _) => OwnedAdd(s, ev);
      case EvUpdates(_) => OwnedUpdates(s, ev);
      case EvRemoveHere(h) =>
        UnregisterKeeps(s, h);
        OwnedSame(s, Unregister(s, h));
        OwnedDetach(Unregister(s, h), h);
      case EvRemoveEnd(t) =>
        OwnedDetach(s, s.waiting[t].h);
        OwnedSame(Detach(s, s.waiting[t].h), Next(s, ev));
      case _ =>
        PollSame(s, ev);
        OwnedSame(s, Next(s, ev));
    }
  }

  lemma {:induction false} RunOwned(ss: seq<State>, evs: seq<Event>, i: nat)
    requires IsRun(ss, evs) && i < |ss|
    ensures Owned(ss[i])
  {
    if i > 0 {
      hide Inv, Next, Enabled, Owned;
      RunOwned(ss, evs, i - 1);
      RunInv(ss, evs, i - 1);
      assert IsStep(ss[i - 1], evs[i - 1], ss[i]);
      OwnedStays(ss[i - 1], evs[i - 1]);
    }
  }

  /**
   * In every state of every run a descriptor is in epoll only while some handler has it as its handle: one that remove has
   * given back, and that its new owner may close or reuse, is not polled.
   */
  lemma GivenBackNotPolled(ss: seq<State>, evs: seq<Event>, i: nat, fd: int)
    requires IsRun(ss, evs) && i < |ss| && fd in ss[i].epoll
    ensures exists h :: h in ss[i].sockOf && ss[i].sockOf[h] == fd
  {
    RunInv(ss, evs, i);
    RunOwned(ss, evs, i);
    assert HasOwner(ss[i], fd);
  }
}
