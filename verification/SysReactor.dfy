// dutil/SysReactor.cpp in place: the sections that run under the lock.
module SysReactors {
  import opened Common
  import opened ReactorModel
  import opened ReactorSafety
  import opened ReactorRuns

  /** What an update pass may rely on. */
  ghost predicate Updatable(handlers: map<nat, Info>, sockOf: map<nat, int>, poll: map<int, Entry>) {
    && (forall c :: c in handlers ==> handlers[c].h in sockOf)
    && (forall c, d :: c in handlers && d in handlers && sockOf[handlers[c].h] == sockOf[handlers[d].h] ==> c == d)
    && (forall fd :: fd in poll && poll[fd].cookie in handlers ==> sockOf[handlers[poll[fd].cookie].h] == fd && !poll[fd].notInEpoll)
  }

  /** The entry is that of a registered handler, as it is now. */
  ghost predicate UpToDate(handlers: map<nat, Info>, sockOf: map<nat, int>, fd: int, e: Entry) {
    && e.cookie in handlers && handlers[e.cookie].h in sockOf && sockOf[handlers[e.cookie].h] == fd
    && e == Entry(e.cookie, handlers[e.cookie].events, false)
  }

  lemma WantedDrop(poll: map<int, Entry>, fd: int)
    requires fd in poll
    ensures Wanted(poll - {fd}) == Wanted(poll) - {fd}
    ensures poll[fd].events == NOTHING || poll[fd].notInEpoll ==> Wanted(poll) - {fd} == Wanted(poll)
  {
  }

  lemma WantedSet(poll: map<int, Entry>, fd: int, e: Entry)
    requires !e.notInEpoll
    ensures Wanted(poll[fd := e]) == if e.events != NOTHING then Wanted(poll)[fd := e.events] else Wanted(poll) - {fd}
  {
  }

  lemma SomeElement(s: set<int>)
    ensures s == {} || exists x :: x in s
  {
    if forall x :: x !in s {
      assert s == {};
    }
  }

  /** One entry of the first loop: the new entry, if it stays. */
  function Refreshed(handlers: map<nat, Info>, e: Entry): Option<Entry> {
    if e.cookie in handlers then Some(e.(events := handlers[e.cookie].events)) else None
  }

  /** The body of the first loop of processUpdates. */
  method RefreshEntry(handlers: map<nat, Info>, poll: map<int, Entry>, epoll: map<int, Events>, fd: int)
    returns (poll': map<int, Entry>, epoll': map<int, Events>)
    requires fd in poll && epoll == Wanted(poll) && (poll[fd].cookie in handlers ==> !poll[fd].notInEpoll)
    ensures epoll' == Wanted(poll')
    ensures poll' == match Refreshed(handlers, poll[fd]) { case Some(e) => poll[fd := e] case None => poll - {fd} }
  {
    poll', epoll' := poll, epoll;
    var e := poll[fd];
    WantedDrop(poll, fd);
    if e.cookie !in handlers {
      if e.events != NOTHING && !e.notInEpoll {
        epoll' := epoll' - {fd};
      }
      poll' := poll' - {fd};
    } else if e.events != handlers[e.cookie].events {
      if e.events != NOTHING {
        epoll' := epoll' - {fd};
      }
      e := e.(events := handlers[e.cookie].events);
      WantedSet(poll, fd, e);
      poll' := poll'[fd := e];
      if e.events != NOTHING {
        epoll' := epoll'[fd := e.events];
      }
    }
  }

  /** The first loop of processUpdates: entries of handlers that are gone are dropped, changed events are set anew. */
  method DropAndChange(handlers: map<nat, Info>, sockOf: map<nat, int>, poll: map<int, Entry>, epoll: map<int, Events>)
    returns (poll': map<int, Entry>, epoll': map<int, Events>)
    requires Updatable(handlers, sockOf, poll) && epoll == Wanted(poll)
    ensures epoll' == Wanted(poll') && poll'.Keys <= poll.Keys && Updatable(handlers, sockOf, poll')
    ensures forall fd :: fd in poll' ==> UpToDate(handlers, sockOf, fd, poll'[fd])
    ensures forall fd :: fd in poll && poll[fd].cookie in handlers ==> fd in poll' && poll'[fd].cookie == poll[fd].cookie
  {
    poll', epoll' := poll, epoll;
    var todo := poll.Keys;
    while todo != {}
      invariant todo <= poll'.Keys <= poll.Keys && epoll' == Wanted(poll')
      invariant forall fd :: fd in todo ==> poll'[fd] == poll[fd]
      invariant forall fd :: fd in poll' && fd !in todo ==> UpToDate(handlers, sockOf, fd, poll'[fd])
      invariant forall fd :: fd in poll && poll[fd].cookie in handlers ==> fd in poll' && poll'[fd].cookie == poll[fd].cookie
      decreases |todo|
    {
      SomeElement(todo);
      var fd :| fd in todo;
      poll', epoll' := RefreshEntry(handlers, poll', epoll', fd);
      todo := todo - {fd};
    }
  }

  /** The second loop: handlers that have no entry get one. The duplicate descriptor it guards against cannot occur. */
  method AddMissing(handlers: map<nat, Info>, sockOf: map<nat, int>, poll: map<int, Entry>, epoll: map<int, Events>)
    returns (poll': map<int, Entry>, epoll': map<int, Events>)
    requires Updatable(handlers, sockOf, poll) && epoll == Wanted(poll)
    requires forall fd :: fd in poll ==> UpToDate(handlers, sockOf, fd, poll[fd])
    ensures epoll' == Wanted(poll') && Mirrors(handlers, sockOf, poll')
  {
    poll', epoll' := poll, epoll;
    var todo := handlers.Keys;
    while todo != {}
      invariant todo <= handlers.Keys && epoll' == Wanted(poll')
      invariant forall fd :: fd in poll' ==> UpToDate(handlers, sockOf, fd, poll'[fd])
      invariant forall c :: c in handlers && c !in todo ==> sockOf[handlers[c].h] in poll'
      decreases |todo|
    {
      var c :| c in todo;
      var fd := sockOf[handlers[c].h];
      if fd !in poll' {
        var e := Entry(c, handlers[c].events, false);
        WantedSet(poll', fd, e);
        assert UpToDate(handlers, sockOf, fd, e);
        assert fd !in epoll';
        poll' := poll'[fd := e];
        if e.events != NOTHING {
          epoll' := epoll'[fd := e.events];
        }
      } else {
        assert UpToDate(handlers, sockOf, fd, poll'[fd]);
        assert poll'[fd].cookie == c;
      }
      todo := todo - {c};
    }
    forall c | c in handlers && handlers[c].h in sockOf
      ensures sockOf[handlers[c].h] in poll' && poll'[sockOf[handlers[c].h]] == Entry(c, handlers[c].events, false)
    {
      assert UpToDate(handlers, sockOf, sockOf[handlers[c].h], poll'[sockOf[handlers[c].h]]);
    }
  }

  lemma UpdatesStep(s: State, poll: map<int, Entry>)
    requires Inv(s) && s.pc.Callbacks? && Mirrors(s.handlers, s.sockOf, poll)
    ensures var s' := s.(poll := poll, epoll := Wanted(poll), pc := Updated); IsStep(s, EvUpdates(poll), s') && Inv(s')
  {
    hide Inv, Mirrors, Wanted;
    StepKeeps(s, EvUpdates(poll));
  }

  lemma InvUpdatable(s: State)
    requires Inv(s)
    ensures Updatable(s.handlers, s.sockOf, s.poll) && s.epoll == Wanted(s.poll)
  {
    forall c | c in s.handlers
      ensures s.handlers[c].h in s.sockOf && s.handlers[c].h in s.cookieOf && s.cookieOf[s.handlers[c].h] == c
    {
      HasHandle(s, c);
    }
    forall c, d | c in s.handlers && d in s.handlers && s.sockOf[s.handlers[c].h] == s.sockOf[s.handlers[d].h] ensures c == d {
      assert Distinct(s, s.handlers[c].h, s.handlers[d].h);
    }
    forall fd | fd in s.poll && s.poll[fd].cookie in s.handlers
      ensures s.sockOf[s.handlers[s.poll[fd].cookie].h] == fd && !s.poll[fd].notInEpoll
    {
      assert EntryOk(s, fd, s.handlers[s.poll[fd].cookie].h);
    }
  }

  class SysReactor {
    var handlers: map<nat, Info>
    var poll: map<int, Entry>
    var epoll: map<int, Events>
    var inPoll: bool
    var iteration: nat
    var current: Option<nat>
    var nextCookie: nat
    var signals: nat
    var cookieOf: map<nat, nat>
    var sockOf: map<nat, int>
    ghost var pc: Pc
    ghost var waiting: map<nat, Wait>
    ghost var gone: set<nat>
    ghost var recent: nat

    ghost function View(): State
      reads this
    {
      State(handlers, poll, epoll, inPoll, iteration, current, nextCookie, signals, cookieOf, sockOf, pc, waiting, gone, recent)
    }

    ghost predicate Valid()
      reads this
    {
      Inv(View())
    }

    constructor ()
      ensures Valid() && View() == Initial()
    {
      handlers, poll, epoll := map[], map[], map[];
      inPoll, iteration, current, nextCookie, signals := false, 0, None, 0, 0;
      cookieOf, sockOf := map[], map[];
      pc, waiting, gone, recent := Callbacks, map[], {}, 0;
    }

    method SignalWr()
      modifies this`signals, this`recent
      ensures View() == Signalled(old(View()), true)
    {
      signals := signals + 1;
      recent := recent + 1;
    }

    /** `remote` is whether the caller is another thread. */
    method AddHandler(h: nat, fd: int, ev: Events, remote: bool)
      requires Valid() && Enabled(View(), EvAdd(h, fd, ev, remote))
      modifies this
      ensures Valid() && IsStep(old(View()), EvAdd(h, fd, ev, remote), View())
    {
      hide Inv;
      StepKeeps(View(), EvAdd(h, fd, ev, remote));
      cookieOf, sockOf := cookieOf[h := nextCookie], sockOf[h := fd];
      handlers := handlers[nextCookie := Info(h, ev)];
      nextCookie := nextCookie + 1;
      gone := gone - {h};
      if remote {
        SignalWr();
      }
    }

    method UpdateHandler(h: nat, ev: Events, remote: bool)
      requires Valid() && Enabled(View(), EvUpdate(h, ev, remote))
      modifies this
      ensures Valid() && IsStep(old(View()), EvUpdate(h, ev, remote), View())
    {
      hide Inv;
      StepKeeps(View(), EvUpdate(h, ev, remote));
      if cookieOf[h] !in handlers || handlers[cookieOf[h]].events == ev {
        return;
      }
      handlers := handlers[cookieOf[h] := handlers[cookieOf[h]].(events := ev)];
      if remote {
        SignalWr();
      }
    }

    /** The end of remove, common to both threads; returns the descriptor of the handle given back. */
    method GiveBack(h: nat) returns (fd: int)
      requires h in cookieOf && h in sockOf
      modifies this`poll, this`epoll, this`sockOf
      ensures View() == Detach(old(View()), h) && fd == old(sockOf)[h]
    {
      fd := sockOf[h];
      if fd in poll && poll[fd].cookie == cookieOf[h] {
        if poll[fd].events != NOTHING {
          epoll := epoll - {fd};
        }
        poll := poll[fd := poll[fd].(notInEpoll := true)];
      }
      sockOf := sockOf - {h};
    }

    /** remove on the reactor's own thread; nothing is given back for a handler that is not registered. */
    method RemoveLocal(h: nat) returns (fd: Option<int>)
      requires Valid() && h in cookieOf && InUserCode(View())
      modifies this
      ensures Valid()
      ensures if old(IsRegistered(View(), h)) then IsStep(old(View()), EvRemoveHere(h), View()) && fd == Some(old(sockOf)[h])
              else View() == old(View()) && fd == None
    {
      if cookieOf[h] !in handlers {
        return None;
      }
      UnregisterKeeps(View(), h);
      hide Inv;
      StepKeeps(View(), EvRemoveHere(h));
      handlers := handlers - {cookieOf[h]};
      var f := GiveBack(h);
      fd := Some(f);
    }

    /** remove on thread t, up to its wait: false when the handler is not registered and there is nothing to do. */
    method RemoveStart(t: nat, h: nat) returns (ok: bool)
      requires Valid() && h in cookieOf && t !in waiting
      modifies this
      ensures Valid() && (ok <==> old(IsRegistered(View(), h)))
      ensures if ok then IsStep(old(View()), EvRemoveBegin(t, h), View()) else View() == old(View())
    {
      hide Inv;
      if cookieOf[h] !in handlers {
        return false;
      }
      StepKeeps(View(), EvRemoveBegin(t, h));
      waiting := waiting[t := Wait(h, iteration)];
      handlers := handlers - {cookieOf[h]};
      SignalWr();
      ok := true;
    }

    /** The rest of remove, when the wait is over. */
    method RemoveFinish(t: nat, h: nat) returns (fd: int)
      requires Valid() && t in waiting && waiting[t].h == h && !MustWait(View(), waiting[t])
      modifies this
      ensures Valid() && IsStep(old(View()), EvRemoveEnd(t), View()) && h in old(sockOf) && fd == old(sockOf)[h]
    {
      assert WaitOk(View(), waiting[t]);
      hide Inv;
      StepKeeps(View(), EvRemoveEnd(t));
      fd := GiveBack(h);
      gone, waiting := gone + {h}, waiting - {t};
    }

    /** Afterwards the poll entries and epoll are exactly what the registered handlers ask for. */
    method ProcessUpdates()
      requires Valid() && pc.Callbacks?
      modifies this
      ensures Valid() && IsStep(old(View()), EvUpdates(poll), View())
      ensures Mirrors(handlers, sockOf, poll) && epoll == Wanted(poll)
    {
      InvUpdatable(View());
      hide Inv, Mirrors, Updatable, UpToDate, Wanted, IsStep;
      var poll', epoll' := DropAndChange(handlers, sockOf, poll, epoll);
      poll', epoll' := AddMissing(handlers, sockOf, poll', epoll');
      UpdatesStep(View(), poll');
      poll, epoll := poll', epoll';
      pc := Updated;
    }

    /** Looks at the next thing epoll reported; a handler to run is noted first, under the lock. */
    method DispatchNext(x: Item)
      requires Valid() && pc.Dispatching? && pc.batch != [] && pc.batch[0] == x && (x.Signal? ==> signals > 0)
      modifies this
      ensures Valid() && IsStep(old(View()), EvDispatch, View())
      ensures forall h: nat {:trigger Reaches(old(View()), x, h)} :: current == Some(h) <==> Reaches(old(View()), x, h)
    {
      hide Inv, Reaches;
      StepKeeps(View(), EvDispatch);
      forall h: nat {:trigger Reaches(View(), x, h)} ensures Next(View(), EvDispatch).current == Some(h) <==> Reaches(View(), x, h) {
        DispatchReaches(View(), h);
      }
      ghost var rest := pc.batch[1..];
      pc := Dispatching(rest);
      if x.Signal? {
        signals := signals - 1;
      } else if x.fd in poll {
        var e := poll[x.fd];
        if (if x.Read? then e.events.rd else e.events.wr) && e.cookie in handlers {
          current := Some(handlers[e.cookie].h);
          pc := Handling(handlers[e.cookie].h, rest);
        }
      }
    }
  }
}
