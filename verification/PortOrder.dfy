// dnode/PortReservation.h and the loops of dnode/PortAllocator.cpp over the port set: a set ordered by a key that
// changes, searched by that key.
module PortOrder {
  import opened Common
  import opened PortModel

  /** PortStateComparer: by decay time, then by id. */
  predicate KeyLess(d: int, a: nat, e: int, b: nat) {
    if d < e then true else if d > e then false else a < b
  }

  /** The ids `order` are sorted by the keys they have now. */
  ghost predicate Sorted(ports: seq<Port>, order: seq<nat>) {
    && (forall i :: 0 <= i < |order| ==> order[i] < |ports|)
    && (forall i, j :: 0 <= i < j < |order| ==> KeyLess(ports[order[i]].decay, order[i], ports[order[j]].decay, order[j]))
  }

  /** The set holds every port, once, in the order of the present keys. */
  ghost predicate Ordered(ports: seq<Port>, order: seq<nat>) {
    Sorted(ports, order) && forall p :: 0 <= p < |ports| ==> p in order
  }

  /** The position of the first element not less than key (d, id), by bisection. */
  method LowerBound(ports: seq<Port>, order: seq<nat>, d: int, id: nat) returns (pos: nat)
    requires Sorted(ports, order)
    ensures pos <= |order|
    ensures forall i :: 0 <= i < pos ==> KeyLess(ports[order[i]].decay, order[i], d, id)
    ensures forall i :: pos <= i < |order| ==> !KeyLess(ports[order[i]].decay, order[i], d, id)
  {
    var hi := |order|;
    pos := 0;
    while pos < hi
      invariant pos <= hi <= |order|
      invariant forall i :: 0 <= i < pos ==> KeyLess(ports[order[i]].decay, order[i], d, id)
      invariant forall i :: hi <= i < |order| ==> !KeyLess(ports[order[i]].decay, order[i], d, id)
    {
      var mid := (pos + hi) / 2;
      if KeyLess(ports[order[mid]].decay, order[mid], d, id) {
        pos := mid + 1;
      } else {
        hi := mid;
      }
    }
  }

  /** Takes a port out of the set, changes its key and puts it back. */
  method Rekey(ports: seq<Port>, order: seq<nat>, id: nat, d: int) returns (ports': seq<Port>, order': seq<nat>)
    requires Ordered(ports, order) && id < |ports|
    ensures Ordered(ports', order') && ports' == ports[id := ports[id].(decay := d)]
  {
    var pos := LowerBound(ports, order, ports[id].decay, id);
    assert pos < |order| && order[pos] == id by {
      assert id in order;
      var j :| 0 <= j < |order| && order[j] == id;
    }
    var rest := order[..pos] + order[pos + 1..];
    ports' := ports[id := ports[id].(decay := d)];
    Erased(ports, order, pos, d);
    pos := LowerBound(ports', rest, d, id);
    order' := rest[..pos] + [id] + rest[pos..];
    Inserted(ports', rest, pos, id);
  }

  lemma Erased(ports: seq<Port>, order: seq<nat>, pos: nat, d: int)
    requires Ordered(ports, order) && pos < |order|
    ensures var id, rest := order[pos], order[..pos] + order[pos + 1..];
            && id < |ports| && Sorted(ports[id := ports[id].(decay := d)], rest) && id !in rest
            && forall p :: 0 <= p < |ports| && p != id ==> p in rest
  {
    var id, rest := order[pos], order[..pos] + order[pos + 1..];
    assert forall i :: 0 <= i < |rest| ==> rest[i] == order[if i < pos then i else i + 1];
    forall p | 0 <= p < |ports| && p != id ensures p in rest {
      assert p in order;
      var j :| 0 <= j < |order| && order[j] == p;
      assert rest[if j < pos then j else j - 1] == p;
    }
  }

  lemma Inserted(ports: seq<Port>, rest: seq<nat>, pos: nat, id: nat)
    requires Sorted(ports, rest) && id < |ports| && id !in rest && pos <= |rest|
    requires forall p :: 0 <= p < |ports| && p != id ==> p in rest
    requires forall i :: 0 <= i < pos ==> KeyLess(ports[rest[i]].decay, rest[i], ports[id].decay, id)
    requires forall i :: pos <= i < |rest| ==> !KeyLess(ports[rest[i]].decay, rest[i], ports[id].decay, id)
    ensures Ordered(ports, rest[..pos] + [id] + rest[pos..])
  {
    var order := rest[..pos] + [id] + rest[pos..];
    assert forall i :: 0 <= i < |order| ==> order[i] == if i < pos then rest[i] else if i == pos then id else rest[i - 1];
    assert order[pos] == id;
    forall p | 0 <= p < |ports| && p != id ensures p in order {
      assert p in rest;
      var j :| 0 <= j < |rest| && rest[j] == p;
      assert order[if j < pos then j else j + 1] == p;
    }
  }

  lemma InOrder(ports: seq<Port>, order: seq<nat>)
    requires |order| == |ports| && forall i :: 0 <= i < |ports| ==> order[i] == i && ports[i].decay == 0
    ensures Ordered(ports, order)
  {
    forall p | 0 <= p < |ports| ensures p in order {
      assert order[p] == p;
    }
  }

  lemma SameKeys(ports: seq<Port>, ports': seq<Port>, order: seq<nat>)
    requires Ordered(ports, order) && |ports'| == |ports|
    requires forall p :: 0 <= p < |ports| ==> ports'[p].decay == ports[p].decay
    ensures Ordered(ports', order)
  {
  }

  lemma MarkedKeys(ports: seq<Port>, order: seq<nat>, ids: seq<nat>, st: Status)
    requires Ordered(ports, order)
    ensures Ordered(Marked(ports, ids, st), order)
  {
    SameKeys(ports, Marked(ports, ids, st), order);
  }

  /** useReservation's loop. */
  method RekeyAll(ports: seq<Port>, order: seq<nat>, ids: seq<nat>, d: int) returns (ports': seq<Port>, order': seq<nat>)
    requires Ordered(ports, order) && forall i :: 0 <= i < |ids| ==> ids[i] < |ports|
    ensures Ordered(ports', order') && ports' == Redecayed(ports, ids, d)
  {
    ports', order' := ports, order;
    for i := 0 to |ids|
      invariant Ordered(ports', order') && ports' == Redecayed(ports, ids[..i], d)
    {
      assert ids[..i + 1] == ids[..i] + [ids[i]];
      ports', order' := Rekey(ports', order', ids[i], d);
    }
    assert ids[..|ids|] == ids;
  }

  /** freeReservation's loop: the class of the last port, and whether a kept alive port starts to decay. */
  method ReleaseAll(ports: seq<Port>, order: seq<nat>, ids: seq<nat>, d: int)
    returns (ports': seq<Port>, order': seq<nat>, k: nat, started: bool)
    requires Ordered(ports, order) && NoDup(ids) && ids != [] && forall i :: 0 <= i < |ids| ==> ids[i] < |ports|
    requires d != NEVER
    ensures Ordered(ports', order') && ports' == Released(ports, ids, d)
    ensures k == KindOf(ports, ids) && (started <==> SomeKeptAlive(ports, ids))
  {
    ports', order', k, started := ports, order, 1, false;
    assert Released(ports, [], d) == ports;
    hide Released, Ordered;
    for i := 0 to |ids|
      invariant Ordered(ports', order') && ports' == Released(ports, ids[..i], d)
      invariant i > 0 ==> k == KindOf(ports, ids[..i])
      invariant started <==> exists j :: 0 <= j < i && ports[ids[j]].decay == NEVER
    {
      assert ids[..i + 1] == ids[..i] + [ids[i]];
      assert ids[i] !in ids[..i];
      var id := ids[i];
      k := if ports'[id].status == Symm then 0 else 1;
      ghost var was := ports';
      ReleasedSnoc(ports, ids[..i], id, d);
      ports' := ports'[id := ports'[id].(status := Free)];
      SameKeys(was, ports', order');
      if ports'[id].decay == NEVER {
        ports', order' := Rekey(ports', order', id, d);
        started := true;
      }
    }
    assert ids[..|ids|] == ids;
  }

  // ---------------------------------------------------------------- reserving

  /** The free decayed ports, in the order of the set. */
  ghost function Picks(ports: seq<Port>, order: seq<nat>, now: int): (r: seq<nat>)
    requires forall i :: 0 <= i < |order| ==> order[i] < |ports|
  {
    if order == [] then [] else
      var last := order[|order| - 1];
      Picks(ports, order[..|order| - 1], now) + if ports[last].status == Free && ports[last].decay <= now then [last] else []
  }

  predicate CanPick(ports: seq<Port>, p: nat, now: int) {
    p < |ports| && ports[p].status == Free && ports[p].decay <= now
  }

  lemma SortedOnce(ports: seq<Port>, order: seq<nat>)
    requires Sorted(ports, order)
    ensures NoDup(order)
  {
  }

  /** One more port at the end of the order is picked, if it can be, behind the others. */
  lemma PickLast(picks: seq<nat>, front: seq<nat>, last: nat, pick: bool)
    requires NoDup(picks) && last !in front && forall p :: p in picks ==> p in front
    ensures var r := picks + if pick then [last] else [];
            NoDup(r) && forall p :: p in r <==> p in picks || (pick && p == last)
  {
  }

  lemma {:induction false} PicksOnce(ports: seq<Port>, order: seq<nat>, now: int)
    requires NoDup(order) && forall i :: 0 <= i < |order| ==> order[i] < |ports|
    ensures NoDup(Picks(ports, order, now))
    ensures forall p :: p in Picks(ports, order, now) <==> p in order && CanPick(ports, p, now)
  {
    if order != [] {
      var front, last := order[..|order| - 1], order[|order| - 1];
      PicksOnce(ports, front, now);
      assert order == front + [last];
      assert last !in front;
      var picks := Picks(ports, front, now);
      assert Picks(ports, order, now) == picks + if CanPick(ports, last, now) then [last] else [];
      hide Picks;
      PickLast(picks, front, last, CanPick(ports, last, now));
    }
  }

  lemma PicksIs(ports: seq<Port>, order: seq<nat>, now: int)
    requires Sorted(ports, order)
    ensures NoDup(Picks(ports, order, now))
    ensures forall p :: p in Picks(ports, order, now) <==> p in order && ports[p].status == Free && ports[p].decay <= now
  {
    SortedOnce(ports, order);
    PicksOnce(ports, order, now);
  }

  /** The loop may stop at the first port that has not decayed: in sorted order none after it has. */
  lemma {:induction false} NoneAfter(ports: seq<Port>, order: seq<nat>, now: int, i: nat)
    requires Sorted(ports, order) && i < |order| && ports[order[i]].decay > now
    ensures Picks(ports, order, now) == Picks(ports, order[..i], now)
  {
    var front := order[..|order| - 1];
    assert ports[order[|order| - 1]].decay > now;
    if i < |order| - 1 {
      NoneAfter(ports, front, now, i);
      assert front[..i] == order[..i];
    }
  }

  lemma {:induction false} PicksPrefix(ports: seq<Port>, order: seq<nat>, now: int, i: nat)
    requires Sorted(ports, order) && i <= |order|
    ensures Picks(ports, order[..i], now) <= Picks(ports, order, now)
  {
    if i < |order| {
      var front := order[..|order| - 1];
      PicksPrefix(ports, front, now, i);
      assert front[..i] == order[..i];
    } else {
      assert order[..i] == order;
    }
  }

  lemma PicksAll(ports: seq<Port>, order: seq<nat>, now: int)
    requires Ordered(ports, order)
    ensures |Picks(ports, order, now)| == |Pickable(ports, now)|
    ensures forall p :: p in Picks(ports, order, now) ==> p in Pickable(ports, now)
  {
    PicksIs(ports, order, now);
    ElementsSize(Picks(ports, order, now));
    assert Elements(Picks(ports, order, now)) == Pickable(ports, now);
  }

  lemma MarkedBack(ports: seq<Port>, ids: seq<nat>, st: Status)
    requires forall p :: p in ids ==> p < |ports| && ports[p].status == Free
    ensures Marked(Marked(ports, ids, st), ids, Free) == ports
  {
  }

  lemma PicksSnoc(ports: seq<Port>, order: seq<nat>, now: int, i: nat)
    requires Sorted(ports, order) && i < |order|
    ensures var picks := Picks(ports, order[..i], now);
            && order[i] !in picks
            && Picks(ports, order[..i + 1], now)
               == picks + if ports[order[i]].status == Free && ports[order[i]].decay <= now then [order[i]] else []
  {
    assert order[..i + 1][..i] == order[..i];
    PicksIs(ports, order[..i], now);
  }

  lemma MarkedSnoc(ports: seq<Port>, ids: seq<nat>, p: nat, st: Status)
    requires p < |ports|
    ensures Marked(ports, ids + [p], st) == Marked(ports, ids, st)[p := ports[p].(status := st)]
    ensures p !in ids ==> Marked(ports, ids, st)[p] == ports[p]
  {
  }

  lemma ReleasedSnoc(ports: seq<Port>, ids: seq<nat>, p: nat, d: int)
    requires p < |ports| && p !in ids
    ensures Released(ports, ids, d)[p] == ports[p]
    ensures Released(ports, ids + [p], d) == Released(ports, ids, d)[p := Port(Free, if ports[p].decay == NEVER then d else ports[p].decay)]
  {
  }

  /** The first loop: marks free decayed ports until there are n of them, or the next has not decayed. */
  method PickPorts(ports: seq<Port>, order: seq<nat>, n: int, st: Status, now: int) returns (ports': seq<Port>, states: seq<nat>)
    requires Ordered(ports, order) && st != Free
    ensures ports' == Marked(ports, states, st) && states <= Picks(ports, order, now)
    ensures |states| == n || (states == Picks(ports, order, now) && (n < 0 || |states| < n))
  {
    ports', states := ports, [];
    var i := 0;
    assert order[..0] == [] && Picks(ports, [], now) == [] && Marked(ports, [], st) == ports;
    hide Picks, Marked;
    while i < |order|
      invariant i <= |order| && ports' == Marked(ports, states, st) && states == Picks(ports, order[..i], now)
      invariant n < 0 || |states| <= n
    {
      PicksPrefix(ports, order, now, i);
      if ports'[order[i]].decay > now || |states| == n {
        if ports[order[i]].decay > now {
          NoneAfter(ports, order, now, i);
        }
        return;
      }
      PicksSnoc(ports, order, now, i);
      if ports'[order[i]].status == Free {
        MarkedSnoc(ports, states, order[i], st);
        ports' := ports'[order[i] := ports'[order[i]].(status := st)];
        states := states + [order[i]];
      }
      i := i + 1;
    }
    assert order[..i] == order;
  }

  lemma SomePicks(ports: seq<Port>, order: seq<nat>, now: int, states: seq<nat>)
    requires Ordered(ports, order) && states <= Picks(ports, order, now)
    ensures NoDup(states) && |Picks(ports, order, now)| == |Pickable(ports, now)|
    ensures forall i :: 0 <= i < |states| ==> states[i] < |ports|
    ensures forall p :: p in states ==> p in Pickable(ports, now) && ports[p].status == Free
  {
    PicksIs(ports, order, now);
    PicksAll(ports, order, now);
    assert forall p :: p in states ==> p in Picks(ports, order, now);
    assert forall i :: 0 <= i < |states| ==> states[i] in states;
  }

  /**
   * All or nothing: n free decayed ports are marked, if n > 0 and there are so many, otherwise everything is left as it
   * was (for n == 0 the empty result means the same to the caller).
   */
  method ReservePorts(ports: seq<Port>, order: seq<nat>, n: int, st: Status, now: int) returns (ports': seq<Port>, states: seq<nat>)
    requires Ordered(ports, order) && st != Free
    ensures Ordered(ports', order) && ports' == Marked(ports, states, st)
    ensures GoodPick(ports, now, n, states)
    ensures states == if 1 <= n <= |Picks(ports, order, now)| then Picks(ports, order, now)[..n] else []
  {
    ports', states := PickPorts(ports, order, n, st, now);
    hide Picks, Ordered, Pickable, NoDup;
    SomePicks(ports, order, now, states);
    if |states| != n {
      MarkedBack(ports, states, st);
      ports' := Unmark(ports', states);
      states := [];
      assert Marked(ports, [], st) == ports;
    } else {
      SameKeys(ports, ports', order);
    }
  }

  method Unmark(ports: seq<Port>, ids: seq<nat>) returns (ports': seq<Port>)
    requires forall i :: 0 <= i < |ids| ==> ids[i] < |ports|
    ensures ports' == Marked(ports, ids, Free)
  {
    ports' := ports;
    for i := 0 to |ids|
      invariant ports' == Marked(ports, ids[..i], Free)
    {
      assert ids[..i + 1] == ids[..i] + [ids[i]];
      ports' := ports'[ids[i] := ports'[ids[i]].(status := Free)];
    }
    assert ids[..|ids|] == ids;
  }

  /** The decay timeout's loop: the first port in order that is still decaying. */
  method NextDecay(ports: seq<Port>, order: seq<nat>, now: int) returns (e: Option<int>)
    requires Ordered(ports, order) && forall p :: 0 <= p < |ports| ==> ports[p].decay <= NEVER
    ensures IsEarliest(ports, now, e)
  {
    e := None;
    for i := 0 to |order|
      invariant e.None? && forall j :: 0 <= j < i ==> !(now < ports[order[j]].decay < NEVER)
    {
      if ports[order[i]].decay != NEVER && ports[order[i]].decay > now {
        e := Some(ports[order[i]].decay);
        forall p | 0 <= p < |ports| && now < ports[p].decay < NEVER ensures e.value <= ports[p].decay {
          assert p in order;
          var j :| 0 <= j < |order| && order[j] == p;
        }
        return;
      }
    }
    forall p | 0 <= p < |ports| ensures !(now < ports[p].decay < NEVER) {
      assert p in order;
      var j :| 0 <= j < |order| && order[j] == p;
    }
  }
}
