// utp_hash: bucket chains and a free list threaded through one array of cells by index.
module UtpHash {
  import opened Common

  const UNUSED: nat := 0xffff_ffff

  datatype Cell<K, V> = Cell(key: K, val: V, link: nat)

  /** The hash function and the number of buckets. */
  datatype Buckets<!K> = Buckets(hash: K -> nat, n: nat) {
    function Of(k: K): nat {
      if n == 0 then 0 else hash(k) % n
    }
  }

  /** Which list a used cell is on. */
  datatype Place = Bucket(b: nat) | FreeList

  /** The link that leads to position i of a list. */
  function Link(list: seq<nat>, i: nat): nat {
    if i < |list| then list[i] else UNUSED
  }

  /** Position i holds a cell whose link leads to position i + 1. */
  ghost predicate LinkOk<K, V>(cells: seq<Cell<K, V>>, list: seq<nat>, i: nat)
    requires i < |list|
  {
    list[i] < |cells| && list[i] < UNUSED && cells[list[i]].link == Link(list, i + 1)
  }

  /** Starting at `start`, the links of `cells` spell out exactly `list`, ending in UNUSED: no cycle, no repetition. */
  ghost predicate Threads<K, V>(cells: seq<Cell<K, V>>, start: nat, list: seq<nat>) {
    && start == Link(list, 0)
    && (forall i :: 0 <= i < |list| ==> LinkOk(cells, list, i))
    && (forall i, j :: 0 <= i < j < |list| ==> list[i] != list[j])
  }

  /** Changing a cell that is not on a list leaves the list alone. */
  lemma ThreadsFrame<K, V>(cells: seq<Cell<K, V>>, start: nat, list: seq<nat>, c: nat, x: Cell<K, V>)
    requires Threads(cells, start, list) && c < |cells| && c !in list
    ensures Threads(cells[c := x], start, list)
  {
    var cells' := cells[c := x];
    forall i | 0 <= i < |list| ensures LinkOk(cells', list, i) {
      assert LinkOk(cells, list, i);
    }
  }

  lemma ThreadsGrow<K, V>(cells: seq<Cell<K, V>>, more: seq<Cell<K, V>>, start: nat, list: seq<nat>)
    requires Threads(cells, start, list)
    ensures Threads(cells + more, start, list)
  {
    var cells' := cells + more;
    forall i | 0 <= i < |list| ensures LinkOk(cells', list, i) {
      assert LinkOk(cells, list, i);
    }
  }

  lemma ThreadsPush<K, V>(cells: seq<Cell<K, V>>, start: nat, list: seq<nat>, c: nat, x: Cell<K, V>)
    requires Threads(cells, start, list) && c < |cells| && c < UNUSED && c !in list && x.link == start
    ensures Threads(cells[c := x], c, [c] + list)
  {
    var cells', list' := cells[c := x], [c] + list;
    forall i | 0 <= i < |list'| ensures LinkOk(cells', list', i) {
      assert i > 0 ==> LinkOk(cells, list, i - 1);
    }
  }

  lemma ThreadsPop<K, V>(cells: seq<Cell<K, V>>, start: nat, list: seq<nat>)
    requires Threads(cells, start, list) && list != []
    ensures start == list[0] && start < |cells| && start < UNUSED && Threads(cells, cells[start].link, list[1..]) && start !in list[1..]
  {
    assert LinkOk(cells, list, 0);
    var rest := list[1..];
    forall i | 0 <= i < |rest| ensures LinkOk(cells, rest, i) {
      assert LinkOk(cells, list, i + 1);
    }
  }

  function Without(list: seq<nat>, i: nat): (w: seq<nat>)
    requires i < |list|
    ensures |w| == |list| - 1
    ensures forall j :: 0 <= j < |w| ==> w[j] == if j < i then list[j] else list[j + 1]
  {
    list[..i] + list[i + 1..]
  }

  /** The cells after unlinking position i by redirecting the predecessor's link, if there is one. */
  function Redirected<K, V>(cells: seq<Cell<K, V>>, list: seq<nat>, i: nat): seq<Cell<K, V>>
    requires i < |list| && list[i] < |cells| && (i > 0 ==> list[i - 1] < |cells|)
  {
    if i == 0 then cells else cells[list[i - 1] := cells[list[i - 1]].(link := cells[list[i]].link)]
  }

  lemma ThreadsUnlink<K, V>(cells: seq<Cell<K, V>>, start: nat, list: seq<nat>, i: nat)
    requires Threads(cells, start, list) && i < |list|
    ensures list[i] < |cells| && (i > 0 ==> list[i - 1] < |cells|)
    ensures Threads(Redirected(cells, list, i), if i == 0 then cells[list[i]].link else start, Without(list, i))
    ensures list[i] !in Without(list, i)
  {
    var w := Without(list, i);
    assert LinkOk(cells, list, i) && (i > 0 ==> LinkOk(cells, list, i - 1));
    var cells' := Redirected(cells, list, i);
    forall j | 0 <= j < |w| ensures LinkOk(cells', w, j) {
      assert LinkOk(cells, list, if j < i then j else j + 1);
    }
  }

  // ---------------------------------------------------------------- the whole table

  /** Where everything is: the chain of each bucket, the free list, the list each used cell is on, and the cell of each key. */
  datatype Layout<K> = Layout(chains: seq<seq<nat>>, freeList: seq<nat>, place: seq<Place>, at: map<K, nat>)

  /** Chains and free list are threaded through the cells. */
  ghost predicate Lists<K, V>(inits: seq<nat>, cells: seq<Cell<K, V>>, free: nat, l: Layout<K>) {
    && |l.chains| == |inits|
    && (forall b :: 0 <= b < |inits| ==> Threads(cells, inits[b], l.chains[b]))
    && Threads(cells, free, l.freeList)
  }

  ghost predicate IsAt(place: seq<Place>, c: nat, p: Place) {
    c < |place| && place[c] == p
  }

  /** Every used cell is on exactly one list. */
  ghost predicate Places<K>(used: nat, l: Layout<K>) {
    && |l.place| == used
    && (forall b, c :: 0 <= b < |l.chains| && c in l.chains[b] ==> IsAt(l.place, c, Bucket(b)))
    && (forall c :: c in l.freeList ==> IsAt(l.place, c, FreeList))
    && (forall c :: 0 <= c < used ==>
          match l.place[c]
          case Bucket(b) => b < |l.chains| && c in l.chains[b]
          case FreeList => c in l.freeList)
  }

  lemma OnChain<K>(used: nat, l: Layout<K>, b: nat, c: nat)
    requires Places(used, l) && b < |l.chains| && c in l.chains[b]
    ensures c < used && c < |l.place| && l.place[c] == Bucket(b)
  {
    assert IsAt(l.place, c, Bucket(b));
  }

  /** No cell is on two lists. */
  lemma Disjoint<K>(used: nat, l: Layout<K>, b: nat, c: nat)
    requires Places(used, l) && b < |l.chains| && c in l.chains[b]
    ensures c !in l.freeList && forall a :: 0 <= a < |l.chains| && a != b ==> c !in l.chains[a]
  {
    OnChain(used, l, b, c);
    assert c in l.freeList ==> IsAt(l.place, c, FreeList);
    forall a | 0 <= a < |l.chains| && c in l.chains[a] ensures a == b {
      OnChain(used, l, a, c);
    }
  }

  /** A cell chained in bucket b is the cell of its own key, and b is that key's bucket. */
  ghost predicate ChainedOk<K, V>(cells: seq<Cell<K, V>>, at: map<K, nat>, bs: Buckets<K>, b: nat, c: nat) {
    c < |cells| && cells[c].key in at && at[cells[c].key] == c && bs.Of(cells[c].key) == b
  }

  ghost predicate KeyOk<K, V>(cells: seq<Cell<K, V>>, l: Layout<K>, bs: Buckets<K>, k: K)
    requires k in l.at
  {
    l.at[k] < |cells| && cells[l.at[k]].key == k && bs.Of(k) < |l.chains| && l.at[k] in l.chains[bs.Of(k)]
  }

  /** The chained cells hold exactly the keys of the table, each in the bucket of its hash. */
  ghost predicate Indexed<K, V>(cells: seq<Cell<K, V>>, l: Layout<K>, bs: Buckets<K>) {
    && (forall b, c :: 0 <= b < |l.chains| && c in l.chains[b] ==> ChainedOk(cells, l.at, bs, b, c))
    && (forall k :: k in l.at ==> KeyOk(cells, l, bs, k))
  }

  ghost function Contents<K, V>(cells: seq<Cell<K, V>>, l: Layout<K>, bs: Buckets<K>): (m: map<K, V>)
    requires Indexed(cells, l, bs)
    ensures m.Keys == l.at.Keys
  {
    assert forall k :: k in l.at ==> KeyOk(cells, l, bs, k);
    map k | k in l.at :: cells[l.at[k]].val
  }

  // ---------------------------------------------------------------- adding

  function Added<K>(l: Layout<K>, key: K, b: nat, c: nat, used: nat): Layout<K>
    requires b < |l.chains|
  {
    Layout(l.chains[b := [c] + l.chains[b]],
           if l.freeList != [] then l.freeList[1..] else [],
           if l.freeList != [] && c < |l.place| then l.place[c := Bucket(b)] else l.place + [Bucket(b)],
           l.at[key := c])
  }

  /** Taking the head of the free list for a new key of bucket b. */
  lemma AddReused<K, V>(inits: seq<nat>, cells: seq<Cell<K, V>>, free: nat, used: nat, l: Layout<K>, bs: Buckets<K>,
                        key: K, val: V, b: nat)
    requires Lists(inits, cells, free, l) && Places(used, l) && Indexed(cells, l, bs) && used <= |cells|
    requires l.freeList != [] && key !in l.at && b < |inits| && bs.Of(key) == b
    ensures free < |cells| && free < used && b < |l.chains|
    ensures var l' := Added(l, key, b, free, used);
            var cells' := cells[free := Cell(key, val, inits[b])];
            && Lists(inits[b := free], cells', cells[free].link, l') && Places(used, l') && Indexed(cells', l', bs)
            && Contents(cells', l', bs) == Contents(cells, l, bs)[key := val]
  {
    ThreadsPop(cells, free, l.freeList);
    var x := Cell(key, val, inits[b]);
    var cells' := cells[free := x];
    var l' := Added(l, key, b, free, used);
    assert free in l.freeList;
    forall a | 0 <= a < |inits| ensures free !in l.chains[a] {
      if free in l.chains[a] {
        OnChain(used, l, a, free);
      }
    }
    forall a | 0 <= a < |inits| ensures Threads(cells', inits[b := free][a], l'.chains[a]) {
      if a == b {
        ThreadsPush(cells, inits[a], l.chains[a], free, x);
      } else {
        ThreadsFrame(cells, inits[a], l.chains[a], free, x);
      }
    }
    ThreadsFrame(cells, cells[free].link, l.freeList[1..], free, x);
    AddPlaces(used, l, key, b, free);
    AddIndexed(cells, used, l, bs, key, val, b, free, inits[b]);
  }

  lemma AddPlaces<K>(used: nat, l: Layout<K>, key: K, b: nat, c: nat)
    requires Places(used, l) && b < |l.chains| && l.freeList != [] && c == l.freeList[0] && c !in l.freeList[1..]
    ensures Places(used, Added(l, key, b, c, used))
  {
    var l' := Added(l, key, b, c, used);
    assert IsAt(l.place, c, FreeList);
    forall a, d | 0 <= a < |l'.chains| && d in l'.chains[a] ensures IsAt(l'.place, d, Bucket(a)) {
      if a != b || d != c {
        OnChain(used, l, a, d);
      }
    }
    forall d | d in l'.freeList ensures IsAt(l'.place, d, FreeList) {
      assert IsAt(l.place, d, FreeList);
    }
    forall d | 0 <= d < used && d != c
      ensures match l'.place[d] { case Bucket(a) => a < |l'.chains| && d in l'.chains[a] case FreeList => d in l'.freeList }
    {
      assert l.place[d].FreeList? ==> d in l.freeList;
    }
  }

  lemma AddIndexed<K, V>(cells: seq<Cell<K, V>>, used: nat, l: Layout<K>, bs: Buckets<K>, key: K, val: V, b: nat, c: nat, link: nat)
    requires Indexed(cells, l, bs) && key !in l.at && b < |l.chains| && bs.Of(key) == b && c < |cells|
    requires forall a :: 0 <= a < |l.chains| ==> c !in l.chains[a]
    ensures Indexed(cells[c := Cell(key, val, link)], Added(l, key, b, c, used), bs)
    ensures Contents(cells[c := Cell(key, val, link)], Added(l, key, b, c, used), bs) == Contents(cells, l, bs)[key := val]
  {
    var l' := Added(l, key, b, c, used);
    var cells' := cells[c := Cell(key, val, link)];
    forall a, d | 0 <= a < |l'.chains| && d in l'.chains[a] ensures ChainedOk(cells', l'.at, bs, a, d) {
      if a != b || d != c {
        assert d in l.chains[a];
        assert ChainedOk(cells, l.at, bs, a, d);
      }
    }
    forall k | k in l'.at ensures KeyOk(cells', l', bs, k) {
      if k != key {
        assert KeyOk(cells, l, bs, k);
      }
    }
  }

  lemma AddPlacesFresh<K>(used: nat, l: Layout<K>, key: K, b: nat)
    requires Places(used, l) && b < |l.chains| && l.freeList == []
    ensures Places(used + 1, Added(l, key, b, used, used))
  {
    var l' := Added(l, key, b, used, used);
    forall a, d | 0 <= a < |l'.chains| && d in l'.chains[a] ensures IsAt(l'.place, d, Bucket(a)) {
      if a != b || d != used {
        OnChain(used, l, a, d);
      }
    }
    forall d | 0 <= d < used + 1 ensures l'.place[d].Bucket? && l'.place[d].b < |l'.chains| && d in l'.chains[l'.place[d].b] {
      if d < used {
        assert l.place[d].Bucket? && d in l.chains[l.place[d].b];
      }
    }
  }

  /** Taking the first never used cell. */
  lemma AddFresh<K, V>(inits: seq<nat>, cells: seq<Cell<K, V>>, free: nat, used: nat, l: Layout<K>, bs: Buckets<K>,
                       key: K, val: V, b: nat)
    requires Lists(inits, cells, free, l) && Places(used, l) && Indexed(cells, l, bs) && used < |cells| && used < UNUSED
    requires l.freeList == [] && key !in l.at && b < |inits| && bs.Of(key) == b
    ensures b < |l.chains|
    ensures var l' := Added(l, key, b, used, used);
            var cells' := cells[used := Cell(key, val, inits[b])];
            && Lists(inits[b := used], cells', free, l') && Places(used + 1, l') && Indexed(cells', l', bs)
            && Contents(cells', l', bs) == Contents(cells, l, bs)[key := val]
  {
    var x := Cell(key, val, inits[b]);
    var cells' := cells[used := x];
    var l' := Added(l, key, b, used, used);
    forall a | 0 <= a < |inits| ensures used !in l.chains[a] {
      if used in l.chains[a] {
        OnChain(used, l, a, used);
      }
    }
    forall a | 0 <= a < |inits| ensures Threads(cells', inits[b := used][a], l'.chains[a]) {
      if a == b {
        ThreadsPush(cells, inits[a], l.chains[a], used, x);
      } else {
        ThreadsFrame(cells, inits[a], l.chains[a], used, x);
      }
    }
    ThreadsFrame(cells, free, l.freeList, used, x);
    AddPlacesFresh(used, l, key, b);
    AddIndexed(cells, used, l, bs, key, val, b, used, inits[b]);
  }

  // ---------------------------------------------------------------- deleting

  function Deleted<K>(l: Layout<K>, key: K, b: nat, i: nat): Layout<K>
    requires b < |l.chains| && i < |l.chains[b]| && l.chains[b][i] < |l.place|
  {
    var c := l.chains[b][i];
    Layout(l.chains[b := Without(l.chains[b], i)], [c] + l.freeList, l.place[c := FreeList], l.at - {key})
  }

  /** The cells after the unlinked cell was put at the head of the free list. */
  function DeletedCells<K, V>(cells: seq<Cell<K, V>>, list: seq<nat>, i: nat, free: nat): seq<Cell<K, V>>
    requires i < |list| && list[i] < |cells| && (i > 0 ==> list[i - 1] < |cells|)
  {
    var r := Redirected(cells, list, i);
    r[list[i] := r[list[i]].(link := free)]
  }

  lemma DelLists<K, V>(inits: seq<nat>, cells: seq<Cell<K, V>>, free: nat, used: nat, l: Layout<K>, key: K, b: nat, i: nat)
    requires Lists(inits, cells, free, l) && Places(used, l)
    requires b < |inits| && i < |l.chains[b]|
    ensures var c := l.chains[b][i];
            && c < |cells| && c < |l.place| && (i > 0 ==> l.chains[b][i - 1] < |cells|)
            && var inits' := if i == 0 then inits[b := cells[c].link] else inits;
               Lists(inits', DeletedCells(cells, l.chains[b], i, free), c, Deleted(l, key, b, i))
  {
    var list := l.chains[b];
    var c := list[i];
    ThreadsUnlink(cells, inits[b], list, i);
    forall d | d in list ensures d !in l.freeList && forall a :: 0 <= a < |l.chains| && a != b ==> d !in l.chains[a] {
      Disjoint(used, l, b, d);
    }
    OnChain(used, l, b, c);
    var r := Redirected(cells, list, i);
    var x := r[c].(link := free);
    var inits' := if i == 0 then inits[b := cells[c].link] else inits;
    var l' := Deleted(l, key, b, i);
    assert LinkOk(cells, list, i);
    forall a | 0 <= a < |inits'| ensures Threads(r[c := x], inits'[a], l'.chains[a]) {
      if a == b {
        ThreadsFrame(r, inits'[b], Without(list, i), c, x);
      } else {
        OtherList(cells, list, i, inits[a], l.chains[a]);
        ThreadsFrame(r, inits[a], l.chains[a], c, x);
      }
    }
    OtherList(cells, list, i, free, l.freeList);
    ThreadsPush(r, free, l.freeList, c, x);
  }

  /** Redirecting a link on one list does not touch a disjoint list. */
  lemma OtherList<K, V>(cells: seq<Cell<K, V>>, list: seq<nat>, i: nat, start: nat, other: seq<nat>)
    requires i < |list| && list[i] < |cells| && (i > 0 ==> list[i - 1] < |cells|)
    requires Threads(cells, start, other) && forall c :: c in list ==> c !in other
    ensures Threads(Redirected(cells, list, i), start, other)
  {
    if i > 0 {
      assert list[i - 1] in list;
      ThreadsFrame(cells, start, other, list[i - 1], cells[list[i - 1]].(link := cells[list[i]].link));
    }
  }

  lemma WithoutMembers(list: seq<nat>, i: nat)
    requires i < |list| && forall a, b :: 0 <= a < b < |list| ==> list[a] != list[b]
    ensures forall c :: c in Without(list, i) <==> c in list && c != list[i]
  {
    var w := Without(list, i);
    forall c | c in list && c != list[i] ensures c in w {
      var j :| 0 <= j < |list| && list[j] == c;
      assert w[if j < i then j else j - 1] == c;
    }
  }

  lemma DelPlaces<K>(used: nat, l: Layout<K>, key: K, b: nat, i: nat)
    requires Places(used, l) && b < |l.chains| && i < |l.chains[b]|
    requires forall x, y :: 0 <= x < y < |l.chains[b]| ==> l.chains[b][x] != l.chains[b][y]
    ensures l.chains[b][i] < |l.place| && Places(used, Deleted(l, key, b, i))
  {
    var c := l.chains[b][i];
    WithoutMembers(l.chains[b], i);
    OnChain(used, l, b, c);
    Disjoint(used, l, b, c);
    var l' := Deleted(l, key, b, i);
    forall a, d | 0 <= a < |l'.chains| && d in l'.chains[a] ensures IsAt(l'.place, d, Bucket(a)) {
      assert d in l.chains[a] && d != c;
      OnChain(used, l, a, d);
    }
    forall d | d in l'.freeList ensures IsAt(l'.place, d, FreeList) {
      assert d == c || IsAt(l.place, d, FreeList);
    }
    forall d | 0 <= d < used
      ensures match l'.place[d] { case Bucket(a) => a < |l'.chains| && d in l'.chains[a] case FreeList => d in l'.freeList }
    {
      if d != c && l.place[d].Bucket? {
        assert d in l.chains[l.place[d].b];
      } else if d != c {
        assert d in l.freeList;
      }
    }
  }

  lemma DelIndexed<K, V>(cells: seq<Cell<K, V>>, l: Layout<K>, bs: Buckets<K>, key: K, b: nat, i: nat, free: nat)
    requires Indexed(cells, l, bs) && b < |l.chains| && i < |l.chains[b]|
    requires forall x, y :: 0 <= x < y < |l.chains[b]| ==> l.chains[b][x] != l.chains[b][y]
    requires l.chains[b][i] < |cells| && cells[l.chains[b][i]].key == key && l.chains[b][i] < |l.place|
    requires i > 0 ==> l.chains[b][i - 1] < |cells|
    requires forall a :: 0 <= a < |l.chains| && a != b ==> l.chains[b][i] !in l.chains[a]
    ensures key in l.at && l.at[key] == l.chains[b][i]
    ensures Indexed(DeletedCells(cells, l.chains[b], i, free), Deleted(l, key, b, i), bs)
  {
    var c := l.chains[b][i];
    WithoutMembers(l.chains[b], i);
    assert c in l.chains[b] && ChainedOk(cells, l.at, bs, b, c);
    var l' := Deleted(l, key, b, i);
    var cells' := DeletedCells(cells, l.chains[b], i, free);
    forall a, d | 0 <= a < |l'.chains| && d in l'.chains[a] ensures ChainedOk(cells', l'.at, bs, a, d) {
      assert d in l.chains[a] && d != c;
      assert ChainedOk(cells, l.at, bs, a, d);
    }
    forall k | k in l'.at ensures KeyOk(cells', l', bs, k) {
      assert KeyOk(cells, l, bs, k);
    }
  }

  lemma DelContents<K, V>(cells: seq<Cell<K, V>>, l: Layout<K>, bs: Buckets<K>, key: K, b: nat, i: nat, free: nat)
    requires b < |l.chains| && i < |l.chains[b]| && l.chains[b][i] < |cells| && l.chains[b][i] < |l.place|
    requires i > 0 ==> l.chains[b][i - 1] < |cells|
    requires Indexed(cells, l, bs) && Indexed(DeletedCells(cells, l.chains[b], i, free), Deleted(l, key, b, i), bs)
    ensures Contents(DeletedCells(cells, l.chains[b], i, free), Deleted(l, key, b, i), bs) == Contents(cells, l, bs) - {key}
  {
    var m, m' := Contents(cells, l, bs), Contents(DeletedCells(cells, l.chains[b], i, free), Deleted(l, key, b, i), bs);
    forall k | k in m' ensures m'[k] == m[k] {
      assert KeyOk(cells, l, bs, k);
    }
    assert m'.Keys == m.Keys - {key};
  }

  // ---------------------------------------------------------------- walking a chain

  lemma ThreadsAt<K, V>(cells: seq<Cell<K, V>>, start: nat, list: seq<nat>, i: nat)
    requires Threads(cells, start, list) && i < |list|
    ensures list[i] < |cells| && list[i] < UNUSED && cells[list[i]].link == Link(list, i + 1)
  {
    assert LinkOk(cells, list, i);
  }

  /** A key is in the table exactly when the chain of its bucket has a cell with that key, and that cell is its cell. */
  lemma FoundAt<K, V>(inits: seq<nat>, cells: seq<Cell<K, V>>, free: nat, l: Layout<K>, bs: Buckets<K>, key: K, i: nat)
    requires Lists(inits, cells, free, l) && Indexed(cells, l, bs) && bs.Of(key) < |inits|
    requires i < |l.chains[bs.Of(key)]|
    ensures l.chains[bs.Of(key)][i] < |cells|
    ensures cells[l.chains[bs.Of(key)][i]].key == key ==>
              && key in Contents(cells, l, bs) && Contents(cells, l, bs)[key] == cells[l.chains[bs.Of(key)][i]].val
              && l.at[key] == l.chains[bs.Of(key)][i]
  {
    assert l.chains[bs.Of(key)][i] in l.chains[bs.Of(key)];
    assert ChainedOk(cells, l.at, bs, bs.Of(key), l.chains[bs.Of(key)][i]);
  }

  lemma NotFound<K, V>(inits: seq<nat>, cells: seq<Cell<K, V>>, free: nat, l: Layout<K>, bs: Buckets<K>, key: K)
    requires Lists(inits, cells, free, l) && Indexed(cells, l, bs) && bs.Of(key) < |inits|
    requires forall c :: c in l.chains[bs.Of(key)] ==> c < |cells| && cells[c].key != key
    ensures key !in Contents(cells, l, bs)
  {
  }

  lemma ListsGrow<K, V>(inits: seq<nat>, cells: seq<Cell<K, V>>, more: seq<Cell<K, V>>, free: nat, l: Layout<K>, bs: Buckets<K>)
    requires Lists(inits, cells, free, l) && Indexed(cells, l, bs)
    ensures Lists(inits, cells + more, free, l) && Indexed(cells + more, l, bs)
    ensures Contents(cells + more, l, bs) == Contents(cells, l, bs)
  {
    var cells' := cells + more;
    forall b | 0 <= b < |inits| ensures Threads(cells', inits[b], l.chains[b]) {
      ThreadsGrow(cells, more, inits[b], l.chains[b]);
    }
    ThreadsGrow(cells, more, free, l.freeList);
    forall b, c | 0 <= b < |l.chains| && c in l.chains[b] ensures ChainedOk(cells', l.at, bs, b, c) {
      assert ChainedOk(cells, l.at, bs, b, c);
    }
    forall k | k in l.at ensures KeyOk(cells', l, bs, k) {
      assert KeyOk(cells, l, bs, k);
    }
  }

  // ---------------------------------------------------------------- iterating

  /** The cell of k comes before position i of bucket b in iteration order. */
  ghost predicate Passed<K>(l: Layout<K>, bs: Buckets<K>, b: int, i: nat, k: K)
    requires k in l.at && b < |l.chains| && (b >= 0 ==> i <= |l.chains[b]|)
  {
    bs.Of(k) < b || (bs.Of(k) == b && l.at[k] in l.chains[b][..i])
  }

  /** The iterator has returned everything up to position i of bucket b, and stands on the link to that position. */
  ghost predicate StandsAt<K>(l: Layout<K>, bucket: nat, elem: nat, b: int, i: nat) {
    && -1 <= b < |l.chains| && bucket == (if b < 0 then UNUSED else b)
    && if b < 0 then elem == UNUSED && i == 0 else i <= |l.chains[b]| && elem == Link(l.chains[b], i)
  }

  /** Position (b2, i2) is the one after (b, i): the next of the same chain, or the first of the next chain that has one. */
  ghost predicate Follows<K>(l: Layout<K>, b: int, i: nat, b2: int, i2: nat)
    requires -1 <= b < |l.chains| && -1 <= b2 < |l.chains|
  {
    || (b2 == b >= 0 && i2 == i + 1 <= |l.chains[b]|)
    || (b < b2 && (b >= 0 ==> i == |l.chains[b]|) && i2 == 1 <= |l.chains[b2]| && forall a :: b < a < b2 ==> l.chains[a] == [])
  }

  /** One step of the iterator passes one more key, the one of the cell it returns. */
  lemma PassedStep<K, V>(inits: seq<nat>, cells: seq<Cell<K, V>>, free: nat, l: Layout<K>, bs: Buckets<K>,
                         b: int, i: nat, b2: nat, i2: nat, k: K)
    requires Lists(inits, cells, free, l) && Indexed(cells, l, bs)
    requires -1 <= b < |l.chains| && b2 < |l.chains| && (b >= 0 ==> i <= |l.chains[b]|) && Follows(l, b, i, b2, i2)
    requires k in l.at
    ensures l.chains[b2][i2 - 1] < |cells|
    ensures Passed(l, bs, b2, i2, k) <==> Passed(l, bs, b, i, k) || k == cells[l.chains[b2][i2 - 1]].key
    ensures k == cells[l.chains[b2][i2 - 1]].key ==> !Passed(l, bs, b, i, k) && l.at[k] == l.chains[b2][i2 - 1] && bs.Of(k) == b2
  {
    var c := l.chains[b2][i2 - 1];
    assert c in l.chains[b2] && ChainedOk(cells, l.at, bs, b2, c);
    assert KeyOk(cells, l, bs, k);
    var chain := l.chains[b2];
    assert Threads(cells, inits[b2], chain);
    assert chain[..i2] == chain[..i2 - 1] + [c];
    assert c !in chain[..i2 - 1];
    if b2 != b {
      assert b >= 0 ==> l.chains[b][..i] == l.chains[b];
    }
  }

  /** When the iterator finds nothing more, it has passed every key. */
  lemma PassedAll<K, V>(cells: seq<Cell<K, V>>, l: Layout<K>, bs: Buckets<K>, b: int, i: nat, k: K)
    requires Indexed(cells, l, bs) && -1 <= b < |l.chains| && (b >= 0 ==> i == |l.chains[b]|) && k in l.at
    requires forall a :: b < a < |l.chains| ==> l.chains[a] == []
    ensures Passed(l, bs, b, i, k)
  {
    assert KeyOk(cells, l, bs, k);
    assert b >= 0 ==> l.chains[b][..i] == l.chains[b];
  }

  /** Deleting the cell just returned moves the iterator's position back by one and passes no other key. */
  lemma PassedDeleted<K>(l: Layout<K>, bs: Buckets<K>, key: K, b: nat, i: nat, k: K)
    requires b < |l.chains| && i < |l.chains[b]| && l.chains[b][i] < |l.place|
    requires key in l.at && l.at[key] == l.chains[b][i] && k in l.at && k != key && l.at[k] != l.at[key]
    ensures Passed(Deleted(l, key, b, i), bs, b, i, k) <==> Passed(l, bs, b, i + 1, k)
    ensures Link(Without(l.chains[b], i), i) == Link(l.chains[b], i + 1)
  {
    var chain := l.chains[b];
    assert Without(chain, i)[..i] == chain[..i];
    assert chain[..i + 1] == chain[..i] + [chain[i]];
  }

  /**
   * A sweep that started on `start` and deletes the keys in `drop` has returned `seen`, each key once: exactly the keys
   * it has passed and the ones it has deleted. `m` is the table now.
   */
  ghost predicate Swept<K, V>(m: map<K, V>, l: Layout<K>, bs: Buckets<K>, start: map<K, V>, drop: set<K>, seen: seq<K>, b: int, i: nat) {
    && -1 <= b < |l.chains| && (b >= 0 ==> i <= |l.chains[b]|)
    && m.Keys == l.at.Keys && m == start - (drop * Elements(seen))
    && Elements(seen) <= start.Keys
    && (forall k :: k in l.at ==> (k in seen <==> Passed(l, bs, b, i, k)))
    && (forall x, y :: 0 <= x < y < |seen| ==> seen[x] != seen[y])
  }

  lemma NothingSwept<K, V>(m: map<K, V>, l: Layout<K>, bs: Buckets<K>, drop: set<K>)
    requires m.Keys == l.at.Keys
    ensures Swept(m, l, bs, m, drop, [], -1, 0)
  {
    var none: seq<K> := [];
    assert drop * Elements(none) == {};
    assert m - {} == m;
  }

  /** The key returned next is a new one. */
  lemma SweptNew<K, V>(inits: seq<nat>, cells: seq<Cell<K, V>>, free: nat, m: map<K, V>, l: Layout<K>, bs: Buckets<K>,
                       start: map<K, V>, drop: set<K>, seen: seq<K>, b: int, i: nat, b2: nat, i2: nat, key: K)
    requires Lists(inits, cells, free, l) && Indexed(cells, l, bs) && Swept(m, l, bs, start, drop, seen, b, i)
    requires b2 < |l.chains| && Follows(l, b, i, b2, i2) && l.chains[b2][i2 - 1] < |cells| && key == cells[l.chains[b2][i2 - 1]].key
    ensures key in m && key !in seen && bs.Of(key) == b2 && l.at[key] == l.chains[b2][i2 - 1] && i2 <= |l.chains[b2]|
    ensures forall k :: k in l.at ==> (k in seen + [key] <==> Passed(l, bs, b2, i2, k))
  {
    assert l.chains[b2][i2 - 1] in l.chains[b2];
    assert ChainedOk(cells, l.at, bs, b2, l.chains[b2][i2 - 1]);
    forall k | k in l.at
      ensures k in seen + [key] <==> Passed(l, bs, b2, i2, k)
      ensures k == key ==> k !in seen
    {
      PassedStep(inits, cells, free, l, bs, b, i, b2, i2, k);
    }
  }

  lemma SweptKeep<K, V>(m: map<K, V>, l: Layout<K>, bs: Buckets<K>, start: map<K, V>, drop: set<K>, seen: seq<K>,
                        b: int, i: nat, b2: nat, i2: nat, key: K)
    requires Swept(m, l, bs, start, drop, seen, b, i) && b2 < |l.chains| && i2 <= |l.chains[b2]|
    requires key in m && key !in seen && key !in drop
    requires forall k :: k in l.at ==> (k in seen + [key] <==> Passed(l, bs, b2, i2, k))
    ensures Swept(m, l, bs, start, drop, seen + [key], b2, i2)
  {
    assert Elements(seen + [key]) == Elements(seen) + {key};
    assert drop * Elements(seen + [key]) == drop * Elements(seen);
  }

  lemma SweptDrop<K, V>(cells: seq<Cell<K, V>>, m: map<K, V>, l: Layout<K>, bs: Buckets<K>, start: map<K, V>, drop: set<K>, seen: seq<K>,
                        b: int, i: nat, b2: nat, p: nat, key: K)
    requires Indexed(cells, l, bs) && Swept(m, l, bs, start, drop, seen, b, i)
    requires b2 < |l.chains| && p < |l.chains[b2]| && l.chains[b2][p] < |l.place|
    requires key in m && key !in seen && key in drop && l.at[key] == l.chains[b2][p]
    requires forall k :: k in l.at ==> (k in seen + [key] <==> Passed(l, bs, b2, p + 1, k))
    ensures Swept(m - {key}, Deleted(l, key, b2, p), bs, start, drop, seen + [key], b2, p)
  {
    var l' := Deleted(l, key, b2, p);
    assert Elements(seen + [key]) == Elements(seen) + {key};
    assert drop * Elements(seen + [key]) == drop * Elements(seen) + {key};
    assert m - {key} == start - (drop * Elements(seen + [key]));
    forall k | k in l'.at ensures k in seen + [key] <==> Passed(l', bs, b2, p, k) {
      assert KeyOk(cells, l, bs, k) && KeyOk(cells, l, bs, key);
      PassedDeleted(l, bs, key, b2, p, k);
    }
  }

  lemma SweptDone<K, V>(cells: seq<Cell<K, V>>, m: map<K, V>, l: Layout<K>, bs: Buckets<K>, start: map<K, V>, drop: set<K>,
                        seen: seq<K>, b: int, i: nat)
    requires Indexed(cells, l, bs) && Swept(m, l, bs, start, drop, seen, b, i) && (b >= 0 ==> i == |l.chains[b]|)
    requires forall a :: b < a < |l.chains| ==> l.chains[a] == []
    ensures m == start - drop && Elements(seen) == start.Keys
    ensures forall x, y :: 0 <= x < y < |seen| ==> seen[x] != seen[y]
  {
    forall k | k in l.at ensures k in Elements(seen) {
      PassedAll(cells, l, bs, b, i, k);
    }
    hide Passed, Indexed;
    SweptKeys(m, start, drop, Elements(seen));
  }

  lemma SweptKeys<K, V>(m: map<K, V>, start: map<K, V>, drop: set<K>, seen: set<K>)
    requires m == start - (drop * seen) && m.Keys <= seen <= start.Keys
    ensures m == start - drop && seen == start.Keys
  {
    forall k | k in start ensures k in seen {
      assert k in m || k in drop * seen;
    }
    assert drop * seen == drop * start.Keys;
  }

  // ---------------------------------------------------------------- the table in place

  class HashTable<K(==), V> {
    const bs: Buckets<K>
    var inits: seq<nat>
    var cells: seq<Cell<K, V>>
    var used: nat
    var free: nat
    var count: nat
    ghost var layout: Layout<K>

    ghost predicate Valid()
      reads this
    {
      && 0 < bs.n == |inits| < UNUSED
      && used <= |cells| <= UNUSED && |cells| > 0
      && Lists(inits, cells, free, layout) && Places(used, layout) && Indexed(cells, layout, bs)
      && count == |layout.at|
    }

    /** The table as a plain map. */
    ghost function Map(): map<K, V>
      reads this
      requires Valid()
    {
      Contents(cells, layout, bs)
    }

    /** `count` is the number of keys, and a used cell is on the free list or on one chain, never on two lists. */
    lemma EachCellOnce(c: nat)
      requires Valid() && c < used
      ensures count == |Map()|
      ensures c in layout.freeList <==> forall b :: 0 <= b < |inits| ==> c !in layout.chains[b]
      ensures forall a, b :: 0 <= a < |inits| && 0 <= b < |inits| && c in layout.chains[a] && c in layout.chains[b] ==> a == b
    {
      assert Map().Keys == layout.at.Keys;
      forall a | 0 <= a < |inits| && c in layout.chains[a] ensures layout.place[c] == Bucket(a) && c !in layout.freeList {
        OnChain(used, layout, a, c);
        Disjoint(used, layout, a, c);
      }
    }

    /** The bucket count must be odd; `blank` stands for the zeroed cells. */
    constructor (n: nat, initial: nat, hash: K -> nat, blank: Cell<K, V>)
      requires n % 2 == 1 && n < 0x8000_0000 && 0 < initial <= UNUSED
      ensures Valid() && Map() == map[] && count == 0 && bs == Buckets(hash, n)
    {
      bs := Buckets(hash, n);
      inits := seq(n, _ => UNUSED);
      cells := seq(initial, _ => blank);
      used, free, count := 0, UNUSED, 0;
      layout := Layout(seq(n, _ => []), [], [], map[]);
    }

    lemma Chain(b: nat)
      requires Valid() && b < |inits|
      ensures b < |layout.chains| && Threads(cells, inits[b], layout.chains[b])
    {
    }

    /** Walks the chain of the key's bucket; UNUSED stands for the null result. */
    method Lookup(key: K) returns (cur: nat)
      requires Valid()
      ensures key !in Map() <==> cur == UNUSED
      ensures key in Map() ==> cur < |cells| && cells[cur].key == key && cells[cur].val == Map()[key]
    {
      hide Lists, Places, Indexed, Contents;
      Chain(bs.Of(key));
      ghost var b := bs.Of(key);
      ghost var chain := layout.chains[b];
      ghost var i := 0;
      cur := inits[bs.Of(key)];
      while cur != UNUSED
        invariant i <= |chain| && cur == Link(chain, i)
        invariant forall j :: 0 <= j < i ==> chain[j] < |cells| && cells[chain[j]].key != key
        decreases |chain| - i
      {
        ThreadsAt(cells, inits[b], chain, i);
        FoundAt(inits, cells, free, layout, bs, key, i);
        if cells[cur].key == key {
          return;
        }
        cur := cells[cur].link;
        i := i + 1;
      }
      if i < |chain| {
        ThreadsAt(cells, inits[b], chain, i);
      }
      NotFound(inits, cells, free, layout, bs, key);
    }

    /**
     * The number of cells after the next growth, or the present number when the table cannot grow.
     */
    static function GrownCount(all: nat): (r: nat)
      requires 0 < all <= UNUSED
      ensures all <= r <= UNUSED && (r == all <==> all == UNUSED)
    {
      if all <= UNUSED / 2 then all * 2 else UNUSED
    }

    /**
     * Adds a key that is not in the table; `val` is what the caller writes into the new element. `memory` says whether
     * the reallocation, when one is needed, succeeds. Fails exactly when every cell is used and no cell can be added.
     */
    method Add(key: K, val: V, memory: bool) returns (ok: bool)
      requires Valid() && key !in Map()
      modifies this
      ensures Valid()
      ensures ok <==> old(free) != UNUSED || old(used) < old(|cells|) || (old(|cells|) < UNUSED && memory)
      ensures Map() == if ok then old(Map())[key := val] else old(Map())
    {
      var b := bs.Of(key);
      if free == UNUSED {
        FreeListEmpty();
        if used == |cells| {
          if |cells| == UNUSED || !memory {
            return false;
          }
          var more := seq(GrownCount(|cells|) - |cells|, _ => Cell(key, val, UNUSED));
          Grow(more);
        }
        TakeFresh(key, val);
      } else {
        TakeFree(key, val);
      }
      ok := true;
    }

    lemma FreeListEmpty()
      requires Valid()
      ensures layout.freeList == [] <==> free == UNUSED
    {
      if layout.freeList != [] {
        ThreadsAt(cells, free, layout.freeList, 0);
      }
    }

    method Grow(more: seq<Cell<K, V>>)
      requires Valid() && |cells| + |more| <= UNUSED
      modifies this`cells
      ensures Valid() && Map() == old(Map()) && cells == old(cells) + more
    {
      ListsGrow(inits, cells, more, free, layout, bs);
      cells := cells + more;
    }

    method TakeFresh(key: K, val: V)
      requires Valid() && key !in Map() && layout.freeList == [] && used < |cells|
      modifies this
      ensures Valid() && Map() == old(Map())[key := val]
    {
      hide Lists, Places, Indexed, Contents;
      var b := bs.Of(key);
      AddFresh(inits, cells, free, used, layout, bs, key, val, b);
      layout := Added(layout, key, b, used, used);
      cells := cells[used := Cell(key, val, inits[b])];
      inits := inits[b := used];
      used := used + 1;
      count := count + 1;
    }

    method TakeFree(key: K, val: V)
      requires Valid() && key !in Map() && layout.freeList != []
      modifies this
      ensures Valid() && Map() == old(Map())[key := val]
    {
      hide Lists, Places, Indexed, Contents;
      var b := bs.Of(key);
      AddReused(inits, cells, free, used, layout, bs, key, val, b);
      var elem := free;
      var next := cells[elem].link;
      layout := Added(layout, key, b, elem, used);
      cells := cells[elem := Cell(key, val, inits[b])];
      free := next;
      inits := inits[b := elem];
      count := count + 1;
    }

    /** Takes position i of its key's chain off the chain and puts it at the head of the free list. */
    method Unlink(key: K, ghost i: nat, prev: nat, cur: nat)
      requires Valid() && bs.Of(key) < |layout.chains| && i < |layout.chains[bs.Of(key)]|
      requires cur == layout.chains[bs.Of(key)][i]
      requires prev == if i == 0 then UNUSED else layout.chains[bs.Of(key)][i - 1]
      requires cur < |cells| && cells[cur].key == key
      modifies this
      ensures Valid() && Map() == old(Map()) - {key} && free == cur && cur < |old(layout.place)|
      ensures cur < |cells| && cells[cur].key == key && cells[cur].val == old(cells[cur].val)
      ensures layout == Deleted(old(layout), key, bs.Of(key), i)
    {
      var b := bs.Of(key);
      hide Lists, Places, Indexed, Contents;
      UnlinkFacts(key, i);
      var next := cells[cur].link;
      layout := Deleted(layout, key, b, i);
      if prev == UNUSED {
        inits := inits[b := next];
      } else {
        cells := cells[prev := cells[prev].(link := next)];
      }
      cells := cells[cur := cells[cur].(link := free)];
      free := cur;
      count := count - 1;
    }

    lemma UnlinkFacts(key: K, i: nat)
      requires Valid() && bs.Of(key) < |layout.chains| && i < |layout.chains[bs.Of(key)]|
      requires layout.chains[bs.Of(key)][i] < |cells| && cells[layout.chains[bs.Of(key)][i]].key == key
      ensures var b, c := bs.Of(key), layout.chains[bs.Of(key)][i];
              && c < |layout.place| && (i > 0 ==> layout.chains[b][i - 1] < |cells| && layout.chains[b][i - 1] != UNUSED)
              && key in layout.at
              && var cells', l' := DeletedCells(cells, layout.chains[b], i, free), Deleted(layout, key, b, i);
                 var inits' := if i == 0 then inits[b := cells[c].link] else inits;
                 && Lists(inits', cells', c, l') && Places(used, l') && Indexed(cells', l', bs)
                 && Contents(cells', l', bs) == Contents(cells, layout, bs) - {key}
    {
      var b, c := bs.Of(key), layout.chains[bs.Of(key)][i];
      assert Threads(cells, inits[b], layout.chains[b]);
      if i > 0 {
        ThreadsAt(cells, inits[b], layout.chains[b], i - 1);
      }
      assert c in layout.chains[b];
      Disjoint(used, layout, b, c);
      DelLists(inits, cells, free, used, layout, key, b, i);
      DelPlaces(used, layout, key, b, i);
      DelIndexed(cells, layout, bs, key, b, i, free);
      hide Indexed, Lists, Places, Contents;
      DelContents(cells, layout, bs, key, b, i, free);
    }

    /** Walks the chain of the key's bucket with the address of the link that led to each cell. */
    method Del(key: K) returns (cur: nat, ghost i: nat)
      requires Valid()
      modifies this
      ensures Valid() && Map() == old(Map()) - {key}
      ensures cur == UNUSED <==> key !in old(Map())
      ensures key in old(Map()) ==> cur < |cells| && cells[cur].key == key && cells[cur].val == old(Map())[key]
      ensures key in old(Map()) ==>
                && bs.Of(key) < |old(layout.chains)| && i < |old(layout.chains)[bs.Of(key)]|
                && old(layout.chains)[bs.Of(key)][i] == cur < |old(layout.place)| && old(layout.at)[key] == cur
                && layout == Deleted(old(layout), key, bs.Of(key), i)
    {
      hide Lists, Places, Indexed, Contents;
      Chain(bs.Of(key));
      ghost var b := bs.Of(key);
      ghost var chain := layout.chains[b];
      i := 0;
      var prev := UNUSED;
      cur := inits[bs.Of(key)];
      while cur != UNUSED
        invariant i <= |chain| && cur == Link(chain, i) && prev == if i == 0 then UNUSED else chain[i - 1]
        invariant forall j :: 0 <= j < i ==> chain[j] < |cells| && cells[chain[j]].key != key
        invariant unchanged(this)
        decreases |chain| - i
      {
        ThreadsAt(cells, inits[b], chain, i);
        FoundAt(inits, cells, free, layout, bs, key, i);
        if cells[cur].key == key {
          Unlink(key, i, prev, cur);
          return;
        }
        prev := cur;
        cur := cells[cur].link;
        i := i + 1;
      }
      if i < |chain| {
        ThreadsAt(cells, inits[b], chain, i);
      }
      NotFound(inits, cells, free, layout, bs, key);
      assert Map() - {key} == Map();
    }

    /**
     * One step of an iterator (bucket, elem); a new iterator is (UNUSED, UNUSED), whose next bucket wraps to 0. Returns
     * UNUSED, and leaves the iterator, when there is nothing more.
     */
    method Iterate(bucket: nat, elem: nat, ghost b: int, ghost i: nat)
      returns (cur: nat, bucket': nat, elem': nat, ghost b': int, ghost i': nat)
      requires Valid() && StandsAt(layout, bucket, elem, b, i)
      ensures StandsAt(layout, bucket', elem', b', i')
      ensures cur == UNUSED ==>
                && b' == b && i' == i && (b >= 0 ==> i == |layout.chains[b]|)
                && forall a :: b < a < |layout.chains| ==> layout.chains[a] == []
      ensures cur != UNUSED ==>
                && b' >= 0 && Follows(layout, b, i, b', i') && cur == layout.chains[b'][i' - 1] && cur < |cells|
    {
      hide Places, Indexed, Contents;
      cur, bucket', elem', b', i' := elem, bucket, elem, b, i;
      if elem == UNUSED {
        if b >= 0 && i < |layout.chains[b]| {
          ThreadsAt(cells, inits[b], layout.chains[b], i);
        }
        var buck := (bucket + 1) % 0x1_0000_0000;
        while true
          invariant b < buck <= |inits| && cur == UNUSED
          invariant forall a :: b < a < buck ==> layout.chains[a] == []
          decreases |inits| - buck
        {
          if buck >= |inits| {
            return;
          }
          assert Threads(cells, inits[buck], layout.chains[buck]);
          if layout.chains[buck] != [] {
            ThreadsAt(cells, inits[buck], layout.chains[buck], 0);
          }
          cur := inits[buck];
          if cur != UNUSED {
            break;
          }
          buck := buck + 1;
        }
        bucket', b', i' := buck, buck, 0;
      }
      assert Threads(cells, inits[b'], layout.chains[b']);
      ThreadsAt(cells, inits[b'], layout.chains[b'], i');
      elem' := cells[cur].link;
      i' := i' + 1;
    }

    /** Deletes the element just returned; the iterator still stands where it did. */
    method DropReturned(key: K, bucket: nat, elem: nat, ghost b: nat, ghost i: nat)
      requires Valid() && StandsAt(layout, bucket, elem, b, i) && 0 < i
      requires key in Map() && bs.Of(key) == b && key in layout.at && layout.at[key] == layout.chains[b][i - 1]
      modifies this
      ensures Valid() && Map() == old(Map()) - {key} && |inits| == old(|inits|)
      ensures old(layout.chains[b][i - 1]) < |old(layout.place)| && layout == Deleted(old(layout), key, b, i - 1)
      ensures StandsAt(layout, bucket, elem, b, i - 1)
    {
      hide Lists, Places, Indexed, Contents;
      Chain(b);
      ghost var chain := layout.chains[b];
      var gone, p := Del(key);
      assert p == i - 1;
      assert Link(Without(chain, p), p) == Link(chain, p + 1);
    }

    lemma SweepStart(drop: set<K>)
      requires Valid()
      ensures Swept(Map(), layout, bs, Map(), drop, [], -1, 0)
    {
      hide Lists, Places, Indexed;
      NothingSwept(Map(), layout, bs, drop);
    }

    /** What the sweep does with the element it just got. */
    method Visit(key: K, drop: set<K>, bucket: nat, elem: nat, ghost start: map<K, V>, ghost seen: seq<K>,
                 ghost b: int, ghost i: nat, ghost b2: nat, ghost i2: nat) returns (ghost i3: nat)
      requires Valid() && StandsAt(layout, bucket, elem, b2, i2) && Swept(Map(), layout, bs, start, drop, seen, b, i)
      requires -1 <= b < |layout.chains| && Follows(layout, b, i, b2, i2)
      requires layout.chains[b2][i2 - 1] < |cells| && key == cells[layout.chains[b2][i2 - 1]].key
      modifies this
      ensures Valid() && StandsAt(layout, bucket, elem, b2, i3) && Swept(Map(), layout, bs, start, drop, seen + [key], b2, i3)
      ensures |layout.chains| == old(|layout.chains|) && |layout.chains[b2]| - i3 == old(|layout.chains[b2]|) - i2
    {
      hide Lists, Places, Indexed, Contents, Swept, Passed;
      SweptNew(inits, cells, free, Map(), layout, bs, start, drop, seen, b, i, b2, i2, key);
      i3 := i2;
      if key in drop {
        ghost var was, m, l := cells, Map(), layout;
        DropReturned(key, bucket, elem, b2, i2);
        SweptDrop(was, m, l, bs, start, drop, seen, b, i, b2, i2 - 1, key);
        i3 := i2 - 1;
      } else {
        SweptKeep(Map(), layout, bs, start, drop, seen, b, i, b2, i2, key);
      }
    }

    /**
     * Iterates over the whole table, deleting each element just returned whose key is in `drop`: every key that was in
     * the table is visited exactly once, whatever is deleted on the way.
     */
    method Sweep(drop: set<K>) returns (seen: seq<K>)
      requires Valid()
      modifies this
      ensures Valid() && Map() == old(Map()) - drop
      ensures forall k :: k in seen <==> k in old(Map())
      ensures forall x, y :: 0 <= x < y < |seen| ==> seen[x] != seen[y]
    {
      hide Lists, Places, Indexed, Contents, Swept, Passed;
      seen := [];
      var bucket, elem := UNUSED, UNUSED;
      ghost var b: int, i: nat := -1, 0;
      ghost var start := Map();
      SweepStart(drop);
      while true
        invariant Valid() && StandsAt(layout, bucket, elem, b, i) && Swept(Map(), layout, bs, start, drop, seen, b, i)
        decreases |layout.chains| - b, if b < 0 then 0 else |layout.chains[b]| - i
      {
        var cur, bucket', elem', b', i' := Iterate(bucket, elem, b, i);
        if cur == UNUSED {
          SweptDone(cells, Map(), layout, bs, start, drop, seen, b, i);
          assert forall k :: k in seen <==> k in Elements(seen);
          return;
        }
        var key := cells[cur].key;
        i' := Visit(key, drop, bucket', elem', start, seen, b, i, b', i');
        bucket, elem, b, i := bucket', elem', b', i';
        seen := seen + [key];
      }
    }
  }
}
