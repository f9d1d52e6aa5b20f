// SizableCircularBuffer: a growable power-of-two ring indexed by wrapping packet numbers. The ring's contents are a
// sequence of slots; the class at the end is the in-place form over an array.
module Ring {
  import opened Common

  /** The sizes a ring that starts at 16 slots and doubles can have while it divides the 16-bit number space. */
  predicate IsRingSize(n: int) {
    || n == 16 || n == 32 || n == 64 || n == 128 || n == 256 || n == 512 || n == 1024 || n == 2048
    || n == 4096 || n == 8192 || n == 16384 || n == 32768 || n == 65536
  }

  /** The slot of number j in a ring of n slots (j & mask). */
  function Slot(j: int, n: int): (r: int)
    requires n > 0
    ensures 0 <= r < n
  {
    j % n
  }

  lemma MulAtLeast(n: int, k: int)
    requires n > 0
    ensures k >= 1 ==> n * k >= n
    ensures k <= -1 ==> n * k <= -n
    ensures k == 0 ==> n * k == 0
  {
  }

  lemma QuotientIs(x: int, n: int, k: int, r: int)
    requires x == n * k + r && 0 <= r < n
    ensures x % n == r
  {
    var q, s := x / n, x % n;
    assert x == n * q + s;
    Distribute(n, k, q);
    MulAtLeast(n, k - q);
  }

  lemma Distribute(n: int, k: int, q: int)
    ensures n * (k - q) == n * k - n * q
    ensures n * (k + q) == n * k + n * q
  {
  }

  /** No two numbers of a window of n consecutive numbers share a slot. */
  lemma SlotsDistinct(i: int, j: int, n: int)
    requires i < j < i + n
    ensures Slot(i, n) != Slot(j, n)
  {
    if i % n == j % n {
      assert i == n * (i / n) + i % n && j == n * (j / n) + j % n;
      Distribute(n, j / n, i / n);
      MulAtLeast(n, j / n - i / n);
    }
  }

  /** The member of the window of n numbers from base that shares the slot of v. */
  function Twin(base: int, v: int, n: int): (j: int)
    requires n > 0
    ensures base <= j < base + n
  {
    base + (v - base) % n
  }

  lemma TwinSlot(base: int, v: int, n: int)
    requires n > 0
    ensures Slot(Twin(base, v, n), n) == Slot(v, n)
  {
    var x := v - base;
    assert x == n * (x / n) + x % n;
    assert v == n * (v / n) + v % n;
    Distribute(n, v / n, x / n);
    QuotientIs(Twin(base, v, n), n, v / n - x / n, v % n);
  }

  lemma TwinInWindow(base: int, v: int, n: int)
    requires base <= v < base + n
    ensures Twin(base, v, n) == v
  {
    QuotientIs(v - base, n, 0, v - base);
  }

  lemma TurnsFit(n: int)
    requires IsRingSize(n)
    ensures n > 0 && n * (65536 / n) == 65536
  {
  }

  /** Within a window, only the twin of v shares its slot. */
  lemma TwinUnique(base: int, v: int, n: int, j: int)
    requires base <= j < base + n
    ensures Slot(j, n) == Slot(v, n) <==> j == Twin(base, v, n)
  {
    TwinSlot(base, v, n);
    var t := Twin(base, v, n);
    if j < t {
      SlotsDistinct(j, t, n);
    } else if t < j {
      SlotsDistinct(t, j, n);
    }
  }

  lemma MulAssoc(n: int, f: int, k: int)
    ensures n * (f * k) == (n * f) * k
  {
  }

  /** A 16-bit number and the true number it stands for use the same slot, whatever the ring size. */
  lemma SameSlot(x: int, y: int, k: int, n: int)
    requires IsRingSize(n) && x == y + 65536 * k
    ensures Slot(x, n) == Slot(y, n)
  {
    hide IsRingSize;
    TurnsFit(n);
    var f := 65536 / n;
    MulAssoc(n, f, k);
    assert y == n * (y / n) + y % n;
    Distribute(n, y / n, f * k);
    QuotientIs(x, n, y / n + f * k, y % n);
  }

  // ---------------------------------------------------------------- contents of a ring

  type Slots<T> = seq<Option<T>>

  ghost predicate IsRing<T>(r: Slots<T>) {
    IsRingSize(|r|)
  }

  /** get. */
  function At<T>(r: Slots<T>, i: int): Option<T>
    requires |r| > 0
  {
    r[Slot(i, |r|)]
  }

  /** put. */
  function Put<T>(r: Slots<T>, i: int, x: Option<T>): Slots<T>
    requires |r| > 0
  {
    r[Slot(i, |r|) := x]
  }

  lemma AtPut<T>(r: Slots<T>, i: int, x: Option<T>, j: int)
    requires |r| > 0
    ensures At(Put(r, i, x), j) == if Slot(j, |r|) == Slot(i, |r|) then x else At(r, j)
  {
  }

  /** The first doubling of `size` with room for `index`. */
  function NextSize(size: nat, index: nat): nat
    requires size > 0
    decreases index - size
  {
    if index < 2 * size then 2 * size else NextSize(2 * size, index)
  }

  lemma {:induction false} NextSizeFits(size: nat, index: nat)
    requires IsRingSize(size) && size <= index < 32768
    ensures IsRingSize(NextSize(size, index)) && index < NextSize(size, index) <= 2 * index
    decreases index - size
  {
    if index >= 2 * size {
      NextSizeFits(2 * size, index);
    }
  }

  /** grow: the window of |r| numbers from item - index is re-seated in a larger, otherwise empty ring. */
  function Grown<T>(r: Slots<T>, item: int, index: nat): (g: Slots<T>)
    requires |r| > 0
  {
    var base := item - index;
    var n := NextSize(|r|, index);
    seq(n, p requires 0 <= p < n => if Twin(base, p, n) < base + |r| then At(r, Twin(base, p, n)) else None)
  }

  /** Every lookup in the window survives growth, across any number of doublings; the slots gained are empty. */
  lemma AtGrown<T>(r: Slots<T>, item: int, index: nat, j: int)
    requires IsRing(r) && |r| <= index < 32768
    requires item - index <= j < item - index + |Grown(r, item, index)|
    ensures IsRing(Grown(r, item, index)) && index < |Grown(r, item, index)|
    ensures At(Grown(r, item, index), j) == if j < item - index + |r| then At(r, j) else None
  {
    hide IsRingSize;
    TurnsFit(|r|);
    NextSizeFits(|r|, index);
    var n := NextSize(|r|, index);
    TwinUnique(item - index, Slot(j, n), n, j);
    SlotIdempotent(j, n);
  }

  /** Growth is determined by its lookups. */
  lemma GrownIs<T>(r: Slots<T>, item: int, index: nat, b: Slots<T>)
    requires |r| > 0 && |b| == NextSize(|r|, index) && |b| > 0
    requires forall j :: item - index <= j < item - index + |b| ==>
               b[Slot(j, |b|)] == if j < item - index + |r| then At(r, j) else None
    ensures b == Grown(r, item, index)
  {
    forall p | 0 <= p < |b| ensures b[p] == Grown(r, item, index)[p] {
      TwinSlot(item - index, p, |b|);
      QuotientIs(p, |b|, 0, p);
    }
  }

  lemma SlotIdempotent(j: int, n: int)
    requires n > 0
    ensures Slot(Slot(j, n), n) == Slot(j, n)
  {
    QuotientIs(Slot(j, n), n, 0, Slot(j, n));
  }

  /** ensure_size. */
  function EnsureSize<T>(r: Slots<T>, item: int, index: nat): Slots<T>
    requires |r| > 0
  {
    if index > |r| - 1 then Grown(r, item, index) else r
  }

  // ---------------------------------------------------------------- the buffer in place

  class SizableCircularBuffer<T> {
    var mask: nat
    var elements: array<Option<T>>

    ghost predicate Valid()
      reads this
    {
      elements.Length == mask + 1 && IsRingSize(mask + 1)
    }

    ghost function Contents(): Slots<T>
      reads this, elements
    {
      elements[..]
    }

    constructor ()
      ensures Valid() && fresh(elements) && Contents() == seq(16, _ => None)
    {
      mask := 15;
      elements := new Option<T>[16](_ => None);
    }

    method GetAt(i: int) returns (r: Option<T>)
      requires Valid()
      ensures r == At(Contents(), i)
    {
      r := elements[i % (mask + 1)];
    }

    method PutAt(i: int, data: Option<T>)
      requires Valid()
      modifies elements
      ensures Valid() && Contents() == Put(old(Contents()), i, data)
    {
      elements[i % (mask + 1)] := data;
    }

    /** The copy loop of grow: the window from `base` in a fresh array of `size` slots. */
    method Reseat(base: int, size: nat) returns (buf: array<Option<T>>)
      requires Valid() && size > mask
      ensures fresh(buf) && buf.Length == size
      ensures forall j :: base <= j < base + size ==>
                buf[Slot(j, size)] == if j < base + mask + 1 then At(Contents(), j) else None
    {
      hide IsRingSize;
      buf := new Option<T>[size](_ => None);
      var i := 0;
      while i <= mask
        invariant 0 <= i <= mask + 1 && buf.Length == size && fresh(buf)
        invariant unchanged(elements)
        invariant forall j :: base <= j < base + size ==> buf[Slot(j, size)] == if j < base + i then At(Contents(), j) else None
      {
        forall j | base <= j < base + size && j != base + i ensures Slot(j, size) != Slot(base + i, size) {
          if j < base + i {
            SlotsDistinct(j, base + i, size);
          } else {
            SlotsDistinct(base + i, j, size);
          }
        }
        var x := GetAt(base + i);
        buf[(base + i) % size] := x;
        i := i + 1;
      }
    }

    method Grow(item: int, index: nat)
      requires Valid() && mask < index < 32768
      modifies this
      ensures Valid() && fresh(elements)
      ensures Contents() == Grown(old(Contents()), item, index)
    {
      hide IsRingSize;
      var size := 2 * (mask + 1);
      NextSizeFits(mask + 1, index);
      while index >= size
        invariant size > 0 && NextSize(mask + 1, index) == if index < size then size else NextSize(size, index)
        decreases index - size
      {
        size := 2 * size;
      }
      var buf := Reseat(item - index, size);
      GrownIs(Contents(), item, index, buf[..]);
      mask := size - 1;
      elements := buf;
    }
  }
}
