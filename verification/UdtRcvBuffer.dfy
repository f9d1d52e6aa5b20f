// udt/buffer.cpp, CRcvBuffer: received units in a ring, read as a stream of bytes up to the acknowledgement point.
module UdtRcvBuffers {
  import opened Common
  import opened Ring

  type Units = map<nat, Bytes>

  /** The payloads of units lo..hi, in order. */
  ghost function Payloads(units: Units, lo: nat, hi: nat): seq<Bytes>
    requires lo <= hi && forall u :: lo <= u < hi ==> u in units
    decreases hi - lo
  {
    if lo == hi then [] else [units[lo]] + Payloads(units, lo + 1, hi)
  }

  /** The bytes that may be read: the acknowledged units, less what was read of the first. */
  ghost function Readable(units: Units, lo: nat, hi: nat, notch: nat): Bytes
    requires lo <= hi && (forall u :: lo <= u < hi ==> u in units) && notch <= |Flatten(Payloads(units, lo, hi))|
  {
    Flatten(Payloads(units, lo, hi))[notch..]
  }

  lemma {:induction false} PayloadsSame(a: Units, b: Units, lo: nat, hi: nat)
    requires lo <= hi && forall u :: lo <= u < hi ==> u in a && u in b && a[u] == b[u]
    ensures Payloads(a, lo, hi) == Payloads(b, lo, hi)
    decreases hi - lo
  {
    if lo < hi {
      PayloadsSame(a, b, lo + 1, hi);
    }
  }

  lemma {:induction false} PayloadsSplit(units: Units, lo: nat, mid: nat, hi: nat)
    requires lo <= mid <= hi && forall u :: lo <= u < hi ==> u in units
    ensures Payloads(units, lo, hi) == Payloads(units, lo, mid) + Payloads(units, mid, hi)
    decreases mid - lo
  {
    if lo < mid {
      PayloadsSplit(units, lo + 1, mid, hi);
    }
  }

  lemma FlattenFirst(units: Units, lo: nat, hi: nat)
    requires lo < hi && forall u :: lo <= u < hi ==> u in units
    ensures Flatten(Payloads(units, lo, hi)) == units[lo] + Flatten(Payloads(units, lo + 1, hi))
  {
    assert Payloads(units, lo, hi)[1..] == Payloads(units, lo + 1, hi);
  }

  /** Unit u is in its slot, or the slot is empty. */
  ghost predicate SlotHolds(slots: seq<Option<Bytes>>, units: Units, u: nat)
    requires |slots| > 0
  {
    slots[Slot(u, |slots|)] == if u in units then Some(units[u]) else None
  }

  lemma SlotOff(j: nat, d: nat, n: nat)
    requires n > 0
    ensures Slot(Slot(j, n) + d, n) == Slot(j + d, n)
  {
    var q, r := (j + d) / n, (j + d) % n;
    assert j + d == n * q + r && j == n * (j / n) + j % n;
    Distribute(n, q, j / n);
    QuotientIs(j % n + d, n, q - j / n, r);
  }

  lemma SlotUp(j: nat, n: nat)
    requires n > 0
    ensures Slot(j + 1, n) == if Slot(j, n) + 1 == n then 0 else Slot(j, n) + 1
  {
    assert j == n * (j / n) + j % n;
    Distribute(n, j / n, 1);
    QuotientIs(j + 1, n, if j % n + 1 == n then j / n + 1 else j / n, if j % n + 1 == n then 0 else j % n + 1);
  }

  /** Distances between two positions of the ring are distances between the units they stand for. */
  lemma SlotDistance(lo: nat, hi: nat, n: nat)
    requires n > 0 && lo <= hi < lo + n
    ensures hi - lo == if Slot(hi, n) >= Slot(lo, n) then Slot(hi, n) - Slot(lo, n) else n + Slot(hi, n) - Slot(lo, n)
    ensures Slot(hi, n) == Slot(lo, n) <==> hi == lo
  {
    if lo < hi {
      SlotsDistinct(lo, hi, n);
    }
    var d := hi - lo;
    assert lo == n * (lo / n) + lo % n;
    Distribute(n, lo / n, 1);
    QuotientIs(hi, n, if lo % n + d < n then lo / n else lo / n + 1, if lo % n + d < n then lo % n + d else lo % n + d - n);
  }

  /** Every unit from lo on, for one turn of the ring, is in its slot if it is there at all. */
  ghost predicate AllPlaced(slots: seq<Option<Bytes>>, units: Units, lo: nat)
    requires |slots| > 0
  {
    forall u :: lo <= u < lo + |slots| ==> SlotHolds(slots, units, u)
  }

  lemma PutUnit(slots: seq<Option<Bytes>>, units: Units, lo: nat, u: nat, data: Bytes)
    requires |slots| > 0 && AllPlaced(slots, units, lo) && lo <= u < lo + |slots|
    ensures AllPlaced(slots[Slot(u, |slots|) := Some(data)], units[u := data], lo)
  {
    var slots', units' := slots[Slot(u, |slots|) := Some(data)], units[u := data];
    forall v | lo <= v < lo + |slots| ensures SlotHolds(slots', units', v) {
      assert SlotHolds(slots, units, v);
      if v < u {
        SlotsDistinct(v, u, |slots|);
      } else if v > u {
        SlotsDistinct(u, v, |slots|);
      }
    }
  }

  /** The first unit goes, and its slot is free for the one a full turn later. */
  lemma DropUnit(slots: seq<Option<Bytes>>, units: Units, lo: nat)
    requires |slots| > 0 && AllPlaced(slots, units, lo) && lo + |slots| !in units
    ensures AllPlaced(slots[Slot(lo, |slots|) := None], units - {lo}, lo + 1)
  {
    var slots', units' := slots[Slot(lo, |slots|) := None], units - {lo};
    forall v | lo + 1 <= v < lo + 1 + |slots| ensures SlotHolds(slots', units', v) {
      if v < lo + |slots| {
        assert SlotHolds(slots, units, v);
        SlotsDistinct(lo, v, |slots|);
      } else {
        SameSlotAround(lo, |slots|);
      }
    }
  }

  lemma SameSlotAround(j: nat, n: nat)
    requires n > 0
    ensures Slot(j + n, n) == Slot(j, n)
  {
    assert j == n * (j / n) + j % n;
    Distribute(n, j / n, 1);
    QuotientIs(j + n, n, j / n + 1, j % n);
  }

  lemma OneMore(units: Units, u: nat, data: Bytes)
    requires u !in units
    ensures |units[u := data]| == |units| + 1
  {
    assert units[u := data].Keys == units.Keys + {u};
  }

  class RcvBuffer {
    const slots: array<Option<Bytes>>
    var startPos: nat
    var lastAckPos: nat
    var maxPos: int
    var notch: nat
    var inUse: nat
    ghost var units: Units
    ghost var start: nat
    ghost var acked: nat
    // all the bytes acknowledged and all the bytes read so far
    ghost var ackedBytes: Bytes
    ghost var readBytes: Bytes

    ghost predicate Placed()
      reads this, slots
    {
      && slots.Length > 0 && start <= acked < start + slots.Length
      && startPos == Slot(start, slots.Length) && lastAckPos == Slot(acked, slots.Length)
      && (forall u :: u in units ==> start <= u < start + slots.Length - 1)
      && AllPlaced(slots[..], units, start)
    }

    /**
     * Units start..acked are all there; those after may be. Each is in its slot, `inUse` is how many there are, and
     * none is further than maxPos past the acknowledgement point.
     */
    ghost predicate Sound()
      reads this, slots
    {
      && Placed() && (forall u :: start <= u < acked ==> u in units)
      && (notch > 0 ==> start < acked && notch < |units[start]|)
      && inUse == |units| && 0 <= maxPos && (forall u :: u in units ==> u - acked <= maxPos)
    }

    /** What a reader has not read yet. */
    ghost function Pending(): Bytes
      requires Sound()
      reads this, slots
    {
      if start < acked then
        FlattenFirst(units, start, acked);
        Readable(units, start, acked, notch)
      else []
    }

    /** Everything read so far, put together, and what may still be read are the payloads acknowledged so far, in order. */
    ghost predicate Valid()
      reads this, slots
    {
      Sound() && readBytes + Pending() == ackedBytes
    }

    constructor (size: nat)
      requires size > 0
      ensures Valid() && ackedBytes == [] && fresh(slots) && slots.Length == size && units == map[] && start == acked == 0 && Pending() == []
    {
      slots := new Option<Bytes>[size](_ => None);
      startPos, lastAckPos, maxPos, notch, inUse := 0, 0, 0, 0, 0;
      units, start, acked := map[], 0, 0;
      ackedBytes, readBytes := [], [];
      new;
      forall u | 0 <= u < slots.Length ensures SlotHolds(slots[..], units, u) {
      }
    }

    method GetRcvDataSize() returns (n: nat)
      requires Valid()
      ensures n == acked - start
    {
      SlotDistance(start, acked, slots.Length);
      if lastAckPos >= startPos {
        return lastAckPos - startPos;
      }
      return slots.Length + lastAckPos - startPos;
    }

    method GetAvailBufSize() returns (n: nat)
      requires Valid()
      ensures n == slots.Length - 1 - (acked - start)
    {
      var d := GetRcvDataSize();
      n := slots.Length - d - 1;
    }

    /** A unit `offset` past the acknowledgement point, within the space available; false if it is there already. */
    method AddData(data: Bytes, offset: nat) returns (ok: bool)
      requires Valid() && offset < slots.Length - 1 - (acked - start)
      modifies this`maxPos, this`inUse, this`units, slots
      ensures Valid() && ackedBytes == old(ackedBytes) && readBytes == old(readBytes)
      ensures ok <==> acked + offset !in old(units)
      ensures units == if ok then old(units)[acked + offset := data] else old(units)
    {
      hide Slot;
      var pos := Slot(lastAckPos + offset, slots.Length);
      ghost var u := acked + offset;
      SlotOff(acked, offset, slots.Length);
      if offset > maxPos {
        maxPos := offset;
      }
      assert SlotHolds(slots[..], units, u);
      if slots[pos].Some? {
        return false;
      }
      PutAt(data, offset, pos);
      ok := true;
    }

    method PutAt(data: Bytes, ghost offset: nat, pos: nat)
      requires Sound() && offset < slots.Length - 1 - (acked - start) && offset <= maxPos
      requires pos == Slot(acked + offset, slots.Length) && acked + offset !in units
      modifies this`inUse, this`units, slots
      ensures Sound() && Pending() == old(Pending()) && units == old(units)[acked + offset := data]
    {
      ghost var u := acked + offset;
      hide AllPlaced, Flatten, Payloads, Slot;
      PutUnit(slots[..], units, start, u, data);
      PayloadsSame(units, units[u := data], start, acked);
      ghost var was := slots[..];
      slots[pos] := Some(data);
      assert slots[..] == was[pos := Some(data)];
      OneMore(units, u, data);
      units := units[u := data];
      inUse := inUse + 1;
    }

    /** The acknowledgement point moves over units that are all there. */
    method AckData(len: nat)
      requires Valid() && acked + len < start + slots.Length && forall u :: acked <= u < acked + len ==> u in units
      modifies this`lastAckPos, this`maxPos, this`acked, this`ackedBytes, this`readBytes
      ensures Valid() && acked == old(acked) + len && readBytes == old(readBytes)
      ensures ackedBytes == old(ackedBytes) + Flatten(Payloads(units, old(acked), acked))
    {
      hide Sound, Pending, Flatten, Payloads;
      ghost var more, was := Flatten(Payloads(units, acked, acked + len)), Pending();
      MoveAck(len);
      assert readBytes + (was + more) == (readBytes + was) + more;
      Account(ackedBytes + more, readBytes);
    }

    method MoveAck(len: nat)
      requires Sound() && acked + len < start + slots.Length && forall u :: acked <= u < acked + len ==> u in units
      modifies this`lastAckPos, this`maxPos, this`acked
      ensures Sound() && acked == old(acked) + len
      ensures Pending() == old(Pending()) + Flatten(Payloads(units, old(acked), acked))
    {
      hide AllPlaced, Flatten, Payloads, Slot;
      SlotOff(acked, len, slots.Length);
      AckedBytes(len);
      lastAckPos := Slot(lastAckPos + len, slots.Length);
      maxPos := maxPos - len;
      if maxPos < 0 {
        maxPos := 0;
      }
      acked := acked + len;
    }

    ghost method Account(acknowledged: Bytes, given: Bytes)
      requires Sound() && given + Pending() == acknowledged
      modifies this`ackedBytes, this`readBytes
      ensures Valid() && ackedBytes == acknowledged && readBytes == given
    {
      hide AllPlaced, Flatten, Payloads, Slot;
      ackedBytes, readBytes := acknowledged, given;
    }

    lemma AckedBytes(len: nat)
      requires Sound() && forall u :: acked <= u < acked + len ==> u in units
      ensures start < acked + len ==> notch <= |Flatten(Payloads(units, start, acked + len))|
      ensures (if start < acked + len then Readable(units, start, acked + len, notch) else [])
              == Pending() + Flatten(Payloads(units, acked, acked + len))
    {
      hide AllPlaced;
      PayloadsSplit(units, start, acked, acked + len);
      FlattenConcat(Payloads(units, start, acked), Payloads(units, acked, acked + len));
      if start < acked {
        FlattenFirst(units, start, acked);
      }
    }

    /** One turn of readBuffer's loop: what is read of the first unit, which goes when it is used up. */
    method ReadSome(rs: nat) returns (part: Bytes)
      requires Sound() && start < acked && rs > 0
      modifies this`startPos, this`notch, this`inUse, this`units, this`start, slots
      ensures Sound() && |part| <= rs
      ensures old(Pending()) == part + Pending() && (|part| < rs ==> start == old(start) + 1)
      ensures start == old(start) || start == old(start) + 1
    {
      var p := startPos;
      assert SlotHolds(slots[..], units, start);
      hide AllPlaced, Payloads, Slot;
      var data := slots[p].value;
      var size := |data| - notch;
      if size > rs {
        size := rs;
      }
      part := data[notch..notch + size];
      FlattenFirst(units, start, acked);
      if rs > size || rs == |data| - notch {
        assert data[notch..] == part;
        FreeFirst();
      } else {
        assert data[notch..] == part + data[notch + rs..];
        notch := notch + rs;
      }
    }

    method FreeFirst()
      requires Sound() && start < acked
      modifies this`startPos, this`notch, this`inUse, this`units, this`start, slots
      ensures Sound() && start == old(start) + 1 && notch == 0
      ensures units == old(units) - {old(start)} && Pending() == Flatten(old(Payloads(units, start + 1, acked)))
    {
      hide AllPlaced, Flatten, Payloads, Slot;
      ghost var was := slots[..];
      SlotUp(start, slots.Length);
      DropUnit(was, units, start);
      slots[startPos] := None;
      assert slots[..] == was[startPos := None];
      PayloadsSame(units, units - {start}, start + 1, acked);
      units := units - {start};
      startPos := if startPos + 1 == slots.Length then 0 else startPos + 1;
      start := start + 1;
      notch := 0;
      inUse := inUse - 1;
      NothingRead();
    }

    lemma NothingRead()
      requires Sound() && notch == 0
      ensures Pending() == Flatten(Payloads(units, start, acked))
    {
    }

    /** Reads up to len bytes: as many as there are to read, and the first ones. */
    method ReadBuffer(len: nat) returns (data: Bytes)
      requires Valid()
      modifies this`startPos, this`notch, this`inUse, this`units, this`start, this`ackedBytes, this`readBytes, slots
      ensures Valid() && acked == old(acked) && ackedBytes == old(ackedBytes)
      ensures readBytes == old(readBytes) + data && |data| <= len
      ensures |data| < len ==> readBytes == ackedBytes
    {
      hide Sound, Pending;
      data := [];
      ghost var all := readBytes;
      Ends();
      while startPos != lastAckPos && |data| < len
        invariant Sound() && acked == old(acked) && ackedBytes == old(ackedBytes) && |data| <= len
        invariant all + (data + Pending()) == ackedBytes
        invariant start <= acked && (startPos == lastAckPos <==> start == acked) && (start == acked ==> Pending() == [])
        decreases acked - start, len - |data|
      {
        var part := ReadSome(len - |data|);
        data := data + part;
        Ends();
      }
      assert (all + data) + Pending() == ackedBytes;
      Account(ackedBytes, all + data);
    }

    lemma Ends()
      requires Sound()
      ensures start <= acked && (startPos == lastAckPos <==> start == acked) && (start == acked ==> Pending() == [])
    {
      SlotDistance(start, acked, slots.Length);
    }
  }
}
