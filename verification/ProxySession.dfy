// dnode/ProxySession.cpp: two streams copied through ring buffers. What is in flight lives in slots the ring has already
// given up, so nothing may be written there until the write that uses them has completed.
module ProxySessions {
  import opened Common
  import opened Ring

  /** An outstanding write of `len` bytes straight from ring[pos..]. */
  datatype Seg = Seg(pos: nat, len: nat)

  function Lens(writes: seq<Seg>): nat {
    if writes == [] then 0 else writes[0].len + Lens(writes[1..])
  }

  /** The outstanding writes cover the stream from offset `off` on, each from the slots those bytes went to. */
  ghost predicate SegsAt(writes: seq<Seg>, off: nat, cap: nat)
    requires cap > 0
    decreases |writes|
  {
    writes == [] ||
    (&& (writes[0].len > 0 ==> writes[0].pos == Slot(off, cap) && writes[0].pos + writes[0].len <= cap)
     && SegsAt(writes[1..], off + writes[0].len, cap))
  }

  lemma {:induction false} LensConcat(a: seq<Seg>, b: seq<Seg>)
    ensures Lens(a + b) == Lens(a) + Lens(b)
  {
    if a == [] {
      assert a + b == b;
    } else {
      assert (a + b)[1..] == a[1..] + b;
      LensConcat(a[1..], b);
    }
  }

  lemma {:induction false} SegsConcat(a: seq<Seg>, b: seq<Seg>, off: nat, cap: nat)
    requires cap > 0 && SegsAt(a, off, cap) && SegsAt(b, off + Lens(a), cap)
    ensures SegsAt(a + b, off, cap)
  {
    if a == [] {
      assert a + b == b;
    } else {
      assert (a + b)[1..] == a[1..] + b;
      SegsConcat(a[1..], b, off + a[0].len, cap);
    }
  }

  lemma SlotAdd(j: int, d: nat, n: int)
    requires n > 0 && d < n
    ensures Slot(j + d, n) == if Slot(j, n) + d < n then Slot(j, n) + d else Slot(j, n) + d - n
  {
    var q, r := j / n, j % n;
    assert j == n * q + r;
    Distribute(n, q, 1);
    QuotientIs(j + d, n, if r + d < n then q else q + 1, if r + d < n then r + d else r + d - n);
  }

  /** The bytes from offset `lo` on are in their slots. */
  ghost predicate InPlace(mem: seq<Byte>, input: Bytes, lo: nat)
    requires |mem| > 0
  {
    forall o :: lo <= o < |input| ==> mem[Slot(o, |mem|)] == input[o]
  }

  lemma SliceIntact(mem: seq<Byte>, input: Bytes, w: Seg, off: nat)
    requires |mem| > 0 && InPlace(mem, input, off) && off + w.len <= |input|
    requires w.len > 0 && w.pos == Slot(off, |mem|) && w.pos + w.len <= |mem|
    ensures mem[w.pos..w.pos + w.len] == input[off..off + w.len]
  {
    var a, b := mem[w.pos..w.pos + w.len], input[off..off + w.len];
    forall i | 0 <= i < w.len ensures a[i] == b[i] {
      SlotAdd(off, i, |mem|);
      assert mem[Slot(off + i, |mem|)] == input[off + i];
    }
  }

  /** A write that is outstanding reads exactly the bytes it was given. */
  lemma {:induction false} WriteIntact(mem: seq<Byte>, input: Bytes, writes: seq<Seg>, off: nat, k: nat)
    requires |mem| > 0 && InPlace(mem, input, off) && SegsAt(writes, off, |mem|) && off + Lens(writes) <= |input| && k < |writes|
    ensures var at := off + Lens(writes[..k]);
            && at + writes[k].len <= |input|
            && (writes[k].len > 0 ==>
                  && writes[k].pos + writes[k].len <= |mem|
                  && mem[writes[k].pos..writes[k].pos + writes[k].len] == input[at..at + writes[k].len])
  {
    var w := writes[0];
    if k == 0 {
      if w.len > 0 {
        SliceIntact(mem, input, w, off);
      }
    } else {
      WriteIntact(mem, input, writes[1..], off + w.len, k - 1);
      assert writes[..k][1..] == writes[1..][..k - 1];
      assert Lens(writes[..k]) == w.len + Lens(writes[1..][..k - 1]);
    }
  }

  ghost predicate NoneEmpty(writes: seq<Seg>) {
    forall i :: 0 <= i < |writes| ==> writes[i].len > 0
  }

  lemma MoreNoneEmpty(writes: seq<Seg>, one: Seg, two: Seg)
    requires NoneEmpty(writes) && one.len > 0
    ensures NoneEmpty(writes + if two.len > 0 then [one, two] else [one])
  {
  }

  // ---------------------------------------------------------------- one direction

  class Relay {
    const chunk: nat
    const ring: array<Byte>
    var first: nat
    var bytes: nat
    var reading: nat
    ghost var writes: seq<Seg>
    ghost var input: Bytes
    ghost var acked: nat

    /**
     * Bytes acked..|input| of the stream are in flight, never more than the ring holds, and still in their slots;
     * `reading` is the size of the outstanding read, 0 when there is none.
     */
    ghost predicate Valid()
      reads this, ring
    {
      && 0 < ring.Length && 0 < chunk && first == Slot(|input|, ring.Length)
      && acked + bytes == |input| && bytes <= ring.Length && Lens(writes) == bytes
      && SegsAt(writes, acked, ring.Length) && InPlace(ring[..], input, acked)
      && bytes + reading <= ring.Length && reading <= chunk
    }

    constructor (capacity: nat, chunk: nat)
      requires capacity > 0 && chunk > 0
      ensures Valid() && fresh(ring) && ring.Length == capacity && this.chunk == chunk
      ensures input == [] && acked == 0 && bytes == 0 && reading == 0 && writes == []
    {
      this.chunk := chunk;
      ring := new Byte[capacity](_ => 0);
      first, bytes, reading := 0, 0, 0;
      writes, input, acked := [], [], 0;
    }

    /** recvLocal, recvRemote: a read is posted unless the ring is full. */
    method Post()
      requires Valid() && reading == 0
      modifies this`reading
      ensures Valid() && (reading > 0 <==> bytes < ring.Length)
    {
      var room := ring.Length - bytes;
      var toRecv := if room < chunk then room else chunk;
      if toRecv <= 0 {
        return;
      }
      reading := toRecv;
    }

    /** Copies `data` to the ring after what is in flight, touching no slot that is. */
    method Insert(data: Bytes)
      requires Valid() && bytes + |data| <= ring.Length
      modifies ring
      ensures InPlace(ring[..], input + data, acked)
      ensures Valid()
    {
      ghost var was := ring[..];
      ghost var whole := input + data;
      for i := 0 to |data|
        invariant InPlace(ring[..], whole[..|input| + i], acked)
      {
        SlotAdd(|input|, i, ring.Length);
        var slot := if first + i < ring.Length then first + i else first + i - ring.Length;
        forall o | acked <= o < |input| + i ensures Slot(o, ring.Length) != slot {
          SlotsDistinct(o, |input| + i, ring.Length);
        }
        ghost var before := ring[..];
        ring[slot] := data[i];
        forall o | acked <= o < |whole[..|input| + i + 1]| ensures ring[..][Slot(o, ring.Length)] == whole[o] {
          assert ring[..][Slot(o, ring.Length)] == if o == |input| + i then data[i] else before[Slot(o, ring.Length)];
          assert o < |input| + i ==> before[Slot(o, |before|)] == whole[..|input| + i][o];
        }
      }
      assert whole[..|input| + |data|] == whole;
      forall o | acked <= o < |input| ensures ring[..][Slot(o, ring.Length)] == input[o] {
        assert whole[o] == input[o];
      }
    }

    /** sendRemote, sendLocal: what was read is inserted and written out of the ring, in two parts if it wraps. */
    method Send(data: Bytes) returns (one: Seg, two: Seg)
      requires Valid() && bytes + |data| <= ring.Length && reading == 0
      modifies this`first, this`bytes, this`writes, this`input, ring
      ensures Valid() && input == old(input) + data && acked == old(acked) && bytes == old(bytes) + |data|
      ensures writes == old(writes) + (if two.len > 0 then [one, two] else [one]) && one.len + two.len == |data|
      ensures data != [] && NoneEmpty(old(writes)) ==> NoneEmpty(writes)
    {
      Insert(data);
      var n := |data|;
      one := Seg(first, if first + n <= ring.Length then n else ring.Length - first);
      two := Seg(0, n - one.len);
      ghost var more := if two.len > 0 then [one, two] else [one];
      TwoParts(|input|, n, one, two);
      LensConcat(writes, more);
      SegsConcat(writes, more, acked, ring.Length);
      SlotSum(|input|, n, ring.Length);
      if n > 0 && NoneEmpty(writes) {
        MoreNoneEmpty(writes, one, two);
      }
      hide NoneEmpty;
      first := if first + n < ring.Length then first + n else first + n - ring.Length;
      bytes := bytes + n;
      writes := writes + more;
      input := input + data;
    }

    lemma TwoParts(off: nat, n: nat, one: Seg, two: Seg)
      requires 0 < ring.Length && n <= ring.Length && two.pos == 0 && one.pos == Slot(off, ring.Length)
      requires one.len == if one.pos + n <= ring.Length then n else ring.Length - one.pos
      requires two.len == n - one.len
      ensures var more := if two.len > 0 then [one, two] else [one];
              Lens(more) == n && SegsAt(more, off, ring.Length)
    {
      assert [one, two][1..] == [two] && [two][1..] == [] && [one][1..] == [];
      if two.len > 0 {
        SlotAdd(off, one.len, ring.Length);
        assert SegsAt([two], off + one.len, ring.Length);
        assert Lens([two]) == two.len;
      }
      assert SegsAt([], off + n, ring.Length);
    }

    static lemma SlotSum(j: nat, d: nat, n: nat)
      requires 0 < n && d <= n
      ensures Slot(j + d, n) == if Slot(j, n) + d < n then Slot(j, n) + d else Slot(j, n) + d - n
    {
      if d < n {
        SlotAdd(j, d, n);
      } else {
        assert j == n * (j / n) + j % n;
        Distribute(n, j / n, 1);
        QuotientIs(j + n, n, j / n + 1, j % n);
      }
    }

    /** The oldest write has completed. */
    method Completed(n: nat)
      requires Valid() && writes != [] && writes[0].len == n
      modifies this`bytes, this`writes, this`acked
      ensures Valid() && acked == old(acked) + n && bytes == old(bytes) - n && writes == old(writes)[1..]
    {
      bytes := bytes - n;
      writes := writes[1..];
      acked := acked + n;
    }

    /** Every outstanding write still reads the bytes it was given, which are the next ones of the stream. */
    lemma InFlightIntact(k: nat)
      requires Valid() && k < |writes|
      ensures var at := acked + Lens(writes[..k]);
              && at + writes[k].len <= |input|
              && (writes[k].len > 0 ==>
                    && writes[k].pos + writes[k].len <= ring.Length
                    && ring[..][writes[k].pos..writes[k].pos + writes[k].len] == input[at..at + writes[k].len])
    {
      WriteIntact(ring[..], input, writes, acked, k);
    }
  }

  // ---------------------------------------------------------------- the end of a session

  lemma LensNone(writes: seq<Seg>)
    requires NoneEmpty(writes)
    ensures Lens(writes) == 0 <==> writes == []
  {
  }

  /** What decides when a session ends by itself: the writes outstanding to the remote side. */
  datatype Out = Out(writes: seq<Seg>, shutdown: bool, done: bool)

  /** Something completed without error: the oldest of those writes, or anything else. */
  datatype Completion = Sent | Other

  predicate CanComplete(o: Out, c: Completion) {
    c == Sent ==> o.writes != [] && !o.done
  }

  function Complete(o: Out, c: Completion): Out
    requires CanComplete(o, c)
  {
    if c == Other then o else Out(o.writes[1..], o.shutdown, o.shutdown && |o.writes| == 1)
  }

  ghost predicate IsRun(os: seq<Out>, cs: seq<Completion>) {
    |os| == |cs| + 1 && forall i :: 0 <= i < |cs| ==> CanComplete(os[i], cs[i]) && os[i + 1] == Complete(os[i], cs[i])
  }

  /**
   * After the local side shut down, in any run without errors: the session ends only if a write was outstanding at the
   * shutdown, and once everything outstanding has completed it has ended exactly if there was one.
   */
  lemma {:induction false} EndsExactlyIfInFlight(os: seq<Out>, cs: seq<Completion>, i: nat)
    requires IsRun(os, cs) && os[0].shutdown && !os[0].done && i < |os|
    ensures os[i].shutdown && (os[i].done ==> os[0].writes != [])
    ensures os[i].writes == [] ==> (os[i].done <==> os[0].writes != [])
    ensures os[0].writes == [] ==> os[i].writes == []
  {
    if i > 0 {
      EndsExactlyIfInFlight(os, cs, i - 1);
      assert CanComplete(os[i - 1], cs[i - 1]) && os[i - 1 + 1] == Complete(os[i - 1], cs[i - 1]);
    }
  }

  // ---------------------------------------------------------------- the session

  class ProxySession {
    const up: Relay
    const down: Relay
    var done: bool
    var localShutdown: bool
    var calls: nat

    /**
     * Until it is done, a direction has a read outstanding exactly when its ring has room, except that after the local
     * side shut down nothing more is read from it. No write to the remote side is empty. The owner is told once.
     */
    ghost predicate Valid()
      reads this, up, down, up.ring, down.ring
    {
      && up != down && up.ring != down.ring && up.Valid() && down.Valid()
      && calls == (if done then 1 else 0) && NoneEmpty(up.writes)
      && (!done ==> (down.reading > 0 <==> down.bytes < down.ring.Length))
      && (!done ==> (up.reading > 0 <==> up.bytes < up.ring.Length && !localShutdown))
    }

    ghost function View(): Out
      reads this, up
    {
      Out(up.writes, localShutdown, done)
    }

    /** Both sides are connected. */
    constructor ()
      ensures Valid() && !done && !localShutdown && fresh(up) && fresh(down) && fresh(up.ring) && fresh(down.ring)
      ensures up.input == [] && down.input == [] && up.writes == [] && up.bytes == 0 && up.reading > 0
    {
      var u := new Relay(208 * 1024, 4 * 1024);
      var d := new Relay(208 * 1024, 4 * 1024);
      u.Post();
      d.Post();
      up, down, done, localShutdown, calls := u, d, false, false, 0;
    }

    method Finish()
      requires !done
      modifies this`done, this`calls
      ensures done && calls == old(calls) + 1
    {
      done := true;
      calls := calls + 1;
    }

    /** The outstanding local read has completed; an empty result is the end of the local stream. */
    method OnLocalRecv(err: int, data: Bytes)
      requires Valid() && up.reading > 0 && |data| <= up.reading
      modifies this`done, this`calls, this`localShutdown, up, up.ring
      ensures Valid() && (old(done) ==> up.input == old(up.input))
      ensures !old(done) && err != 0 ==> done && up.input == old(up.input)
      ensures !old(done) && err == 0 ==> !done && up.input == old(up.input) + data && (localShutdown <==> old(localShutdown) || data == [])
      ensures up.acked == old(up.acked) && (data == [] ==> up.writes == old(up.writes) && up.bytes == old(up.bytes))
    {
      if done {
        return;
      }
      if err != 0 {
        Finish();
        return;
      }
      hide NoneEmpty;
      up.reading := 0;
      if |data| > 0 {
        var one, two := up.Send(data);
        up.Post();
      } else {
        localShutdown := true;
        assert up.input + data == up.input;
      }
    }

    /** The oldest write to the remote side, of n bytes, has completed. */
    method OnRemoteSend(err: int, n: nat)
      requires Valid() && up.writes != [] && up.writes[0].len == n
      modifies this`done, this`calls, up
      ensures Valid() && up.input == old(up.input)
      ensures !old(done) && err == 0 ==> up.acked == old(up.acked) + n && View() == Complete(old(View()), Sent)
      ensures !old(done) ==> (done <==> err != 0 || (localShutdown && up.acked == |up.input|))
    {
      if done {
        return;
      }
      if err != 0 {
        Finish();
        return;
      }
      var fireRecv := up.bytes >= up.ring.Length;
      up.Completed(n);
      LensNone(up.writes);
      if up.bytes <= 0 && localShutdown {
        Finish();
        return;
      }
      if fireRecv && !localShutdown {
        up.Post();
      }
    }

    method OnRemoteRecv(err: int, data: Bytes)
      requires Valid() && down.reading > 0 && |data| <= down.reading
      modifies this`done, this`calls, down, down.ring
      ensures Valid() && (old(done) ==> down.input == old(down.input))
      ensures !old(done) && err != 0 ==> done && down.input == old(down.input)
      ensures !old(done) && err == 0 ==> !done && down.input == old(down.input) + data && View() == Complete(old(View()), Other)
      ensures down.acked == old(down.acked)
    {
      if done {
        return;
      }
      if err != 0 {
        Finish();
        return;
      }
      down.reading := 0;
      var one, two := down.Send(data);
      down.Post();
    }

    method OnLocalSend(err: int, n: nat)
      requires Valid() && down.writes != [] && down.writes[0].len == n
      modifies this`done, this`calls, down
      ensures Valid() && down.input == old(down.input)
      ensures !old(done) && err == 0 ==> down.acked == old(down.acked) + n && !done && View() == Complete(old(View()), Other)
      ensures !old(done) && err != 0 ==> done
    {
      if done {
        return;
      }
      if err != 0 {
        Finish();
        return;
      }
      var fireRecv := down.bytes >= down.ring.Length;
      down.Completed(n);
      if fireRecv {
        down.Post();
      }
    }

    /** Bytes in flight to the remote side are outstanding writes to it. */
    lemma InFlightIsOutstanding()
      requires Valid()
      ensures up.bytes > 0 <==> View().writes != []
    {
      LensNone(up.writes);
    }
  }

  /**
   * A local side that shuts down before it sent anything: no write is outstanding, nothing is read from it any more, and
   * so no completion without error ends the session.
   */
  method ShutdownFirst() returns (p: ProxySession)
    ensures fresh(p) && p.Valid() && !p.done && p.localShutdown && p.up.reading == 0 && p.View() == Out([], true, false)
  {
    p := new ProxySession();
    p.OnLocalRecv(0, []);
  }
}
