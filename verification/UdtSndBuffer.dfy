// udt/buffer.cpp, CSndBuffer: packets waiting to be acknowledged, in a circular list of blocks that grows in the middle.
module UdtSndBuffers {
  import opened Common
  import opened Ring

  datatype Block = Block(data: Bytes, next: nat)

  // ---------------------------------------------------------------- cutting a buffer into packets

  function Segments(data: Bytes, mss: nat): (r: seq<Bytes>)
    requires mss > 0
  {
    if data == [] then [] else if |data| <= mss then [data] else [data[..mss]] + Segments(data[mss..], mss)
  }

  /** No packet is empty or longer than the segment size. */
  lemma {:induction false} SegmentsFit(data: Bytes, mss: nat, i: nat)
    requires mss > 0 && i < |Segments(data, mss)|
    ensures 0 < |Segments(data, mss)[i]| <= mss
  {
    if |data| > mss && i > 0 {
      SegmentsFit(data[mss..], mss, i - 1);
    }
  }

  lemma {:induction false} SegmentsFlatten(data: Bytes, mss: nat)
    requires mss > 0
    ensures Flatten(Segments(data, mss)) == data
  {
    if |data| > mss {
      SegmentsFlatten(data[mss..], mss);
      assert Segments(data, mss)[1..] == Segments(data[mss..], mss);
      assert data == data[..mss] + data[mss..];
    } else if data != [] {
      assert [data][1..] == [];
      assert Flatten([data]) == data + Flatten([]);
    }
  }

  lemma DivDown(n: nat, k: nat)
    requires 0 < k <= n
    ensures (n - k) / k == n / k - 1 && (n - k) % k == n % k
  {
    assert n == k * (n / k) + n % k;
    Distribute(k, n / k, 1);
    QuotientIs(n - k, k, n / k - 1, n % k);
    assert n - k == k * ((n - k) / k) + (n - k) % k;
    Distribute(k, (n - k) / k, n / k - 1);
    MulAtLeast(k, (n - k) / k - (n / k - 1));
  }

  lemma SmallDiv(n: nat, k: nat)
    requires 0 < n <= k
    ensures n / k == (if n == k then 1 else 0) && n % k == if n == k then 0 else n
  {
    if n == k {
      DivDown(n, k);
    }
  }

  function PacketCount(len: nat, mss: nat): nat
    requires mss > 0
  {
    len / mss + if len % mss != 0 then 1 else 0
  }

  lemma {:induction false} SegmentsCount(data: Bytes, mss: nat)
    requires mss > 0
    ensures |Segments(data, mss)| == PacketCount(|data|, mss)
  {
    if |data| > mss {
      SegmentsCount(data[mss..], mss);
      DivDown(|data|, mss);
    } else if data != [] {
      SmallDiv(|data|, mss);
    }
  }

  // ---------------------------------------------------------------- the circular list

  function After(cycle: seq<nat>, i: nat): nat
    requires i < |cycle|
  {
    if i + 1 < |cycle| then cycle[i + 1] else cycle[0]
  }

  ghost predicate HopOk(blocks: seq<Block>, cycle: seq<nat>, i: nat)
    requires i < |cycle|
  {
    cycle[i] < |blocks| && blocks[cycle[i]].next == After(cycle, i)
  }

  /** Following the links goes through all blocks once and comes back. */
  ghost predicate IsCycle(blocks: seq<Block>, cycle: seq<nat>) {
    |cycle| == |blocks| > 0 && NoDup(cycle) && forall i :: 0 <= i < |cycle| ==> HopOk(blocks, cycle, i)
  }

  /** Filling a block changes no link. */
  lemma FillKeeps(blocks: seq<Block>, cycle: seq<nat>, b: nat, data: Bytes)
    requires IsCycle(blocks, cycle) && b < |blocks|
    ensures IsCycle(blocks[b := blocks[b].(data := data)], cycle)
  {
    var blocks' := blocks[b := blocks[b].(data := data)];
    forall i | 0 <= i < |cycle| ensures HopOk(blocks', cycle, i) {
      assert HopOk(blocks, cycle, i);
    }
  }

  function Turned(cycle: seq<nat>, k: nat): (r: seq<nat>)
    requires k <= |cycle|
    ensures |r| == |cycle| && forall i :: 0 <= i < |r| ==> r[i] == if i + k < |cycle| then cycle[i + k] else cycle[i + k - |cycle|]
  {
    cycle[k..] + cycle[..k]
  }

  /** The list may be started anywhere. */
  lemma TurnKeeps(blocks: seq<Block>, cycle: seq<nat>, k: nat)
    requires IsCycle(blocks, cycle) && k < |cycle|
    ensures IsCycle(blocks, Turned(cycle, k))
  {
    var r := Turned(cycle, k);
    forall i | 0 <= i < |r| ensures HopOk(blocks, r, i) {
      assert HopOk(blocks, cycle, if i + k < |cycle| then i + k else i + k - |cycle|);
    }
  }

  /** The new blocks n, n + 1, ... form a chain that ends at `last`. */
  ghost predicate IsChain(more: seq<Block>, n: nat, end: nat) {
    forall i :: 0 <= i < |more| ==> more[i].next == if i + 1 < |more| then n + i + 1 else end
  }

  function Numbers(n: nat, k: nat): (r: seq<nat>)
    ensures |r| == k && forall i :: 0 <= i < k ==> r[i] == n + i
  {
    seq(k, i => n + i)
  }

  function Widened(cycle: seq<nat>, at: nat, n: nat, k: nat): (r: seq<nat>)
    requires at < |cycle|
    ensures |r| == |cycle| + k
    ensures forall i :: 0 <= i < |r| ==> r[i] == if i <= at then cycle[i] else if i <= at + k then n + (i - at - 1) else cycle[i - k]
  {
    cycle[..at + 1] + Numbers(n, k) + cycle[at + 1..]
  }

  /** New blocks go in after position `at`. */
  lemma GrowKeeps(blocks: seq<Block>, cycle: seq<nat>, at: nat, more: seq<Block>)
    requires IsCycle(blocks, cycle) && at < |cycle| && cycle[at] < |blocks| && |more| > 0
    requires IsChain(more, |blocks|, blocks[cycle[at]].next)
    ensures IsCycle(blocks[cycle[at] := blocks[cycle[at]].(next := |blocks|)] + more, Widened(cycle, at, |blocks|, |more|))
  {
    var n, k := |blocks|, |more|;
    var blocks' := blocks[cycle[at] := blocks[cycle[at]].(next := n)] + more;
    var r := Widened(cycle, at, n, k);
    forall i | 0 <= i < |cycle| ensures cycle[i] < n {
      assert HopOk(blocks, cycle, i);
    }
    assert HopOk(blocks, cycle, at);
    forall i | 0 <= i < |r| ensures HopOk(blocks', r, i) {
      if i <= at {
        assert HopOk(blocks, cycle, i);
      } else if i > at + k {
        assert HopOk(blocks, cycle, i - k);
      }
    }
  }

  function DataOf(blocks: seq<Block>, b: nat): Bytes {
    if b < |blocks| then blocks[b].data else []
  }

  /** The data of the first n blocks of the list. */
  function Contents(blocks: seq<Block>, cycle: seq<nat>, n: nat): (q: seq<Bytes>)
    requires n <= |cycle|
    ensures |q| == n
  {
    seq(n, i requires 0 <= i < n => DataOf(blocks, cycle[i]))
  }

  lemma FillNext(blocks: seq<Block>, cycle: seq<nat>, k: nat, piece: Bytes)
    requires IsCycle(blocks, cycle) && k < |cycle|
    ensures cycle[k] < |blocks|
    ensures var blocks' := blocks[cycle[k] := blocks[cycle[k]].(data := piece)];
            IsCycle(blocks', cycle) && Contents(blocks', cycle, k + 1) == Contents(blocks, cycle, k) + [piece]
  {
    assert HopOk(blocks, cycle, k);
    FillKeeps(blocks, cycle, cycle[k], piece);
  }

  lemma GrowContents(blocks: seq<Block>, cycle: seq<nat>, at: nat, more: seq<Block>)
    requires IsCycle(blocks, cycle) && at < |cycle| && cycle[at] < |blocks|
    ensures Contents(blocks[cycle[at] := blocks[cycle[at]].(next := |blocks|)] + more, Widened(cycle, at, |blocks|, |more|), at)
            == Contents(blocks, cycle, at)
  {
    forall i | 0 <= i < at ensures cycle[i] < |blocks| {
      assert HopOk(blocks, cycle, i);
    }
  }

  lemma TurnContents(blocks: seq<Block>, cycle: seq<nat>, k: nat, n: nat)
    requires k <= n < |cycle|
    ensures Contents(blocks, Turned(cycle, k), n - k) == Contents(blocks, cycle, n)[k..]
  {
  }

  lemma Hop(blocks: seq<Block>, cycle: seq<nat>, i: nat)
    requires IsCycle(blocks, cycle) && i < |cycle|
    ensures cycle[i] < |blocks| && blocks[cycle[i]].next == After(cycle, i)
  {
    assert HopOk(blocks, cycle, i);
  }

  class SndBuffer {
    const mss: nat
    const unit: nat
    var blocks: seq<Block>
    var first: nat
    var curr: nat
    var last: nat
    var count: nat
    ghost var cycle: seq<nat>
    ghost var read: nat
    ghost var stream: Bytes
    ghost var acked: Bytes

    ghost predicate Linked()
      reads this
    {
      && mss > 0 && unit > 0 && IsCycle(blocks, cycle) && |cycle| == |blocks| && read <= count < |cycle|
      && first == cycle[0] && curr == cycle[read] && last == cycle[count]
    }

    /** The packets waiting for acknowledgement, in order. */
    ghost function Queue(): (q: seq<Bytes>)
      requires Linked()
      reads this
      ensures |q| == count
    {
      Contents(blocks, cycle, count)
    }

    /** What was acknowledged and what waits is all that was added. */
    ghost predicate Valid()
      reads this
    {
      Linked() && acked + Flatten(Queue()) == stream
    }

    constructor (size: nat, mss: nat)
      requires size > 0 && mss > 0
      ensures Valid() && Queue() == [] && stream == [] && acked == [] && read == 0 && this.mss == mss && unit == size
    {
      this.mss, unit := mss, size;
      blocks := seq(size, (i: nat) => Block([], if i + 1 < size then i + 1 else 0));
      first, curr, last, count := 0, 0, 0, 0;
      cycle, read, stream, acked := Numbers(0, size), 0, [], [];
      new;
      forall i | 0 <= i < |cycle| ensures HopOk(blocks, cycle, i) {
      }
    }

    /** More blocks, put in after the last one; what waits is not touched. */
    method Increase()
      requires Linked()
      modifies this`blocks, this`cycle
      ensures Linked() && Queue() == old(Queue()) && |blocks| == |old(blocks)| + unit
    {
      Hop(blocks, cycle, count);
      var n, end := |blocks|, blocks[last].next;
      var more: seq<Block> := [];
      for i := 0 to unit
        invariant |more| == i && forall j :: 0 <= j < i ==> more[j].next == if j + 1 < unit then n + j + 1 else end
      {
        more := more + [Block([], if i + 1 < unit then n + i + 1 else end)];
      }
      assert IsChain(more, n, end);
      GrowKeeps(blocks, cycle, count, more);
      GrowContents(blocks, cycle, count, more);
      hide IsCycle, Contents;
      blocks := blocks[last := blocks[last].(next := n)] + more;
      cycle := Widened(cycle, count, n, unit);
    }

    /** Copies the packets of a buffer to the blocks after the last one in use; returns the block after them. */
    method Fill(data: Bytes, size: nat) returns (s: nat)
      requires Linked() && size == |Segments(data, mss)| && count + size < |cycle|
      modifies this`blocks
      ensures Linked() && s == cycle[count + size]
      ensures Contents(blocks, cycle, count + size) == old(Queue()) + Segments(data, mss)
    {
      hide IsCycle, Segments, Contents;
      s := last;
      var off: nat := 0;
      ghost var q: seq<Bytes> := [];
      assert data[0..] == data;
      for i := 0 to size
        invariant Linked() && |q| == i && s == cycle[count + i]
        invariant off <= |data| && Segments(data, mss) == q + Segments(data[off..], mss)
        invariant Contents(blocks, cycle, count + i) == old(Queue()) + q
      {
        var len := if |data| - off > mss then mss else |data| - off;
        NextSegment(data, mss, off, len);
        s := FillOne(count + i, s, data[off..off + len]);
        q := q + [data[off..off + len]];
        off := off + len;
      }
      assert |Segments(data[off..], mss)| == 0;
    }

    method FillOne(ghost k: nat, s: nat, piece: Bytes) returns (s': nat)
      requires Linked() && count <= k && k + 1 < |cycle| && s == cycle[k]
      modifies this`blocks
      ensures Linked() && s' == cycle[k + 1] && Contents(blocks, cycle, k + 1) == old(Contents(blocks, cycle, k)) + [piece]
    {
      FillNext(blocks, cycle, k, piece);
      Hop(blocks, cycle, k);
      hide IsCycle, Contents;
      blocks := blocks[s := blocks[s].(data := piece)];
      s' := blocks[s].next;
    }

    /** The buffer is cut into packets, which join the end of the queue. */
    method AddBuffer(data: Bytes)
      requires Valid()
      modifies this
      ensures Valid() && Queue() == old(Queue()) + Segments(data, mss)
      ensures stream == old(stream) + data && acked == old(acked) && read == old(read)
    {
      hide PacketCount, Segments, Flatten, IsCycle;
      var size := PacketCount(|data|, mss);
      SegmentsCount(data, mss);
      while size + count >= |blocks|
        invariant Linked() && Queue() == old(Queue()) && count == old(count) && read == old(read)
        invariant stream == old(stream) && acked == old(acked)
        decreases size + count - |blocks|
      {
        Increase();
      }
      last := Fill(data, size);
      count := count + size;
      FlattenConcat(old(Queue()), Segments(data, mss));
      SegmentsFlatten(data, mss);
      stream := stream + data;
    }

    /** The next packet not read yet, if there is one. */
    method ReadData() returns (r: Option<Bytes>)
      requires Valid()
      modifies this`curr, this`read
      ensures Valid() && Queue() == old(Queue())
      ensures r == if old(read) < count then Some(Queue()[old(read)]) else None
      ensures read == if old(read) < count then old(read) + 1 else old(read)
    {
      Distinct(read, count);
      Hop(blocks, cycle, read);
      hide IsCycle, Flatten;
      if curr == last {
        return None;
      }
      r := Some(blocks[curr].data);
      curr := blocks[curr].next;
      read := read + 1;
    }

    lemma Distinct(i: nat, j: nat)
      requires Linked() && i <= j < |cycle|
      ensures cycle[i] == cycle[j] <==> i == j
    {
    }

    /** A packet that waits for acknowledgement, for sending again. */
    method ReadAgain(offset: nat) returns (r: Bytes)
      requires Valid() && offset < count
      ensures r == Queue()[offset]
    {
      hide IsCycle, Flatten;
      var p := first;
      for i := 0 to offset
        invariant p == cycle[i]
      {
        Hop(blocks, cycle, i);
        p := blocks[p].next;
      }
      Hop(blocks, cycle, offset);
      r := blocks[p].data;
    }

    /** The first packets, which were read, are acknowledged and leave the queue. */
    method AckData(offset: nat)
      requires Valid() && offset <= read
      modifies this`first, this`count, this`cycle, this`read, this`acked
      ensures Valid() && Queue() == old(Queue())[offset..] && stream == old(stream) && read == old(read) - offset
      ensures acked == old(acked) + Flatten(old(Queue())[..offset])
    {
      hide IsCycle, Flatten, Contents, Turned;
      ghost var q, c := Queue(), cycle;
      for i := 0 to offset
        invariant first == c[i] && count == old(count) && read == old(read) && cycle == c && acked == old(acked)
      {
        Hop(blocks, c, i);
        first := blocks[first].next;
      }
      TurnKeeps(blocks, c, offset);
      TurnContents(blocks, c, offset, count);
      FlattenPrefix(q, offset);
      assert (acked + Flatten(q[..offset])) + Flatten(q[offset..]) == acked + Flatten(q);
      count := count - offset;
      read := read - offset;
      cycle := Turned(c, offset);
      acked := acked + Flatten(q[..offset]);
    }
  }

  lemma NextSegment(data: Bytes, mss: nat, off: nat, len: nat)
    requires mss > 0 && off <= |data| && |Segments(data[off..], mss)| > 0
    requires len == if |data| - off > mss then mss else |data| - off
    ensures off + len <= |data| && Segments(data[off..], mss) == [data[off..off + len]] + Segments(data[off + len..], mss)
  {
    var rest := data[off..];
    assert rest[..len] == data[off..off + len] && rest[len..] == data[off + len..];
    if len == |rest| {
      assert rest[..len] == rest && data[off + len..] == [];
    }
  }
}
