// dutil/UTPConnection.cpp: a queue of writes waiting for their bytes to be acknowledged, and a queue of what the
// transport has yet to take.
module UtpConnections {
  import opened Common
  import UtpModel
  import UtpInvariant
  import UtpReports
  import UtpSystem

  /** Write number `id`, and the bytes of it that are not acknowledged. */
  datatype WriteReq = WriteReq(id: nat, rest: Bytes)

  /** Callback number `id` was called with `err`. */
  datatype Completion = Completion(id: nat, err: int)

  /**
   * What was written so far: `stream` all the bytes, ends[i] where write i ends in it, sizes[i] how long it is. The
   * transport took the first `sent` bytes and reported the first `acked` as acknowledged.
   */
  datatype History = History(stream: Bytes, ends: seq<nat>, sizes: seq<nat>, sent: nat, acked: nat)

  function Rests(q: seq<WriteReq>): (r: seq<Bytes>) {
    if q == [] then [] else [q[0].rest] + Rests(q[1..])
  }

  lemma {:induction false} RestsSnoc(q: seq<WriteReq>, x: WriteReq)
    ensures Rests(q + [x]) == Rests(q) + [x.rest]
  {
    if q == [] {
      assert [x][1..] == [];
    } else {
      assert (q + [x])[1..] == q[1..] + [x];
      RestsSnoc(q[1..], x);
    }
  }

  /** Writes complete in the order they were made, each once. */
  ghost predicate InOrder(q: seq<WriteReq>, done: seq<Completion>, n: nat) {
    && |done| + |q| == n
    && (forall i :: 0 <= i < |done| ==> done[i].id == i)
    && (forall j :: 0 <= j < |q| ==> q[j].id == |done| + j)
  }

  /** A write that completed without error had all its bytes acknowledged. */
  ghost predicate Honest(done: seq<Completion>, h: History) {
    && |done| <= |h.ends| == |h.sizes|
    && forall i :: 0 <= i < |done| && done[i].err == 0 ==> h.ends[i] <= h.acked
  }

  /** Where each waiting write ends, counting from what is acknowledged. */
  ghost predicate EndsAt(q: seq<WriteReq>, h: History, from: nat)
    decreases |q|
  {
    q == [] ||
    (&& q[0].id < |h.ends| == |h.sizes| && h.ends[q[0].id] == from + |q[0].rest| && (q[0].rest == [] ==> h.sizes[q[0].id] == 0)
     && EndsAt(q[1..], h, from + |q[0].rest|))
  }

  /** What waits to be acknowledged is the stream from there on. */
  ghost predicate Waits(q: seq<WriteReq>, h: History) {
    h.acked <= h.sent <= |h.stream| && Flatten(Rests(q)) == h.stream[h.acked..] && EndsAt(q, h, h.acked)
  }

  /** What waits to be taken is the stream from there on. */
  ghost predicate Leaves(outq: seq<Bytes>, h: History) {
    h.sent <= |h.stream| && Flatten(outq) == h.stream[h.sent..]
  }

  /** n more bytes are acknowledged, and the transport takes the next bytes of the stream. */
  ghost predicate Moves(h: History, h': History, n: nat, took: Bytes) {
    && h.sent + |took| <= |h.stream| && took == h.stream[h.sent..h.sent + |took|]
    && h' == h.(sent := h.sent + |took|, acked := h.acked + n)
  }

  /** Two reports in one event of the socket are one: first on_sent, then that it is writable. */
  lemma MovesTwice(h: History, h1: History, h2: History, n: nat, n': nat, took: Bytes, took': Bytes)
    requires Moves(h, h1, n, took) && Moves(h1, h2, n', took')
    ensures Moves(h, h2, n + n', took + took')
  {
  }

  /** What waits to be taken, once n bytes of it are. */
  function Left(outq: seq<Bytes>, n: nat): seq<Bytes>
    requires outq != [] && n <= |outq[0]|
  {
    if n == |outq[0]| then outq[1..] else [outq[0][n..]] + outq[1..]
  }

  /** What the transport takes of the waiting writes: the first one is offered until it refuses, fails, or is offered nothing. */
  function TakenBy(outq: seq<Bytes>, answers: seq<(int, nat)>): Bytes
    decreases |answers|
  {
    if outq == [] || answers == [] || answers[0].0 != 0 || answers[0].1 == 0 || outq[0] == [] then []
    else
      var n := if answers[0].1 < |outq[0]| then answers[0].1 else |outq[0]|;
      outq[0][..n] + TakenBy(Left(outq, n), answers[1..])
  }

  lemma TakenStep(took: Bytes, outq: seq<Bytes>, answers: seq<(int, nat)>, i: nat, m: nat)
    requires i < |answers| && outq != [] && outq[0] != [] && answers[i].0 == 0 && answers[i].1 > 0
    requires m == if answers[i].1 < |outq[0]| then answers[i].1 else |outq[0]|
    ensures took + TakenBy(outq, answers[i..]) == took + outq[0][..m] + TakenBy(Left(outq, m), answers[i + 1..])
  {
    assert answers[i..][0] == answers[i] && answers[i..][1..] == answers[i + 1..];
  }

  lemma StreamStep(stream: Bytes, a: nat, b: nat, m: nat)
    ensures a <= b && b + m <= |stream| ==> stream[a..b + m] == stream[a..b] + stream[b..][..m]
  {
  }

  lemma TakenStops(outq: seq<Bytes>, answers: seq<(int, nat)>, i: nat)
    requires i <= |answers|
    requires outq == [] || i == |answers| || answers[i].0 != 0 || answers[i].1 == 0 || outq[0] == []
    ensures TakenBy(outq, answers[i..]) == []
  {
    assert i < |answers| ==> answers[i..][0] == answers[i];
  }

  /** A transport with room for every write takes all that waits, up to an empty write. */
  lemma {:induction false} RoomTakesAll(outq: seq<Bytes>, answers: seq<(int, nat)>)
    requires |answers| >= |outq| && forall i :: 0 <= i < |outq| ==> answers[i].0 == 0 && answers[i].1 >= |outq[i]| > 0
    ensures TakenBy(outq, answers) == Flatten(outq)
  {
    if outq != [] {
      forall i | 0 <= i < |outq[1..]| ensures answers[1..][i].0 == 0 && answers[1..][i].1 >= |outq[1..][i]| > 0 {
        assert answers[1..][i] == answers[i + 1] && outq[1..][i] == outq[i + 1];
      }
      RoomTakesAll(outq[1..], answers[1..]);
      assert outq[0][..|outq[0]|] == outq[0];
    }
  }

  // ---------------------------------------------------------------- one write, one acknowledgement

  function Written(h: History, data: Bytes): History {
    History(h.stream + data, h.ends + [|h.stream| + |data|], h.sizes + [|data|], h.sent, h.acked)
  }

  lemma {:induction false} EndsAtGrow(q: seq<WriteReq>, h: History, from: nat, data: Bytes)
    requires EndsAt(q, h, from) && |h.ends| == |h.sizes|
    ensures EndsAt(q + [WriteReq(|h.ends|, data)], Written(h, data), from) <==> from + |Flatten(Rests(q))| == |h.stream|
  {
    var x, h' := WriteReq(|h.ends|, data), Written(h, data);
    if q == [] {
      assert [x][1..] == [];
      assert EndsAt([x], h', from) <==> h'.ends[|h.ends|] == from + |data|;
    } else {
      assert (q + [x])[1..] == q[1..] + [x];
      EndsAtGrow(q[1..], h, from + |q[0].rest|, data);
    }
  }

  lemma WriteQueues(q: seq<WriteReq>, outq: seq<Bytes>, h: History, data: Bytes)
    requires Waits(q, h) && Leaves(outq, h) && |h.ends| == |h.sizes|
    ensures Waits(q + [WriteReq(|h.ends|, data)], Written(h, data)) && Leaves(outq + [data], Written(h, data))
  {
    RestsSnoc(q, WriteReq(|h.ends|, data));
    FlattenSnoc(Rests(q), data);
    FlattenSnoc(outq, data);
    EndsAtGrow(q, h, h.acked, data);
    assert (h.stream + data)[h.acked..] == h.stream[h.acked..] + data;
    assert (h.stream + data)[h.sent..] == h.stream[h.sent..] + data;
  }

  lemma {:induction false} EndsAtSame(q: seq<WriteReq>, h: History, h': History, from: nat)
    requires EndsAt(q, h, from) && h'.ends == h.ends && h'.sizes == h.sizes
    ensures EndsAt(q, h', from)
  {
    if q != [] {
      EndsAtSame(q[1..], h, h', from + |q[0].rest|);
    }
  }

  /** n bytes of the first write are acknowledged; if that was all of it, it leaves the queue. */
  lemma AckSome(q: seq<WriteReq>, h: History, n: nat)
    requires Waits(q, h) && q != [] && n <= |q[0].rest| && h.acked + n <= h.sent
    ensures var h' := h.(acked := h.acked + n);
            if n == |q[0].rest| then Waits(q[1..], h') else Waits([q[0].(rest := q[0].rest[n..])] + q[1..], h')
    ensures n == |q[0].rest| ==> q[0].id < |h.ends| && h.ends[q[0].id] == h.acked + n
  {
    var h', r := h.(acked := h.acked + n), q[0].rest;
    assert Flatten(Rests(q)) == r + Flatten(Rests(q[1..])) by {
      assert Rests(q)[1..] == Rests(q[1..]);
    }
    assert h.stream[h'.acked..] == h.stream[h.acked..][n..];
    assert (r + Flatten(Rests(q[1..])))[n..] == r[n..] + Flatten(Rests(q[1..]));
    EndsAtSame(q[1..], h, h', h.acked + |r|);
    if n < |r| {
      var q' := [q[0].(rest := r[n..])] + q[1..];
      assert q'[1..] == q[1..];
      assert Rests(q')[1..] == Rests(q[1..]);
    }
  }

  /** The transport takes n bytes of the first in line. */
  lemma TakeSome(q: seq<WriteReq>, outq: seq<Bytes>, h: History, n: nat)
    requires Waits(q, h) && Leaves(outq, h) && outq != [] && n <= |outq[0]|
    ensures h.sent + n <= |h.stream| && h.stream[h.sent..][..n] == outq[0][..n]
    ensures var h' := h.(sent := h.sent + n);
            Waits(q, h') && if n == |outq[0]| then Leaves(outq[1..], h') else Leaves([outq[0][n..]] + outq[1..], h')
  {
    var h', d := h.(sent := h.sent + n), outq[0];
    assert Flatten(outq) == d + Flatten(outq[1..]);
    assert |h.stream[h.sent..]| == |d| + |Flatten(outq[1..])|;
    assert h.stream[h'.sent..] == h.stream[h.sent..][n..];
    assert (d + Flatten(outq[1..]))[n..] == d[n..] + Flatten(outq[1..]);
    EndsAtSame(q, h, h', h.acked);
    if n < |d| {
      assert ([d[n..]] + outq[1..])[1..] == outq[1..];
    }
  }

  lemma LeavesSame(outq: seq<Bytes>, h: History, h': History)
    requires Leaves(outq, h) && h' == h.(acked := h'.acked)
    ensures Leaves(outq, h')
  {
  }

  /** Bytes acknowledged are never more than the first waiting writes hold: the queue does not underflow. */
  lemma NoUnderflow(q: seq<WriteReq>, h: History)
    requires Waits(q, h) && h.acked < h.sent
    ensures q != []
  {
    assert Flatten([]) == [];
  }

  // ---------------------------------------------------------------- the connection

  class UtpConnection {
    var writeQueue: seq<WriteReq>
    var writeOut: seq<Bytes>
    var done: seq<Completion>
    var open: bool
    ghost var broken: bool
    ghost var history: History

    ghost predicate Books()
      reads this
    {
      InOrder(writeQueue, done, |history.ends|) && Honest(done, history)
    }

    /** While the handle is open and no error has occurred, the queues mirror the stream. */
    ghost predicate Valid()
      reads this
    {
      Books() && (open && !broken ==> Waits(writeQueue, history) && Leaves(writeOut, history))
    }

    constructor ()
      ensures Valid() && open && !broken && done == [] && history == History([], [], [], 0, 0)
    {
      writeQueue, writeOut, done, open, broken := [], [], [], true, false;
      history := History([], [], [], 0, 0);
    }

    /** A callback; `closes` holds the writes whose callback closes the connection. */
    method Complete(id: nat, err: int, closes: set<nat>)
      modifies this`done, this`open
      ensures done == old(done) + [Completion(id, err)] && open == (old(open) && id !in closes)
    {
      done := done + [Completion(id, err)];
      if id in closes {
        open := false;
      }
    }

    /** Takes the first waiting write off the queue and calls back. */
    method PopFront(err: int, closes: set<nat>)
      requires Books() && writeQueue != [] && writeQueue[0].id < |history.ends|
      requires err == 0 ==> history.ends[writeQueue[0].id] <= history.acked
      modifies this`writeQueue, this`done, this`open
      ensures Books() && writeQueue == old(writeQueue)[1..] && done == old(done) + [Completion(old(writeQueue)[0].id, err)]
      ensures open ==> old(open)
    {
      var req := writeQueue[0];
      writeQueue := writeQueue[1..];
      Complete(req.id, err, closes);
    }

    /** One turn of the first loop of onHandleWrite. */
    method AckFirst(err: int, numBytes: nat, closes: set<nat>) returns (left: nat)
      requires Books() && open && Waits(writeQueue, history) && 0 < numBytes && history.acked + numBytes <= history.sent
      modifies this`writeQueue, this`done, this`open, this`history
      ensures Books() && Waits(writeQueue, history) && left <= numBytes
      ensures history == old(history).(acked := old(history).acked + numBytes - left)
      ensures left == numBytes ==> |writeQueue| < |old(writeQueue)|
      ensures done == old(done) || (|done| == |old(done)| + 1 && old(done) <= done && (err == 0 ==> done[|old(done)|].err == 0))
    {
      NoUnderflow(writeQueue, history);
      var req := writeQueue[0];
      var n := if |req.rest| < numBytes then |req.rest| else numBytes;
      AckSome(writeQueue, history, n);
      hide Waits;
      left := numBytes - n;
      history := history.(acked := history.acked + n);
      if n == |req.rest| {
        PopFront(if left == 0 then err else 0, closes);
      } else {
        writeQueue := [req.(rest := req.rest[n..])] + writeQueue[1..];
      }
    }

    /** The first loop of onHandleWrite: numBytes more bytes are acknowledged, unless a callback closes the connection. */
    method Acknowledge(err: int, numBytes: nat, closes: set<nat>)
      requires Books() && open && (numBytes > 0 ==> Waits(writeQueue, history) && history.acked + numBytes <= history.sent)
      modifies this`writeQueue, this`done, this`open, this`history
      ensures Books() && (old(Waits(writeQueue, history)) ==> Waits(writeQueue, history))
      ensures history == old(history).(acked := history.acked) && old(history).acked <= history.acked <= old(history).acked + numBytes
      ensures open ==> history.acked == old(history).acked + numBytes
      ensures old(done) <= done && (err == 0 ==> forall i :: |old(done)| <= i < |done| ==> done[i].err == 0)
    {
      hide Waits, Honest, InOrder;
      var left: nat := numBytes;
      while left > 0 && open
        invariant left <= numBytes && Books() && history == old(history).(acked := old(history).acked + numBytes - left)
        invariant (numBytes > 0 ==> Waits(writeQueue, history)) && (old(Waits(writeQueue, history)) ==> Waits(writeQueue, history))
        invariant old(done) <= done && (err == 0 ==> forall i :: |old(done)| <= i < |done| ==> done[i].err == 0)
        decreases left, |writeQueue|
      {
        left := AckFirst(err, left, closes);
      }
    }

    /** Every waiting write fails, until a callback closes the connection. */
    method FailAll(err: int, closes: set<nat>)
      requires Books() && err != 0
      modifies this`writeQueue, this`done, this`open
      ensures Books() && (open ==> writeQueue == [])
      ensures old(done) <= done && forall i :: |old(done)| <= i < |done| ==> done[i].err == err
    {
      while open && writeQueue != []
        invariant Books()
        invariant old(done) <= done && forall i :: |old(done)| <= i < |done| ==> done[i].err == err
        decreases |writeQueue|
      {
        PopFront(err, closes);
      }
    }

    /** One offer to the transport, which takes m > 0 bytes. */
    method TakeFirst(m: nat)
      requires Valid() && open && writeOut != [] && 0 < m <= |writeOut[0]|
      modifies this`writeOut, this`history
      ensures Valid() && history == old(history).(sent := history.sent)
      ensures !broken ==>
                && history.sent == old(history).sent + m <= |history.stream|
                && history.stream[old(history).sent..][..m] == old(writeOut)[0][..m]
      ensures broken ==> history == old(history)
      ensures writeOut == Left(old(writeOut), m)
    {
      if !broken {
        TakeSome(writeQueue, writeOut, history, m);
        hide Waits, Leaves;
        history := history.(sent := history.sent + m);
      }
      if m == |writeOut[0]| {
        writeOut := writeOut[1..];
      } else {
        writeOut := [writeOut[0][m..]] + writeOut[1..];
      }
    }

    /**
     * The last loop: hands waiting bytes to the transport. answers[i] is what the i-th call to it returns, an error or
     * how much of what it was offered it took; with no more answers it takes nothing.
     */
    method PushOut(answers: seq<(int, nat)>, closes: set<nat>) returns (took: Bytes)
      requires Valid() && open
      modifies this
      ensures Valid() && history == old(history).(sent := history.sent) && old(done) <= done
      ensures !old(broken) ==>
                && history.sent == old(history).sent + |took| <= |history.stream|
                && took == history.stream[old(history).sent..history.sent]
      ensures took == TakenBy(old(writeOut), answers)
      ensures old(writeOut) != [] && old(writeOut)[0] == [] && (answers == [] || answers[0].0 == 0) ==>
                writeOut == old(writeOut) && took == []
    {
      hide Waits, Leaves, Honest, InOrder, TakenBy, Left;
      took := [];
      var i := 0;
      SentInStream();
      assert answers[0..] == answers;
      while writeOut != []
        invariant Valid() && open && broken == old(broken) && i <= |answers| && done == old(done)
        invariant history == old(history).(sent := history.sent)
        invariant !broken ==> history.sent == old(history).sent + |took| <= |history.stream|
        invariant !broken ==> took == history.stream[old(history).sent..history.sent]
        invariant took + TakenBy(writeOut, answers[i..]) == TakenBy(old(writeOut), answers)
        invariant if i == 0 then writeOut == old(writeOut) && took == [] else old(writeOut) != [] && old(writeOut)[0] != []
        decreases |answers| - i
      {
        if i == |answers| || answers[i].0 != 0 || answers[i].1 == 0 || writeOut[0] == [] {
          TakenStops(writeOut, answers, i);
          assert took + [] == took;
          if i < |answers| && answers[i].0 != 0 {
            writeOut := [];
            broken := true;
            FailAll(answers[i].0, closes);
          }
          return;
        }
        var m := if answers[i].1 < |writeOut[0]| then answers[i].1 else |writeOut[0]|;
        ghost var sent := history.sent;
        TakenStep(took, writeOut, answers, i, m);
        took := took + writeOut[0][..m];
        TakeFirst(m);
        i := i + 1;
        StreamStep(history.stream, old(history).sent, sent, m);
      }
      TakenStops(writeOut, answers, i);
      assert took + [] == took;
    }

    lemma SentInStream()
      requires Valid()
      ensures open && !broken ==> history.acked <= history.sent <= |history.stream|
    {
    }

    /**
     * onHandleWrite: the transport reports an error, or numBytes more bytes acknowledged, which are never more than it
     * has taken. Returns what the transport takes.
     */
    method OnHandleWrite(err: int, numBytes: nat, answers: seq<(int, nat)>, closes: set<nat>) returns (took: Bytes)
      requires Valid() && open && (numBytes > 0 ==> !broken && history.acked + numBytes <= history.sent)
      modifies this
      ensures Valid() && old(done) <= done
      ensures history == old(history).(sent := history.sent, acked := history.acked)
      ensures old(history).acked <= history.acked <= old(history).acked + numBytes
      ensures open ==> history.acked == old(history).acked + numBytes
      ensures err != 0 ==> took == [] && (open ==> |done| == |history.ends| && writeQueue == [])
      ensures !old(broken) && open ==> Moves(old(history), history, numBytes, took)
      ensures err == 0 && open ==> took == TakenBy(old(writeOut), answers)
      ensures !old(broken) ==>
                && history.sent == old(history).sent + |took| <= |history.stream|
                && took == history.stream[old(history).sent..history.sent]
    {
      hide Waits, Leaves, Honest;
      SentInStream();
      took := [];
      if err != 0 {
        writeOut := [];
      }
      Acknowledge(err, numBytes, closes);
      if err != 0 {
        broken := true;
        if open {
          FailAll(err, closes);
        }
      } else if open {
        if !broken {
          LeavesSame(writeOut, old(history), history);
        }
        took := PushOut(answers, closes);
      }
    }

    /** onWrite; a write made while others wait is offered to the transport at its next report. */
    method OnWrite(data: Bytes, answers: seq<(int, nat)>, closes: set<nat>) returns (took: Bytes)
      requires Valid() && open
      modifies this
      ensures Valid() && old(done) <= done
      ensures history == Written(old(history), data).(sent := history.sent)
      ensures !old(broken) && open ==> Moves(Written(old(history), data), history, 0, took)
      ensures open ==> took == if old(writeQueue) == [] then TakenBy(old(writeOut) + [data], answers) else []
    {
      hide Waits, Leaves;
      SentInStream();
      took := [];
      if !broken {
        WriteQueues(writeQueue, writeOut, history, data);
      }
      writeQueue := writeQueue + [WriteReq(|done| + |writeQueue|, data)];
      writeOut := writeOut + [data];
      history := Written(history, data);
      if |writeQueue| == 1 {
        took := OnHandleWrite(0, 0, answers, closes);
      }
    }
  }

  // ---------------------------------------------------------------- what the callbacks mean

  lemma {:induction false} WaitingEnds(q: seq<WriteReq>, h: History, from: nat, j: nat)
    requires EndsAt(q, h, from) && j < |q|
    ensures q[j].id < |h.ends| == |h.sizes| && h.ends[q[j].id] >= from + |q[j].rest|
    ensures q[j].rest == [] ==> h.sizes[q[j].id] == 0
  {
    if j > 0 {
      WaitingEnds(q[1..], h, from + |q[0].rest|, j - 1);
    }
  }

  /** A write that has bytes, all of them acknowledged, has completed; only an empty write may wait with nothing to wait for. */
  lemma AckedIsDone(q: seq<WriteReq>, done: seq<Completion>, h: History, i: nat)
    requires InOrder(q, done, |h.ends|) && Honest(done, h) && Waits(q, h) && i < |h.ends| && h.sizes[i] > 0 && h.ends[i] <= h.acked
    ensures i < |done|
  {
    if i >= |done| {
      WaitingEnds(q, h, h.acked, i - |done|);
    }
  }

  // ---------------------------------------------------------------- over a socket

  /** A connection on socket a of a uTP run: the run, and what the connection has written. */
  datatype Joint = Joint(sys: UtpSystem.Sys, h: History)

  /** A write joins the connection's queues; or something happens to the sockets. */
  datatype Event = Wrote(data: Bytes) | Net(e: UtpSystem.Event)

  /** What the calls made by an event at x handed over. */
  function HandedOver(x: UtpModel.Socket, x': UtpModel.Socket): Bytes
    requires |x.accepted| <= |x'.accepted|
  {
    x'.accepted[|x.accepted|..]
  }

  /**
   * The connection is told what on_sent is told and hands over what utp_write accepts, as OnHandleWrite and OnWrite promise,
   * whichever callbacks of the event it does that in.
   */
  ghost predicate IsStep(j: Joint, ev: Event, j': Joint) {
    match ev
    case Wrote(data) => j' == j.(h := Written(j.h, data))
    case Net(e) =>
      && UtpSystem.IsStep(j.sys, e, j'.sys)
      && if UtpSystem.AtA(e) then
           var x, x' := j.sys.a, j'.sys.a;
           |x.accepted| <= |x'.accepted| && UtpReports.OnSent(x, e) >= 0 &&
           Moves(j.h, j'.h, UtpReports.OnSent(x, e), HandedOver(x, x'))
         else j'.h == j.h
  }

  /** A run from where the connection takes over socket a, of which all bytes `pre` accepted so far are acknowledged. */
  ghost predicate IsRun(js: seq<Joint>, evs: seq<Event>, pre: Bytes) {
    && |js| == |evs| + 1 && UtpSystem.Inv(js[0].sys) && js[0].sys.a.accepted == pre && js[0].sys.a.reported == |pre|
    && js[0].h == History([], [], [], 0, 0)
    && forall i :: 0 <= i < |evs| ==> IsStep(js[i], evs[i], js[i + 1])
  }

  /** The connection's history is what the socket accepted and reported since. */
  ghost predicate InStep(j: Joint, pre: Bytes) {
    && UtpSystem.Inv(j.sys) && j.h.acked <= j.h.sent <= |j.h.stream|
    && j.sys.a.accepted == pre + j.h.stream[..j.h.sent] && j.sys.a.reported == |pre| + j.h.acked
    && |j.h.ends| == |j.h.sizes| && forall i :: 0 <= i < |j.h.ends| ==> j.h.sizes[i] <= j.h.ends[i] <= |j.h.stream|
  }

  lemma NetKeeps(j: Joint, e: UtpSystem.Event, j': Joint, pre: Bytes)
    requires InStep(j, pre) && IsStep(j, Net(e), j')
    ensures InStep(j', pre)
  {
    hide UtpInvariant.Pair, UtpInvariant.Settled, UtpSystem.React, UtpModel.Acked;
    UtpSystem.StepKeeps(j.sys, e, j'.sys);
    if UtpSystem.AtA(e) {
      var x, x' := j.sys.a, j'.sys.a;
      UtpReports.ReactReports(x, j.sys.b, e);
      assert x'.accepted == x.accepted + HandedOver(x, x');
      MovesOn(j.h, j'.h, UtpReports.OnSent(x, e), HandedOver(x, x'), pre);
      hide HandedOver, UtpReports.OnSent;
      NoMoreThanAccepted(x', j'.sys.b);
    }
  }

  lemma MovesOn(h: History, h': History, n: nat, took: Bytes, pre: Bytes)
    requires Moves(h, h', n, took)
    ensures h'.sent <= |h'.stream| && pre + h.stream[..h.sent] + took == pre + h'.stream[..h'.sent]
  {
    assert h.stream[..h'.sent] == h.stream[..h.sent] + took;
  }

  lemma NoMoreThanAccepted(x: UtpModel.Socket, y: UtpModel.Socket)
    requires UtpInvariant.Pair(x, y) && UtpInvariant.Settled(x)
    ensures x.reported <= x.snd.popped <= |x.accepted|
  {
    hide UtpInvariant.Pair, UtpInvariant.RcvInv, UtpInvariant.HeadLive, Flatten;
    UtpInvariant.PairReported(x, y);
    UtpSystem.ReportedWasAccepted(x, y);
  }

  lemma WroteKeeps(j: Joint, data: Bytes, pre: Bytes)
    requires InStep(j, pre)
    ensures InStep(j.(h := Written(j.h, data)), pre)
  {
    hide UtpSystem.Inv;
    assert (j.h.stream + data)[..j.h.sent] == j.h.stream[..j.h.sent];
  }

  /** In every state of every run the connection and its socket are in step. */
  lemma {:induction false} RunInStep(js: seq<Joint>, evs: seq<Event>, pre: Bytes, i: nat)
    requires IsRun(js, evs, pre) && i < |js|
    ensures InStep(js[i], pre)
  {
    hide UtpSystem.Inv, UtpSystem.IsStep, UtpSystem.AtA, UtpReports.OnSent, Moves;
    if i > 0 {
      RunInStep(js, evs, pre, i - 1);
      assert IsStep(js[i - 1], evs[i - 1], js[i - 1 + 1]);
      hide IsStep;
      match evs[i - 1]
      case Wrote(data) =>
        WroteKeeps(js[i - 1], data, pre);
        WroteIs(js[i - 1], data, js[i]);
      case Net(e) => NetKeeps(js[i - 1], e, js[i], pre);
    }
  }

  lemma WroteIs(j: Joint, data: Bytes, j': Joint)
    requires IsStep(j, Wrote(data), j')
    ensures j' == j.(h := Written(j.h, data))
  {
  }

  /**
   * What OnHandleWrite asks of its caller: in every run on_sent reports no more bytes than the connection has handed over
   * and not yet seen acknowledged.
   */
  lemma ReportedWasTaken(js: seq<Joint>, evs: seq<Event>, pre: Bytes, i: nat, e: UtpSystem.Event)
    requires IsRun(js, evs, pre) && i < |evs| && evs[i] == Net(e) && UtpSystem.AtA(e)
    ensures UtpModel.Shaped(js[i].sys.a.snd) && (e.Deliver? ==> e.ring > 0)
    ensures js[i].h.acked + UtpReports.OnSent(js[i].sys.a, e) <= js[i].h.sent
  {
    hide UtpInvariant.Pair, UtpInvariant.RcvInv, UtpInvariant.AckOk, UtpInvariant.SentOk, UtpInvariant.HeadLive,
         UtpModel.Acked, UtpSystem.React, Flatten, Moves;
    RunInStep(js, evs, pre, i);
    var s := js[i].sys;
    assert IsStep(js[i], evs[i], js[i + 1]);
    if e.Deliver? {
      UtpSystem.FromOutbox(s.a, s.b, e.m);
      UtpInvariant.AckedKeeps(s.a, s.b, e.m, e.ring);
      UtpSystem.ReportedWasAccepted(UtpModel.Acked(s.a, e.m, e.ring), s.b);
    }
  }

  /**
   * End to end: in every run, a write that completed without error has been delivered to the peer, in place, unless the
   * peer stopped reading.
   */
  lemma CompletedIsDelivered(js: seq<Joint>, evs: seq<Event>, pre: Bytes, t: nat, done: seq<Completion>, i: nat)
    requires IsRun(js, evs, pre) && t < |js|
    requires Honest(done, js[t].h) && i < |done| && done[i].err == 0 && !js[t].sys.b.rcv.shutdown
    ensures var h, d, n := js[t].h, js[t].sys.b.rcv.delivered, |pre|;
            && h.sizes[i] <= h.ends[i] <= |h.stream| && n + h.ends[i] <= |d|
            && d[n + h.ends[i] - h.sizes[i]..n + h.ends[i]] == h.stream[h.ends[i] - h.sizes[i]..h.ends[i]]
  {
    hide UtpInvariant.Pair, UtpInvariant.Settled, UtpSystem.SocketSafe, IsRun, UtpSystem.StreamSafe;
    RunInStep(js, evs, pre, t);
    var s, h := js[t].sys, js[t].h;
    UtpSystem.PairStreamSafe(s.a, s.b);
    AckedIsDelivered(s.a, s.b, pre, h);
    var d := s.b.rcv.delivered;
    assert h.ends[i] <= h.acked;
    var lo, hi := h.ends[i] - h.sizes[i], h.ends[i];
    assert d[|pre| + lo..|pre| + hi] == h.stream[lo..hi];
  }

  lemma AckedIsDelivered(x: UtpModel.Socket, y: UtpModel.Socket, pre: Bytes, h: History)
    requires UtpSystem.StreamSafe(x, y) && !y.rcv.shutdown
    requires h.acked <= h.sent <= |h.stream| && x.accepted == pre + h.stream[..h.sent] && x.reported == |pre| + h.acked
    ensures |pre| + h.acked <= |y.rcv.delivered|
    ensures forall k :: |pre| <= k < |pre| + h.acked ==> y.rcv.delivered[k] == h.stream[k - |pre|]
  {
    var d, acc := y.rcv.delivered, x.accepted;
    assert acc[..|pre| + h.acked] <= d;
    assert forall k :: |pre| <= k < |pre| + h.acked ==> d[k] == acc[k] == h.stream[k - |pre|];
  }
}
