// The 16-bit sequence space of uTP: true (unbounded) packet numbers travel
// reduced modulo 65536, and every comparison is made on the reduced numbers.
module SeqSpace {

  const M: int := 65536

  /** The 16-bit form of a true packet number. */
  function Wrap(x: int): (r: int)
    ensures 0 <= r < M
  {
    x % M
  }

  /** wrapping_compare_less with a 16-bit mask. */
  predicate WrappingLess(lhs: int, rhs: int) {
    var distDown := (lhs - rhs) % M;
    var distUp := (rhs - lhs) % M;
    distUp < distDown
  }

  // Facts about % are derived from its quotient, one at a time.

  lemma ModIs(x: int, k: int, r: int)
    requires x == M * k + r && 0 <= r < M
    ensures x % M == r
  {
  }

  /** Numbers a multiple of 65536 apart have the same 16-bit form. */
  lemma ModSame(x: int, y: int, k: int)
    requires x == y + M * k
    ensures x % M == y % M
  {
    ModIs(x, y / M + k, y % M);
  }

  lemma WrapDiff(x: int, y: int, c: int)
    ensures (Wrap(x) - Wrap(y) + c) % M == (x - y + c) % M
    ensures (Wrap(x) - y + c) % M == (x - y + c) % M
    ensures (x - Wrap(y) + c) % M == (x - y + c) % M
  {
    ModSame(Wrap(x) - Wrap(y) + c, x - y + c, y / M - x / M);
    ModSame(Wrap(x) - y + c, x - y + c, -(x / M));
    ModSame(x - Wrap(y) + c, x - y + c, y / M);
  }

  lemma WrapAdd(x: int, c: int)
    ensures Wrap(Wrap(x) + c) == Wrap(x + c)
    ensures Wrap(Wrap(x)) == Wrap(x)
  {
    ModSame(Wrap(x) + c, x + c, -(x / M));
    ModSame(Wrap(x), x, -(x / M));
  }

  lemma NegMod(x: int)
    ensures (-x) % M == if x % M == 0 then 0 else M - x % M
  {
    if x % M == 0 {
      ModIs(-x, -(x / M), 0);
    } else {
      ModIs(-x, -(x / M) - 1, M - x % M);
    }
  }

  lemma ModShift(x: int, a: int)
    requires 0 <= a < M
    ensures (x - a) % M == if x % M < a then M + x % M - a else x % M - a
  {
    if x % M < a {
      ModIs(x - a, x / M - 1, M + x % M - a);
    } else {
      ModIs(x - a, x / M, x % M - a);
    }
  }

  /** Numbers less than a full turn apart have different 16-bit forms. */
  lemma WrapSame(x: int, d: nat)
    requires d < M
    ensures Wrap(x) == Wrap(x + d) <==> d == 0
  {
    ModShift(x + d, d);
  }

  /** Only the upward distance matters: less means strictly less than half the space ahead. */
  lemma LessByDistance(lhs: int, rhs: int)
    ensures WrappingLess(lhs, rhs) <==> 1 <= (rhs - lhs) % M < M / 2
  {
    NegMod(rhs - lhs);
    assert lhs - rhs == -(rhs - lhs);
  }

  /** The wrapping comparison is true order for all numbers less than half the space apart. */
  lemma WrappingLessExact(x: int, y: int)
    requires -(M / 2) <= y - x < M / 2
    ensures WrappingLess(Wrap(x), Wrap(y)) <==> x < y
  {
    LessByDistance(Wrap(x), Wrap(y));
    WrapDiff(y, x, 0);
    if y >= x {
      ModIs(y - x, 0, y - x);
    } else {
      ModIs(y - x, -1, y - x + M);
    }
  }

  /** How far a packet number lies past the next expected one, on 16 bits. */
  function Offset(pkSeq: int, ackNr: int): int {
    (pkSeq - ackNr - 1) % M
  }

  /** utp_process_incoming's two wrapping tests on an incoming ack number. */
  predicate AckInRange(pkAck: int, seqNr: int, allowed: int) {
    !WrappingLess(seqNr - 1, pkAck) && !WrappingLess(pkAck, seqNr - 1 - allowed)
  }

  lemma AckDistances(ack: int, seqNr: int, allowed: int)
    requires 0 <= allowed < M
    ensures var d := (seqNr - 1 - ack) % M;
            && (Wrap(ack) - (Wrap(seqNr) - 1)) % M == (if d == 0 then 0 else M - d)
            && (Wrap(seqNr) - 1 - allowed - Wrap(ack)) % M == (if d < allowed then M + d - allowed else d - allowed)
  {
    var x := seqNr - 1 - ack;
    NegMod(x);
    WrapDiff(ack, seqNr, 1);
    assert Wrap(ack) - (Wrap(seqNr) - 1) == Wrap(ack) - Wrap(seqNr) + 1 && -x == ack - seqNr + 1;
    ModShift(x, allowed);
    WrapDiff(seqNr, ack, -1 - allowed);
    assert Wrap(seqNr) - 1 - allowed - Wrap(ack) == Wrap(seqNr) - Wrap(ack) + (-1 - allowed);
    assert x - allowed == seqNr - ack + (-1 - allowed);
  }

  /** The two half-space tests together accept exactly the acks at most `allowed` behind the newest packet. */
  lemma AckInRangeExact(ack: int, seqNr: int, allowed: int)
    requires 1 <= allowed < M / 2
    ensures AckInRange(Wrap(ack), Wrap(seqNr), allowed) <==> (seqNr - 1 - ack) % M <= allowed
  {
    AckDistances(ack, seqNr, allowed);
    LessByDistance(Wrap(seqNr) - 1, Wrap(ack));
    LessByDistance(Wrap(ack), Wrap(seqNr) - 1 - allowed);
  }

  /** For packets at most a full turn of the number space old, the 16-bit acceptance window agrees with
      the true one exactly when the packet is no more than 65536 - 1024 numbers stale. */
  lemma OffsetExact(nr: int, ackNr: int)
    ensures Offset(Wrap(nr), Wrap(ackNr)) == (nr - ackNr - 1) % M
    ensures -M <= nr - ackNr - 1 < M ==>
              ((Offset(Wrap(nr), Wrap(ackNr)) < 1024 <==> 0 <= nr - ackNr - 1 < 1024)
               <==> -(M - 1024) <= nr - ackNr - 1)
  {
    WrapDiff(nr, ackNr, -1);
    var t := nr - ackNr - 1;
    assert Wrap(nr) - Wrap(ackNr) - 1 == Wrap(nr) - Wrap(ackNr) + -1 && t == nr - ackNr + -1;
    if 0 <= t < M {
      ModIs(t, 0, t);
    } else if -M <= t < 0 {
      ModIs(t, -1, t + M);
    }
  }
}
