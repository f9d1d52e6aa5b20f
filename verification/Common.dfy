// Shared value types and sequence facts.
module Common {

  datatype Option<+T> = None | Some(value: T)

  newtype Byte = x: int | 0 <= x < 256

  type Bytes = seq<Byte>

  /** The concatenation of all parts, in order. */
  function Flatten(parts: seq<Bytes>): Bytes {
    if parts == [] then [] else parts[0] + Flatten(parts[1..])
  }

  lemma {:induction false} FlattenConcat(a: seq<Bytes>, b: seq<Bytes>)
    ensures Flatten(a + b) == Flatten(a) + Flatten(b)
  {
    if a == [] {
      assert a + b == b;
    } else {
      assert (a + b)[1..] == a[1..] + b;
      FlattenConcat(a[1..], b);
    }
  }

  lemma FlattenSnoc(a: seq<Bytes>, x: Bytes)
    ensures Flatten(a + [x]) == Flatten(a) + x
  {
    FlattenConcat(a, [x]);
    assert Flatten([x]) == x + Flatten([x][1..]);
  }

  /** A prefix of the parts flattens to a prefix of the whole. */
  lemma FlattenPrefix(a: seq<Bytes>, n: nat)
    requires n <= |a|
    ensures Flatten(a[..n]) <= Flatten(a)
    ensures Flatten(a) == Flatten(a[..n]) + Flatten(a[n..])
  {
    hide Flatten;
    FlattenConcat(a[..n], a[n..]);
    assert a[..n] + a[n..] == a;
  }

  lemma AppendTake(p: Bytes, data: Bytes, num: nat, n: nat)
    requires num + n <= |data|
    ensures (p + data[..num]) + data[num..][..n] == p + data[..num + n]
  {
    assert data[..num] + data[num..][..n] == data[..num + n];
  }

  function Sum(s: seq<nat>): nat {
    if s == [] then 0 else s[0] + Sum(s[1..])
  }

  function Elements<T>(s: seq<T>): set<T> {
    set x | x in s
  }

  ghost predicate NoDup<T>(s: seq<T>) {
    forall i, j :: 0 <= i < j < |s| ==> s[i] != s[j]
  }

  lemma {:induction false} ElementsSize<T>(s: seq<T>)
    requires NoDup(s)
    ensures |Elements(s)| == |s|
  {
    if s != [] {
      var last := |s| - 1;
      ElementsSize(s[..last]);
      assert s == s[..last] + [s[last]];
      assert Elements(s) == Elements(s[..last]) + {s[last]};
    }
  }
}
