/** Sequences of bytes, and sequences of sequences laid end to end. */
module Seqs {

  type byte = x: int | 0 <= x < 256

  lemma Assoc<T>(a: seq<T>, b: seq<T>, c: seq<T>)
    ensures (a + b) + c == a + (b + c)
  {
  }

  function Flatten<T>(xs: seq<seq<T>>): seq<T> {
    if xs == [] then [] else Flatten(xs[..|xs| - 1]) + xs[|xs| - 1]
  }

  lemma FlattenSnoc<T>(xs: seq<seq<T>>, x: seq<T>)
    ensures Flatten(xs + [x]) == Flatten(xs) + x
  {
  }

  lemma {:induction false} FlattenAppend<T>(xs: seq<seq<T>>, ys: seq<seq<T>>)
    ensures Flatten(xs + ys) == Flatten(xs) + Flatten(ys)
  {
    if ys == [] {
      assert xs + ys == xs;
    } else {
      var init, last := ys[..|ys| - 1], ys[|ys| - 1];
      FlattenAppend(xs, init);
      assert xs + ys == (xs + init) + [last];
      FlattenSnoc(xs + init, last);
      assert (Flatten(xs) + Flatten(init)) + last == Flatten(xs) + (Flatten(init) + last);
    }
  }

  lemma FlattenCons<T>(x: seq<T>, xs: seq<seq<T>>)
    ensures Flatten([x] + xs) == x + Flatten(xs)
  {
    FlattenAppend([x], xs);
    assert Flatten([x]) == [] + x;
  }

  /** Moving the front of b to the end of a. */
  lemma Move<T>(a: seq<T>, b: seq<T>, n: nat)
    requires n <= |b|
    ensures (a + b[..n]) + b[n..] == a + b
  {
  }

  /** Where the pair a, b first stands in s, or |s| if nowhere. */
  function FindPair<T(==)>(s: seq<T>, a: T, b: T): (k: nat)
    ensures k <= |s|
    ensures k < |s| ==> k + 1 < |s| && s[k] == a && s[k + 1] == b
    ensures forall i :: 0 <= i < k && i + 1 < |s| ==> !(s[i] == a && s[i + 1] == b)
  {
    if |s| < 2 then |s|
    else if s[0] == a && s[1] == b then 0
    else FindPair(s[1..], a, b) + 1
  }

  lemma FindPairUnique<T>(s: seq<T>, a: T, b: T, k: nat)
    requires k + 1 < |s| && s[k] == a && s[k + 1] == b
    requires forall i :: 0 <= i < k ==> !(s[i] == a && s[i + 1] == b)
    ensures FindPair(s, a, b) == k
  {
  }
}
