/**
 * Small facts about sequence concatenation, stated once so that proofs about
 * recursive functions over sequences can use them as plain equations.
 */
module Seqs {
  lemma SplitLast<T>(b: seq<T>)
    requires b != []
    ensures b == b[..|b| - 1] + [b[|b| - 1]]
  {
  }

  lemma Assoc<T>(a: seq<T>, b: seq<T>, c: seq<T>)
    ensures (a + b) + c == a + (b + c)
  {
  }

  lemma AppendEmpty<T>(a: seq<T>)
    ensures a + [] == a && [] + a == a
  {
  }

  lemma SnocParts<T>(a: seq<T>, x: T)
    ensures (a + [x])[..|a|] == a && (a + [x])[|a|] == x && |a + [x]| == |a| + 1
  {
  }

  lemma SnocIndex<T>(a: seq<T>, x: T, i: nat)
    requires i < |a|
    ensures (a + [x])[i] == a[i]
  {
  }

  lemma TakeAll<T>(a: seq<T>)
    ensures a[..|a|] == a && a[0..] == a
  {
  }

  lemma SplitAt<T>(a: seq<T>, k: nat)
    requires k <= |a|
    ensures a == a[..k] + a[k..]
  {
  }

  lemma DropDrop<T>(a: seq<T>, j: nat, k: nat)
    requires j + k <= |a|
    ensures a[j..][k..] == a[j + k..]
  {
  }

  lemma TakeCons<T>(a: seq<T>, k: nat)
    requires 1 <= k <= |a|
    ensures a[..k] == [a[0]] + a[1..][..k - 1]
  {
  }

  lemma AppendParts<T>(a: seq<T>, b: seq<T>)
    ensures (a + b)[..|a|] == a && (a + b)[|a|..] == b
  {
  }

  /** `f` applied to every element, built from the back. */
  function Map<A, B>(xs: seq<A>, f: A -> B): (r: seq<B>)
    ensures |r| == |xs|
  {
    if xs == [] then [] else Map(xs[..|xs| - 1], f) + [f(xs[|xs| - 1])]
  }

  lemma {:induction false} MapIndex<A, B>(xs: seq<A>, f: A -> B, i: nat)
    requires i < |xs|
    ensures Map(xs, f)[i] == f(xs[i])
  {
    var k := |xs| - 1;
    SnocParts(Map(xs[..k], f), f(xs[k]));
    if i < k {
      MapIndex(xs[..k], f, i);
      SnocIndex(Map(xs[..k], f), f(xs[k]), i);
    }
  }
}
