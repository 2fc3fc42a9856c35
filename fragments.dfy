/**
 * The fragment model: one styled, positioned text span as the PDF parser
 * reports it, and the font statistics the converter derives from a list of them.
 * Font sizes and coordinates are exact reals; the source's floating point
 * rounding is not modelled.
 */
module Fragments {

  /** A text span: its text, font size, style flag bits, the y0 of its bounding box and its 1-based page. */
  datatype Fragment = Fragment(text: string, size: real, flags: int, y0: real, page: int)

  /** Python's `flags & 16` (bold); Euclidean division by a positive divisor is floor division. */
  predicate IsBold(flags: int)
  {
    (flags / 16) % 2 == 1
  }

  /** Python's `flags & 2` (italic). */
  predicate IsItalic(flags: int)
  {
    (flags / 2) % 2 == 1
  }

  /** Python's `abs` on a coordinate difference. */
  function Abs(x: real): (r: real)
    ensures r >= 0.0 && (r == x || r == -x)
  {
    if x < 0.0 then -x else x
  }

  function Sizes(frs: seq<Fragment>): (r: seq<real>)
    ensures |r| == |frs| && forall i :: 0 <= i < |frs| ==> r[i] == frs[i].size
  {
    seq(|frs|, i requires 0 <= i < |frs| => frs[i].size)
  }

  function Sum(xs: seq<real>): real
  {
    if xs == [] then 0.0 else xs[0] + Sum(xs[1..])
  }

  /** `max(xs)`: an element of the list that no element exceeds. */
  function Max(xs: seq<real>): (m: real)
    requires xs != []
    ensures m in xs && forall i :: 0 <= i < |xs| ==> xs[i] <= m
  {
    if |xs| == 1 then xs[0]
    else
      var rest := Max(xs[1..]);
      assert forall i :: 1 <= i < |xs| ==> xs[i] == xs[1..][i - 1];
      if xs[0] >= rest then xs[0] else rest
  }

  /** `sum(xs) / len(xs)`. */
  function Average(xs: seq<real>): real
    requires xs != []
  {
    Sum(xs) / (|xs| as real)
  }

  /** The sum never exceeds the count times the largest element. */
  lemma {:induction false} SumAtMost(xs: seq<real>, m: real)
    requires forall i :: 0 <= i < |xs| ==> xs[i] <= m
    ensures Sum(xs) <= (|xs| as real) * m
  {
    if xs != [] {
      SumAtMost(xs[1..], m);
      assert forall i :: 0 <= i < |xs[1..]| ==> xs[1..][i] == xs[i + 1];
    }
  }

  /** The sum of n copies of x is n times x. */
  lemma {:induction false} SumConstant(xs: seq<real>, x: real)
    requires forall i :: 0 <= i < |xs| ==> xs[i] == x
    ensures Sum(xs) == (|xs| as real) * x
  {
    if xs != [] {
      SumConstant(xs[1..], x);
      assert forall i :: 0 <= i < |xs[1..]| ==> xs[1..][i] == xs[i + 1];
    }
  }

  /** The average font size never exceeds the maximum. */
  lemma AverageAtMostMax(xs: seq<real>)
    requires xs != []
    ensures Average(xs) <= Max(xs)
  {
    var n, m := |xs| as real, Max(xs);
    SumAtMost(xs, m);
    assert Sum(xs) / n <= (n * m) / n by { DivideMonotone(Sum(xs), n * m, n); }
    assert (n * m) / n == m;
  }

  lemma DivideMonotone(a: real, b: real, n: real)
    requires a <= b && n > 0.0
    ensures a / n <= b / n
  {
    assert b / n - a / n == (b - a) / n;
  }

  /** When every size is the same, the average is that size. */
  lemma AverageOfConstant(xs: seq<real>, x: real)
    requires xs != [] && forall i :: 0 <= i < |xs| ==> xs[i] == x
    ensures Average(xs) == x
  {
    SumConstant(xs, x);
  }
}
