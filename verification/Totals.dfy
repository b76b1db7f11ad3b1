/** Sums of pointer multisets over sequences. */
module Totals {
  import opened Options
  import opened Slabs

  function Total<X>(xs: seq<X>, f: X -> multiset<Ptr>): multiset<Ptr> {
    if xs == [] then multiset{} else Total(xs[..|xs| - 1], f) + f(xs[|xs| - 1])
  }

  /** The sum without element `i`. */
  function TotalBut<X>(xs: seq<X>, f: X -> multiset<Ptr>, i: nat): multiset<Ptr>
    requires i < |xs|
  {
    Total(xs[..i], f) + Total(xs[i + 1..], f)
  }

  lemma TotalAppend<X>(xs: seq<X>, f: X -> multiset<Ptr>, x: X)
    ensures Total(xs + [x], f) == Total(xs, f) + f(x)
  {
  }

  lemma {:induction false} TotalConcat<X>(xs: seq<X>, ys: seq<X>, f: X -> multiset<Ptr>)
    ensures Total(xs + ys, f) == Total(xs, f) + Total(ys, f)
  {
    if ys == [] {
      assert xs + ys == xs;
    } else {
      var n := |ys| - 1;
      TotalConcat(xs, ys[..n], f);
      assert xs + ys == xs + ys[..n] + [ys[n]];
      TotalAppend(xs + ys[..n], f, ys[n]);
    }
  }

  lemma TotalSplit<X>(xs: seq<X>, f: X -> multiset<Ptr>, i: nat, x: X)
    requires i < |xs|
    ensures Total(xs, f) == TotalBut(xs, f, i) + f(xs[i])
    ensures Total(xs[i := x], f) == TotalBut(xs, f, i) + f(x)
  {
    assert xs == xs[..i] + [xs[i]] + xs[i + 1..];
    assert xs[i := x] == xs[..i] + [x] + xs[i + 1..];
    TotalConcat(xs[..i] + [xs[i]], xs[i + 1..], f);
    TotalConcat(xs[..i] + [x], xs[i + 1..], f);
    TotalAppend(xs[..i], f, xs[i]);
    TotalAppend(xs[..i], f, x);
  }

  lemma {:induction false} TotalMember<X>(xs: seq<X>, f: X -> multiset<Ptr>, j: nat)
    requires j < |xs|
    ensures f(xs[j]) <= Total(xs, f)
  {
    if j < |xs| - 1 {
      TotalMember(xs[..|xs| - 1], f, j);
    }
  }

  lemma TotalButMember<X>(xs: seq<X>, f: X -> multiset<Ptr>, i: nat, j: nat)
    requires i < |xs| && j < |xs| && i != j
    ensures f(xs[j]) <= TotalBut(xs, f, i)
  {
    if j < i {
      TotalMember(xs[..i], f, j);
    } else {
      TotalMember(xs[i + 1..], f, j - i - 1);
    }
  }
}
