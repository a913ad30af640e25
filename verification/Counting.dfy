/** How many elements a sequence without repetitions has. */
module Counting {
  function Elements(x: seq<nat>): set<nat> { set a | a in x }

  predicate Distinct<T(==)>(x: seq<T>) { forall i, j | 0 <= i < j < |x| :: x[i] != x[j] }

  lemma {:induction false} DistinctSize(x: seq<nat>)
    requires Distinct(x)
    ensures |Elements(x)| == |x|
  {
    if x == [] {
      assert Elements(x) == {};
    } else {
      var y, v := x[..|x| - 1], x[|x| - 1];
      DistinctSize(y);
      assert v !in y && x == y + [v];
      assert Elements(x) == Elements(y) + {v};
    }
  }

  function Below(n: nat): (b: set<nat>)
    ensures |b| == n && forall t: nat :: t in b <==> t < n
  {
    if n == 0 then {} else Below(n - 1) + {n - 1}
  }

  /** Distinct numbers below n are at most n, and n only if they are all of them. */
  lemma Pigeons(x: seq<nat>, n: nat)
    requires Distinct(x) && forall i: nat | i < |x| :: x[i] < n
    ensures |x| <= n && (|x| == n <==> forall t: nat | t < n :: t in x)
  {
    DistinctSize(x);
    var rest := Below(n) - Elements(x);
    assert Elements(x) <= Below(n);
    assert Below(n) == Elements(x) + rest;
    assert |Below(n)| == |Elements(x)| + |rest|;
    if |x| == n {
      assert rest == {};
      forall t: nat | t < n ensures t in x { assert t in Below(n) && t !in rest; }
    }
    if forall t: nat | t < n :: t in x {
      assert rest == {} by { forall t: nat ensures t !in rest {} }
    }
  }
}
