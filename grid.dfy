/**
 * The asset-major Cartesian product that both nested `forEach` loops of the
 * dashboard walk: every outer element paired with every inner one, outer
 * element first, in list order.
 */
module Grid {

  predicate NoDuplicates<T(==)>(s: seq<T>)
  {
    forall i, j :: 0 <= i < j < |s| ==> s[i] != s[j]
  }

  /** One outer element paired with each inner element, in order. */
  function Row<A, B>(x: A, ys: seq<B>): (r: seq<(A, B)>)
    ensures |r| == |ys|
    ensures forall j :: 0 <= j < |ys| ==> r[j] == (x, ys[j])
  {
    if ys == [] then [] else [(x, ys[0])] + Row(x, ys[1..])
  }

  /** The rows of all outer elements, concatenated in outer order. */
  function Product<A, B>(xs: seq<A>, ys: seq<B>): (r: seq<(A, B)>)
    ensures |r| == |xs| * |ys|
    decreases |xs|
  {
    if xs == [] then []
    else
      var r := Product(xs[..|xs| - 1], ys) + Row(xs[|xs| - 1], ys);
      assert |r| == (|xs| - 1) * |ys| + |ys|;
      r
  }

  lemma MulMonotone(i: nat, n: nat, m: nat)
    requires i < n
    ensures i * m + m <= n * m
  {
    assert (n - i) * m >= m by {
      if m > 0 {
        assert n - i >= 1;
      }
    }
  }

  /** The pair for outer index i and inner index j sits at i * |ys| + j. */
  lemma {:induction false} ProductAt<A, B>(xs: seq<A>, ys: seq<B>, i: nat, j: nat)
    requires i < |xs| && j < |ys|
    ensures i * |ys| + j < |Product(xs, ys)|
    ensures Product(xs, ys)[i * |ys| + j] == (xs[i], ys[j])
    decreases |xs|
  {
    var init := xs[..|xs| - 1];
    MulMonotone(i, |xs|, |ys|);
    if i == |xs| - 1 {
      assert |Product(init, ys)| == i * |ys|;
    } else {
      ProductAt(init, ys, i, j);
      MulMonotone(i, |init|, |ys|);
    }
  }

  /** Exactly the pairs of an outer and an inner element appear. */
  lemma {:induction false} ProductMembership<A, B>(xs: seq<A>, ys: seq<B>, p: (A, B))
    ensures p in Product(xs, ys) <==> p.0 in xs && p.1 in ys
    decreases |xs|
  {
    if xs != [] {
      var init := xs[..|xs| - 1];
      ProductMembership(init, ys, p);
      assert xs == init + [xs[|xs| - 1]];
      assert p in Row(xs[|xs| - 1], ys) <==> p.0 == xs[|xs| - 1] && p.1 in ys;
    }
  }

  /** Lists without repeats give a product without repeated pairs. */
  lemma {:induction false} ProductNoDuplicates<A, B>(xs: seq<A>, ys: seq<B>)
    requires NoDuplicates(xs) && NoDuplicates(ys)
    ensures NoDuplicates(Product(xs, ys))
    decreases |xs|
  {
    if xs != [] {
      var init := xs[..|xs| - 1];
      var x := xs[|xs| - 1];
      ProductNoDuplicates(init, ys);
      var front, row := Product(init, ys), Row(x, ys);
      assert x !in init;
      forall i, j | 0 <= i < |front| && 0 <= j < |row|
        ensures front[i] != row[j]
      {
        ProductMembership(init, ys, front[i]);
      }
      assert Product(xs, ys) == front + row;
    }
  }
}
