/** Small vocabulary shared by every component model. */
module Basics {

  datatype Option<+T> = None | Some(value: T)

  /** What a call of the library ends with: a value, or a raised exception. */
  datatype Result<+T, +E> = Ok(value: T) | Err(error: E)

  function Map<T, R>(f: T -> R, xs: seq<T>): (ys: seq<R>)
    ensures |ys| == |xs|
    ensures forall i | 0 <= i < |xs| :: ys[i] == f(xs[i])
  {
    seq(|xs|, i requires 0 <= i < |xs| => f(xs[i]))
  }

  lemma MapSnoc<T, R>(f: T -> R, xs: seq<T>, x: T)
    ensures Map(f, xs + [x]) == Map(f, xs) + [f(x)]
  {
  }

  function Flatten<T>(xss: seq<seq<T>>): seq<T> {
    if |xss| == 0 then [] else Flatten(xss[..|xss| - 1]) + xss[|xss| - 1]
  }

  lemma FlattenSnoc<T>(xss: seq<seq<T>>, xs: seq<T>)
    ensures Flatten(xss + [xs]) == Flatten(xss) + xs
  {
    assert (xss + [xs])[..|xss|] == xss;
  }

  function Upto(n: nat): (r: seq<nat>)
    ensures |r| == n && forall i | 0 <= i < n :: r[i] == i
  {
    seq(n, i requires 0 <= i < n => i)
  }

  lemma UptoSnoc(n: nat)
    ensures Upto(n + 1) == Upto(n) + [n]
  {
  }

  predicate Distinct(xs: seq<nat>) {
    forall i, j | 0 <= i < j < |xs| :: xs[i] != xs[j]
  }

  function Bit(b: bool): nat { if b then 1 else 0 }

  lemma SubsetSize<X>(a: set<X>, b: set<X>)
    requires a <= b
    ensures |a| <= |b|
  {
    assert |b| == |a| + |b - a|;
  }

  function Min(x: real, y: real): real { if x <= y then x else y }

  lemma Distribute(r: real, x: real, y: real)
    ensures r * (x + y) == r * x + r * y
  {
  }

  function RemoveAt<X>(xs: seq<X>, j: nat): (r: seq<X>)
    requires j < |xs|
    ensures |r| == |xs| - 1
  {
    xs[..j] + xs[j + 1..]
  }

  lemma SplitAt<X>(xs: seq<X>, j: nat)
    requires j < |xs|
    ensures xs == xs[..j] + [xs[j]] + xs[j + 1..]
  {
  }

  lemma Pluck<X>(xs: seq<X>, j: nat)
    requires j < |xs|
    ensures multiset(xs) == multiset(RemoveAt(xs, j)) + multiset{xs[j]}
  {
    assert xs == xs[..j] + ([xs[j]] + xs[j + 1..]);
  }

  lemma PluckImage<R>(xs: seq<nat>, j: nat, g: nat -> R)
    requires j < |xs|
    ensures multiset(Map(g, xs)) == multiset(Map(g, RemoveAt(xs, j))) + multiset{g(xs[j])}
  {
    var ys := Map(g, xs);
    Pluck(ys, j);
    assert RemoveAt(ys, j) == Map(g, RemoveAt(xs, j));
  }

  lemma {:induction false} SameImage<R>(a: seq<nat>, b: seq<nat>, g: nat -> R)
    requires multiset(a) == multiset(b)
    ensures multiset(Map(g, a)) == multiset(Map(g, b))
    decreases |a|
  {
    if |a| == 0 {
      assert |b| == |multiset(b)| == 0;
    } else {
      assert a[0] in multiset(b);
      var j :| 0 <= j < |b| && b[j] == a[0];
      PluckImage(a, 0, g);
      PluckImage(b, j, g);
      assert multiset(RemoveAt(a, 0)) == multiset(RemoveAt(b, j)) by {
        Pluck(a, 0);
        Pluck(b, j);
        var m, n := multiset(RemoveAt(a, 0)), multiset(RemoveAt(b, j));
        assert m == (m + multiset{a[0]}) - multiset{a[0]} && n == (n + multiset{a[0]}) - multiset{a[0]};
      }
      SameImage(RemoveAt(a, 0), RemoveAt(b, j), g);
    }
  }
}
