/** The JavaScript array methods the core relies on (`find`, `filter`), and a day-indexed map built the way a loop over days builds one. */
module Seqs {
  import opened Wrappers

  /** `findIndex`: the position of the first element satisfying `p`, if any. */
  function FindIndex<T>(xs: seq<T>, p: T -> bool): (r: Option<nat>)
    ensures r.Some? ==> r.value < |xs| && p(xs[r.value])
    ensures r.Some? ==> forall j :: 0 <= j < r.value ==> !p(xs[j])
    ensures r.None? ==> forall j :: 0 <= j < |xs| ==> !p(xs[j])
  {
    if xs == [] then None
    else if p(xs[0]) then Some(0)
    else
      match FindIndex(xs[1..], p)
      case None => None
      case Some(i) => Some(i + 1)
  }

  /** `find`: the first element satisfying `p`, or None (`undefined`). */
  function Find<T>(xs: seq<T>, p: T -> bool): (r: Option<T>)
  {
    match FindIndex(xs, p)
    case None => None
    case Some(i) => Some(xs[i])
  }

  /** `filter`: the elements satisfying `p`, in their original order. */
  function Filter<T(!new)>(xs: seq<T>, p: T -> bool): (r: seq<T>)
    ensures |r| <= |xs|
    ensures forall i :: 0 <= i < |r| ==> p(r[i])
    ensures forall x :: multiset(r)[x] == if p(x) then multiset(xs)[x] else 0
  {
    if xs == [] then []
    else
      var rest := Filter(xs[1..], p);
      assert xs == [xs[0]] + xs[1..];
      if p(xs[0]) then [xs[0]] + rest else rest
  }

  /** Filtering a list with one more element in front. */
  lemma FilterCons<T(!new)>(x: T, xs: seq<T>, p: T -> bool)
    ensures Filter([x] + xs, p) == (if p(x) then [x] else []) + Filter(xs, p)
  {
    assert ([x] + xs)[1..] == xs;
  }

  /** An element survives `filter` exactly when it was there and satisfies the predicate. */
  lemma FilterMember<T(!new)>(xs: seq<T>, p: T -> bool, x: T)
    ensures x in Filter(xs, p) <==> x in xs && p(x)
  {
    assert x in Filter(xs, p) <==> multiset(Filter(xs, p))[x] > 0;
    assert x in xs <==> multiset(xs)[x] > 0;
  }

  /** The map from each `d` with `lo <= d < hi` and `keep(d)` to `f(d)`. */
  function Tabulate<V>(keep: int -> bool, f: int -> V, lo: int, hi: int): (m: map<int, V>)
    ensures forall d :: d in m <==> lo <= d < hi && keep(d)
  {
    map d | lo <= d < hi && keep(d) :: f(d)
  }

  /** Extending the range by one adds the new point when it is kept, and nothing otherwise. */
  lemma TabulateStep<V>(keep: int -> bool, f: int -> V, lo: int, hi: int)
    requires lo <= hi
    ensures keep(hi) ==> Tabulate(keep, f, lo, hi + 1) == Tabulate(keep, f, lo, hi)[hi := f(hi)]
    ensures !keep(hi) ==> Tabulate(keep, f, lo, hi + 1) == Tabulate(keep, f, lo, hi)
  {
  }
}
