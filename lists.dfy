/** `Array.prototype.filter` and the order-preserving sub-list relation it establishes. */
module Lists {

  /** `xs` is obtained from `ys` by deleting elements, keeping the order of the rest. */
  predicate IsSublist<T(==)>(xs: seq<T>, ys: seq<T>)
    decreases |ys|
  {
    if xs == [] then true
    else if ys == [] then false
    else if xs[0] == ys[0] then IsSublist(xs[1..], ys[1..])
    else IsSublist(xs, ys[1..])
  }

  /** Every list is a sub-list of itself. */
  lemma {:induction false} SublistOfItself<T>(xs: seq<T>)
    ensures IsSublist(xs, xs)
  {
    if xs != [] {
      SublistOfItself(xs[1..]);
    }
  }

  /** `xs.filter(keep)`. */
  function Filter<T(==)>(xs: seq<T>, keep: T -> bool): (r: seq<T>)
    ensures |r| <= |xs|
    ensures forall i :: 0 <= i < |r| ==> keep(r[i])
    ensures forall i :: 0 <= i < |r| ==> r[i] in xs
    ensures forall i :: 0 <= i < |xs| && keep(xs[i]) ==> xs[i] in r
    ensures IsSublist(r, xs)
  {
    if xs == [] then []
    else
      var rest := Filter(xs[1..], keep);
      assert forall i :: 1 <= i < |xs| ==> xs[i] == xs[1..][i - 1];
      if keep(xs[0]) then
        assert ([xs[0]] + rest)[1..] == rest;
        [xs[0]] + rest
      else
        assert rest == [] || rest[0] != xs[0];
        rest
  }

  /**
   * `Filter` keeps every value exactly as often as the list holds it when
   * the value passes, and never otherwise: no copy is lost or duplicated.
   */
  lemma {:induction false} FilterCount<T>(xs: seq<T>, keep: T -> bool, y: T)
    ensures multiset(Filter(xs, keep))[y] == if keep(y) then multiset(xs)[y] else 0
  {
    if xs != [] {
      FilterCount(xs[1..], keep, y);
      assert xs == [xs[0]] + xs[1..];
      if keep(xs[0]) {
        assert Filter(xs, keep) == [xs[0]] + Filter(xs[1..], keep);
      } else {
        assert Filter(xs, keep) == Filter(xs[1..], keep);
      }
    }
  }

  /** Filtering distributes over concatenation: `[...a, ...b].filter(keep)`. */
  lemma {:induction false} FilterAppend<T>(a: seq<T>, b: seq<T>, keep: T -> bool)
    ensures Filter(a + b, keep) == Filter(a, keep) + Filter(b, keep)
  {
    if a == [] {
      assert a + b == b;
    } else {
      assert (a + b)[0] == a[0] && (a + b)[1..] == a[1..] + b;
      FilterAppend(a[1..], b, keep);
    }
  }

  /** A filter that keeps everything returns the list itself. */
  lemma {:induction false} FilterKeepsAll<T>(xs: seq<T>, keep: T -> bool)
    requires forall i :: 0 <= i < |xs| ==> keep(xs[i])
    ensures Filter(xs, keep) == xs
  {
    if xs != [] {
      FilterKeepsAll(xs[1..], keep);
    }
  }

  /** Two filters with disjoint conditions together keep no more than the whole list. */
  lemma {:induction false} DisjointFiltersBounded<T>(xs: seq<T>, p: T -> bool, q: T -> bool)
    requires forall i :: 0 <= i < |xs| ==> !(p(xs[i]) && q(xs[i]))
    ensures |Filter(xs, p)| + |Filter(xs, q)| <= |xs|
  {
    if xs != [] {
      DisjointFiltersBounded(xs[1..], p, q);
    }
  }

  /** Filters with the same verdict on every element agree. */
  lemma {:induction false} FilterCongruent<T>(xs: seq<T>, p: T -> bool, q: T -> bool)
    requires forall i :: 0 <= i < |xs| ==> p(xs[i]) == q(xs[i])
    ensures Filter(xs, p) == Filter(xs, q)
  {
    if xs != [] {
      FilterCongruent(xs[1..], p, q);
    }
  }

  /** Lists on which a filter gives the same verdict position by position keep equally many elements. */
  lemma {:induction false} FilterSameVerdicts<T>(xs: seq<T>, ys: seq<T>, keep: T -> bool)
    requires |xs| == |ys|
    requires forall i :: 0 <= i < |xs| ==> keep(xs[i]) == keep(ys[i])
    ensures |Filter(xs, keep)| == |Filter(ys, keep)|
  {
    if xs != [] {
      FilterSameVerdicts(xs[1..], ys[1..], keep);
    }
  }
}
