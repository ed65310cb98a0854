/** Sequence helpers: order-preserving filtering, sums and counts, and
    JavaScript's `Array.prototype.slice`. */
module Seqs {
  import opened Wrappers

  /** The elements of `xs` satisfying `p`, in their original order
      (`xs.filter(p)`, or the rows a SQL `WHERE` keeps). */
  function Filter<T>(xs: seq<T>, p: T -> bool): (r: seq<T>)
    ensures |r| <= |xs|
    ensures forall i :: 0 <= i < |r| ==> r[i] in xs && p(r[i])
    ensures forall i :: 0 <= i < |xs| && p(xs[i]) ==> xs[i] in r
    ensures multiset(r) <= multiset(xs)
    ensures (forall i :: 0 <= i < |xs| ==> p(xs[i])) ==> r == xs
    ensures (forall i :: 0 <= i < |xs| ==> !p(xs[i])) ==> r == []
  {
    if xs == [] then []
    else
      assert xs == [xs[0]] + xs[1..];
      if p(xs[0]) then [xs[0]] + Filter(xs[1..], p)
      else Filter(xs[1..], p)
  }

  /** Filtering distributes over concatenation. */
  lemma {:induction false} FilterConcat<T>(xs: seq<T>, ys: seq<T>, p: T -> bool)
    ensures Filter(xs + ys, p) == Filter(xs, p) + Filter(ys, p)
    decreases |xs|
  {
    if xs != [] {
      var zs := xs + ys;
      assert zs[0] == xs[0] && zs[1..] == xs[1..] + ys;
      FilterConcat(xs[1..], ys, p);
      if p(xs[0]) {
        assert Filter(zs, p) == [xs[0]] + Filter(xs[1..] + ys, p);
        assert Filter(xs, p) == [xs[0]] + Filter(xs[1..], p);
      } else {
        assert Filter(zs, p) == Filter(xs[1..] + ys, p);
        assert Filter(xs, p) == Filter(xs[1..], p);
      }
    } else {
      assert xs + ys == ys;
    }
  }

  /** The sum of `f` over `xs`. */
  function Sum<T>(xs: seq<T>, f: T -> int): (s: int)
    ensures (forall i :: 0 <= i < |xs| ==> f(xs[i]) >= 0) ==> s >= 0
  {
    if xs == [] then 0 else f(xs[0]) + Sum(xs[1..], f)
  }

  /** Sums distribute over concatenation. */
  lemma {:induction false} SumConcat<T>(xs: seq<T>, ys: seq<T>, f: T -> int)
    ensures Sum(xs + ys, f) == Sum(xs, f) + Sum(ys, f)
    decreases |xs|
  {
    if xs != [] {
      assert (xs + ys)[1..] == xs[1..] + ys;
      SumConcat(xs[1..], ys, f);
    } else {
      assert xs + ys == ys;
    }
  }

  /** Replacing one element changes the sum by the difference of its
      values. */
  lemma {:induction false} SumReplaceOne<T>(xs: seq<T>, ys: seq<T>, f: T -> int, k: int)
    requires |xs| == |ys| && 0 <= k < |xs|
    requires forall i :: 0 <= i < |xs| && i != k ==> ys[i] == xs[i]
    ensures Sum(ys, f) == Sum(xs, f) - f(xs[k]) + f(ys[k])
    decreases |xs|
  {
    if k == 0 {
      assert ys[1..] == xs[1..];
    } else {
      SumReplaceOne(xs[1..], ys[1..], f, k - 1);
    }
  }

  /** Changing `f` by `d` (one up or one down) exactly on the elements
      satisfying `p` changes the sum by `d` per such element. */
  lemma {:induction false} SumPointwise<T>(xs: seq<T>, ys: seq<T>, f: T -> int, p: T -> bool, d: int)
    requires d == 1 || d == -1
    requires |xs| == |ys|
    requires forall i :: 0 <= i < |xs| ==> f(ys[i]) == f(xs[i]) + (if p(xs[i]) then d else 0)
    ensures Sum(ys, f) == Sum(xs, f) + (if d == 1 then Count(xs, p) as int else -(Count(xs, p) as int))
    decreases |xs|
  {
    if xs != [] {
      SumPointwise(xs[1..], ys[1..], f, p, d);
    }
  }

  /** The sum over the elements a filter keeps and over those it drops
      (those satisfying the complement `q`) make up the whole sum. */
  lemma {:induction false} SumFilterSplit<T>(xs: seq<T>, f: T -> int, p: T -> bool, q: T -> bool)
    requires forall x :: q(x) == !p(x)
    ensures Sum(xs, f) == Sum(Filter(xs, p), f) + Sum(Filter(xs, q), f)
    decreases |xs|
  {
    if xs != [] {
      var tail := xs[1..];
      SumFilterSplit(tail, f, p, q);
      if p(xs[0]) {
        assert Filter(xs, p) == [xs[0]] + Filter(tail, p) && Filter(xs, q) == Filter(tail, q);
        assert Sum(Filter(xs, p), f) == f(xs[0]) + Sum(Filter(tail, p), f);
      } else {
        assert Filter(xs, q) == [xs[0]] + Filter(tail, q) && Filter(xs, p) == Filter(tail, p);
        assert Sum(Filter(xs, q), f) == f(xs[0]) + Sum(Filter(tail, q), f);
      }
    }
  }

  /** With `f` non-negative, filtering by a stronger predicate `p` than `q`
      never gives a larger sum. */
  lemma {:induction false} SumFilterMonotone<T>(xs: seq<T>, f: T -> int, p: T -> bool, q: T -> bool)
    requires forall i :: 0 <= i < |xs| ==> (p(xs[i]) ==> q(xs[i])) && f(xs[i]) >= 0
    ensures Sum(Filter(xs, p), f) <= Sum(Filter(xs, q), f)
    decreases |xs|
  {
    if xs != [] {
      var tail := xs[1..];
      assert forall i :: 0 <= i < |tail| ==> tail[i] == xs[i + 1];
      SumFilterMonotone(tail, f, p, q);
      if p(xs[0]) {
        assert Filter(xs, p) == [xs[0]] + Filter(tail, p) && Filter(xs, q) == [xs[0]] + Filter(tail, q);
        assert Sum(Filter(xs, p), f) == f(xs[0]) + Sum(Filter(tail, p), f);
        assert Sum(Filter(xs, q), f) == f(xs[0]) + Sum(Filter(tail, q), f);
      } else if q(xs[0]) {
        assert Filter(xs, p) == Filter(tail, p) && Filter(xs, q) == [xs[0]] + Filter(tail, q);
        assert Sum(Filter(xs, q), f) == f(xs[0]) + Sum(Filter(tail, q), f);
      } else {
        assert Filter(xs, p) == Filter(tail, p) && Filter(xs, q) == Filter(tail, q);
      }
    }
  }

  /** Summing over the elements that satisfy `p` is summing over all of
      them with the others counted as 0. */
  lemma {:induction false} SumFilterMasked<T>(xs: seq<T>, f: T -> int, p: T -> bool, g: T -> int)
    requires forall i :: 0 <= i < |xs| ==> g(xs[i]) == if p(xs[i]) then f(xs[i]) else 0
    ensures Sum(Filter(xs, p), f) == Sum(xs, g)
    decreases |xs|
  {
    if xs != [] {
      var tail := xs[1..];
      assert forall i :: 0 <= i < |tail| ==> tail[i] == xs[i + 1];
      SumFilterMasked(tail, f, p, g);
      assert Sum(xs, g) == g(xs[0]) + Sum(tail, g);
      if p(xs[0]) {
        assert Filter(xs, p) == [xs[0]] + Filter(tail, p);
        assert Sum(Filter(xs, p), f) == f(xs[0]) + Sum(Filter(tail, p), f);
      } else {
        assert Filter(xs, p) == Filter(tail, p);
      }
    }
  }

  /** How many elements of `xs` satisfy `p`. */
  function Count<T>(xs: seq<T>, p: T -> bool): (n: nat)
    ensures n == |Filter(xs, p)|
    ensures n == 0 <==> forall i :: 0 <= i < |xs| ==> !p(xs[i])
  {
    if xs == [] then 0 else (if p(xs[0]) then 1 else 0) + Count(xs[1..], p)
  }

  /** Whether some element of `xs` satisfies `p`. */
  predicate Any<T>(xs: seq<T>, p: T -> bool) {
    exists i :: 0 <= i < |xs| && p(xs[i])
  }

  /** The relative index rule of `slice`: negative counts from the end, and
      the result is clamped to `0..len`. */
  function SliceIndex(i: int, len: nat): (k: nat)
    ensures k <= len
    ensures 0 <= i <= len ==> k == i
  {
    if i < 0 then (if len + i < 0 then 0 else len + i) else if i > len then len else i
  }

  /** `xs.slice(start, end)`. */
  function Slice<T>(xs: seq<T>, start: int, end: int): (r: seq<T>)
    ensures 0 <= start <= end <= |xs| ==> r == xs[start..end]
    ensures |r| <= |xs|
  {
    var a := SliceIndex(start, |xs|);
    var b := SliceIndex(end, |xs|);
    if a < b then xs[a..b] else []
  }

  /** `xs.map(f)`. */
  function Map<T, U>(xs: seq<T>, f: T -> U): (r: seq<U>)
    ensures |r| == |xs|
    ensures forall i :: 0 <= i < |xs| ==> r[i] == f(xs[i])
  {
    if xs == [] then [] else [f(xs[0])] + Map(xs[1..], f)
  }

  /** The rows of a SQL `UPDATE … SET … WHERE p`: rows satisfying `p` are
      rewritten by `f`, every other row stays, and the row order is kept. */
  function SetWhere<T>(xs: seq<T>, p: T -> bool, f: T -> T): (r: seq<T>)
    ensures |r| == |xs|
    ensures forall i :: 0 <= i < |xs| && p(xs[i]) ==> r[i] == f(xs[i])
    ensures forall i :: 0 <= i < |xs| && !p(xs[i]) ==> r[i] == xs[i]
  {
    if xs == [] then []
    else [if p(xs[0]) then f(xs[0]) else xs[0]] + SetWhere(xs[1..], p, f)
  }

  /** An update that matches no row changes nothing. */
  lemma SetWhereNoMatch<T>(xs: seq<T>, p: T -> bool, f: T -> T)
    requires forall i :: 0 <= i < |xs| ==> !p(xs[i])
    ensures SetWhere(xs, p, f) == xs
  {
  }

  /** The index of the first element satisfying `p`, if any (`findIndex`,
      or `rows[0]` of a query). */
  function FirstIndex<T>(xs: seq<T>, p: T -> bool): (r: Option<nat>)
    ensures r.None? <==> forall i :: 0 <= i < |xs| ==> !p(xs[i])
    ensures r.Some? ==> r.value < |xs| && p(xs[r.value])
    ensures r.Some? ==> forall i :: 0 <= i < r.value ==> !p(xs[i])
  {
    if xs == [] then None
    else if p(xs[0]) then Some(0)
    else match FirstIndex(xs[1..], p)
      case None => None
      case Some(k) => Some(k + 1)
  }

  /** The first element satisfying `p`, if any. */
  function First<T>(xs: seq<T>, p: T -> bool): (r: Option<T>)
    ensures r.None? <==> forall i :: 0 <= i < |xs| ==> !p(xs[i])
    ensures r.Some? ==> r.value in xs && p(r.value)
  {
    match FirstIndex(xs, p)
      case None => None
      case Some(k) => Some(xs[k])
  }

  /** A sequence with the same elements as a filter of `xs` holds only
      elements of `xs` that satisfy `p`. */
  lemma PermutedFilterMembers<T>(r: seq<T>, xs: seq<T>, p: T -> bool)
    requires multiset(r) == multiset(Filter(xs, p))
    ensures forall i :: 0 <= i < |r| ==> p(r[i]) && r[i] in xs
  {
    forall i | 0 <= i < |r| ensures p(r[i]) && r[i] in xs {
      assert r[i] in multiset(r);
      assert r[i] in Filter(xs, p);
    }
  }

  /** Filtering with two predicates that agree everywhere gives the same
      result. */
  lemma {:induction false} FilterSamePredicate<T>(xs: seq<T>, p: T -> bool, q: T -> bool)
    requires forall x :: p(x) == q(x)
    ensures Filter(xs, p) == Filter(xs, q)
    decreases |xs|
  {
    if xs != [] {
      FilterSamePredicate(xs[1..], p, q);
    }
  }

  /** The inner join of `xs` with `ys` on `on`, in nested-loop order: each
      `x` paired with every matching `y`. */
  function Join<A, B>(xs: seq<A>, ys: seq<B>, on: (A, B) -> bool): (r: seq<(A, B)>)
    ensures forall p :: p in r ==> p.0 in xs && p.1 in ys && on(p.0, p.1)
  {
    if xs == [] then []
    else
      var here := Partners(xs[0], ys, on);
      var rest := Join(xs[1..], ys, on);
      assert forall a :: a in xs[1..] ==> a in xs;
      here + rest
  }

  /** `x` paired with each element of `ys` it matches. */
  function Partners<A, B>(x: A, ys: seq<B>, on: (A, B) -> bool): (r: seq<(A, B)>)
    ensures forall p :: p in r ==> p.0 == x && p.1 in ys && on(x, p.1)
    ensures forall y :: y in ys && on(x, y) ==> (x, y) in r
  {
    var f := Filter(ys, (y: B) => on(x, y));
    var r := Map(f, (y: B) => (x, y));
    assert forall y :: y in ys && on(x, y) ==> (x, y) in r by {
      forall y | y in ys && on(x, y) ensures (x, y) in r {
        var k :| 0 <= k < |f| && f[k] == y;
        assert r[k] == (x, y);
      }
    }
    r
  }

  /** Every matching pair appears in the join. */
  lemma {:induction false} JoinComplete<A, B>(xs: seq<A>, ys: seq<B>, on: (A, B) -> bool, x: A, y: B)
    requires x in xs && y in ys && on(x, y)
    ensures (x, y) in Join(xs, ys, on)
    decreases |xs|
  {
    if xs[0] == x {
      assert (x, y) in Partners(x, ys, on);
    } else {
      JoinComplete(xs[1..], ys, on, x, y);
    }
  }

  /** The rows SQL `OFFSET o LIMIT l` keeps: skip `o`, then take at most
      `l`, or everything when `l` is `None`. */
  function Window<T>(xs: seq<T>, offset: nat, limit: Option<nat>): (r: seq<T>)
    ensures limit.Some? ==> |r| <= limit.value
    ensures offset >= |xs| ==> r == []
    ensures offset <= |xs| && limit.None? ==> r == xs[offset..]
    ensures forall i :: 0 <= i < |r| ==> offset + i < |xs| && r[i] == xs[offset + i]
  {
    if offset >= |xs| then []
    else if limit.None? || offset + limit.value >= |xs| then xs[offset..]
    else xs[offset..offset + limit.value]
  }

  /** Consecutive windows of the same size tile the sequence. */
  lemma WindowsTile<T>(xs: seq<T>, offset: nat, size: nat)
    ensures Window(xs, offset, Some(size)) + Window(xs, offset + size, Some(size)) == Window(xs, offset, Some(2 * size))
  {
  }

  /** A filter and its complement split the sequence. */
  lemma {:induction false} CountSplit<T>(xs: seq<T>, p: T -> bool, q: T -> bool)
    requires forall x :: q(x) == !p(x)
    ensures |Filter(xs, p)| + |Filter(xs, q)| == |xs|
    decreases |xs|
  {
    if xs != [] {
      CountSplit(xs[1..], p, q);
    }
  }

  /** Filtering by a weaker predicate first changes nothing. */
  lemma {:induction false} FilterFilter<T>(xs: seq<T>, p: T -> bool, q: T -> bool)
    requires forall x :: q(x) ==> p(x)
    ensures Filter(Filter(xs, p), q) == Filter(xs, q)
    decreases |xs|
  {
    if xs != [] {
      FilterFilter(xs[1..], p, q);
      if p(xs[0]) {
        assert Filter(xs, p) == [xs[0]] + Filter(xs[1..], p);
        assert Filter(xs, p)[1..] == Filter(xs[1..], p);
      }
    }
  }
}
