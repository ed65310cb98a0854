/** Sorting by a key, as SQL `ORDER BY` and array sorts do.

    A key is a sequence of integers compared lexicographically, which covers
    numeric columns (a one-element key) and text columns (the code points of
    the string). Rows with equal keys keep their table order; SQL leaves that
    order unspecified, so the contracts of the queries promise only the key
    order and the multiset of rows. */
module Sorting {

  /** Lexicographic order on integer sequences; a proper prefix comes first. */
  predicate LexLe(a: seq<int>, b: seq<int>)
    decreases |a|
  {
    if |a| == 0 then true
    else if |b| == 0 then false
    else if a[0] != b[0] then a[0] < b[0]
    else LexLe(a[1..], b[1..])
  }

  lemma {:induction false} LexLeTotal(a: seq<int>, b: seq<int>)
    ensures LexLe(a, b) || LexLe(b, a)
    decreases |a|
  {
    if |a| > 0 && |b| > 0 && a[0] == b[0] {
      LexLeTotal(a[1..], b[1..]);
    }
  }

  lemma {:induction false} LexLeTrans(a: seq<int>, b: seq<int>, c: seq<int>)
    requires LexLe(a, b) && LexLe(b, c)
    ensures LexLe(a, c)
    decreases |a|
  {
    if |a| > 0 && |b| > 0 && |c| > 0 && a[0] == b[0] && b[0] == c[0] {
      LexLeTrans(a[1..], b[1..], c[1..]);
    }
  }

  /** The direction of an `ORDER BY` clause. */
  datatype Direction = Asc | Desc

  /** `x` may come before `y` in direction `d`. */
  predicate InOrder(x: seq<int>, y: seq<int>, d: Direction) {
    if d == Asc then LexLe(x, y) else LexLe(y, x)
  }

  /** The key of a numeric column. */
  function IntKey(n: int): (k: seq<int>)
    ensures |k| == 1 && k[0] == n
  {
    [n]
  }

  /** The key of a text column: its code points. */
  function TextKey(s: string): (k: seq<int>)
    ensures |k| == |s|
    ensures forall i :: 0 <= i < |s| ==> k[i] == s[i] as int
  {
    if s == [] then [] else [s[0] as int] + TextKey(s[1..])
  }

  /** One-element keys compare as their numbers. */
  lemma IntKeyOrder(m: int, n: int)
    ensures LexLe(IntKey(m), IntKey(n)) <==> m <= n
  {
    assert IntKey(m)[1..] == [] && IntKey(n)[1..] == [];
  }

  /** `xs` is ordered by `key` in direction `d`. */
  predicate SortedBy<T>(xs: seq<T>, key: T -> seq<int>, d: Direction) {
    forall i, j :: 0 <= i < j < |xs| ==> InOrder(key(xs[i]), key(xs[j]), d)
  }

  /** Insert `x` into the sorted `ys` after every element it may not precede. */
  function Insert<T>(x: T, ys: seq<T>, key: T -> seq<int>, d: Direction): (r: seq<T>)
    requires SortedBy(ys, key, d)
    ensures SortedBy(r, key, d)
    ensures multiset(r) == multiset(ys) + multiset{x}
    ensures |r| == |ys| + 1
  {
    if ys == [] || InOrder(key(x), key(ys[0]), d) then
      assert SortedBy([x] + ys, key, d) by {
        if ys != [] { FirstBoundsAll(x, ys, key, d); }
        PrependSorted(x, ys, key, d);
      }
      [x] + ys
    else
      var rest := Insert(x, ys[1..], key, d);
      assert InOrder(key(ys[0]), key(x), d) by { LexLeTotal(key(x), key(ys[0])); }
      assert multiset(ys) == multiset{ys[0]} + multiset(ys[1..]) by {
        assert ys == [ys[0]] + ys[1..];
      }
      HeadBoundsTail(ys, key, d);
      BoundByMembers(ys[0], rest, ys[1..], x, key, d);
      PrependSorted(ys[0], rest, key, d);
      [ys[0]] + rest
  }

  /** An element that may precede every element of a sorted sequence may
      be put in front of it. */
  lemma PrependSorted<T>(x: T, ys: seq<T>, key: T -> seq<int>, d: Direction)
    requires SortedBy(ys, key, d)
    requires forall j :: 0 <= j < |ys| ==> InOrder(key(x), key(ys[j]), d)
    ensures SortedBy([x] + ys, key, d)
  {
    var r := [x] + ys;
    forall i, j | 0 <= i < j < |r|
      ensures InOrder(key(r[i]), key(r[j]), d)
    {
      assert r[j] == ys[j - 1];
      if i > 0 { assert r[i] == ys[i - 1]; }
    }
  }

  /** An element that may precede the head of a sorted sequence may precede
      all of it. */
  lemma FirstBoundsAll<T>(x: T, ys: seq<T>, key: T -> seq<int>, d: Direction)
    requires SortedBy(ys, key, d) && ys != [] && InOrder(key(x), key(ys[0]), d)
    ensures forall j :: 0 <= j < |ys| ==> InOrder(key(x), key(ys[j]), d)
  {
    forall j | 0 < j < |ys|
      ensures InOrder(key(x), key(ys[j]), d)
    {
      if d == Asc { LexLeTrans(key(x), key(ys[0]), key(ys[j])); }
      else { LexLeTrans(key(ys[j]), key(ys[0]), key(x)); }
    }
  }

  /** The head of a sorted sequence may precede every element of its tail. */
  lemma HeadBoundsTail<T>(ys: seq<T>, key: T -> seq<int>, d: Direction)
    requires SortedBy(ys, key, d) && ys != []
    ensures forall j :: 0 <= j < |ys[1..]| ==> InOrder(key(ys[0]), key(ys[1..][j]), d)
  {
    forall j | 0 <= j < |ys[1..]|
      ensures InOrder(key(ys[0]), key(ys[1..][j]), d)
    {
      assert ys[1..][j] == ys[j + 1];
    }
  }

  /** A bound on every element of `tail` and on `x` is a bound on every
      element of a sequence holding exactly those. */
  lemma BoundByMembers<T>(y: T, rest: seq<T>, tail: seq<T>, x: T, key: T -> seq<int>, d: Direction)
    requires multiset(rest) == multiset(tail) + multiset{x}
    requires InOrder(key(y), key(x), d)
    requires forall j :: 0 <= j < |tail| ==> InOrder(key(y), key(tail[j]), d)
    ensures forall j :: 0 <= j < |rest| ==> InOrder(key(y), key(rest[j]), d)
  {
    forall j | 0 <= j < |rest|
      ensures InOrder(key(y), key(rest[j]), d)
    {
      var z := rest[j];
      assert z in multiset(rest);
      if z != x {
        assert z in multiset(tail);
        var k :| 0 <= k < |tail| && tail[k] == z;
      }
    }
  }

  /** A stable insertion sort: a permutation of `xs` ordered by `key`. */
  function SortBy<T>(xs: seq<T>, key: T -> seq<int>, d: Direction): (r: seq<T>)
    ensures SortedBy(r, key, d)
    ensures multiset(r) == multiset(xs)
    ensures |r| == |xs|
    ensures forall i :: 0 <= i < |r| ==> r[i] in xs
    ensures forall i :: 0 <= i < |xs| ==> xs[i] in r
  {
    if xs == [] then []
    else
      var r := Insert(xs[0], SortBy(xs[1..], key, d), key, d);
      assert multiset(xs) == multiset(xs[1..]) + multiset{xs[0]} by {
        assert xs == [xs[0]] + xs[1..];
      }
      SameMembers(r, xs);
      r
  }

  /** Sequences with the same multiset have the same members. */
  lemma SameMembers<T>(a: seq<T>, b: seq<T>)
    requires multiset(a) == multiset(b)
    ensures forall i :: 0 <= i < |a| ==> a[i] in b
    ensures forall i :: 0 <= i < |b| ==> b[i] in a
  {
    forall i | 0 <= i < |a| ensures a[i] in b { assert a[i] in multiset(a); }
    forall i | 0 <= i < |b| ensures b[i] in a { assert b[i] in multiset(b); }
  }

  /** The order two numbers must be in for direction `d`. */
  predicate IntInOrder(a: int, b: int, d: Direction) {
    if d == Asc then a <= b else a >= b
  }

  /** Sort by a numeric column. */
  function SortByInt<T>(xs: seq<T>, f: T -> int, d: Direction): (r: seq<T>)
    ensures multiset(r) == multiset(xs)
    ensures |r| == |xs|
    ensures forall i, j :: 0 <= i < j < |r| ==> IntInOrder(f(r[i]), f(r[j]), d)
  {
    var key := (x: T) => IntKey(f(x));
    var r := SortBy(xs, key, d);
    assert forall i, j :: 0 <= i < j < |r| ==> IntInOrder(f(r[i]), f(r[j]), d) by {
      forall i, j | 0 <= i < j < |r| ensures IntInOrder(f(r[i]), f(r[j]), d) {
        assert InOrder(key(r[i]), key(r[j]), d);
        IntKeyOrder(f(r[i]), f(r[j]));
        IntKeyOrder(f(r[j]), f(r[i]));
      }
    }
    r
  }

  /** Code-point order on strings, a proper prefix first. */
  predicate TextLe(a: string, b: string) {
    LexLe(TextKey(a), TextKey(b))
  }

  /** The order two strings must be in for direction `d`. */
  predicate TextInOrder(a: string, b: string, d: Direction) {
    if d == Asc then TextLe(a, b) else TextLe(b, a)
  }

  /** Sort by a text column. */
  function SortByText<T>(xs: seq<T>, f: T -> string, d: Direction): (r: seq<T>)
    ensures multiset(r) == multiset(xs)
    ensures |r| == |xs|
    ensures forall i, j :: 0 <= i < j < |r| ==> TextInOrder(f(r[i]), f(r[j]), d)
  {
    var key := (x: T) => TextKey(f(x));
    var r := SortBy(xs, key, d);
    assert forall i, j :: 0 <= i < j < |r| ==> TextInOrder(f(r[i]), f(r[j]), d) by {
      forall i, j | 0 <= i < j < |r| ensures TextInOrder(f(r[i]), f(r[j]), d) {
        assert InOrder(key(r[i]), key(r[j]), d);
      }
    }
    r
  }
}
