/** Generic sequence helpers: order-keeping selection, and the library sort
    with a numeric comparator `key(b) - key(a)` together with taking its first
    `n` elements. */
module Sequences {

  /** `a` is `b` with some elements deleted and the rest kept in order. */
  ghost predicate IsSubsequence<T>(a: seq<T>, b: seq<T>)
    decreases |b|
  {
    if a == [] then true
    else if b == [] then false
    else if a[0] == b[0] then IsSubsequence(a[1..], b[1..])
    else IsSubsequence(a, b[1..])
  }

  /** Skipping the head of `b` loses no subsequence. */
  lemma {:induction false} SubsequenceOfTail<T>(a: seq<T>, b: seq<T>)
    requires b != [] && IsSubsequence(a, b[1..])
    ensures IsSubsequence(a, b)
    decreases |b|, 0
  {
    if a != [] && a[0] == b[0] {
      DropFirstOfSubsequence(a, b[1..]);
    }
  }

  lemma {:induction false} DropFirstOfSubsequence<T>(a: seq<T>, b: seq<T>)
    requires a != [] && IsSubsequence(a, b)
    ensures IsSubsequence(a[1..], b)
    decreases |b|, 1
  {
    if a[0] == b[0] {
      SubsequenceOfTail(a[1..], b);
    } else {
      DropFirstOfSubsequence(a, b[1..]);
      SubsequenceOfTail(a[1..], b);
    }
  }

  // ---------------------------------------------------------------------------
  // Sorting by an integer key, largest first

  ghost predicate DescendingBy<T>(xs: seq<T>, key: T -> int) {
    forall i, j :: 0 <= i <= j < |xs| ==> key(xs[i]) >= key(xs[j])
  }

  function InsertByKey<T>(x: T, xs: seq<T>, key: T -> int): (r: seq<T>)
    requires DescendingBy(xs, key)
    ensures DescendingBy(r, key)
    ensures multiset(r) == multiset(xs) + multiset{x}
  {
    if xs == [] || key(x) >= key(xs[0]) then [x] + xs
    else
      var rest := InsertByKey(x, xs[1..], key);
      assert xs == [xs[0]] + xs[1..];
      HeadAboveInserted(x, xs, rest, key);
      DescendingCons(xs[0], rest, key);
      [xs[0]] + rest
  }

  lemma DescendingCons<T>(h: T, rest: seq<T>, key: T -> int)
    requires DescendingBy(rest, key) && forall i :: 0 <= i < |rest| ==> key(h) >= key(rest[i])
    ensures DescendingBy([h] + rest, key)
  {
    var r := [h] + rest;
    forall i, j | 0 <= i <= j < |r| ensures key(r[i]) >= key(r[j]) {
      if 0 < i {
        assert r[i] == rest[i - 1] && r[j] == rest[j - 1];
      } else if 0 < j {
        assert r[j] == rest[j - 1];
      }
    }
  }

  /** The head of a list descending by `key` is above everything the rest
      holds with an `x` of smaller key added. */
  lemma HeadAboveInserted<T>(x: T, xs: seq<T>, rest: seq<T>, key: T -> int)
    requires DescendingBy(xs, key) && xs != [] && key(x) < key(xs[0])
    requires multiset(rest) == multiset(xs[1..]) + multiset{x}
    ensures forall i :: 0 <= i < |rest| ==> key(xs[0]) >= key(rest[i])
  {
    forall i | 0 <= i < |rest| ensures key(xs[0]) >= key(rest[i]) {
      assert rest[i] in multiset(rest);
      if rest[i] != x {
        assert rest[i] in multiset(xs[1..]);
        var j :| 0 <= j < |xs[1..]| && xs[1..][j] == rest[i];
        assert xs[1..][j] == xs[j + 1];
      }
    }
  }

  /** `Array.prototype.sort` with the comparator `key(b) - key(a)`: a
      permutation, largest key first; equal keys keep their order
      (`SortByKeyDescIsStable`). */
  function SortByKeyDesc<T>(xs: seq<T>, key: T -> int): (r: seq<T>)
    ensures DescendingBy(r, key)
    ensures multiset(r) == multiset(xs)
    ensures |r| == |xs|
  {
    if xs == [] then []
    else
      assert xs == [xs[0]] + xs[1..];
      InsertByKey(xs[0], SortByKeyDesc(xs[1..], key), key)
  }

  /** The elements of `xs` whose key is `k`, in order. */
  function WithKey<T>(xs: seq<T>, key: T -> int, k: int): seq<T> {
    if xs == [] then []
    else (if key(xs[0]) == k then [xs[0]] else []) + WithKey(xs[1..], key, k)
  }

  lemma WithKeyCons<T>(h: T, t: seq<T>, key: T -> int, k: int)
    ensures WithKey([h] + t, key, k) == (if key(h) == k then [h] else []) + WithKey(t, key, k)
  {
    assert ([h] + t)[1..] == t;
  }

  /** Inserting `x` puts it before every element of its own key. */
  lemma {:induction false} InsertByKeyIsStable<T>(x: T, xs: seq<T>, key: T -> int, k: int)
    requires DescendingBy(xs, key)
    ensures WithKey(InsertByKey(x, xs, key), key, k) == (if key(x) == k then [x] else []) + WithKey(xs, key, k)
  {
    if xs == [] || key(x) >= key(xs[0]) {
      WithKeyCons(x, xs, key, k);
    } else {
      var rest := InsertByKey(x, xs[1..], key);
      assert InsertByKey(x, xs, key) == [xs[0]] + rest;
      assert xs == [xs[0]] + xs[1..];
      InsertByKeyIsStable(x, xs[1..], key, k);
      WithKeyCons(xs[0], rest, key, k);
      WithKeyCons(xs[0], xs[1..], key, k);
    }
  }

  /** The sort is stable: the elements of any one key come out in the order
      they went in. */
  lemma {:induction false} SortByKeyDescIsStable<T>(xs: seq<T>, key: T -> int, k: int)
    ensures WithKey(SortByKeyDesc(xs, key), key, k) == WithKey(xs, key, k)
  {
    if xs != [] {
      SortByKeyDescIsStable(xs[1..], key, k);
      InsertByKeyIsStable(xs[0], SortByKeyDesc(xs[1..], key), key, k);
    }
  }

  lemma AppendAssoc<T>(a: seq<T>, b: seq<T>, c: seq<T>)
    ensures a + (b + c) == (a + b) + c
  {
  }

  lemma InSorted<T>(xs: seq<T>, key: T -> int, x: T)
    ensures x in SortByKeyDesc(xs, key) <==> x in xs
  {
    assert x in SortByKeyDesc(xs, key) <==> x in multiset(SortByKeyDesc(xs, key));
    assert x in xs <==> x in multiset(xs);
  }

  /** `reduce((a, b) => a + b, 0)` over numbers, taken as exact reals. */
  function SumReals(s: seq<real>): real {
    if s == [] then 0.0 else SumReals(s[..|s| - 1]) + s[|s| - 1]
  }

  /** Multiplying by a positive factor keeps the order. */
  lemma ScaleOrder(a: real, b: real, f: real)
    requires f > 0.0
    ensures a < b <==> a * f < b * f
    ensures a <= b <==> a * f <= b * f
  {
  }

  /** A sum between `lo * n` and `hi * n` has its mean between `lo` and `hi`. */
  lemma QuotientBounds(s: real, n: real, lo: real, hi: real)
    requires n > 0.0 && lo * n <= s <= hi * n
    ensures lo <= s / n <= hi
  {
    var m := s / n;
    assert m * n == s;
    ScaleOrder(lo, m, n);
    ScaleOrder(m, hi, n);
  }

  function Min(a: nat, b: nat): nat { if a < b then a else b }

  /** The first `n` of a sorted list are the `n` best: an element left out
      scores no higher than any kept one, and is left out only when `n` were kept. */
  lemma TopOfSorted<T>(xs: seq<T>, key: T -> int, n: nat, x: T)
    requires x in xs
    ensures var ranked := SortByKeyDesc(xs, key);
            var r := ranked[..Min(|ranked|, n)];
            x !in r ==> |r| == n && forall q :: q in r ==> key(q) >= key(x)
  {
    var ranked := SortByKeyDesc(xs, key);
    var r := ranked[..Min(|ranked|, n)];
    InSorted(xs, key, x);
    var j :| 0 <= j < |ranked| && ranked[j] == x;
    if x !in r {
      forall q | q in r ensures key(q) >= key(x) {
        var i :| 0 <= i < |r| && r[i] == q;
        assert ranked[i] == q;
      }
    }
  }
}
