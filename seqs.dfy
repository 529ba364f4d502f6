/** Sequence combinators shared by the screens: the model's `filter`, `reduce`, `reverse` and `sort`. */
module Seqs {

  /** `s.filter(p)`: the elements of `s` that satisfy `p`, in their original order. */
  function Filter<T>(s: seq<T>, p: T -> bool): (r: seq<T>)
    ensures |r| <= |s|
    ensures forall i :: 0 <= i < |r| ==> p(r[i])
  {
    if s == [] then []
    else
      var init := Filter(s[..|s| - 1], p);
      assert s == s[..|s| - 1] + [s[|s| - 1]];
      if p(s[|s| - 1]) then init + [s[|s| - 1]] else init
  }

  /** An element is kept exactly when it occurs in `s` and satisfies `p`. */
  lemma {:induction false} FilterMembers<T>(s: seq<T>, p: T -> bool, x: T)
    ensures x in Filter(s, p) <==> x in s && p(x)
  {
    if s != [] {
      var init := s[..|s| - 1];
      assert s == init + [s[|s| - 1]];
      FilterMembers(init, p, x);
    }
  }

  lemma {:induction false} FilterAppend<T>(a: seq<T>, b: seq<T>, p: T -> bool)
    ensures Filter(a + b, p) == Filter(a, p) + Filter(b, p)
  {
    if b != [] {
      var b' := b[..|b| - 1];
      assert (a + b)[..|a + b| - 1] == a + b';
      assert (a + b)[|a + b| - 1] == b[|b| - 1];
      FilterAppend(a, b', p);
    } else {
      assert a + b == a;
    }
  }

  /** A predicate every element satisfies keeps the whole sequence. */
  lemma {:induction false} FilterAll<T>(s: seq<T>, p: T -> bool)
    requires forall i :: 0 <= i < |s| ==> p(s[i])
    ensures Filter(s, p) == s
  {
    if s != [] {
      FilterAll(s[..|s| - 1], p);
      assert s == s[..|s| - 1] + [s[|s| - 1]];
    }
  }

  /** Filtering two arrangements of the same elements keeps the same number of them. */
  lemma {:induction false} FilterSizeByMultiset<T>(a: seq<T>, b: seq<T>, p: T -> bool)
    requires multiset(a) == multiset(b)
    ensures |Filter(a, p)| == |Filter(b, p)|
    decreases |a|
  {
    if a == [] {
      assert |b| == |multiset(b)| == 0;
    } else {
      var x := a[|a| - 1];
      var a' := a[..|a| - 1];
      assert a == a' + [x];
      assert x in multiset(b);
      var k :| 0 <= k < |b| && b[k] == x;
      var b' := b[..k] + b[k + 1..];
      assert b == b[..k] + [x] + b[k + 1..];
      assert multiset(b') == multiset(b) - multiset{x};
      assert multiset(a') == multiset(a) - multiset{x};
      FilterSizeByMultiset(a', b', p);
      FilterAppend(a', [x], p);
      FilterAppend(b[..k] + [x], b[k + 1..], p);
      FilterAppend(b[..k], [x], p);
      FilterAppend(b[..k], b[k + 1..], p);
    }
  }

  /** `s.reduce((acc, x) => acc + f(x), 0)`: the sum of `f` over `s`, folded from the left. */
  function Sum<T>(s: seq<T>, f: T -> int): int
  {
    if s == [] then 0 else Sum(s[..|s| - 1], f) + f(s[|s| - 1])
  }

  lemma {:induction false} SumAppend<T>(a: seq<T>, b: seq<T>, f: T -> int)
    ensures Sum(a + b, f) == Sum(a, f) + Sum(b, f)
  {
    if b == [] {
      assert a + b == a;
    } else {
      var b' := b[..|b| - 1];
      assert (a + b)[..|a + b| - 1] == a + b';
      assert (a + b)[|a + b| - 1] == b[|b| - 1];
      SumAppend(a, b', f);
    }
  }

  /** Filtering a sequence extended by one element. */
  lemma FilterSnoc<T>(s: seq<T>, x: T, p: T -> bool)
    ensures Filter(s + [x], p) == if p(x) then Filter(s, p) + [x] else Filter(s, p)
  {
    assert (s + [x])[..|s|] == s;
  }

  /** Summing a sequence extended by one element. */
  lemma SumSnoc<T>(s: seq<T>, x: T, f: T -> int)
    ensures Sum(s + [x], f) == Sum(s, f) + f(x)
  {
    assert (s + [x])[..|s|] == s;
  }

  /** When every element passes at most one of `p` and `q`, and `r` is their union, the sums over the filters add up. */
  lemma {:induction false} SumFilterUnion<T>(s: seq<T>, p: T -> bool, q: T -> bool, r: T -> bool, f: T -> int)
    requires forall i :: 0 <= i < |s| ==> (r(s[i]) <==> p(s[i]) || q(s[i])) && !(p(s[i]) && q(s[i]))
    ensures Sum(Filter(s, r), f) == Sum(Filter(s, p), f) + Sum(Filter(s, q), f)
  {
    if s != [] {
      var init := s[..|s| - 1];
      var x := s[|s| - 1];
      assert s == init + [x];
      assert forall i :: 0 <= i < |init| ==> init[i] == s[i];
      SumFilterUnion(init, p, q, r, f);
      FilterSnoc(init, x, p);
      FilterSnoc(init, x, q);
      FilterSnoc(init, x, r);
      if p(x) {
        SumSnoc(Filter(init, p), x, f);
        SumSnoc(Filter(init, r), x, f);
      } else if q(x) {
        SumSnoc(Filter(init, q), x, f);
        SumSnoc(Filter(init, r), x, f);
      }
    }
  }

  /** Elements whose key lies in `[lo, hi)`. */
  function KeyIn<T>(key: T -> int, lo: int, hi: int): T -> bool
  {
    (x: T) => lo <= key(x) < hi
  }

  /** Elements whose key is `k`. */
  function KeyIs<T>(key: T -> int, k: int): T -> bool
  {
    (x: T) => key(x) == k
  }

  /** The sum of `f` over the elements whose key is `k`. */
  function SumAt<T>(s: seq<T>, key: T -> int, f: T -> int, k: int): int
  {
    Sum(Filter(s, KeyIs(key, k)), f)
  }

  /** The values of `g` at the `n` consecutive keys starting at `first`. */
  function Series(g: int -> int, first: int, n: nat): (r: seq<int>)
    ensures |r| == n
  {
    if n == 0 then [] else Series(g, first, n - 1) + [g(first + n - 1)]
  }

  function Identity(x: int): int
  {
    x
  }

  /** Entry `i` of the series belongs to key `first + i`. */
  lemma {:induction false} SeriesAt(g: int -> int, first: int, n: nat, i: nat)
    requires i < n
    ensures Series(g, first, n)[i] == g(first + i)
  {
    if i < n - 1 {
      SeriesAt(g, first, n - 1, i);
    }
  }

  /** The sum of a series, entry by entry. */
  lemma {:induction false} SeriesSum(g: int -> int, first: int, n: nat)
    ensures Sum(Series(g, first, n), Identity) == if n == 0 then 0 else Sum(Series(g, first, n - 1), Identity) + g(first + n - 1)
  {
    if n > 0 {
      SumSnoc(Series(g, first, n - 1), g(first + n - 1), Identity);
    }
  }

  /** The per-key sums of the `n` keys from `first`, added up key by key. */
  function SumOfSums<T>(s: seq<T>, key: T -> int, f: T -> int, first: int, n: nat): int
  {
    if n == 0 then 0 else SumOfSums(s, key, f, first, n - 1) + SumAt(s, key, f, first + n - 1)
  }

  /** Adding up the per-key sums of a window is summing over the elements whose key lies in the window. */
  lemma {:induction false} SumOfSumsIsWindowSum<T>(s: seq<T>, key: T -> int, f: T -> int, first: int, n: nat)
    ensures SumOfSums(s, key, f, first, n) == Sum(Filter(s, KeyIn(key, first, first + n)), f)
  {
    if n == 0 {
      FilterNone(s, KeyIn(key, first, first));
    } else {
      SumOfSumsIsWindowSum(s, key, f, first, n - 1);
      SumFilterUnion(s, KeyIn(key, first, first + (n - 1)), KeyIs(key, first + n - 1), KeyIn(key, first, first + n), f);
    }
  }

  /** A series of per-key sums adds up to the sum over the elements whose key lies in the window. */
  lemma {:induction false} SeriesOfSumsTotal<T>(g: int -> int, s: seq<T>, key: T -> int, f: T -> int, first: int, n: nat)
    requires forall k :: g(k) == SumAt(s, key, f, k)
    ensures Sum(Series(g, first, n), Identity) == Sum(Filter(s, KeyIn(key, first, first + n)), f)
  {
    SeriesMatchesSums(g, s, key, f, first, n);
    SumOfSumsIsWindowSum(s, key, f, first, n);
  }

  lemma {:induction false} SeriesMatchesSums<T>(g: int -> int, s: seq<T>, key: T -> int, f: T -> int, first: int, n: nat)
    requires forall k :: g(k) == SumAt(s, key, f, k)
    ensures Sum(Series(g, first, n), Identity) == SumOfSums(s, key, f, first, n)
  {
    SeriesSum(g, first, n);
    if n > 0 {
      SeriesMatchesSums(g, s, key, f, first, n - 1);
    }
  }

  /** A test no element passes filters everything out. */
  lemma {:induction false} FilterNone<T>(s: seq<T>, p: T -> bool)
    requires forall i :: 0 <= i < |s| ==> !p(s[i])
    ensures Filter(s, p) == []
  {
    if s != [] {
      FilterNone(s[..|s| - 1], p);
    }
  }

  /** A sum of a function that is zero everywhere on `s` is zero. */
  lemma {:induction false} SumZero<T>(s: seq<T>, f: T -> int)
    requires forall i :: 0 <= i < |s| ==> f(s[i]) == 0
    ensures Sum(s, f) == 0
  {
    if s != [] {
      SumZero(s[..|s| - 1], f);
    }
  }

  /** `[...s].reverse()`. */
  function Reverse<T>(s: seq<T>): (r: seq<T>)
    ensures |r| == |s|
    ensures forall k :: 0 <= k < |s| ==> r[k] == s[|s| - 1 - k]
  {
    if s == [] then [] else [s[|s| - 1]] + Reverse(s[..|s| - 1])
  }

  /** Filtering a reversed sequence gives the reverse of the filtered one. */
  lemma {:induction false} FilterReverse<T>(s: seq<T>, p: T -> bool)
    ensures Filter(Reverse(s), p) == Reverse(Filter(s, p))
  {
    if s != [] {
      var last := s[|s| - 1];
      var init := s[..|s| - 1];
      assert Reverse(s) == [last] + Reverse(init);
      FilterAppend([last], Reverse(init), p);
      FilterReverse(init, p);
      assert Filter([last], p) == (if p(last) then [last] else []) by {
        assert [last][..0] == [];
      }
      if p(last) {
        assert Filter(s, p) == Filter(init, p) + [last];
        var fi := Filter(init, p);
        var fs := fi + [last];
        assert Reverse(fs) == [last] + Reverse(fi) by {
          assert fs[..|fs| - 1] == fi;
        }
      } else {
        assert Filter(s, p) == Filter(init, p);
      }
    }
  }

  /** `r` lists elements in non-increasing order of `key`. */
  predicate SortedDesc<T>(r: seq<T>, key: T -> int)
  {
    forall i, j :: 0 <= i < j < |r| ==> key(r[i]) >= key(r[j])
  }

  function InsertDesc<T>(x: T, s: seq<T>, key: T -> int): (r: seq<T>)
    requires SortedDesc(s, key)
    ensures SortedDesc(r, key)
    ensures multiset(r) == multiset(s) + multiset{x}
    ensures |r| == |s| + 1
    ensures r[0] == x || (s != [] && r[0] == s[0])
  {
    if s == [] then [x]
    else if key(x) >= key(s[0]) then [x] + s
    else
      var rest := InsertDesc(x, s[1..], key);
      assert s == [s[0]] + s[1..];
      [s[0]] + rest
  }

  /** Descending by `key`, stable, as a permutation of `s`; stands for Dexie's reverse index order. */
  function SortDesc<T>(s: seq<T>, key: T -> int): (r: seq<T>)
    ensures SortedDesc(r, key)
    ensures multiset(r) == multiset(s)
    ensures |r| == |s|
  {
    if s == [] then []
    else
      assert s == [s[0]] + s[1..];
      InsertDesc(s[0], SortDesc(s[1..], key), key)
  }

  /** An element whose key is at least every other key heads the sorted sequence, or ties with its head. */
  lemma SortDescHead<T>(s: seq<T>, key: T -> int, k: nat)
    requires k < |s|
    requires forall i :: 0 <= i < |s| ==> key(s[i]) <= key(s[k])
    ensures SortDesc(s, key) != [] && key(SortDesc(s, key)[0]) == key(s[k])
  {
    var r := SortDesc(s, key);
    assert s[k] in multiset(r);
    var j :| 0 <= j < |r| && r[j] == s[k];
    assert r[0] in multiset(s);
    var i :| 0 <= i < |s| && s[i] == r[0];
    assert j == 0 || key(r[0]) >= key(r[j]);
  }

  /** `s.slice(0, n)`: at most the first `n` elements. */
  function Take<T>(s: seq<T>, n: nat): (r: seq<T>)
    ensures |r| == if |s| < n then |s| else n
    ensures forall k :: 0 <= k < |r| ==> r[k] == s[k]
  {
    if |s| <= n then s else s[..n]
  }

  /**
   * The first `n` of a sorted copy are the largest: any element left out has a key no
   * larger than the last one kept, and the cut is full.
   */
  lemma TopOfSortedDesc<T>(s: seq<T>, key: T -> int, n: nat, x: T)
    requires x in s && n > 0
    ensures var r := Take(SortDesc(s, key), n);
      r != [] && (x !in r ==> |r| == n && key(x) <= key(r[n - 1]))
  {
    var sorted := SortDesc(s, key);
    assert x in multiset(sorted);
    var j :| 0 <= j < |sorted| && sorted[j] == x;
    var r := Take(sorted, n);
    if j < n {
      assert r[j] == x;
    } else {
      assert r[n - 1] == sorted[n - 1];
      assert key(sorted[n - 1]) >= key(sorted[j]);
    }
  }

  /** An element of the first `n` of a sorted copy is an element of the original. */
  lemma TopOfSortedDescMember<T>(s: seq<T>, key: T -> int, n: nat, x: T)
    requires x in Take(SortDesc(s, key), n)
    ensures x in s
  {
    var sorted := SortDesc(s, key);
    var k :| 0 <= k < |Take(sorted, n)| && Take(sorted, n)[k] == x;
    assert sorted[k] == x;
    assert x in multiset(sorted);
  }

  /** No element occurs twice. */
  predicate NoDuplicates<T(==)>(s: seq<T>)
  {
    forall i, j :: 0 <= i < j < |s| ==> s[i] != s[j]
  }

  /** Appending a new element keeps a duplicate-free sequence duplicate-free. */
  lemma {:induction false} NoDuplicatesAppend<T>(s: seq<T>, x: T)
    requires NoDuplicates(s) && x !in s
    ensures NoDuplicates(s + [x])
  {
    var t := s + [x];
    forall i, j | 0 <= i < j < |t| ensures t[i] != t[j] {
      if j == |s| { assert t[i] == s[i]; assert s[i] in s; }
    }
  }
}
