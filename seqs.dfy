/** The list operations the pages are built from: `Array.prototype.filter`,
    `.filter(...).length`, `[...new Set(xs)]`, a sort by a numeric key
    in descending order, and `.slice(0, n)`. */
module Seqs {

  /** `xs.filter(keep)`: the elements that satisfy `keep`, in their order. */
  function Filter<T>(xs: seq<T>, keep: T -> bool): (r: seq<T>)
    ensures |r| <= |xs|
    ensures forall i :: 0 <= i < |r| ==> r[i] in xs && keep(r[i])
    ensures forall i :: 0 <= i < |xs| && keep(xs[i]) ==> xs[i] in r
    decreases |xs|
  {
    if xs == [] then []
    else if keep(xs[0]) then [xs[0]] + Filter(xs[1..], keep)
    else Filter(xs[1..], keep)
  }

  /** `xs.filter(keep).length`. */
  function Count<T>(xs: seq<T>, keep: T -> bool): (n: nat)
    ensures n <= |xs|
  {
    |Filter(xs, keep)|
  }

  /** `xs.findIndex(p)`: the first position whose element satisfies `p`, or -1. */
  function FirstWhere<T>(xs: seq<T>, p: T -> bool): (k: int)
    ensures -1 <= k < |xs|
    ensures k >= 0 ==> p(xs[k]) && forall j :: 0 <= j < k ==> !p(xs[j])
    ensures k == -1 <==> forall j :: 0 <= j < |xs| ==> !p(xs[j])
    decreases |xs|
  {
    if xs == [] then -1
    else if p(xs[0]) then 0
    else
      var k := FirstWhere(xs[1..], p);
      if k == -1 then -1 else k + 1
  }

  /** `a` is `b` with some elements left out, the rest in the same order. */
  predicate IsSubsequence<T(==)>(a: seq<T>, b: seq<T>)
    decreases |b|
  {
    a == [] || (b != [] && ((a[0] == b[0] && IsSubsequence(a[1..], b[1..])) || IsSubsequence(a, b[1..])))
  }

  /** Filtering keeps the survivors in their original order. */
  lemma {:induction false} FilterIsSubsequence<T>(xs: seq<T>, keep: T -> bool)
    ensures IsSubsequence(Filter(xs, keep), xs)
    decreases |xs|
  {
    if xs != [] {
      FilterIsSubsequence(xs[1..], keep);
      var r := Filter(xs, keep);
      if keep(xs[0]) {
        assert r[1..] == Filter(xs[1..], keep);
      }
    }
  }

  lemma {:induction false} FilterConcat<T>(xs: seq<T>, ys: seq<T>, keep: T -> bool)
    ensures Filter(xs + ys, keep) == Filter(xs, keep) + Filter(ys, keep)
    decreases |xs|
  {
    if xs == [] {
      assert xs + ys == ys;
    } else {
      assert (xs + ys)[0] == xs[0];
      assert (xs + ys)[1..] == xs[1..] + ys;
      FilterConcat(xs[1..], ys, keep);
      if keep(xs[0]) {
        calc {
          Filter(xs + ys, keep);
          [xs[0]] + Filter(xs[1..] + ys, keep);
          [xs[0]] + (Filter(xs[1..], keep) + Filter(ys, keep));
          ([xs[0]] + Filter(xs[1..], keep)) + Filter(ys, keep);
        }
      }
    }
  }

  /** Filtering one more element of a prefix adds it at the end when it is kept. */
  /** What filtering does to one element: keeps it alone, or drops it. */
  function KeepIf<T>(x: T, keep: T -> bool): (r: seq<T>)
    ensures r == Filter([x], keep)
  {
    assert [x][1..] == [];
    if keep(x) then [x] else []
  }

  lemma FilterPrefixStep<T>(xs: seq<T>, k: nat, keep: T -> bool)
    requires k < |xs|
    ensures Filter(xs[..k + 1], keep) == Filter(xs[..k], keep) + KeepIf(xs[k], keep)
  {
    assert xs[..k + 1] == xs[..k] + [xs[k]];
    FilterConcat(xs[..k], [xs[k]], keep);
  }

  /** A six-element list filtered, written out element by element. */
  lemma FilterSix<T>(xs: seq<T>, keep: T -> bool)
    requires |xs| == 6
    ensures Filter(xs, keep) == KeepIf(xs[0], keep) + KeepIf(xs[1], keep) + KeepIf(xs[2], keep) +
      KeepIf(xs[3], keep) + KeepIf(xs[4], keep) + KeepIf(xs[5], keep)
  {
    assert xs[..0] == [];
    FilterPrefixStep(xs, 0, keep);
    FilterPrefixStep(xs, 1, keep);
    FilterPrefixStep(xs, 2, keep);
    FilterPrefixStep(xs, 3, keep);
    FilterPrefixStep(xs, 4, keep);
    FilterPrefixStep(xs, 5, keep);
    assert xs[..6] == xs;
  }

  /** Two filters in a row keep what their conjunction keeps. */
  lemma {:induction false} FilterCompose<T>(xs: seq<T>, first: T -> bool, second: T -> bool, both: T -> bool)
    requires forall x :: both(x) == (first(x) && second(x))
    ensures Filter(Filter(xs, first), second) == Filter(xs, both)
    decreases |xs|
  {
    if xs != [] {
      FilterCompose(xs[1..], first, second, both);
    }
  }

  /** A filter that every element passes gives the list back unchanged. */
  lemma {:induction false} FilterKeepsAll<T>(xs: seq<T>, keep: T -> bool)
    requires forall x :: x in xs ==> keep(x)
    ensures Filter(xs, keep) == xs
    decreases |xs|
  {
    if xs != [] {
      FilterKeepsAll(xs[1..], keep);
    }
  }

  /** Filters that agree on the list's elements give the same result. */
  /** Nothing is kept when no element passes. */
  lemma {:induction false} FilterNone<T>(xs: seq<T>, keep: T -> bool)
    requires forall x :: x in xs ==> !keep(x)
    ensures Filter(xs, keep) == []
    decreases |xs|
  {
    if xs != [] {
      assert !keep(xs[0]);
      FilterNone(xs[1..], keep);
    }
  }

  /** `m` is the first position of `xs` meeting both `p` and `q`. */
  predicate FirstMeeting<T>(xs: seq<T>, m: int, p: T -> bool, q: T -> bool)
  {
    0 <= m < |xs| && p(xs[m]) && q(xs[m]) && forall j :: 0 <= j < m ==> !(p(xs[j]) && q(xs[j]))
  }

  /** A first match in the tail, behind a head that fails, is a first match
      of the whole list one place further on. */
  lemma ShiftFirstMeeting<T>(xs: seq<T>, m: int, p: T -> bool, q: T -> bool)
    requires xs != [] && !(p(xs[0]) && q(xs[0])) && FirstMeeting(xs[1..], m, p, q)
    ensures FirstMeeting(xs, m + 1, p, q) && xs[m + 1] == xs[1..][m]
  {
    forall j | 0 <= j < m + 1 ensures !(p(xs[j]) && q(xs[j])) {
      if j > 0 {
        assert xs[j] == xs[1..][j - 1];
      }
    }
  }

  /** Searching behind a head the search rejects. */
  lemma FirstWhereBehind<T>(x: T, rest: seq<T>, q: T -> bool)
    requires !q(x)
    ensures FirstWhere([x] + rest, q) == if FirstWhere(rest, q) == -1 then -1 else FirstWhere(rest, q) + 1
  {
    assert ([x] + rest)[1..] == rest;
  }

  /** `xs.filter(p).find(q)` is the first element of `xs` meeting both `p`
      and `q`. */
  lemma {:induction false} FirstWhereOfFilter<T>(xs: seq<T>, p: T -> bool, q: T -> bool)
    ensures var f := Filter(xs, p);
      var k := FirstWhere(f, q);
      k >= 0 ==> exists m :: FirstMeeting(xs, m, p, q) && xs[m] == f[k]
    decreases |xs|
  {
    if xs != [] {
      var f := Filter(xs, p);
      var k := FirstWhere(f, q);
      if k >= 0 {
        if p(xs[0]) && q(xs[0]) {
          assert f[0] == xs[0] && k == 0;
          assert FirstMeeting(xs, 0, p, q);
        } else {
          var rest := Filter(xs[1..], p);
          var k' := FirstWhere(rest, q);
          if p(xs[0]) {
            assert f == [xs[0]] + rest;
            FirstWhereBehind(xs[0], rest, q);
          } else {
            assert f == rest;
          }
          assert k' >= 0 && f[k] == rest[k'];
          FirstWhereOfFilter(xs[1..], p, q);
          var m :| FirstMeeting(xs[1..], m, p, q) && xs[1..][m] == rest[k'];
          ShiftFirstMeeting(xs, m, p, q);
        }
      }
    }
  }

  lemma {:induction false} FilterAgree<T>(xs: seq<T>, p: T -> bool, q: T -> bool)
    requires forall x :: x in xs ==> p(x) == q(x)
    ensures Filter(xs, p) == Filter(xs, q)
    decreases |xs|
  {
    if xs != [] {
      FilterAgree(xs[1..], p, q);
    }
  }

  /** An element survives a filter exactly when it is in the list and kept. */
  lemma FilterMembership<T>(xs: seq<T>, keep: T -> bool, x: T)
    ensures x in Filter(xs, keep) <==> x in xs && keep(x)
  {
    var r := Filter(xs, keep);
    if x in r {
      var i :| 0 <= i < |r| && r[i] == x;
    }
    if x in xs && keep(x) {
      var i :| 0 <= i < |xs| && xs[i] == x;
    }
  }

  /** `if (apply) xs = xs.filter(keep)`: a filter applied only when a
      condition holds. */
  function FilterIf<T>(xs: seq<T>, apply: bool, keep: T -> bool): seq<T>
  {
    if apply then Filter(xs, keep) else xs
  }

  /** A conditional filter is a filter by "the condition is off, or `keep`". */
  lemma FilterIfOnce<T>(xs: seq<T>, apply: bool, keep: T -> bool, shown: T -> bool)
    requires forall x :: shown(x) == (!apply || keep(x))
    ensures FilterIf(xs, apply, keep) == Filter(xs, shown)
  {
    if apply {
      FilterAgree(xs, keep, shown);
    } else {
      FilterKeepsAll(xs, shown);
    }
  }

  /** Two conditional filters in a row are one filter by the conjunction of
      "the condition is off, or the test passes". */
  lemma FilterIfTwice<T>(xs: seq<T>, a: bool, p: T -> bool, b: bool, q: T -> bool, shown: T -> bool)
    requires forall x :: shown(x) == ((!a || p(x)) && (!b || q(x)))
    ensures FilterIf(FilterIf(xs, a, p), b, q) == Filter(xs, shown)
  {
    if a && b {
      FilterCompose(xs, p, q, shown);
    } else if a {
      FilterAgree(xs, p, shown);
    } else if b {
      FilterAgree(xs, q, shown);
    } else {
      FilterKeepsAll(xs, shown);
    }
  }

  /** Counts of two predicates that never hold together add up to the count
      of their disjunction, so they never exceed the length together. */
  lemma {:induction false} CountDisjoint<T>(xs: seq<T>, p: T -> bool, q: T -> bool, either: T -> bool)
    requires forall x :: x in xs ==> !(p(x) && q(x))
    requires forall x :: either(x) == (p(x) || q(x))
    ensures Count(xs, p) + Count(xs, q) == Count(xs, either)
    decreases |xs|
  {
    if xs != [] {
      CountDisjoint(xs[1..], p, q, either);
    }
  }

  lemma {:induction false} CountMonotone<T>(xs: seq<T>, p: T -> bool, q: T -> bool)
    requires forall x :: x in xs && p(x) ==> q(x)
    ensures Count(xs, p) <= Count(xs, q)
    decreases |xs|
  {
    if xs != [] {
      CountMonotone(xs[1..], p, q);
    }
  }

  /** `xs.map(f)`. */
  function Map<T, U>(xs: seq<T>, f: T -> U): (r: seq<U>)
    ensures |r| == |xs|
    ensures forall i :: 0 <= i < |xs| ==> r[i] == f(xs[i])
  {
    seq(|xs|, i requires 0 <= i < |xs| => f(xs[i]))
  }

  predicate NoDuplicates<T(==)>(xs: seq<T>)
  {
    forall i, j :: 0 <= i < j < |xs| ==> xs[i] != xs[j]
  }

  /** Position of the first occurrence of `x` in `xs`. */
  function FirstIndex<T(==)>(xs: seq<T>, x: T): (k: nat)
    requires x in xs
    ensures k < |xs| && xs[k] == x
    ensures forall j :: 0 <= j < k ==> xs[j] != x
  {
    if xs[0] == x then 0 else 1 + FirstIndex(xs[1..], x)
  }

  lemma FirstIndexOfPrefix<T>(xs: seq<T>, n: nat, x: T)
    requires n <= |xs| && x in xs[..n]
    ensures FirstIndex(xs[..n], x) == FirstIndex(xs, x)
  {
    var k := FirstIndex(xs[..n], x);
    var m := FirstIndex(xs, x);
    assert xs[..n][k] == xs[k];
    assert m <= k;
    assert xs[..n][m] == xs[m];
  }

  /** `[...new Set(xs)]`: each value once, in order of first occurrence. */
  function Distinct<T(==)>(xs: seq<T>): (r: seq<T>)
    ensures |r| <= |xs|
    ensures NoDuplicates(r)
    ensures forall i :: 0 <= i < |r| ==> r[i] in xs
    ensures forall i :: 0 <= i < |xs| ==> xs[i] in r
    decreases |xs|
  {
    if xs == [] then []
    else
      var d := Distinct(xs[..|xs| - 1]);
      if xs[|xs| - 1] in d then d else d + [xs[|xs| - 1]]
  }

  /** The values of `Distinct(xs)` appear in the order in which each first
      occurs in `xs`. */
  lemma {:induction false} DistinctInFirstOccurrenceOrder<T>(xs: seq<T>)
    ensures forall i, j :: 0 <= i < j < |Distinct(xs)| ==>
      FirstIndex(xs, Distinct(xs)[i]) < FirstIndex(xs, Distinct(xs)[j])
    decreases |xs|
  {
    if xs != [] {
      var n := |xs| - 1;
      var init, last := xs[..n], xs[n];
      var d := Distinct(init);
      DistinctInFirstOccurrenceOrder(init);
      var r := Distinct(xs);
      forall i, j | 0 <= i < j < |r| ensures FirstIndex(xs, r[i]) < FirstIndex(xs, r[j]) {
        assert r[i] == d[i];
        FirstIndexOfPrefix(xs, n, d[i]);
        if j < |d| {
          assert r[j] == d[j];
          FirstIndexOfPrefix(xs, n, d[j]);
        } else {
          assert r[j] == last && last !in init;
        }
      }
    }
  }

  /** The number of distinct values is the size of the set of values. */
  lemma {:induction false} DistinctCount<T>(xs: seq<T>)
    ensures |Distinct(xs)| == |set x | x in xs|
  {
    var r := Distinct(xs);
    assert (set x | x in xs) == (set x | x in r);
    NoDuplicatesCard(r);
  }

  lemma {:induction false} NoDuplicatesCard<T>(xs: seq<T>)
    requires NoDuplicates(xs)
    ensures |set x | x in xs| == |xs|
    decreases |xs|
  {
    if xs != [] {
      var rest := xs[1..];
      NoDuplicatesCard(rest);
      assert (set x | x in xs) == {xs[0]} + (set x | x in rest);
      assert forall j :: 0 <= j < |rest| ==> rest[j] == xs[j + 1];
      assert xs[0] !in rest;
    }
  }

  /** Keys never increase from left to right. */
  ghost predicate DescendingBy<T>(xs: seq<T>, key: T -> int)
  {
    forall i, j :: 0 <= i < j < |xs| ==> key(xs[i]) >= key(xs[j])
  }

  /** Inserts `x` before the first element whose key is not greater than its
      own, so that among equal keys `x` stays ahead of the later elements. */
  function InsertDesc<T>(x: T, ys: seq<T>, key: T -> int): (r: seq<T>)
    ensures |r| == |ys| + 1
    ensures multiset(r) == multiset(ys) + multiset{x}
    decreases |ys|
  {
    if ys == [] || key(x) >= key(ys[0]) then [x] + ys
    else
      assert ys == [ys[0]] + ys[1..];
      [ys[0]] + InsertDesc(x, ys[1..], key)
  }

  /** `xs.slice().sort((a, b) => key(b) - key(a))`: the stable sort that puts
      larger keys first; written as an insertion sort. */
  function SortDesc<T>(xs: seq<T>, key: T -> int): (r: seq<T>)
    ensures |r| == |xs|
    ensures multiset(r) == multiset(xs)
    decreases |xs|
  {
    if xs == [] then []
    else
      assert xs == [xs[0]] + xs[1..];
      InsertDesc(xs[0], SortDesc(xs[1..], key), key)
  }

  lemma {:induction false} InsertDescSorted<T>(x: T, ys: seq<T>, key: T -> int)
    requires DescendingBy(ys, key)
    ensures DescendingBy(InsertDesc(x, ys, key), key)
    decreases |ys|
  {
    if ys != [] && key(x) < key(ys[0]) {
      InsertDescSorted(x, ys[1..], key);
      var r := InsertDesc(x, ys, key);
      forall i, j | 0 <= i < j < |r| ensures key(r[i]) >= key(r[j]) {
        if i == 0 {
          assert r[j] in multiset(ys[1..]) + multiset{x};
          if r[j] == x {
          } else {
            assert r[j] in ys[1..];
            var k :| 0 <= k < |ys[1..]| && ys[1..][k] == r[j];
            assert ys[k + 1] == r[j];
          }
        }
      }
    }
  }

  lemma {:induction false} SortDescSorted<T>(xs: seq<T>, key: T -> int)
    ensures DescendingBy(SortDesc(xs, key), key)
    decreases |xs|
  {
    if xs != [] {
      SortDescSorted(xs[1..], key);
      InsertDescSorted(xs[0], SortDesc(xs[1..], key), key);
    }
  }

  /** `xs.slice(0, n)`. */
  function Take<T>(xs: seq<T>, n: nat): (r: seq<T>)
    ensures |r| == if |xs| < n then |xs| else n
    ensures forall i :: 0 <= i < |r| ==> r[i] == xs[i]
  {
    if |xs| <= n then xs else xs[..n]
  }

  /** The `n` largest keys in descending order: sort, then slice. */
  function TopBy<T>(xs: seq<T>, key: T -> int, n: nat): seq<T>
  {
    Take(SortDesc(xs, key), n)
  }

  /** What `TopBy` returns: at most `n` elements taken from the input, in
      descending key order, and none left out has a larger key than one kept. */
  lemma TopByProperties<T>(xs: seq<T>, key: T -> int, n: nat)
    ensures |TopBy(xs, key, n)| == if |xs| < n then |xs| else n
    ensures DescendingBy(TopBy(xs, key, n), key)
    ensures multiset(TopBy(xs, key, n)) <= multiset(xs)
    ensures forall x, y :: x in xs && x !in TopBy(xs, key, n) && y in TopBy(xs, key, n) ==> key(x) <= key(y)
  {
    var s := SortDesc(xs, key);
    var r := TopBy(xs, key, n);
    SortDescSorted(xs, key);
    var k := |r|;
    assert r == s[..k];
    assert s == r + s[k..];
    assert multiset(s) == multiset(r) + multiset(s[k..]);
    forall x, y | x in xs && x !in r && y in r ensures key(x) <= key(y) {
      assert x in multiset(s);
      var i :| 0 <= i < |s| && s[i] == x;
      var j :| 0 <= j < |r| && r[j] == y;
    }
  }
}
