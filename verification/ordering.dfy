/**
 * Python 2 string ordering and `sorted` over package names, and the aptly package filter
 * `generate_lockfile` builds from them.
 */
module Ordering {

  /** `a <= b` on Python 2 strings: character codes compared left to right, a prefix first. */
  predicate Le(a: string, b: string)
    decreases |a|
  {
    |a| == 0 || (|b| > 0 && (a[0] < b[0] || (a[0] == b[0] && Le(a[1..], b[1..]))))
  }

  lemma {:induction false} LeTotal(a: string, b: string)
    ensures Le(a, b) || Le(b, a)
    decreases |a|
  {
    if |a| > 0 && |b| > 0 && a[0] == b[0] {
      LeTotal(a[1..], b[1..]);
    }
  }

  lemma {:induction false} LeAntisymmetric(a: string, b: string)
    requires Le(a, b) && Le(b, a)
    ensures a == b
    decreases |a|
  {
    if |a| > 0 {
      LeAntisymmetric(a[1..], b[1..]);
      assert a == [a[0]] + a[1..] && b == [b[0]] + b[1..];
    }
  }

  lemma {:induction false} LeTransitive(a: string, b: string, c: string)
    requires Le(a, b) && Le(b, c)
    ensures Le(a, c)
    decreases |a|
  {
    if |a| > 0 && a[0] == b[0] && b[0] == c[0] {
      LeTransitive(a[1..], b[1..], c[1..]);
    }
  }

  predicate Sorted(xs: seq<string>) {
    forall i, j :: 0 <= i < j < |xs| ==> Le(xs[i], xs[j])
  }

  /** A lower bound of a sorted sequence can be put in front of it. */
  lemma SortedCons(x: string, xs: seq<string>)
    requires Sorted(xs)
    requires forall k :: 0 <= k < |xs| ==> Le(x, xs[k])
    ensures Sorted([x] + xs)
  {
    var s := [x] + xs;
    forall i, j | 0 <= i < j < |s| ensures Le(s[i], s[j]) {
      if i == 0 {
        assert s[j] == xs[j - 1];
      } else {
        assert s[i] == xs[i - 1] && s[j] == xs[j - 1];
      }
    }
  }

  /** A bound of every element of `xs` and of `x` bounds every element of a permutation of `xs + [x]`. */
  lemma LowerBound(b: string, xs: seq<string>, x: string, r: seq<string>)
    requires multiset(r) == multiset(xs) + multiset{x}
    requires forall k :: 0 <= k < |xs| ==> Le(b, xs[k])
    requires Le(b, x)
    ensures forall k :: 0 <= k < |r| ==> Le(b, r[k])
  {
    forall k | 0 <= k < |r| ensures Le(b, r[k]) {
      assert r[k] in multiset(r);
      if r[k] != x {
        assert r[k] in multiset(xs);
        var j :| 0 <= j < |xs| && xs[j] == r[k];
      }
    }
  }

  /** Inserting into a sorted sequence keeps it sorted and adds exactly the new element. */
  function Insert(x: string, xs: seq<string>): (r: seq<string>)
    requires Sorted(xs)
    ensures Sorted(r)
    ensures multiset(r) == multiset(xs) + multiset{x}
    decreases |xs|
  {
    if |xs| == 0 then [x]
    else if Le(x, xs[0]) then
      forall k | 0 <= k < |xs| ensures Le(x, xs[k]) {
        if k > 0 { LeTransitive(x, xs[0], xs[k]); }
      }
      SortedCons(x, xs);
      [x] + xs
    else
      var rest := Insert(x, xs[1..]);
      LeTotal(x, xs[0]);
      LowerBound(xs[0], xs[1..], x, rest);
      SortedCons(xs[0], rest);
      assert xs == [xs[0]] + xs[1..];
      [xs[0]] + rest
  }

  /** `sorted(xs)`: the sorted permutation of `xs`. */
  function Sort(xs: seq<string>): (r: seq<string>)
    ensures Sorted(r)
    ensures multiset(r) == multiset(xs)
  {
    if |xs| == 0 then []
    else
      assert xs == xs[..|xs| - 1] + [xs[|xs| - 1]];
      Insert(xs[|xs| - 1], Sort(xs[..|xs| - 1]))
  }

  /** Two sorted sequences with the same elements are equal. */
  lemma {:induction false} SortedUnique(a: seq<string>, b: seq<string>)
    requires Sorted(a) && Sorted(b) && multiset(a) == multiset(b)
    ensures a == b
    decreases |a|
  {
    if |a| > 0 {
      assert |b| == |multiset(b)| == |a|;
      SameLeast(a, b);
      DropHead(a);
      DropHead(b);
      SortedUnique(a[1..], b[1..]);
      assert a == [a[0]] + a[1..] && b == [b[0]] + b[1..];
    }
  }

  /** Sorted permutations of each other start with the same element, their least. */
  lemma SameLeast(a: seq<string>, b: seq<string>)
    requires Sorted(a) && Sorted(b) && multiset(a) == multiset(b) && |a| > 0 && |b| > 0
    ensures a[0] == b[0]
  {
    assert a[0] in multiset(b) && b[0] in multiset(a);
    var i :| 0 <= i < |b| && b[i] == a[0];
    var j :| 0 <= j < |a| && a[j] == b[0];
    assert Le(b[0], a[0]) by { if i > 0 { assert Le(b[0], b[i]); } else { LeTotal(a[0], a[0]); } }
    assert Le(a[0], b[0]) by { if j > 0 { assert Le(a[0], a[j]); } else { LeTotal(b[0], b[0]); } }
    LeAntisymmetric(a[0], b[0]);
  }

  lemma DropHead(a: seq<string>)
    requires |a| > 0
    ensures Sorted(a) ==> Sorted(a[1..])
    ensures multiset(a[1..]) == multiset(a) - multiset{a[0]}
  {
    assert a == [a[0]] + a[1..];
    if Sorted(a) {
      forall i, j | 0 <= i < j < |a| - 1 ensures Le(a[1..][i], a[1..][j]) {
        assert a[1..][i] == a[i + 1] && a[1..][j] == a[j + 1];
      }
    }
  }

  /** Sorting depends only on which names are given, not on their order. */
  lemma SortIgnoresOrder(xs: seq<string>, ys: seq<string>)
    requires multiset(xs) == multiset(ys)
    ensures Sort(xs) == Sort(ys)
  {
    SortedUnique(Sort(xs), Sort(ys));
  }

  /** `"".join("| " + x for x in packages)`: each package as one more alternative of the filter. */
  function PackageFilter(packages: seq<string>): string {
    if |packages| == 0 then "" else "| " + packages[0] + PackageFilter(packages[1..])
  }

  /** The filter of the sorted packages is the same for any ordering of the same packages. */
  lemma FilterIgnoresOrder(xs: seq<string>, ys: seq<string>)
    requires multiset(xs) == multiset(ys)
    ensures PackageFilter(Sort(xs)) == PackageFilter(Sort(ys))
  {
    SortIgnoresOrder(xs, ys);
  }

  /** The filter lists the packages in turn, each after its own `| `. */
  lemma {:induction false} FilterConcat(xs: seq<string>, ys: seq<string>)
    ensures PackageFilter(xs + ys) == PackageFilter(xs) + PackageFilter(ys)
    decreases |xs|
  {
    if |xs| > 0 {
      assert (xs + ys)[1..] == xs[1..] + ys;
      FilterConcat(xs[1..], ys);
    } else {
      assert xs + ys == ys;
    }
  }
}
