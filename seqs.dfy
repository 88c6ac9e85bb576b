/** List operations the two sampler variants perform on candidate lists,
    ship orders and sampled boards: filtering comprehensions, `list(s)` of a
    set, `random.shuffle`, `list.remove`, flattening and summing, and the
    facts about set sizes the statistics variant's size tests rest on. */
module Seqs {

  /** No element occurs twice. */
  predicate Distinct<T(==)>(xs: seq<T>) {
    forall i, j :: 0 <= i < j < |xs| ==> xs[i] != xs[j]
  }

  /** The elements of a list, as a set. */
  function Elems<T>(xs: seq<T>): set<T> {
    set x | x in xs
  }

  /** `[x for x in xs if p(x)]`: keeps exactly the elements satisfying `p`,
      each as often as it occurred, in their original order. */
  function Filter<T(!new)>(xs: seq<T>, p: T -> bool): (r: seq<T>)
    ensures forall x :: x in r <==> x in xs && p(x)
    ensures multiset(r) <= multiset(xs)
  {
    if xs == [] then []
    else
      var init, last := xs[..|xs| - 1], xs[|xs| - 1];
      assert xs == init + [last];
      if p(last) then Filter(init, p) + [last] else Filter(init, p)
  }

  /** Filtering keeps every copy of an element that passes: it occurs in
      the result exactly as often as in the input. */
  lemma {:induction false} FilterCount<T(!new)>(xs: seq<T>, p: T -> bool, x: T)
    ensures multiset(Filter(xs, p))[x] == if p(x) then multiset(xs)[x] else 0
  {
    if xs != [] {
      var init, last := xs[..|xs| - 1], xs[|xs| - 1];
      assert xs == init + [last];
      FilterCount(init, p, x);
    }
  }

  /** Filtering keeps the order: the filter of two lists joined is the
      two filters joined, so an element the filter keeps stays in front of
      every later element it keeps. */
  lemma {:induction false} FilterAppend<T(!new)>(xs: seq<T>, ys: seq<T>, p: T -> bool)
    ensures Filter(xs + ys, p) == Filter(xs, p) + Filter(ys, p)
  {
    if ys != [] {
      var init, last := ys[..|ys| - 1], ys[|ys| - 1];
      assert ys == init + [last];
      assert xs + ys == (xs + init) + [last];
      assert (xs + ys)[..|xs + ys| - 1] == xs + init;
      FilterAppend(xs, init, p);
    } else {
      assert xs + ys == xs;
    }
  }

  /** A filter that every element passes returns its input. */
  lemma {:induction false} FilterAll<T(!new)>(xs: seq<T>, p: T -> bool)
    requires forall x :: x in xs ==> p(x)
    ensures Filter(xs, p) == xs
  {
    if xs != [] {
      var init := xs[..|xs| - 1];
      assert xs == init + [xs[|xs| - 1]];
      FilterAll(init, p);
    }
  }

  /** A duplicate-free list counts each element once. */
  lemma {:induction false} DistinctCount<T>(xs: seq<T>, x: T)
    requires Distinct(xs)
    ensures multiset(xs)[x] == if x in xs then 1 else 0
  {
    if xs != [] {
      var init := xs[..|xs| - 1];
      assert xs == init + [xs[|xs| - 1]];
      assert Distinct(init);
      DistinctCount(init, x);
    }
  }

  /** `list(s)` for a Python set: every element once, in some order. */
  method Enumerate<T>(s: set<T>) returns (xs: seq<T>)
    ensures Distinct(xs)
    ensures Elems(xs) == s
    ensures |xs| == |s|
  {
    xs := [];
    var rest := s;
    while rest != {}
      invariant rest <= s
      invariant Distinct(xs)
      invariant forall x :: x in xs <==> x in s && x !in rest
      invariant |xs| + |rest| == |s|
      decreases |rest|
    {
      var x :| x in rest;
      xs := xs + [x];
      rest := rest - {x};
    }
  }

  /** `random.shuffle(xs)`: some rearrangement of the list. No claim is made
      about the distribution. */
  method Shuffle<T>(xs: seq<T>) returns (ys: seq<T>)
    ensures multiset(ys) == multiset(xs)
  {
    ys := [];
    var rest := xs;
    while rest != []
      invariant multiset(ys) + multiset(rest) == multiset(xs)
      decreases |rest|
    {
      var i :| 0 <= i < |rest|;
      assert rest == rest[..i] + [rest[i]] + rest[i + 1..];
      ys := ys + [rest[i]];
      rest := rest[..i] + rest[i + 1..];
    }
  }

  /** `xs.remove(x)`: drops the first occurrence of `x`. */
  function RemoveFirst<T(==)>(xs: seq<T>, x: T): (r: seq<T>)
    requires x in xs
    ensures multiset(r) == multiset(xs) - multiset{x}
    ensures |r| == |xs| - 1
  {
    if xs[0] == x then
      assert xs == [x] + xs[1..];
      xs[1..]
    else
      assert xs == [xs[0]] + xs[1..];
      [xs[0]] + RemoveFirst(xs[1..], x)
  }

  /** On a duplicate-free list, `remove` drops exactly that element and
      leaves the list duplicate-free. */
  lemma {:induction false} RemoveFirstDistinct<T>(xs: seq<T>, x: T)
    requires x in xs && Distinct(xs)
    ensures Distinct(RemoveFirst(xs, x))
    ensures forall y :: y in RemoveFirst(xs, x) <==> y in xs && y != x
  {
    assert xs == [xs[0]] + xs[1..];
    assert Distinct(xs[1..]);
    assert xs[0] !in xs[1..];
    if xs[0] != x {
      RemoveFirstDistinct(xs[1..], x);
      var r := RemoveFirst(xs[1..], x);
      assert RemoveFirst(xs, x) == [xs[0]] + r;
      assert xs[0] !in r;
    }
  }

  /** A rearrangement of a duplicate-free list is duplicate-free and has the
      same elements. */
  lemma {:induction false} PermutationDistinct<T>(xs: seq<T>, ys: seq<T>)
    requires multiset(xs) == multiset(ys) && Distinct(xs)
    ensures Distinct(ys)
    ensures Elems(ys) == Elems(xs)
  {
    forall y ensures y in ys <==> y in xs {
      assert y in ys <==> y in multiset(ys);
      assert y in xs <==> y in multiset(xs);
    }
    forall i, j | 0 <= i < j < |ys| ensures ys[i] != ys[j] {
      if ys[i] == ys[j] {
        var y := ys[i];
        assert ys == ys[..i] + [y] + ys[i + 1..j] + [y] + ys[j + 1..];
        assert multiset(ys)[y] >= 2;
        DistinctCount(xs, y);
        assert false;
      }
    }
  }

  /** Deleting the element at position `i` deletes one copy of it. */
  lemma {:induction false} MultisetRemoveAt<T>(xs: seq<T>, i: nat)
    requires i < |xs|
    ensures multiset(xs[..i] + xs[i + 1..]) == multiset(xs) - multiset{xs[i]}
  {
    assert xs == xs[..i] + [xs[i]] + xs[i + 1..];
  }

  /** The concatenation of a list of lists. */
  function Flatten<T>(xss: seq<seq<T>>): seq<T> {
    if xss == [] then [] else Flatten(xss[..|xss| - 1]) + xss[|xss| - 1]
  }

  /** An element of the flattened list is an element of one of the lists. */
  lemma {:induction false} InFlatten<T(!new)>(xss: seq<seq<T>>, x: T)
    ensures x in Flatten(xss) <==> exists i :: 0 <= i < |xss| && x in xss[i]
  {
    if xss != [] {
      var init := xss[..|xss| - 1];
      InFlatten(init, x);
      assert forall i :: 0 <= i < |init| ==> init[i] == xss[i];
    }
  }

  /** Flattening `n` lists of length `m` gives `n * m` elements. */
  lemma {:induction false} FlattenLength<T>(xss: seq<seq<T>>, m: nat)
    requires forall i :: 0 <= i < |xss| ==> |xss[i]| == m
    ensures |Flatten(xss)| == |xss| * m
  {
    if xss != [] {
      var n := |xss| - 1;
      assert |Flatten(xss[..n])| == n * m by {
        FlattenLength(xss[..n], m);
      }
      assert |Flatten(xss)| == |Flatten(xss[..n])| + |xss[n]|;
    }
  }

  /** Flattening commutes with appending one more list. */
  lemma {:induction false} FlattenSnoc<T>(xss: seq<seq<T>>, xs: seq<T>)
    ensures Flatten(xss + [xs]) == Flatten(xss) + xs
  {
    assert (xss + [xs])[..|xss|] == xss;
  }

  /** Flattening lists that each hold the elements of two others, row by
      row, holds the elements of both flattenings. */
  lemma {:induction false} FlattenMerge<T>(a: seq<seq<T>>, b: seq<seq<T>>, c: seq<seq<T>>)
    requires |a| == |b| == |c|
    requires forall i :: 0 <= i < |a| ==> multiset(a[i]) == multiset(b[i]) + multiset(c[i])
    ensures multiset(Flatten(a)) == multiset(Flatten(b)) + multiset(Flatten(c))
  {
    if a != [] {
      var n := |a| - 1;
      FlattenMerge(a[..n], b[..n], c[..n]);
    }
  }

  /** Each element as a one-element list. */
  function Singletons<T>(xs: seq<T>): (r: seq<seq<T>>)
    ensures |r| == |xs| && forall i :: 0 <= i < |xs| ==> r[i] == [xs[i]]
  {
    seq(|xs|, i requires 0 <= i < |xs| => [xs[i]])
  }

  /** Flattening one-element lists gives back their elements. */
  lemma {:induction false} FlattenSingletons<T>(xs: seq<T>)
    ensures Flatten(Singletons(xs)) == xs
  {
    if xs != [] {
      var n := |xs| - 1;
      FlattenSingletons(xs[..n]);
      assert Singletons(xs)[..n] == Singletons(xs[..n]);
      assert xs == xs[..n] + [xs[n]];
    }
  }

  /** `set().union(*xss)`: every element of any of the sets. */
  function UnionAll<T(!new)>(xss: seq<set<T>>): (r: set<T>)
    ensures forall x :: x in r <==> exists k :: 0 <= k < |xss| && x in xss[k]
  {
    if xss == [] then {}
    else
      var init := xss[..|xss| - 1];
      assert forall k :: 0 <= k < |init| ==> init[k] == xss[k];
      UnionAll(init) + xss[|xss| - 1]
  }

  /** Two filters that agree on every element keep the same elements. */
  lemma {:induction false} FilterCongruent<T(!new)>(xs: seq<T>, p: T -> bool, q: T -> bool)
    requires forall x :: x in xs ==> p(x) == q(x)
    ensures Filter(xs, p) == Filter(xs, q)
  {
    if xs != [] {
      var init := xs[..|xs| - 1];
      assert xs == init + [xs[|xs| - 1]];
      FilterCongruent(init, p, q);
    }
  }

  /** `sum(xs)`. */
  function Sum(xs: seq<nat>): nat {
    if xs == [] then 0 else Sum(xs[..|xs| - 1]) + xs[|xs| - 1]
  }

  function Min(a: int, b: int): int {
    if a <= b then a else b
  }

  function Max(a: int, b: int): int {
    if a <= b then b else a
  }

  /** A subset is no larger. */
  lemma {:induction false} SubsetCard<T>(a: set<T>, b: set<T>)
    requires a <= b
    ensures |a| <= |b|
  {
    assert b == a + (b - a);
  }

  /** A subset as large as its superset is all of it. */
  lemma {:induction false} SubsetFull<T>(a: set<T>, b: set<T>)
    requires a <= b
    ensures |a| == |b| <==> a == b
  {
    if |a| == |b| && a != b {
      var c :| c in b && c !in a;
      SubsetCard(a, b - {c});
    }
  }

  /** Two duplicate-free lists with the same elements are rearrangements
      of each other. */
  lemma {:induction false} DistinctSameElems<T>(xs: seq<T>, ys: seq<T>)
    requires Distinct(xs) && Distinct(ys) && Elems(xs) == Elems(ys)
    ensures multiset(xs) == multiset(ys)
  {
    forall x ensures multiset(xs)[x] == multiset(ys)[x] {
      DistinctCount(xs, x);
      DistinctCount(ys, x);
      assert x in xs <==> x in Elems(xs);
      assert x in ys <==> x in Elems(ys);
    }
  }
}
