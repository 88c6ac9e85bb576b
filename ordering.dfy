/** Python's `sorted(..., key=...)` on ship names: a stable sort by a
    per-name key (a ship length or a candidate count). */
module Ordering {
  import opened Cells

  /** The names are in ascending order of their keys. */
  predicate SortedBy(xs: seq<Name>, key: map<Name, int>)
    requires forall n :: n in xs ==> n in key
  {
    forall i, j :: 0 <= i < j < |xs| ==> key[xs[i]] <= key[xs[j]]
  }

  /** Ascending by key, and by name among equal keys: the order of
      `sorted(zip(keys, names))` on (key, name) pairs. */
  predicate LexSortedBy(xs: seq<Name>, key: map<Name, int>)
    requires forall n :: n in xs ==> n in key
  {
    forall i, j :: 0 <= i < j < |xs| ==>
      key[xs[i]] < key[xs[j]] || (key[xs[i]] == key[xs[j]] && xs[i] < xs[j])
  }

  /** Each name strictly precedes the next alphabetically. */
  predicate StrictlyAscending(xs: seq<Name>) {
    forall i, j :: 0 <= i < j < |xs| ==> xs[i] < xs[j]
  }

  /** Puts `x` in front of the first name whose key is not smaller. */
  function Insert(x: Name, ys: seq<Name>, key: map<Name, int>): (r: seq<Name>)
    requires x in key && forall n :: n in ys ==> n in key
    requires SortedBy(ys, key)
    ensures forall n :: n in r <==> n == x || n in ys
    ensures SortedBy(r, key)
  {
    if ys == [] then [x]
    else if key[x] <= key[ys[0]] then [x] + ys
    else
      assert ys == [ys[0]] + ys[1..];
      var tail := Insert(x, ys[1..], key);
      assert forall n :: n in tail ==> key[ys[0]] <= key[n];
      [ys[0]] + tail
  }

  /** Inserting adds exactly one copy of the name. */
  lemma {:induction false} InsertCount(x: Name, ys: seq<Name>, key: map<Name, int>)
    requires x in key && forall n :: n in ys ==> n in key
    requires SortedBy(ys, key)
    ensures multiset(Insert(x, ys, key)) == multiset(ys) + multiset{x}
  {
    if ys != [] && key[x] > key[ys[0]] {
      assert ys == [ys[0]] + ys[1..];
      InsertCount(x, ys[1..], key);
    }
  }

  /** Stable insertion sort by key, as Python's `sorted(xs, key=key.get)`:
      a rearrangement of `xs` in ascending key order. */
  function SortByKey(xs: seq<Name>, key: map<Name, int>): (r: seq<Name>)
    requires forall n :: n in xs ==> n in key
    ensures multiset(r) == multiset(xs)
    ensures forall n :: n in r <==> n in xs
    ensures SortedBy(r, key)
  {
    if xs == [] then []
    else
      assert xs == [xs[0]] + xs[1..];
      var rest := SortByKey(xs[1..], key);
      InsertCount(xs[0], rest, key);
      Insert(xs[0], rest, key)
  }

  /** The names of `xs` whose key is `k`, in the order `xs` lists them. */
  function WithKey(xs: seq<Name>, key: map<Name, int>, k: int): seq<Name> {
    if xs == [] then []
    else (if xs[0] in key && key[xs[0]] == k then [xs[0]] else []) + WithKey(xs[1..], key, k)
  }

  /** The names with key `k` of a list with `y` in front. */
  lemma {:induction false} WithKeyCons(y: Name, t: seq<Name>, key: map<Name, int>, k: int)
    requires y in key
    ensures WithKey([y] + t, key, k) == (if key[y] == k then [y] else []) + WithKey(t, key, k)
  {
    assert ([y] + t)[0] == y && ([y] + t)[1..] == t;
  }

  /** Inserting `x` into a sorted list puts it in front of every name with
      the same key. */
  lemma {:induction false} InsertWithKey(x: Name, ys: seq<Name>, key: map<Name, int>, k: int)
    requires x in key && forall n :: n in ys ==> n in key
    requires SortedBy(ys, key)
    ensures WithKey(Insert(x, ys, key), key, k)
         == (if key[x] == k then [x] else []) + WithKey(ys, key, k)
  {
    if ys == [] || key[x] <= key[ys[0]] {
      assert Insert(x, ys, key) == [x] + ys;
      WithKeyCons(x, ys, key, k);
    } else {
      var y, rest := ys[0], ys[1..];
      var tail := Insert(x, rest, key);
      assert Insert(x, ys, key) == [y] + tail by {
        assert ys == [y] + rest;
      }
      assert WithKey(tail, key, k) == (if key[x] == k then [x] else []) + WithKey(rest, key, k) by {
        assert ys == [y] + rest;
        InsertWithKey(x, rest, key, k);
      }
      assert WithKey(ys, key, k) == (if key[y] == k then [y] else []) + WithKey(rest, key, k) by {
        assert ys == [y] + rest;
        WithKeyCons(y, rest, key, k);
      }
      WithKeyCons(y, tail, key, k);
    }
  }

  /** The sort is stable: names with equal keys keep the relative order
      they have in `xs`, as Python's `sorted` guarantees. */
  lemma {:induction false} SortByKeyStable(xs: seq<Name>, key: map<Name, int>, k: int)
    requires forall n :: n in xs ==> n in key
    ensures WithKey(SortByKey(xs, key), key, k) == WithKey(xs, key, k)
  {
    if xs != [] {
      assert xs == [xs[0]] + xs[1..];
      SortByKeyStable(xs[1..], key, k);
      InsertWithKey(xs[0], SortByKey(xs[1..], key), key, k);
    }
  }

  /** Putting a name smaller than all others, and with a key no larger, in
      front of a list sorted by (key, name) keeps it sorted by (key, name). */
  lemma {:induction false} ConsLex(x: Name, ys: seq<Name>, key: map<Name, int>)
    requires x in key && forall n :: n in ys ==> n in key
    requires LexSortedBy(ys, key)
    requires forall k :: 0 <= k < |ys| ==>
      key[x] < key[ys[k]] || (key[x] == key[ys[k]] && x < ys[k])
    ensures LexSortedBy([x] + ys, key)
  {
    var r := [x] + ys;
    forall i, j | 0 <= i < j < |r|
      ensures key[r[i]] < key[r[j]] || (key[r[i]] == key[r[j]] && r[i] < r[j])
    {
      assert r[j] == ys[j - 1];
      if i > 0 {
        assert r[i] == ys[i - 1];
      }
    }
  }

  /** Inserting a name smaller than all others into a list sorted by
      (key, name) keeps it sorted by (key, name). */
  lemma {:induction false} InsertLex(x: Name, ys: seq<Name>, key: map<Name, int>)
    requires x in key && forall n :: n in ys ==> n in key
    requires SortedBy(ys, key) && LexSortedBy(ys, key)
    requires forall n :: n in ys ==> x < n
    ensures LexSortedBy(Insert(x, ys, key), key)
  {
    if ys == [] {
    } else if key[x] <= key[ys[0]] {
      forall k | 0 <= k < |ys|
        ensures key[x] < key[ys[k]] || (key[x] == key[ys[k]] && x < ys[k])
      {
        assert key[ys[0]] <= key[ys[k]];
        assert ys[k] in ys;
      }
      ConsLex(x, ys, key);
    } else {
      var tail := Insert(x, ys[1..], key);
      assert forall n :: n in ys[1..] ==> n in ys;
      InsertLex(x, ys[1..], key);
      forall k | 0 <= k < |tail|
        ensures key[ys[0]] < key[tail[k]] || (key[ys[0]] == key[tail[k]] && ys[0] < tail[k])
      {
        var n := tail[k];
        assert n in tail;
        if n != x {
          var m :| 0 <= m < |ys[1..]| && ys[1..][m] == n;
          assert ys[m + 1] == n;
        }
      }
      ConsLex(ys[0], tail, key);
    }
  }

  /** Stable sorting of names listed alphabetically orders them by
      (key, name); this is `sorted(zip(keys, names))` when every name is
      unique. */
  lemma {:induction false} SortByKeyLex(xs: seq<Name>, key: map<Name, int>)
    requires forall n :: n in xs ==> n in key
    requires StrictlyAscending(xs)
    ensures LexSortedBy(SortByKey(xs, key), key)
  {
    if xs != [] {
      assert xs == [xs[0]] + xs[1..];
      SortByKeyLex(xs[1..], key);
      var rest := SortByKey(xs[1..], key);
      InsertLex(xs[0], rest, key);
    }
  }
}
