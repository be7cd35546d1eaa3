/** `Array.prototype.sort` with a comparator that orders by an integer key.
    Since ES2019 that sort is stable, and a stable sort by a key is unique, so it
    is modelled by a stable insertion sort; the lemmas below are the three facts
    that pin the result down: it is ordered by the key, it is a permutation of
    the input, and elements with equal keys keep their input order. */
module Sorting {
  import opened Base

  predicate SortedBy<T>(s: seq<T>, key: T -> int) {
    forall i, j :: 0 <= i < j < |s| ==> key(s[i]) <= key(s[j])
  }

  /** The elements of `s` whose key is `k`, in input order. */
  function WithKey<T>(s: seq<T>, key: T -> int, k: int): (r: seq<T>)
    ensures |r| <= |s|
  {
    if s == [] then []
    else (if key(s[0]) == k then [s[0]] else []) + WithKey(s[1..], key, k)
  }

  /** Puts `x` after every element whose key is not larger than its own. */
  function Insert<T>(t: seq<T>, x: T, key: T -> int): (r: seq<T>)
    ensures |r| == |t| + 1
  {
    if t == [] then [x]
    else if key(t[0]) > key(x) then [x] + t
    else [t[0]] + Insert(t[1..], x, key)
  }

  function SortByKey<T>(s: seq<T>, key: T -> int): (r: seq<T>)
    ensures |r| == |s|
    decreases |s|
  {
    if s == [] then [] else Insert(SortByKey(s[..|s| - 1], key), s[|s| - 1], key)
  }

  lemma {:induction false} InsertPermutation<T>(t: seq<T>, x: T, key: T -> int)
    ensures multiset(Insert(t, x, key)) == multiset(t) + multiset{x}
  {
    if t != [] && key(t[0]) <= key(x) {
      InsertPermutation(t[1..], x, key);
      assert t == [t[0]] + t[1..];
    }
  }

  lemma {:induction false} InsertSorted<T>(t: seq<T>, x: T, key: T -> int)
    requires SortedBy(t, key)
    ensures SortedBy(Insert(t, x, key), key)
  {
    if t != [] && key(t[0]) <= key(x) {
      InsertSorted(t[1..], x, key);
      var r := Insert(t[1..], x, key);
      assert Insert(t, x, key) == [t[0]] + r;
      forall j | 0 <= j < |r| ensures key(t[0]) <= key(r[j]) {
        InsertPermutation(t[1..], x, key);
        assert r[j] in multiset(r);
        assert r[j] in multiset(t[1..]) || r[j] == x;
        if r[j] != x {
          var m :| 0 <= m < |t[1..]| && t[1..][m] == r[j];
          assert t[m + 1] == r[j];
        }
      }
    }
  }

  lemma {:induction false} InsertWithKey<T>(t: seq<T>, x: T, key: T -> int, k: int)
    requires SortedBy(t, key)
    ensures WithKey(Insert(t, x, key), key, k) == WithKey(t, key, k) + (if key(x) == k then [x] else [])
  {
    if t == [] {
    } else if key(t[0]) > key(x) {
      if key(x) == k {
        NoneWithKey(t, key, k);
      }
      assert ([x] + t)[1..] == t;
    } else {
      InsertWithKey(t[1..], x, key, k);
      assert ([t[0]] + Insert(t[1..], x, key))[1..] == Insert(t[1..], x, key);
    }
  }

  lemma {:induction false} NoneWithKey<T>(t: seq<T>, key: T -> int, k: int)
    requires forall i :: 0 <= i < |t| ==> key(t[i]) > k
    ensures WithKey(t, key, k) == []
  {
    if t != [] {
      NoneWithKey(t[1..], key, k);
    }
  }

  lemma {:induction false} WithKeyAppend<T>(s: seq<T>, x: T, key: T -> int, k: int)
    ensures WithKey(s + [x], key, k) == WithKey(s, key, k) + (if key(x) == k then [x] else [])
  {
    if s != [] {
      WithKeyAppend(s[1..], x, key, k);
      assert (s + [x])[1..] == s[1..] + [x];
    }
  }

  /** The result is ordered by the key. */
  lemma {:induction false} SortedBySortByKey<T>(s: seq<T>, key: T -> int)
    ensures SortedBy(SortByKey(s, key), key)
  {
    if s != [] {
      SortedBySortByKey(s[..|s| - 1], key);
      InsertSorted(SortByKey(s[..|s| - 1], key), s[|s| - 1], key);
    }
  }

  /** The result holds exactly the input's elements, each as often. */
  lemma {:induction false} SortByKeyPermutation<T>(s: seq<T>, key: T -> int)
    ensures multiset(SortByKey(s, key)) == multiset(s)
  {
    if s != [] {
      SortByKeyPermutation(s[..|s| - 1], key);
      InsertPermutation(SortByKey(s[..|s| - 1], key), s[|s| - 1], key);
      assert s == s[..|s| - 1] + [s[|s| - 1]];
    }
  }

  /** Stability: the elements sharing a key appear in the same order as in the input. */
  lemma {:induction false} SortByKeyStable<T>(s: seq<T>, key: T -> int, k: int)
    ensures WithKey(SortByKey(s, key), key, k) == WithKey(s, key, k)
  {
    if s != [] {
      var init := s[..|s| - 1];
      SortByKeyStable(init, key, k);
      SortedBySortByKey(init, key);
      InsertWithKey(SortByKey(init, key), s[|s| - 1], key, k);
      WithKeyAppend(init, s[|s| - 1], key, k);
      assert s == init + [s[|s| - 1]];
    }
  }

  /** Sorting the rows a filter keeps: ordered by the key, a permutation of the kept rows,
      every row of the result a kept row, and every kept row in the result. */
  lemma SortedFilter<T>(all: seq<T>, p: T -> bool, key: T -> int)
    ensures SortedBy(SortByKey(Filter(all, p), key), key)
    ensures multiset(SortByKey(Filter(all, p), key)) == multiset(Filter(all, p))
    ensures forall i :: 0 <= i < |SortByKey(Filter(all, p), key)| ==>
      SortByKey(Filter(all, p), key)[i] in all && p(SortByKey(Filter(all, p), key)[i])
    ensures forall i :: 0 <= i < |all| && p(all[i]) ==> all[i] in SortByKey(Filter(all, p), key)
  {
    var f := Filter(all, p);
    SortedBySortByKey(f, key);
    SortByKeyPermutation(f, key);
    var s := SortByKey(f, key);
    forall i | 0 <= i < |s| ensures s[i] in all && p(s[i]) {
      assert s[i] in multiset(f);
      var j :| 0 <= j < |f| && f[j] == s[i];
    }
    forall i | 0 <= i < |all| && p(all[i]) ensures all[i] in s {
      assert all[i] in multiset(f);
    }
  }
}
