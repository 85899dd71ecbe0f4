/** Python's `sorted(xs, key=..., reverse=...)` on integer keys, and the
    slices `xs[:n]` and `xs[-n:]` the ledger's read queries end with.
    `sorted` is stable, also with `reverse=True`: elements with equal keys
    keep their original order. */
module Sorting {

  /** `a` may stand before `b` in the output: ascending, or descending
      when `desc`. */
  predicate Before(desc: bool, a: int, b: int) {
    if desc then a >= b else a <= b
  }

  predicate SortedBy<T>(s: seq<T>, key: T -> int, desc: bool) {
    forall i, j :: 0 <= i < j < |s| ==> Before(desc, key(s[i]), key(s[j]))
  }

  /** The elements of `s` whose key is `k`, in their order in `s`. */
  function WithKey<T>(s: seq<T>, key: T -> int, k: int): seq<T> {
    if s == [] then []
    else (if key(s[0]) == k then [s[0]] else []) + WithKey(s[1..], key, k)
  }

  /** Places `x` in front of the first element that may not stand before it. */
  function Insert<T>(x: T, t: seq<T>, key: T -> int, desc: bool): seq<T> {
    if t == [] || Before(desc, key(x), key(t[0])) then [x] + t
    else [t[0]] + Insert(x, t[1..], key, desc)
  }

  /** `sorted(s, key=key, reverse=desc)`. */
  function Sort<T>(s: seq<T>, key: T -> int, desc: bool): seq<T> {
    if s == [] then [] else Insert(s[0], Sort(s[1..], key, desc), key, desc)
  }

  lemma {:induction false} InsertPerm<T>(x: T, t: seq<T>, key: T -> int, desc: bool)
    ensures multiset(Insert(x, t, key, desc)) == multiset{x} + multiset(t)
  {
    if !(t == [] || Before(desc, key(x), key(t[0]))) {
      InsertPerm(x, t[1..], key, desc);
      assert t == [t[0]] + t[1..];
    }
  }

  lemma WithKeyCons<T>(x: T, t: seq<T>, key: T -> int, k: int)
    ensures WithKey([x] + t, key, k) == (if key(x) == k then [x] else []) + WithKey(t, key, k)
  {
    assert ([x] + t)[1..] == t;
  }

  lemma {:induction false} InsertWithKey<T>(x: T, t: seq<T>, key: T -> int, desc: bool, k: int)
    ensures WithKey(Insert(x, t, key, desc), key, k) == (if key(x) == k then [x] else []) + WithKey(t, key, k)
  {
    if t == [] || Before(desc, key(x), key(t[0])) {
      WithKeyCons(x, t, key, k);
    } else {
      InsertWithKey(x, t[1..], key, desc, k);
      WithKeyCons(t[0], Insert(x, t[1..], key, desc), key, k);
      WithKeyCons(t[0], t[1..], key, k);
      assert t == [t[0]] + t[1..];
    }
  }

  lemma {:induction false} InsertSorted<T>(x: T, t: seq<T>, key: T -> int, desc: bool)
    requires SortedBy(t, key, desc)
    ensures SortedBy(Insert(x, t, key, desc), key, desc)
  {
    var r := Insert(x, t, key, desc);
    if t == [] || Before(desc, key(x), key(t[0])) {
      assert r[1..] == t;
      forall j | 0 < j < |r| ensures Before(desc, key(r[0]), key(r[j])) {
        assert r[j] == t[j - 1];
      }
    } else {
      var r' := Insert(x, t[1..], key, desc);
      InsertSorted(x, t[1..], key, desc);
      InsertPerm(x, t[1..], key, desc);
      assert r[1..] == r';
      forall j | 0 < j < |r| ensures Before(desc, key(r[0]), key(r[j])) {
        assert r[j] == r'[j - 1];
        assert r[j] in multiset(r');
        if r[j] != x {
          assert r[j] in multiset(t[1..]);
          var m :| 0 <= m < |t[1..]| && t[1..][m] == r[j];
          assert t[m + 1] == r[j];
        }
      }
    }
  }

  /** The output is ordered by key, holds the same elements, and is
      stable: the elements with any one key come in their input order. */
  lemma {:induction false} SortSorted<T>(s: seq<T>, key: T -> int, desc: bool)
    ensures SortedBy(Sort(s, key, desc), key, desc)
    ensures multiset(Sort(s, key, desc)) == multiset(s)
    ensures forall k :: WithKey(Sort(s, key, desc), key, k) == WithKey(s, key, k)
  {
    if s != [] {
      SortSorted(s[1..], key, desc);
      InsertSorted(s[0], Sort(s[1..], key, desc), key, desc);
      InsertPerm(s[0], Sort(s[1..], key, desc), key, desc);
      forall k ensures WithKey(Sort(s, key, desc), key, k) == WithKey(s, key, k) {
        InsertWithKey(s[0], Sort(s[1..], key, desc), key, desc, k);
      }
      assert s == [s[0]] + s[1..];
    }
  }

  /** `[x for x in s if p(x)]`. */
  function Filter<T>(s: seq<T>, p: T -> bool): (r: seq<T>)
    ensures |r| <= |s|
    ensures forall k :: 0 <= k < |r| ==> p(r[k])
    ensures multiset(r) <= multiset(s)
    ensures forall x :: x in s && p(x) ==> x in r
  {
    if s == [] then []
    else
      assert s == [s[0]] + s[1..];
      (if p(s[0]) then [s[0]] else []) + Filter(s[1..], p)
  }

  lemma FilterCons<T>(s: seq<T>, p: T -> bool)
    requires s != []
    ensures Filter(s, p) == (if p(s[0]) then [s[0]] else []) + Filter(s[1..], p)
  {
  }

  /** Filtering keeps the input order: it distributes over concatenation. */
  lemma {:induction false} FilterAppend<T>(s: seq<T>, t: seq<T>, p: T -> bool)
    ensures Filter(s + t, p) == Filter(s, p) + Filter(t, p)
  {
    if s != [] {
      assert (s + t)[1..] == s[1..] + t;
      FilterCons(s + t, p);
      FilterCons(s, p);
      FilterAppend(s[1..], t, p);
    } else {
      assert s + t == t;
    }
  }

  /** Filtering with a condition every element meets changes nothing. */
  lemma {:induction false} FilterAll<T>(s: seq<T>, p: T -> bool)
    requires forall k :: 0 <= k < |s| ==> p(s[k])
    ensures Filter(s, p) == s
  {
    if s != [] {
      FilterAll(s[1..], p);
      assert s == [s[0]] + s[1..];
    }
  }

  /** `sorted([x for x in s if p(x)], ...)`: the selected elements, each
      once, in key order. */
  lemma SortFilter<T>(s: seq<T>, p: T -> bool, key: T -> int, desc: bool)
    ensures var r := Sort(Filter(s, p), key, desc);
            && |r| == |Filter(s, p)|
            && multiset(r) == multiset(Filter(s, p))
            && SortedBy(r, key, desc)
            && forall k :: 0 <= k < |r| ==> p(r[k])
  {
    var f := Filter(s, p);
    var r := Sort(f, key, desc);
    SortSorted(f, key, desc);
    assert |r| == |f| by {
      assert |multiset(r)| == |multiset(f)|;
    }
    forall k | 0 <= k < |r| ensures p(r[k]) {
      assert r[k] in multiset(f);
    }
  }

  /** Any slice of an ordered sequence is ordered. */
  lemma SortedSlice<T>(s: seq<T>, key: T -> int, desc: bool, lo: int, hi: int)
    requires SortedBy(s, key, desc) && 0 <= lo <= hi <= |s|
    ensures SortedBy(s[lo..hi], key, desc)
  {
    forall i, j | 0 <= i < j < hi - lo ensures Before(desc, key(s[lo..hi][i]), key(s[lo..hi][j])) {
      assert s[lo..hi][i] == s[lo + i] && s[lo..hi][j] == s[lo + j];
    }
  }

  /** Python's normalisation of a slice bound `i` over a list of length
      `n`: `xs[:i]` is `xs[..SliceIndex(i, |xs|)]` and `xs[i:]` is
      `xs[SliceIndex(i, |xs|)..]`. */
  function SliceIndex(i: int, n: nat): (r: nat)
    ensures r <= n
    ensures 0 <= i <= n ==> r == i
    ensures i < 0 && -i <= n ==> r == n + i
    ensures i < 0 && -i > n ==> r == 0
    ensures i > n ==> r == n
  {
    if i < 0 then (if n + i < 0 then 0 else n + i) else if i > n then n else i
  }
}
