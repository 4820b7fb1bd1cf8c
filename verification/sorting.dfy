/** Ranking by a numeric score: a stable sort on the key, largest first,
    followed by keeping the first `n` elements. JavaScript's sort is
    stable, so elements with equal keys keep their original order; the
    insertion sort below has the same behaviour. */
module Sorting {
  import opened Numeric

  predicate SortedDesc<T>(s: seq<T>, key: T -> real) {
    forall i, j :: 0 <= i < j < |s| ==> key(s[i]) >= key(s[j])
  }

  /** The elements whose key is `v`, in their order in `s`. The sort is
      stable exactly when it leaves this list unchanged for every `v`. */
  function WithKey<T>(s: seq<T>, key: T -> real, v: real): (r: seq<T>)
    ensures |r| <= |s|
    ensures forall i :: 0 <= i < |r| ==> r[i] in s && key(r[i]) == v
  {
    if |s| == 0 then []
    else (if key(s[0]) == v then [s[0]] else []) + WithKey(s[1..], key, v)
  }

  lemma {:induction false} WithKeyAppend<T>(a: seq<T>, b: seq<T>, key: T -> real, v: real)
    ensures WithKey(a + b, key, v) == WithKey(a, key, v) + WithKey(b, key, v)
  {
    if |a| == 0 {
      assert a + b == b;
    } else {
      assert (a + b)[0] == a[0];
      assert (a + b)[1..] == a[1..] + b;
      WithKeyAppend(a[1..], b, key, v);
    }
  }

  /** When every key is `v`, nothing is filtered out. */
  lemma {:induction false} WithKeyConstant<T>(s: seq<T>, key: T -> real, v: real)
    requires forall x :: x in s ==> key(x) == v
    ensures WithKey(s, key, v) == s
  {
    if |s| > 0 {
      assert s[0] in s;
      assert forall x :: x in s[1..] ==> x in s;
      WithKeyConstant(s[1..], key, v);
    }
  }

  /** Places `x` after every element with a larger key and before the rest,
      so that `x` precedes the elements of `s` whose key equals its own. */
  function Insert<T>(x: T, s: seq<T>, key: T -> real): (r: seq<T>)
    requires SortedDesc(s, key)
    ensures |r| == |s| + 1
    ensures multiset(r) == multiset(s) + multiset{x}
    ensures forall y :: y in r ==> y in s || y == x
    ensures SortedDesc(r, key)
  {
    if |s| == 0 || key(s[0]) <= key(x) then [x] + s
    else
      var tail := Insert(x, s[1..], key);
      HeadDominates(s[0], s[1..], x, tail, key);
      assert s == [s[0]] + s[1..];
      [s[0]] + tail
  }

  lemma HeadDominates<T>(h: T, rest: seq<T>, x: T, tail: seq<T>, key: T -> real)
    requires SortedDesc([h] + rest, key) && key(h) > key(x)
    requires forall y :: y in tail ==> y in rest || y == x
    requires SortedDesc(tail, key)
    ensures SortedDesc([h] + tail, key)
  {
    forall k | 0 <= k < |tail|
      ensures key(h) >= key(tail[k])
    {
      assert tail[k] in tail;
      if tail[k] != x {
        var m :| 0 <= m < |rest| && rest[m] == tail[k];
        var hr := [h] + rest;
        assert hr[0] == h && hr[m + 1] == rest[m];
        assert key(hr[0]) >= key(hr[m + 1]);
      }
    }
    var r := [h] + tail;
    forall i, j | 0 <= i < j < |r|
      ensures key(r[i]) >= key(r[j])
    {
      if i > 0 {
        assert r[i] == tail[i - 1] && r[j] == tail[j - 1];
      }
    }
  }

  /** `x` goes in front of the elements that share its key. */
  lemma {:induction false} InsertKeepsTies<T>(x: T, s: seq<T>, key: T -> real, v: real)
    requires SortedDesc(s, key)
    ensures WithKey(Insert(x, s, key), key, v) == (if key(x) == v then [x] else []) + WithKey(s, key, v)
  {
    var xs := if key(x) == v then [x] else [];
    if |s| == 0 || key(s[0]) <= key(x) {
      assert ([x] + s)[1..] == s;
    } else {
      var t := Insert(x, s[1..], key);
      var hs := if key(s[0]) == v then [s[0]] else [];
      InsertKeepsTies(x, s[1..], key, v);
      assert ([s[0]] + t)[1..] == t;
      assert WithKey(Insert(x, s, key), key, v) == hs + (xs + WithKey(s[1..], key, v));
      assert hs == [] || xs == [];
      assert hs + (xs + WithKey(s[1..], key, v)) == xs + (hs + WithKey(s[1..], key, v));
    }
  }

  /** The sort: a permutation, largest key first, and stable. */
  function SortDesc<T>(s: seq<T>, key: T -> real): (r: seq<T>)
    ensures |r| == |s|
    ensures multiset(r) == multiset(s)
    ensures SortedDesc(r, key)
    ensures forall v :: WithKey(r, key, v) == WithKey(s, key, v)
  {
    if |s| == 0 then []
    else
      assert s == [s[0]] + s[1..];
      var rest := SortDesc(s[1..], key);
      forall v
        ensures WithKey(Insert(s[0], rest, key), key, v) == WithKey(s, key, v)
      {
        InsertKeepsTies(s[0], rest, key, v);
      }
      Insert(s[0], rest, key)
  }

  /** In a list sorted largest-first, every element of a prefix has a key at
      least as large as every element left out of it. */
  lemma PrefixDominates<T>(s: seq<T>, key: T -> real, k: nat)
    requires SortedDesc(s, key) && k <= |s|
    ensures forall x, y :: x in s[..k] && y in multiset(s) - multiset(s[..k]) ==> key(x) >= key(y)
  {
    assert s == s[..k] + s[k..];
    assert multiset(s) - multiset(s[..k]) == multiset(s[k..]);
    forall x, y | x in s[..k] && y in multiset(s) - multiset(s[..k])
      ensures key(x) >= key(y)
    {
      var i :| 0 <= i < k && s[i] == x;
      assert y in s[k..];
      var j :| 0 <= j < |s| - k && s[k..][j] == y;
      assert s[k + j] == y;
    }
  }

  /** The `n` elements with the largest keys, largest first; among equal keys
      the earliest in `s` are kept, in their original order. */
  function TopByKey<T>(s: seq<T>, key: T -> real, n: nat): (r: seq<T>)
    ensures |r| == Min(n, |s|)
    ensures SortedDesc(r, key)
    ensures multiset(r) <= multiset(s)
    ensures forall x, y :: x in r && y in multiset(s) - multiset(r) ==> key(x) >= key(y)
    ensures forall v :: WithKey(r, key, v) <= WithKey(s, key, v)
  {
    var sorted := SortDesc(s, key);
    var k := Min(n, |s|);
    PrefixDominates(sorted, key, k);
    assert sorted == sorted[..k] + sorted[k..];
    assert multiset(sorted[..k]) <= multiset(sorted);
    forall v
      ensures WithKey(sorted[..k], key, v) <= WithKey(s, key, v)
    {
      WithKeyAppend(sorted[..k], sorted[k..], key, v);
    }
    sorted[..k]
  }

  /** When every key ties, the top `n` are simply the first `n`. */
  lemma AllTiedTopIsPrefix<T>(s: seq<T>, key: T -> real, n: nat, v: real)
    requires forall x :: x in s ==> key(x) == v
    ensures TopByKey(s, key, n) == s[..Min(n, |s|)]
  {
    var r := TopByKey(s, key, n);
    forall x | x in r
      ensures key(x) == v
    {
      assert x in multiset(r);
      assert x in multiset(s);
    }
    WithKeyConstant(r, key, v);
    WithKeyConstant(s, key, v);
    assert WithKey(r, key, v) <= WithKey(s, key, v);
    assert r == s[..|r|];
  }

  // ---------------------------------------------------------------------------
  // Sorting and truncation keep a field unique
  // ---------------------------------------------------------------------------

  /** No two elements agree on `f`. */
  ghost predicate DistinctBy<T, K>(s: seq<T>, f: T -> K) {
    forall i, j :: 0 <= i < j < |s| ==> f(s[i]) != f(s[j])
  }

  lemma {:induction false} InsertDistinct<T, K>(x: T, s: seq<T>, key: T -> real, f: T -> K)
    requires SortedDesc(s, key) && DistinctBy(s, f)
    requires forall y :: y in s ==> f(y) != f(x)
    ensures DistinctBy(Insert(x, s, key), f)
  {
    var r := Insert(x, s, key);
    if |s| == 0 || key(s[0]) <= key(x) {
      forall i, j | 0 <= i < j < |r|
        ensures f(r[i]) != f(r[j])
      {
        assert r[j] == s[j - 1];
        if i > 0 {
          assert r[i] == s[i - 1];
        } else {
          assert s[j - 1] in s;
        }
      }
    } else {
      var tail := Insert(x, s[1..], key);
      assert forall y :: y in s[1..] ==> y in s;
      InsertDistinct(x, s[1..], key, f);
      assert r == [s[0]] + tail;
      forall i, j | 0 <= i < j < |r|
        ensures f(r[i]) != f(r[j])
      {
        assert r[j] == tail[j - 1];
        if i > 0 {
          assert r[i] == tail[i - 1];
        } else {
          var y := tail[j - 1];
          assert y in tail;
          if y == x {
            assert s[0] in s;
          } else {
            var m :| 0 <= m < |s[1..]| && s[1..][m] == y;
            assert s[m + 1] == y;
          }
        }
      }
    }
  }

  lemma {:induction false} SortDescDistinct<T, K>(s: seq<T>, key: T -> real, f: T -> K)
    requires DistinctBy(s, f)
    ensures DistinctBy(SortDesc(s, key), f)
  {
    if |s| > 0 {
      var rest := SortDesc(s[1..], key);
      SortDescDistinct(s[1..], key, f);
      forall y | y in rest
        ensures f(y) != f(s[0])
      {
        assert y in multiset(rest);
        assert y in s[1..];
        var m :| 0 <= m < |s[1..]| && s[1..][m] == y;
        assert s[m + 1] == y;
      }
      InsertDistinct(s[0], rest, key, f);
    }
  }

  /** The top `n` of a list without repeated `f` values has none either. */
  lemma TopByKeyDistinct<T, K>(s: seq<T>, key: T -> real, n: nat, f: T -> K)
    requires DistinctBy(s, f)
    ensures DistinctBy(TopByKey(s, key, n), f)
  {
    SortDescDistinct(s, key, f);
  }

  // ---------------------------------------------------------------------------
  // Sorting commutes with a map that keeps the key
  // ---------------------------------------------------------------------------

  function MapSeq<T, U>(s: seq<T>, f: T -> U): (r: seq<U>)
    ensures |r| == |s|
    ensures forall i :: 0 <= i < |s| ==> r[i] == f(s[i])
  {
    if |s| == 0 then [] else [f(s[0])] + MapSeq(s[1..], f)
  }

  lemma MapSeqAppend<T, U>(a: seq<T>, b: seq<T>, f: T -> U)
    ensures MapSeq(a + b, f) == MapSeq(a, f) + MapSeq(b, f)
  {
  }

  lemma {:induction false} InsertMap<T, U>(x: T, s: seq<T>, key: T -> real, f: T -> U, fkey: U -> real)
    requires forall y :: fkey(f(y)) == key(y)
    requires SortedDesc(s, key)
    ensures SortedDesc(MapSeq(s, f), fkey)
    ensures Insert(f(x), MapSeq(s, f), fkey) == MapSeq(Insert(x, s, key), f)
  {
    var m := MapSeq(s, f);
    assert forall i :: 0 <= i < |m| ==> fkey(m[i]) == key(s[i]);
    if |s| > 0 && key(s[0]) > key(x) {
      InsertMap(x, s[1..], key, f, fkey);
      assert m[1..] == MapSeq(s[1..], f);
      var t := Insert(x, s[1..], key);
      assert MapSeq([s[0]] + t, f) == [f(s[0])] + MapSeq(t, f);
    } else {
      assert MapSeq([x] + s, f) == [f(x)] + m;
    }
  }

  lemma {:induction false} SortDescMap<T, U>(s: seq<T>, key: T -> real, f: T -> U, fkey: U -> real)
    requires forall y :: fkey(f(y)) == key(y)
    ensures SortDesc(MapSeq(s, f), fkey) == MapSeq(SortDesc(s, key), f)
  {
    if |s| > 0 {
      var m := MapSeq(s, f);
      assert m[0] == f(s[0]) && m[1..] == MapSeq(s[1..], f);
      SortDescMap(s[1..], key, f, fkey);
      InsertMap(s[0], SortDesc(s[1..], key), key, f, fkey);
    }
  }

  /** Choosing the top `n` and then mapping gives what mapping first and
      choosing by the carried-over key gives. */
  lemma TopByKeyMap<T, U>(s: seq<T>, key: T -> real, n: nat, f: T -> U, fkey: U -> real)
    requires forall y :: fkey(f(y)) == key(y)
    ensures TopByKey(MapSeq(s, f), fkey, n) == MapSeq(TopByKey(s, key, n), f)
  {
    SortDescMap(s, key, f, fkey);
    var sorted := SortDesc(s, key);
    var k := Min(n, |s|);
    assert MapSeq(sorted, f)[..k] == MapSeq(sorted[..k], f);
  }
}
