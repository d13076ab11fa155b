/**
 * A stable sort by key, standing for Python's `list.sort(key=...)` (Timsort
 * is stable): the result is ordered by key, is a permutation of the input,
 * and keeps the input order among elements with equal keys.
 */
module Sorting {

  /** `less` is a strict total order on keys. */
  ghost predicate StrictTotalOrder<K(!new)>(less: (K, K) -> bool) {
    && (forall a :: !less(a, a))
    && (forall a, b, c :: less(a, b) && less(b, c) ==> less(a, c))
    && (forall a, b :: a != b ==> less(a, b) || less(b, a))
  }

  ghost predicate SortedBy<T, K>(s: seq<T>, key: T -> K, less: (K, K) -> bool) {
    forall i, j :: 0 <= i < j < |s| ==> !less(key(s[j]), key(s[i]))
  }

  /** The elements of `s` whose key is `k`, in order. */
  function WithKey<T, K(==)>(s: seq<T>, key: T -> K, k: K): seq<T> {
    if s == [] then []
    else (if key(s[0]) == k then [s[0]] else []) + WithKey(s[1..], key, k)
  }

  /** Put `x` before the first element of `s` whose key is not below `key(x)`. */
  function Insert<T, K>(x: T, s: seq<T>, key: T -> K, less: (K, K) -> bool): seq<T> {
    if s == [] || !less(key(s[0]), key(x)) then [x] + s
    else [s[0]] + Insert(x, s[1..], key, less)
  }

  /** The sort: insert each element into the sorted rest. */
  function SortBy<T, K>(s: seq<T>, key: T -> K, less: (K, K) -> bool): seq<T> {
    if s == [] then [] else Insert(s[0], SortBy(s[1..], key, less), key, less)
  }

  /** Insertion adds exactly one occurrence of `x` and changes nothing else. */
  lemma {:induction false} InsertPermutes<T, K>(x: T, s: seq<T>, key: T -> K, less: (K, K) -> bool)
    ensures multiset(Insert(x, s, key, less)) == multiset(s) + multiset{x}
  {
    if s != [] && less(key(s[0]), key(x)) {
      InsertPermutes(x, s[1..], key, less);
      assert s == [s[0]] + s[1..];
    }
  }

  /** Inserting into a sorted sequence keeps it sorted. */
  lemma {:induction false} InsertSorted<T, K(!new)>(x: T, s: seq<T>, key: T -> K, less: (K, K) -> bool)
    requires StrictTotalOrder(less) && SortedBy(s, key, less)
    ensures SortedBy(Insert(x, s, key, less), key, less)
  {
    var r := Insert(x, s, key, less);
    if s == [] || !less(key(s[0]), key(x)) {
      assert r == [x] + s;
      forall i, j | 0 <= i < j < |r| ensures !less(key(r[j]), key(r[i])) {
        if i == 0 && j > 1 {
          assert !less(key(s[j - 1]), key(s[0]));
        }
      }
    } else {
      var tail := Insert(x, s[1..], key, less);
      InsertSorted(x, s[1..], key, less);
      InsertPermutes(x, s[1..], key, less);
      assert r == [s[0]] + tail;
      forall i, j | 0 <= i < j < |r| ensures !less(key(r[j]), key(r[i])) {
        if i == 0 {
          assert r[j] in multiset(tail);
          assert r[j] == x || r[j] in multiset(s[1..]);
          if r[j] != x {
            var m :| 0 <= m < |s[1..]| && s[1..][m] == r[j];
            assert s[m + 1] == r[j];
          }
        }
      }
    }
  }

  /** Selecting by key distributes over a leading element. */
  lemma WithKeyCons<T, K>(a: T, t: seq<T>, key: T -> K, k: K)
    ensures WithKey([a] + t, key, k) == (if key(a) == k then [a] else []) + WithKey(t, key, k)
  {
    assert ([a] + t)[1..] == t;
  }

  /** Inserting `x` keeps it after every element of `s` with the same key: the insertion is stable. */
  lemma {:induction false} InsertStable<T, K>(x: T, s: seq<T>, key: T -> K, less: (K, K) -> bool, k: K)
    requires !less(key(x), key(x))
    ensures WithKey(Insert(x, s, key, less), key, k) == WithKey([x] + s, key, k)
  {
    if s != [] && less(key(s[0]), key(x)) {
      var tail := Insert(x, s[1..], key, less);
      InsertStable(x, s[1..], key, less, k);
      assert Insert(x, s, key, less) == [s[0]] + tail;
      assert s == [s[0]] + s[1..];
      var a := if key(s[0]) == k then [s[0]] else [];
      var b := if key(x) == k then [x] else [];
      var w := WithKey(s[1..], key, k);
      WithKeyCons(s[0], tail, key, k);
      WithKeyCons(x, s[1..], key, k);
      WithKeyCons(x, s, key, k);
      WithKeyCons(s[0], s[1..], key, k);
      assert a == [] || b == [];
      assert a + (b + w) == b + (a + w);
    }
  }

  /** `SortBy` sorts by key, permutes its input and is stable. */
  lemma {:induction false} SortByFacts<T, K(!new)>(s: seq<T>, key: T -> K, less: (K, K) -> bool)
    requires StrictTotalOrder(less)
    ensures SortedBy(SortBy(s, key, less), key, less)
    ensures multiset(SortBy(s, key, less)) == multiset(s)
    ensures forall k :: WithKey(SortBy(s, key, less), key, k) == WithKey(s, key, k)
  {
    if s != [] {
      var rest := SortBy(s[1..], key, less);
      SortByFacts(s[1..], key, less);
      InsertSorted(s[0], rest, key, less);
      InsertPermutes(s[0], rest, key, less);
      assert s == [s[0]] + s[1..];
      forall k ensures WithKey(SortBy(s, key, less), key, k) == WithKey(s, key, k) {
        InsertStable(s[0], rest, key, less, k);
        assert WithKey([s[0]] + rest, key, k) == (if key(s[0]) == k then [s[0]] else []) + WithKey(rest, key, k);
      }
    }
  }

  ghost predicate DistinctKeys<T, K>(s: seq<T>, key: T -> K) {
    forall i, j :: 0 <= i < j < |s| ==> key(s[i]) != key(s[j])
  }

  lemma {:induction false} WithKeyHas<T, K>(s: seq<T>, key: T -> K, x: T)
    requires x in s
    ensures WithKey(s, key, key(x)) != []
  {
    if s[0] != x {
      WithKeyHas(s[1..], key, x);
    }
  }

  /** Keys are distinct exactly when no key selects more than one element. */
  lemma {:induction false} DistinctKeysByWithKey<T, K>(s: seq<T>, key: T -> K)
    ensures DistinctKeys(s, key) <==> forall k :: |WithKey(s, key, k)| <= 1
  {
    if s != [] {
      DistinctKeysByWithKey(s[1..], key);
      var tail := s[1..];
      if DistinctKeys(s, key) {
        assert DistinctKeys(tail, key) by {
          forall i, j | 0 <= i < j < |tail| ensures key(tail[i]) != key(tail[j]) {
            assert tail[i] == s[i + 1] && tail[j] == s[j + 1];
          }
        }
        forall k ensures |WithKey(s, key, k)| <= 1 {
          assert WithKey(s, key, k) == (if key(s[0]) == k then [s[0]] else []) + WithKey(tail, key, k);
          assert |WithKey(tail, key, k)| <= 1;
          if key(s[0]) == k {
            assert forall m :: 0 <= m < |tail| ==> tail[m] == s[m + 1];
            WithKeyEmpty(tail, key, k);
          }
        }
      } else {
        var i, j :| 0 <= i < j < |s| && key(s[i]) == key(s[j]);
        if i == 0 {
          WithKeyHas(tail, key, s[j]);
          assert |WithKey(s, key, key(s[0]))| >= 2;
        } else {
          assert key(tail[i - 1]) == key(tail[j - 1]);
          var k :| |WithKey(tail, key, k)| > 1;
          assert |WithKey(s, key, k)| >= |WithKey(tail, key, k)|;
        }
      }
    }
  }

  lemma {:induction false} WithKeyEmpty<T, K>(s: seq<T>, key: T -> K, k: K)
    requires forall m :: 0 <= m < |s| ==> key(s[m]) != k
    ensures WithKey(s, key, k) == []
  {
    if s != [] {
      WithKeyEmpty(s[1..], key, k);
    }
  }

  /** Sorting keeps keys distinct. */
  lemma SortByDistinctKeys<T, K(!new)>(s: seq<T>, key: T -> K, less: (K, K) -> bool)
    requires StrictTotalOrder(less) && DistinctKeys(s, key)
    ensures DistinctKeys(SortBy(s, key, less), key)
  {
    var t := SortBy(s, key, less);
    SortByFacts(s, key, less);
    DistinctKeysByWithKey(s, key);
    DistinctKeysByWithKey(t, key);
    forall k ensures |WithKey(t, key, k)| <= 1 {
      assert WithKey(t, key, k) == WithKey(s, key, k);
    }
  }

  /** Two sorted arrangements of one multiset with distinct keys start alike. */
  lemma SortedHeads<T, K(!new)>(s: seq<T>, t: seq<T>, key: T -> K, less: (K, K) -> bool, i: nat, j: nat)
    requires StrictTotalOrder(less)
    requires SortedBy(s, key, less) && SortedBy(t, key, less) && DistinctKeys(s, key)
    requires i < |s| && j < |t| && s[i] == t[0] && t[j] == s[0]
    ensures s[0] == t[0]
  {
    assert forall k :: 0 <= k < |s| ==> !less(key(s[k]), key(s[0]));
    assert forall k :: 0 <= k < |t| ==> !less(key(t[k]), key(t[0]));
    assert !less(key(s[i]), key(s[0])) && !less(key(t[j]), key(t[0]));
    assert key(s[i]) == key(s[0]);
  }

  /** With distinct keys there is only one sorted arrangement of a multiset: the order of the input does not matter. */
  lemma {:induction false} SortedUnique<T, K(!new)>(s: seq<T>, t: seq<T>, key: T -> K, less: (K, K) -> bool)
    requires StrictTotalOrder(less)
    requires SortedBy(s, key, less) && SortedBy(t, key, less)
    requires multiset(s) == multiset(t) && DistinctKeys(s, key)
    ensures s == t
  {
    if s == [] {
      assert |t| == |multiset(t)| == 0;
    } else {
      assert |t| == |multiset(t)| == |s|;
      assert s[0] in multiset(t) && t[0] in multiset(s);
      var j :| 0 <= j < |t| && t[j] == s[0];
      var i :| 0 <= i < |s| && s[i] == t[0];
      SortedHeads(s, t, key, less, i, j);
      TailsAgree(s, t);
      TailFacts(s, key, less);
      TailFacts(t, key, less);
      SortedUnique(s[1..], t[1..], key, less);
      assert s == [s[0]] + s[1..] && t == [t[0]] + t[1..];
    }
  }

  /** Equal multisets with equal heads have equal tails. */
  lemma TailsAgree<T>(s: seq<T>, t: seq<T>)
    requires s != [] && t != [] && s[0] == t[0] && multiset(s) == multiset(t)
    ensures multiset(s[1..]) == multiset(t[1..])
  {
    assert s == [s[0]] + s[1..] && t == [t[0]] + t[1..];
    assert multiset(s) == multiset{s[0]} + multiset(s[1..]);
    assert multiset(t) == multiset{s[0]} + multiset(t[1..]);
    forall x ensures multiset(s[1..])[x] == multiset(t[1..])[x] {
      assert multiset(s)[x] == multiset(t)[x];
    }
  }

  /** The tail of a sorted sequence is sorted, and of one with distinct keys has distinct keys. */
  lemma TailFacts<T, K>(s: seq<T>, key: T -> K, less: (K, K) -> bool)
    requires s != []
    ensures SortedBy(s, key, less) ==> SortedBy(s[1..], key, less)
    ensures DistinctKeys(s, key) ==> DistinctKeys(s[1..], key)
  {
    var tail := s[1..];
    assert forall i :: 0 <= i < |tail| ==> tail[i] == s[i + 1];
  }

  /** The usual order on integers is a strict total order. */
  lemma IntOrder()
    ensures StrictTotalOrder((a: int, b: int) => a < b)
  {
  }
}
