/**
 * `Array.prototype.sort` with a comparator, as the dashboard uses it: a stable
 * sort by a key under a total order on keys. It is written as an insertion sort;
 * its contract (ordered, a permutation, equal keys in input order) determines
 * the result, whatever algorithm the JavaScript engine runs.
 */
module Sorting {

  /** `le` is a total order on keys: total, antisymmetric and transitive. */
  ghost predicate TotalOrder<K(!new)>(le: (K, K) -> bool) {
    && (forall a, b :: le(a, b) || le(b, a))
    && (forall a, b :: le(a, b) && le(b, a) ==> a == b)
    && (forall a, b, c :: le(a, b) && le(b, c) ==> le(a, c))
  }

  /** Every element's key is `le` the key of every later element. */
  ghost predicate SortedBy<T, K>(s: seq<T>, key: T -> K, le: (K, K) -> bool) {
    forall i, j :: 0 <= i < j < |s| ==> le(key(s[i]), key(s[j]))
  }

  /** The elements of `s` whose key is `k`, in the order of `s`. */
  function WithKey<T, K(==)>(s: seq<T>, key: T -> K, k: K): (r: seq<T>)
    ensures |r| <= |s|
  {
    if s == [] then []
    else (if key(s[0]) == k then [s[0]] else []) + WithKey(s[1..], key, k)
  }

  /** Puts `x` in front of the first element whose key it does not follow. */
  function Insert<T, K>(x: T, s: seq<T>, key: T -> K, le: (K, K) -> bool): (r: seq<T>)
    ensures |r| == |s| + 1
    ensures multiset(r) == multiset(s) + multiset{x}
  {
    if s == [] || le(key(x), key(s[0])) then [x] + s
    else
      assert s == [s[0]] + s[1..];
      [s[0]] + Insert(x, s[1..], key, le)
  }

  lemma {:induction false} InsertSorted<T, K(!new)>(x: T, s: seq<T>, key: T -> K, le: (K, K) -> bool)
    requires TotalOrder(le)
    requires SortedBy(s, key, le)
    ensures SortedBy(Insert(x, s, key, le), key, le)
  {
    if s == [] || le(key(x), key(s[0])) {
    } else {
      var rest := Insert(x, s[1..], key, le);
      InsertSorted(x, s[1..], key, le);
      forall j | 0 <= j < |rest|
        ensures le(key(s[0]), key(rest[j]))
      {
        assert rest[j] in multiset(rest);
        if rest[j] == x {
        } else {
          assert rest[j] in multiset(s[1..]);
          var m :| 0 <= m < |s[1..]| && s[1..][m] == rest[j];
          assert s[1..][m] == s[m + 1];
        }
      }
    }
  }

  lemma {:induction false} InsertWithKey<T, K(!new)>(x: T, s: seq<T>, key: T -> K, le: (K, K) -> bool, k: K)
    requires TotalOrder(le)
    ensures WithKey(Insert(x, s, key, le), key, k)
         == (if key(x) == k then [x] else []) + WithKey(s, key, k)
  {
    if s == [] || le(key(x), key(s[0])) {
      assert ([x] + s)[1..] == s;
    } else {
      InsertWithKey(x, s[1..], key, le, k);
      var r := Insert(x, s, key, le);
      assert r[1..] == Insert(x, s[1..], key, le);
      assert key(s[0]) != key(x);
    }
  }

  /**
   * The stable sort: ordered by `le` on keys, a permutation of the input, and
   * the elements that share a key appear in their input order.
   */
  function Sort<T, K(!new)>(s: seq<T>, key: T -> K, le: (K, K) -> bool): (r: seq<T>)
    requires TotalOrder(le)
    ensures |r| == |s|
    ensures multiset(r) == multiset(s)
    ensures SortedBy(r, key, le)
    ensures forall k :: WithKey(r, key, k) == WithKey(s, key, k)
  {
    if s == [] then []
    else
      var rest := Sort(s[1..], key, le);
      var r := Insert(s[0], rest, key, le);
      InsertSorted(s[0], rest, key, le);
      assert s == [s[0]] + s[1..];
      assert forall k :: WithKey(r, key, k) == WithKey(s, key, k) by {
        forall k ensures WithKey(r, key, k) == WithKey(s, key, k) {
          InsertWithKey(s[0], rest, key, le, k);
        }
      }
      r
  }

  /** Keeping only some elements of a sorted sequence leaves it sorted. */
  lemma {:induction false} WithKeySorted<T, K(!new)>(s: seq<T>, key: T -> K, le: (K, K) -> bool, k: K, other: T -> K)
    requires SortedBy(s, other, le)
    ensures SortedBy(WithKey(s, key, k), other, le)
    decreases |s|
  {
    if s != [] {
      WithKeySorted(s[1..], key, le, k, other);
      var rest := WithKey(s[1..], key, k);
      WithKeyIn(s[1..], key, k);
      forall j | 0 <= j < |rest| ensures le(other(s[0]), other(rest[j])) {
        var m :| 0 <= m < |s[1..]| && s[1..][m] == rest[j];
        assert s[1..][m] == s[m + 1];
      }
    }
  }

  /** Every element kept by `WithKey` comes from the input and has key `k`. */
  lemma {:induction false} WithKeyIn<T, K>(s: seq<T>, key: T -> K, k: K)
    ensures forall j :: 0 <= j < |WithKey(s, key, k)| ==>
      key(WithKey(s, key, k)[j]) == k && exists m :: 0 <= m < |s| && s[m] == WithKey(s, key, k)[j]
  {
    if s != [] {
      WithKeyIn(s[1..], key, k);
      var rest := WithKey(s[1..], key, k);
      var r := WithKey(s, key, k);
      forall j | 0 <= j < |r|
        ensures key(r[j]) == k && exists m :: 0 <= m < |s| && s[m] == r[j]
      {
        if key(s[0]) == k && j == 0 {
          assert s[0] == r[j];
        } else {
          var jj := if key(s[0]) == k then j - 1 else j;
          assert r[j] == rest[jj];
          var m :| 0 <= m < |s[1..]| && s[1..][m] == rest[jj];
          assert s[m + 1] == r[j];
        }
      }
    }
  }

  /** `WithKey` keeps every element with key `k`, as often as it occurs, and nothing else. */
  lemma {:induction false} WithKeyMultiset<T, K>(s: seq<T>, key: T -> K, k: K)
    ensures forall x :: multiset(WithKey(s, key, k))[x] == if key(x) == k then multiset(s)[x] else 0
  {
    if s != [] {
      WithKeyMultiset(s[1..], key, k);
      assert s == [s[0]] + s[1..];
    }
  }

  /** Filtering by key a sequence with one more element at the end. */
  lemma {:induction false} WithKeySnoc<T, K>(s: seq<T>, x: T, key: T -> K, k: K)
    ensures WithKey(s + [x], key, k) == WithKey(s, key, k) + (if key(x) == k then [x] else [])
  {
    if s == [] {
      assert [] + [x] == [x];
      assert [x][1..] == [];
    } else {
      var t := s + [x];
      assert t[1..] == s[1..] + [x];
      assert t[0] == s[0];
      WithKeySnoc(s[1..], x, key, k);
      var head := if key(s[0]) == k then [s[0]] else [];
      var tail := if key(x) == k then [x] else [];
      calc {
        WithKey(t, key, k);
        head + WithKey(s[1..] + [x], key, k);
        head + (WithKey(s[1..], key, k) + tail);
        (head + WithKey(s[1..], key, k)) + tail;
      }
    }
  }

  /** `b - a` as a comparator: larger numbers first. */
  predicate RealGe(a: real, b: real) {
    a >= b
  }

  /** `b - a` as a comparator on integer timestamps: later times first. */
  predicate IntGe(a: int, b: int) {
    a >= b
  }

  lemma RealGeTotalOrder()
    ensures TotalOrder(RealGe)
  {
  }

  lemma IntGeTotalOrder()
    ensures TotalOrder(IntGe)
  {
  }
}
