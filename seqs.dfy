/**
 * `array.filter(p)` and `array.reduce((sum, x) => sum + f(x), 0)` over
 * sequences, with the facts the views rely on: a filter keeps exactly the
 * elements that pass, as many times as they occur, in their original order;
 * a sum of values that lie in a range lies in the scaled range.
 */
module Seqs {

  /** `a` is `b` with some elements left out, the rest in their order. */
  predicate SubseqOf<T(==)>(a: seq<T>, b: seq<T>)
    decreases |b|
  {
    a == [] || (b != [] && ((a[0] == b[0] && SubseqOf(a[1..], b[1..])) || SubseqOf(a, b[1..])))
  }

  lemma {:induction false} SubseqOfSelf<T>(s: seq<T>)
    ensures SubseqOf(s, s)
  {
    if s != [] {
      SubseqOfSelf(s[1..]);
    }
  }

  /** `s.filter(p)`. */
  function Filter<T>(s: seq<T>, p: T -> bool): (r: seq<T>)
    ensures |r| <= |s|
    ensures forall i :: 0 <= i < |r| ==> p(r[i])
  {
    if s == [] then []
    else (if p(s[0]) then [s[0]] else []) + Filter(s[1..], p)
  }

  /**
   * A filter keeps exactly the elements that pass, each as often as it occurs
   * in the input, in the input's order.
   */
  lemma {:induction false} FilterProperties<T(!new)>(s: seq<T>, p: T -> bool)
    ensures forall x :: multiset(Filter(s, p))[x] == if p(x) then multiset(s)[x] else 0
    ensures forall x :: x in Filter(s, p) <==> x in s && p(x)
    ensures SubseqOf(Filter(s, p), s)
  {
    if s != [] {
      FilterProperties(s[1..], p);
      var rest := Filter(s[1..], p);
      assert s == [s[0]] + s[1..];
      if p(s[0]) {
        assert ([s[0]] + rest)[1..] == rest;
      } else {
        assert Filter(s, p) == rest;
      }
    }
  }

  /** When every element passes, the filter keeps the whole sequence. */
  lemma {:induction false} FilterAll<T(!new)>(s: seq<T>, p: T -> bool)
    requires forall i :: 0 <= i < |s| ==> p(s[i])
    ensures Filter(s, p) == s
  {
    if s != [] {
      FilterAll(s[1..], p);
      assert s == [s[0]] + s[1..];
    }
  }

  /** When no element passes, the filter keeps nothing. */
  lemma {:induction false} FilterNone<T>(s: seq<T>, p: T -> bool)
    requires forall i :: 0 <= i < |s| ==> !p(s[i])
    ensures Filter(s, p) == []
  {
    if s != [] {
      FilterNone(s[1..], p);
    }
  }

  /** Filtering a sequence with one more element at the end. */
  lemma {:induction false} FilterSnoc<T(!new)>(s: seq<T>, x: T, p: T -> bool)
    ensures Filter(s + [x], p) == Filter(s, p) + (if p(x) then [x] else [])
  {
    if s == [] {
      assert [] + [x] == [x];
      assert [x][1..] == [];
    } else {
      var t := s + [x];
      assert t[1..] == s[1..] + [x];
      assert t[0] == s[0];
      FilterSnoc(s[1..], x, p);
      var tail := if p(x) then [x] else [];
      if p(s[0]) {
        calc {
          Filter(t, p);
          [s[0]] + Filter(s[1..] + [x], p);
          [s[0]] + (Filter(s[1..], p) + tail);
          ([s[0]] + Filter(s[1..], p)) + tail;
        }
      } else {
        assert Filter(t, p) == Filter(s[1..] + [x], p);
      }
    }
  }

  /** Left fold of `f` with `+` starting from `0`, as `reduce` computes it. */
  function SumOf<T>(s: seq<T>, f: T -> real): real {
    if s == [] then 0.0 else SumOf(s[..|s| - 1], f) + f(s[|s| - 1])
  }

  lemma {:induction false} SumOfAppend<T>(a: seq<T>, b: seq<T>, f: T -> real)
    ensures SumOf(a + b, f) == SumOf(a, f) + SumOf(b, f)
  {
    if b == [] {
      assert a + b == a;
    } else {
      SumOfAppend(a, b[..|b| - 1], f);
      assert (a + b)[..|a + b| - 1] == a + b[..|b| - 1];
      assert (a + b)[|a + b| - 1] == b[|b| - 1];
    }
  }

  /** Summing the first element and then the rest gives the same total as the left fold. */
  lemma SumOfCons<T>(s: seq<T>, f: T -> real)
    requires s != []
    ensures SumOf(s, f) == f(s[0]) + SumOf(s[1..], f)
  {
    SumOfAppend([s[0]], s[1..], f);
    assert [s[0]] + s[1..] == s;
  }

  /** The sum of differences is the difference of the sums. */
  lemma {:induction false} SumOfDifference<T>(s: seq<T>, f: T -> real, g: T -> real, h: T -> real)
    requires forall i :: 0 <= i < |s| ==> h(s[i]) == f(s[i]) - g(s[i])
    ensures SumOf(s, h) == SumOf(s, f) - SumOf(s, g)
  {
    if s != [] {
      SumOfDifference(s[..|s| - 1], f, g, h);
    }
  }

  /** Values in `lo..hi` sum to a total in `lo*n..hi*n`. */
  lemma {:induction false} SumOfBounds<T>(s: seq<T>, f: T -> real, lo: real, hi: real)
    requires forall i :: 0 <= i < |s| ==> lo <= f(s[i]) <= hi
    ensures lo * |s| as real <= SumOf(s, f) <= hi * |s| as real
  {
    if s != [] {
      SumOfBounds(s[..|s| - 1], f, lo, hi);
      assert f(s[|s| - 1]) == f(s[|s| - 1]);
    }
  }

  /** Non-negative values have a non-negative sum. */
  lemma {:induction false} SumOfNonNegative<T>(s: seq<T>, f: T -> real)
    requires forall i :: 0 <= i < |s| ==> 0.0 <= f(s[i])
    ensures 0.0 <= SumOf(s, f)
  {
    if s != [] {
      SumOfNonNegative(s[..|s| - 1], f);
      assert 0.0 <= f(s[|s| - 1]);
    }
  }

  /** The average of `total` over `n` items, `0` when there are none. */
  function Mean(total: real, n: nat): real {
    if n > 0 then total / n as real else 0.0
  }

  /** A total within `lo*n..hi*n` has its mean within `lo..hi`; with no items the mean is 0. */
  lemma MeanBounds(total: real, n: nat, lo: real, hi: real)
    requires lo <= 0.0 <= hi
    requires lo * n as real <= total <= hi * n as real
    ensures lo <= Mean(total, n) <= hi
  {
    if n > 0 {
      var m := total / n as real;
      assert m * n as real == total;
      if m < lo {
        assert m * n as real < lo * n as real;
      }
      if m > hi {
        assert m * n as real > hi * n as real;
      }
    }
  }
}
