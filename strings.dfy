/**
 * The string operations the dashboard relies on, written out over `seq<char>`:
 * ASCII lower-casing (`toLowerCase`), substring search (`includes`), prefix test
 * (`startsWith`), whitespace trimming (`trim`), splitting on one character
 * (`split`), joining (`join`), first-occurrence replacement (`replace` with a
 * string pattern), replacing every whitespace character (`replace(/\s/g, …)`)
 * and the code-point lexicographic order that stands in for `localeCompare`.
 */
module Strings {

  import Sorting

  /** The characters JavaScript counts as white space or line terminators (`\s`, `trim`). */
  predicate IsWhitespace(c: char) {
    c == '\t' || c == '\n' || c == '\U{000B}' || c == '\U{000C}' || c == '\r' || c == ' ' ||
    c == '\U{00A0}' || c == '\U{1680}' || ('\U{2000}' <= c <= '\U{200A}') ||
    c == '\U{2028}' || c == '\U{2029}' || c == '\U{202F}' || c == '\U{205F}' ||
    c == '\U{3000}' || c == '\U{FEFF}'
  }

  /** ASCII lower-casing of one character. */
  function LowerChar(c: char): (r: char)
    ensures 'A' <= c <= 'Z' ==> r as int == c as int + 32
    ensures !('A' <= c <= 'Z') ==> r == c
  {
    if 'A' <= c <= 'Z' then (c as int + 32) as char else c
  }

  /** `s.toLowerCase()`, for ASCII letters. */
  function Lower(s: string): (r: string)
    ensures |r| == |s|
    ensures forall i :: 0 <= i < |s| ==> r[i] == LowerChar(s[i])
  {
    if s == [] then [] else [LowerChar(s[0])] + Lower(s[1..])
  }

  /** Lower-casing a string whose only capital is its first letter touches only that letter. */
  lemma LowerCapitalised(s: string)
    requires s != [] && forall i :: 0 < i < |s| ==> !('A' <= s[i] <= 'Z')
    ensures Lower(s) == [LowerChar(s[0])] + s[1..]
  {
    assert Lower(s)[1..] == s[1..];
  }

  /** `s.includes(t)`: `t` occurs in `s` as a contiguous block. */
  predicate Contains(s: string, t: string) {
    t <= s || (s != [] && Contains(s[1..], t))
  }

  /** `t` occurs in `s` starting at position `i`. */
  predicate OccursAt(s: string, t: string, i: int) {
    0 <= i <= |s| - |t| && t == s[i..i + |t|]
  }

  /** An occurrence in the tail of `s` is an occurrence in `s` one position later, and back. */
  lemma OccursShift(s: string, t: string, i: int)
    requires s != [] && 0 <= i
    ensures OccursAt(s[1..], t, i) <==> OccursAt(s, t, i + 1)
  {
    if 0 <= i <= |s| - 1 - |t| {
      assert s[1..][i..i + |t|] == s[i + 1..i + 1 + |t|];
    }
  }

  /** `Contains` agrees with the positional definition of a substring. */
  lemma {:induction false} ContainsAt(s: string, t: string)
    ensures Contains(s, t) <==> exists i :: OccursAt(s, t, i)
  {
    if t <= s {
      assert OccursAt(s, t, 0);
    } else if s != [] {
      ContainsAt(s[1..], t);
      if Contains(s[1..], t) {
        var i :| OccursAt(s[1..], t, i);
        OccursShift(s, t, i);
      }
      if exists i :: OccursAt(s, t, i) {
        var i :| OccursAt(s, t, i);
        assert i != 0;
        OccursShift(s, t, i - 1);
      }
    } else {
      assert forall i :: !OccursAt(s, t, i);
    }
  }

  /** The empty string occurs in every string. */
  lemma ContainsEmpty(s: string)
    ensures Contains(s, [])
  {
  }

  /**
   * The search rule shared by the roster, balance and payment tables:
   * `field.toLowerCase().includes(term.toLowerCase())`.
   */
  predicate MatchesTerm(field: string, term: string) {
    Contains(Lower(field), Lower(term))
  }

  /** `s.startsWith(p)`. */
  predicate StartsWith(s: string, p: string) {
    p <= s
  }

  /** `s.trimStart()`: the longest suffix that does not start with white space. */
  function TrimStart(s: string): (r: string)
    ensures |r| <= |s| && r == s[|s| - |r|..]
    ensures r == [] || !IsWhitespace(r[0])
    ensures forall i :: 0 <= i < |s| - |r| ==> IsWhitespace(s[i])
  {
    if s != [] && IsWhitespace(s[0]) then TrimStart(s[1..]) else s
  }

  /** `s.trimEnd()`: the longest prefix that does not end with white space. */
  function TrimEnd(s: string): (r: string)
    ensures |r| <= |s| && r == s[..|r|]
    ensures r == [] || !IsWhitespace(r[|r| - 1])
    ensures forall i :: |r| <= i < |s| ==> IsWhitespace(s[i])
  {
    if s != [] && IsWhitespace(s[|s| - 1]) then TrimEnd(s[..|s| - 1]) else s
  }

  /** `s.trim()`: white space removed at both ends, nothing removed in between. */
  function Trim(s: string): (r: string)
    ensures r == [] || (!IsWhitespace(r[0]) && !IsWhitespace(r[|r| - 1]))
    ensures exists i :: TrimmedAt(s, r, i)
  {
    var t := TrimEnd(s);
    var r := TrimStart(t);
    SliceBetweenRuns(s, t, r, IsWhitespace);
    assert r != [] ==> r[|r| - 1] == t[|t| - 1];
    assert TrimmedAt(s, r, |t| - |r|);
    r
  }

  /** Cutting a run of `w` characters off the end of `s`, then off the start of the rest, leaves a slice between such runs. */
  lemma SliceBetweenRuns(s: string, t: string, r: string, w: char -> bool)
    requires |t| <= |s| && t == s[..|t|] && forall i :: |t| <= i < |s| ==> w(s[i])
    requires |r| <= |t| && r == t[|t| - |r|..] && forall i :: 0 <= i < |t| - |r| ==> w(t[i])
    ensures var i := |t| - |r|;
      && s[i..i + |r|] == r
      && (forall k :: 0 <= k < i ==> w(s[k]))
      && (forall k :: i + |r| <= k < |s| ==> w(s[k]))
  {
    var i := |t| - |r|;
    assert s[i..i + |r|] == t[i..];
    forall k | 0 <= k < i ensures w(s[k]) {
      assert s[k] == t[k];
    }
  }

  /** `r` is `s` from position `i` on, with only white space cut off before and after it. */
  predicate TrimmedAt(s: string, r: string, i: int) {
    && 0 <= i && i + |r| <= |s| && r == s[i..i + |r|]
    && (forall k :: 0 <= k < i ==> IsWhitespace(s[k]))
    && (forall k :: i + |r| <= k < |s| ==> IsWhitespace(s[k]))
  }

  /** Trimming a string that starts and ends with a visible character changes nothing. */
  lemma TrimVisible(s: string)
    requires s != [] && !IsWhitespace(s[0]) && !IsWhitespace(s[|s| - 1])
    ensures Trim(s) == s
  {
  }

  /** A visible string with one trailing space trims back to itself. */
  lemma TrimTrailingSpace(s: string)
    requires s != [] && !IsWhitespace(s[0]) && !IsWhitespace(s[|s| - 1])
    ensures Trim(s + " ") == s
  {
    assert (s + " ")[..|s|] == s;
    assert TrimEnd(s + " ") == TrimEnd(s);
  }

  /** `s.split(c)` for a one-character separator: always at least one part. */
  function Split(s: string, c: char): (parts: seq<string>)
    ensures |parts| >= 1
    ensures forall i :: 0 <= i < |parts| ==> c !in parts[i]
  {
    if s == [] then [[]]
    else if s[0] == c then [[]] + Split(s[1..], c)
    else
      var rest := Split(s[1..], c);
      [[s[0]] + rest[0]] + rest[1..]
  }

  /** `parts.join(sep)`; the join of no parts is the empty string. */
  function Join(parts: seq<string>, sep: string): string {
    if |parts| == 0 then []
    else if |parts| == 1 then parts[0]
    else parts[0] + sep + Join(parts[1..], sep)
  }

  lemma JoinConsHead(x: char, ps: seq<string>, sep: string)
    requires |ps| >= 1
    ensures Join([[x] + ps[0]] + ps[1..], sep) == [x] + Join(ps, sep)
  {
    var qs := [[x] + ps[0]] + ps[1..];
    assert qs[1..] == ps[1..];
  }

  /** Joining one more part adds the separator and that part at the end. */
  lemma {:induction false} JoinSnoc(ps: seq<string>, x: string, sep: string)
    requires |ps| >= 1
    ensures Join(ps + [x], sep) == Join(ps, sep) + sep + x
  {
    if |ps| > 1 {
      assert (ps + [x])[1..] == ps[1..] + [x];
      JoinSnoc(ps[1..], x, sep);
    }
  }

  /** Splitting and joining again with the same separator gives back the string. */
  lemma {:induction false} JoinSplit(s: string, c: char)
    ensures Join(Split(s, c), [c]) == s
  {
    if s == [] {
    } else if s[0] == c {
      JoinSplit(s[1..], c);
      var rest := Split(s[1..], c);
      assert ([[]] + rest)[1..] == rest;
    } else {
      JoinSplit(s[1..], c);
      JoinConsHead(s[0], Split(s[1..], c), [c]);
    }
  }

  /** A string without the separator splits into itself alone, and only such a string does. */
  lemma {:induction false} SplitSingle(s: string, c: char)
    ensures (|Split(s, c)| == 1) <==> c !in s
    ensures c !in s ==> Split(s, c) == [s]
  {
    if s != [] {
      SplitSingle(s[1..], c);
      if s[0] != c {
        assert s == [s[0]] + s[1..];
      }
    }
  }

  lemma {:induction false} SplitAfterPrefix(a: string, b: string, c: char)
    requires c !in a
    ensures Split(a + [c] + b, c) == [a] + Split(b, c)
  {
    if a == [] {
      assert a + [c] + b == [c] + b;
      assert ([c] + b)[1..] == b;
    } else {
      var s := a + [c] + b;
      assert s[0] == a[0] && s[1..] == a[1..] + [c] + b;
      SplitAfterPrefix(a[1..], b, c);
      assert [a[0]] + a[1..] == a;
    }
  }

  /** Joining parts that do not contain the separator, then splitting, gives back the parts. */
  lemma {:induction false} SplitJoin(ps: seq<string>, c: char)
    requires |ps| >= 1
    requires forall i :: 0 <= i < |ps| ==> c !in ps[i]
    ensures Split(Join(ps, [c]), c) == ps
  {
    if |ps| == 1 {
      SplitSingle(ps[0], c);
    } else {
      SplitJoin(ps[1..], c);
      SplitAfterPrefix(ps[0], Join(ps[1..], [c]), c);
      assert ps == [ps[0]] + ps[1..];
    }
  }

  /** `s.indexOf(c)`, with `|s|` standing for "not found". */
  function IndexOf(s: string, c: char): (k: nat)
    ensures k <= |s|
    ensures c !in s[..k]
    ensures k < |s| ==> s[k] == c
    ensures k == |s| <==> c !in s
  {
    if s == [] then 0
    else if s[0] == c then 0
    else
      var k := IndexOf(s[1..], c);
      assert s[..k + 1] == [s[0]] + s[1..][..k];
      assert s == [s[0]] + s[1..];
      k + 1
  }

  /** `s.replace(c, r)` with a string pattern: only the first occurrence is replaced. */
  function ReplaceFirst(s: string, c: char, r: string): (t: string)
    ensures c !in s ==> t == s
    ensures c in s ==> t == s[..IndexOf(s, c)] + r + s[IndexOf(s, c) + 1..]
  {
    var k := IndexOf(s, c);
    if k == |s| then s else s[..k] + r + s[k + 1..]
  }

  /** Removing the first occurrence drops exactly one character: the first `c`, and no other. */
  lemma ReplaceFirstRemoves(s: string, c: char)
    requires c in s
    ensures |ReplaceFirst(s, c, [])| == |s| - 1
    ensures var k := IndexOf(s, c);
      c !in s[..k] && s[k] == c && ReplaceFirst(s, c, []) == s[..k] + s[k + 1..]
  {
  }

  /** `s.replace(/\s/g, d)`: every white-space character becomes `d`. */
  function ReplaceWhitespace(s: string, d: char): (r: string)
    ensures |r| == |s|
    ensures forall i :: 0 <= i < |s| ==> r[i] == if IsWhitespace(s[i]) then d else s[i]
  {
    if s == [] then [] else [if IsWhitespace(s[0]) then d else s[0]] + ReplaceWhitespace(s[1..], d)
  }

  /** Code-point lexicographic order: the model's `a.localeCompare(b) <= 0`. */
  predicate StrLe(a: string, b: string) {
    if a == [] then true
    else if b == [] then false
    else if a[0] != b[0] then a[0] < b[0]
    else StrLe(a[1..], b[1..])
  }

  lemma {:induction false} StrLeTotal(a: string, b: string)
    ensures StrLe(a, b) || StrLe(b, a)
  {
    if a != [] && b != [] && a[0] == b[0] {
      StrLeTotal(a[1..], b[1..]);
    }
  }

  lemma {:induction false} StrLeAntisymmetric(a: string, b: string)
    requires StrLe(a, b) && StrLe(b, a)
    ensures a == b
  {
    if a != [] && b != [] {
      StrLeAntisymmetric(a[1..], b[1..]);
      assert a == [a[0]] + a[1..] && b == [b[0]] + b[1..];
    }
  }

  lemma {:induction false} StrLeTransitive(a: string, b: string, c: string)
    requires StrLe(a, b) && StrLe(b, c)
    ensures StrLe(a, c)
  {
    if a != [] && b != [] && c != [] && a[0] == b[0] && b[0] == c[0] {
      StrLeTransitive(a[1..], b[1..], c[1..]);
    }
  }

  /** The code-point order the model uses in place of `localeCompare` is a total order. */
  lemma StrLeTotalOrder()
    ensures Sorting.TotalOrder(StrLe)
  {
    forall a, b ensures StrLe(a, b) || StrLe(b, a) {
      StrLeTotal(a, b);
    }
    forall a, b | StrLe(a, b) && StrLe(b, a) ensures a == b {
      StrLeAntisymmetric(a, b);
    }
    forall a, b, c | StrLe(a, b) && StrLe(b, c) ensures StrLe(a, c) {
      StrLeTransitive(a, b, c);
    }
  }
}
