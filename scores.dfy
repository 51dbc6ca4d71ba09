/**
 * Scores and their aggregates as the academic views compute them: the marks of
 * one student in one exam, the total of a list of marks (a left `reduce`
 * from 0), the zero-safe average and its two-decimal rounding.
 */
module Scores {

  import opened Types
  import Seqs

  function ScoreOf(m: Mark): real {
    m.score
  }

  /** The marks of one student in one exam, in the order of `marks`. */
  function StudentMarks(marks: seq<Mark>, studentId: string, examId: string): (r: seq<Mark>)
    ensures forall i :: 0 <= i < |r| ==> r[i].studentId == studentId && r[i].examId == examId
    ensures forall m :: m in r <==> m in marks && m.studentId == studentId && m.examId == examId
    ensures forall m :: multiset(r)[m] == if m.studentId == studentId && m.examId == examId then multiset(marks)[m] else 0
    ensures Seqs.SubseqOf(r, marks)
  {
    var p := (m: Mark) => m.studentId == studentId && m.examId == examId;
    Seqs.FilterProperties(marks, p);
    Seqs.Filter(marks, p)
  }

  /** `reduce((sum, mark) => sum + mark.score, 0)`. */
  function Total(ms: seq<Mark>): real {
    Seqs.SumOf(ms, ScoreOf)
  }

  /** The total over the count, or 0 when there are no marks. */
  function Average(ms: seq<Mark>): real {
    Seqs.Mean(Total(ms), |ms|)
  }

  /** Scores in 0..100 give a total in 0..100 per mark and an average in 0..100. */
  lemma ScoresBounded(ms: seq<Mark>)
    requires forall i :: 0 <= i < |ms| ==> 0.0 <= ms[i].score <= 100.0
    ensures 0.0 <= Total(ms) <= 100.0 * |ms| as real
    ensures 0.0 <= Average(ms) <= 100.0
  {
    Seqs.SumOfBounds(ms, ScoreOf, 0.0, 100.0);
    Seqs.MeanBounds(Total(ms), |ms|, 0.0, 100.0);
  }

  /**
   * `parseFloat(x.toFixed(2))` on exact values: the nearest multiple of 0.01,
   * halves rounded away from zero.
   */
  function Round2(x: real): (r: real)
    ensures -0.005 <= r - x <= 0.005
  {
    if x >= 0.0 then (x * 100.0 + 0.5).Floor as real / 100.0
    else -((-x * 100.0 + 0.5).Floor as real / 100.0)
  }

  /**
   * The rounded value is a whole number of hundredths, the one nearest to `x`;
   * a value exactly halfway goes up for `x >= 0` and down for negative `x`,
   * that is away from zero.
   */
  lemma Round2Exact(x: real)
    ensures (Round2(x) * 100.0).Floor as real == Round2(x) * 100.0
    ensures x >= 0.0 ==> x * 100.0 - 0.5 < Round2(x) * 100.0 <= x * 100.0 + 0.5
    ensures x < 0.0 ==> x * 100.0 - 0.5 <= Round2(x) * 100.0 < x * 100.0 + 0.5
  {
    var y := x * 100.0;
    if x >= 0.0 {
      var n := (y + 0.5).Floor;
      assert Round2(x) == n as real / 100.0;
      Hundredths(n, Round2(x));
      assert n as real <= y + 0.5 < n as real + 1.0;
    } else {
      var n := (-y + 0.5).Floor;
      assert Round2(x) == -(n as real / 100.0);
      Hundredths(-n, Round2(x));
      assert n as real <= -y + 0.5 < n as real + 1.0;
    }
  }

  /** A value of `k / 100` is `k` hundredths. */
  lemma Hundredths(k: int, r: real)
    requires r == k as real / 100.0 || r == -((-k) as real / 100.0)
    ensures r * 100.0 == k as real && (r * 100.0).Floor == k
  {
  }

  /** Rounding to two decimals never reverses the order of two values. */
  lemma Round2Monotone(x: real, y: real)
    requires x <= y
    ensures Round2(x) <= Round2(y)
  {
    if x >= 0.0 {
      assert (x * 100.0 + 0.5).Floor <= (y * 100.0 + 0.5).Floor;
    } else if y < 0.0 {
      assert (-y * 100.0 + 0.5).Floor <= (-x * 100.0 + 0.5).Floor;
    }
  }

  /** A value in 0..100 stays in 0..100 when rounded to two decimals. */
  lemma Round2Bounded(x: real)
    requires 0.0 <= x <= 100.0
    ensures 0.0 <= Round2(x) <= 100.0
  {
    Round2Monotone(x, 100.0);
    assert (100.0 * 100.0 + 0.5).Floor == 10000;
  }

  /** With no marks the average is 0, not a division by zero. */
  lemma AverageOfNone()
    ensures Average([]) == 0.0
  {
  }

}
