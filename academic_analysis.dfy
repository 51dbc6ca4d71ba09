/**
 * The dean's analysis chart: one bar per subject, the average score over
 * every mark recorded for that subject in any exam, rounded to two decimals.
 */
module AcademicAnalysis {

  import opened Types
  import opened Scores
  import Seqs

  datatype ChartEntry = ChartEntry(subject: string, averageScore: real)

  /** Every mark of one subject, whatever the exam, in the order of `marks`. */
  function SubjectMarks(marks: seq<Mark>, subjectId: string): (r: seq<Mark>)
    ensures forall m :: m in r <==> m in marks && m.subjectId == subjectId
    ensures forall i :: 0 <= i < |r| ==> r[i].subjectId == subjectId
    ensures Seqs.SubseqOf(r, marks)
    ensures forall m :: multiset(r)[m] == if m.subjectId == subjectId then multiset(marks)[m] else 0
  {
    var p := (m: Mark) => m.subjectId == subjectId;
    Seqs.FilterProperties(marks, p);
    Seqs.Filter(marks, p)
  }

  /**
   * `subjectAverages`: one entry per subject, in subject order, labelled with its
   * name, carrying the subject's average rounded to two decimals.
   */
  function SubjectAverages(marks: seq<Mark>, subjects: seq<Subject>): (r: seq<ChartEntry>)
    ensures |r| == |subjects|
    ensures forall i :: 0 <= i < |r| ==>
      r[i].subject == subjects[i].name && r[i].averageScore == Round2(Average(SubjectMarks(marks, subjects[i].id)))
  {
    seq(|subjects|, i requires 0 <= i < |subjects| => ChartEntry(subjects[i].name, Round2(Average(SubjectMarks(marks, subjects[i].id)))))
  }

  /** When every score lies in 0..100, every subject average lies in 0..100. */
  lemma AveragesBounded(marks: seq<Mark>, subjects: seq<Subject>)
    requires forall i :: 0 <= i < |marks| ==> 0.0 <= marks[i].score <= 100.0
    ensures forall i :: 0 <= i < |subjects| ==> 0.0 <= SubjectAverages(marks, subjects)[i].averageScore <= 100.0
  {
    forall i | 0 <= i < |subjects|
      ensures 0.0 <= SubjectAverages(marks, subjects)[i].averageScore <= 100.0
    {
      var sm := SubjectMarks(marks, subjects[i].id);
      forall k | 0 <= k < |sm| ensures 0.0 <= sm[k].score <= 100.0 {
        assert sm[k] in marks;
      }
      ScoresBounded(sm);
      Round2Bounded(Average(sm));
    }
  }

  /** A subject without marks gets the average 0. */
  lemma UnmarkedSubjectAverage(marks: seq<Mark>, subjects: seq<Subject>, i: nat)
    requires i < |subjects|
    requires forall k :: 0 <= k < |marks| ==> marks[k].subjectId != subjects[i].id
    ensures SubjectAverages(marks, subjects)[i].averageScore == 0.0
  {
    Seqs.FilterNone(marks, (m: Mark) => m.subjectId == subjects[i].id);
    assert (0.0 * 100.0 + 0.5).Floor == 0;
  }

  /** The average ignores exams: marks of every exam count, so adding a mark of another exam changes it. */
  lemma AllExamsCount(marks: seq<Mark>, subjectId: string, m: Mark)
    requires m.subjectId == subjectId
    ensures SubjectMarks(marks + [m], subjectId) == SubjectMarks(marks, subjectId) + [m]
  {
    Seqs.FilterSnoc(marks, m, (x: Mark) => x.subjectId == subjectId);
  }
}
