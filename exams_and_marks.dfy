/**
 * The exams-and-marks table: an exam is selected (the first exam at first),
 * and the table lists that exam's marks with the student's and the subject's
 * names looked up, 'N/A' for an id that is not found.
 */
module ExamsAndMarks {

  import opened Wrappers
  import opened Types
  import opened Lookup
  import Seqs

  /** `exams[0]?.id || null`: the first exam's id, unless there is no exam or its id is empty. */
  function InitialExam(exams: seq<Exam>): (r: Option<string>)
    ensures exams == [] ==> r == None
    ensures r.Some? ==> exams != [] && r.value == exams[0].id && r.value != ""
    ensures exams != [] && exams[0].id != "" ==> r == Some(exams[0].id)
  {
    if exams != [] && exams[0].id != "" then Some(exams[0].id) else None
  }

  /** `filteredMarks`: the selected exam's marks in their order, none when no exam is selected. */
  function FilteredMarks(marks: seq<Mark>, selected: Option<string>): (r: seq<Mark>)
    ensures !Chosen(selected) ==> r == []
    ensures Chosen(selected) ==> forall m :: m in r <==> m in marks && m.examId == selected.value
    ensures forall i :: 0 <= i < |r| ==> Chosen(selected) && r[i].examId == selected.value
    ensures Seqs.SubseqOf(r, marks)
    ensures forall m :: multiset(r)[m] == if Chosen(selected) && m.examId == selected.value then multiset(marks)[m] else 0
  {
    if Chosen(selected) then
      var p := (m: Mark) => m.examId == selected.value;
      Seqs.FilterProperties(marks, p);
      Seqs.Filter(marks, p)
    else
      []
  }

  /** A row of the table: student name, subject name, score. */
  datatype MarkRow = MarkRow(student: string, subject: string, score: real)

  function Rows(students: seq<Student>, subjects: seq<Subject>, marks: seq<Mark>, selected: Option<string>): (r: seq<MarkRow>)
    ensures |r| == |FilteredMarks(marks, selected)|
    ensures forall i :: 0 <= i < |r| ==>
      var m := FilteredMarks(marks, selected)[i];
      r[i] == MarkRow(StudentName(students, m.studentId), SubjectName(subjects, m.subjectId), m.score)
  {
    var fm := FilteredMarks(marks, selected);
    seq(|fm|, i requires 0 <= i < |fm| => MarkRow(StudentName(students, fm[i].studentId), SubjectName(subjects, fm[i].subjectId), fm[i].score))
  }

  /** When every exam in the list has an id, the first exam's marks are shown at first. */
  lemma InitialSelectionShowsFirstExam(exams: seq<Exam>, marks: seq<Mark>)
    requires exams != [] && exams[0].id != ""
    ensures forall m :: m in FilteredMarks(marks, InitialExam(exams)) <==> m in marks && m.examId == exams[0].id
  {
  }

  /** Selecting an exam that no mark belongs to shows an empty table. */
  lemma UnmarkedExamIsEmpty(marks: seq<Mark>, examId: string)
    requires forall i :: 0 <= i < |marks| ==> marks[i].examId != examId
    ensures FilteredMarks(marks, Some(examId)) == []
  {
    if examId != "" {
      Seqs.FilterNone(marks, (m: Mark) => m.examId == examId);
    }
  }
}
