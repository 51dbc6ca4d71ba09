/**
 * The teacher's mark editor: picking an exam and a subject fills the form with
 * one row per student who has a mark for that pair (the first such mark), and
 * saving sends the edited (mark id, score) pairs to the server in one call.
 */
module ManageMarks {

  import opened Wrappers
  import opened Types
  import opened Lookup
  import Seqs

  /** A stored mark together with its document id. */
  datatype MarkWithId = MarkWithId(id: string, studentId: string, subjectId: string, examId: string, score: real)

  /** One editable row: the mark it edits, its score, and the student it belongs to. */
  datatype FormRow = FormRow(markId: string, score: real, studentId: string, studentName: string)

  /** `relevantMarks`: the marks of the chosen exam and subject, in their order. */
  function RelevantMarks(initialMarks: seq<MarkWithId>, examId: string, subjectId: string): (r: seq<MarkWithId>)
    ensures forall m :: m in r <==> m in initialMarks && m.examId == examId && m.subjectId == subjectId
    ensures Seqs.SubseqOf(r, initialMarks)
    ensures forall m :: multiset(r)[m] == if m.examId == examId && m.subjectId == subjectId then multiset(initialMarks)[m] else 0
  {
    var p := (m: MarkWithId) => m.examId == examId && m.subjectId == subjectId;
    Seqs.FilterProperties(initialMarks, p);
    Seqs.Filter(initialMarks, p)
  }

  /** `relevantMarks.some(rm => rm.studentId === id)`. */
  predicate HasMark(relevant: seq<MarkWithId>, studentId: string) {
    exists i :: 0 <= i < |relevant| && relevant[i].studentId == studentId
  }

  /** `relevantMarks.find(m => m.studentId === id)`. */
  function FirstMark(relevant: seq<MarkWithId>, studentId: string): (r: Option<MarkWithId>)
    ensures r.Some? <==> HasMark(relevant, studentId)
    ensures r.Some? ==> r.value in relevant && r.value.studentId == studentId
    ensures r.Some? ==> forall j :: 0 <= j < |relevant| && relevant[j] != r.value && relevant[j].studentId == studentId ==>
      exists k :: 0 <= k < j && relevant[k] == r.value
  {
    var p := (m: MarkWithId) => m.studentId == studentId;
    var k := FirstIndex(relevant, p);
    if k < |relevant| then Some(relevant[k]) else None
  }

  /** The students that have a relevant mark, in student-list order. */
  function MarkedStudents(students: seq<Student>, relevant: seq<MarkWithId>): (r: seq<Student>)
    ensures forall s :: s in r <==> s in students && HasMark(relevant, s.id)
    ensures forall i :: 0 <= i < |r| ==> HasMark(relevant, r[i].id)
    ensures Seqs.SubseqOf(r, students)
    ensures forall s :: multiset(r)[s] == if HasMark(relevant, s.id) then multiset(students)[s] else 0
  {
    var p := (s: Student) => HasMark(relevant, s.id);
    Seqs.FilterProperties(students, p);
    Seqs.Filter(students, p)
  }

  /** `studentMarksForForm`: each marked student with the id and score of its first relevant mark. */
  function FormRows(students: seq<Student>, relevant: seq<MarkWithId>): (r: seq<FormRow>)
    ensures |r| == |MarkedStudents(students, relevant)|
    ensures forall i :: 0 <= i < |r| ==>
      var s := MarkedStudents(students, relevant)[i];
      var m := FirstMark(relevant, s.id);
      m.Some? && r[i] == FormRow(m.value.id, m.value.score, s.id, s.name)
  {
    var ws := MarkedStudents(students, relevant);
    seq(|ws|, i requires 0 <= i < |ws| =>
      var m := FirstMark(relevant, ws[i].id).value;
      FormRow(m.id, m.score, ws[i].id, ws[i].name))
  }

  /** A row's mark is a relevant mark of that very student. */
  lemma RowsCarryTheirMarks(students: seq<Student>, relevant: seq<MarkWithId>, i: nat)
    requires i < |FormRows(students, relevant)|
    ensures var row := FormRows(students, relevant)[i];
      exists m :: m in relevant && m.studentId == row.studentId && m.id == row.markId && m.score == row.score
  {
    var s := MarkedStudents(students, relevant)[i];
    var m := FirstMark(relevant, s.id).value;
    assert m in relevant;
  }

  /** Mark `j` is the first one carrying `markId`. */
  predicate FirstMarkWithId(ms: seq<MarkWithId>, markId: string, j: int) {
    0 <= j < |ms| && ms[j].id == markId && forall k :: 0 <= k < j ==> ms[k].id != markId
  }

  /** `studentData`'s lookup: the student whose id is the one on the mark with this id. */
  function OwnerOf(students: seq<Student>, initialMarks: seq<MarkWithId>, markId: string): (r: Option<Student>)
    ensures r.Some? ==> r.value in students
    ensures (forall j :: 0 <= j < |initialMarks| ==> initialMarks[j].id != markId) ==> r.None?
    ensures forall j :: FirstMarkWithId(initialMarks, markId, j) ==> r == StudentById(students, initialMarks[j].studentId)
    ensures r.Some? ==> exists j :: FirstMarkWithId(initialMarks, markId, j) && r.value.id == initialMarks[j].studentId
    ensures r.None? <==>
      || (forall j :: 0 <= j < |initialMarks| ==> initialMarks[j].id != markId)
      || (exists j :: FirstMarkWithId(initialMarks, markId, j)
            && forall i :: 0 <= i < |students| ==> students[i].id != initialMarks[j].studentId)
  {
    var p := (im: MarkWithId) => im.id == markId;
    match Find(initialMarks, p)
    case None => None
    case Some(m) =>
      var k := FirstIndex(initialMarks, p);
      assert FirstMarkWithId(initialMarks, markId, k) && m == initialMarks[k];
      StudentById(students, m.studentId)
  }

  /** A row as shown: the row itself and its owner's name and admission number. */
  datatype ShownRow = ShownRow(row: FormRow, studentName: string, admissionNumber: string)

  /** `studentData`: 'Unknown' and 'N/A' stand in when no owner is found or the field is empty. */
  function StudentData(students: seq<Student>, initialMarks: seq<MarkWithId>, rows: seq<FormRow>): (r: seq<ShownRow>)
    ensures |r| == |rows|
    ensures forall i :: 0 <= i < |r| ==> r[i].row == rows[i]
    ensures forall i :: 0 <= i < |r| && OwnerOf(students, initialMarks, rows[i].markId).None? ==>
      r[i].studentName == "Unknown" && r[i].admissionNumber == "N/A"
    ensures forall i :: 0 <= i < |r| && OwnerOf(students, initialMarks, rows[i].markId).Some? ==>
      var s := OwnerOf(students, initialMarks, rows[i].markId).value;
      r[i].studentName == OrElse(s.name, "Unknown") && r[i].admissionNumber == OrElse(s.admissionNumber, "N/A")
  {
    seq(|rows|, i requires 0 <= i < |rows| =>
      match OwnerOf(students, initialMarks, rows[i].markId)
      case None => ShownRow(rows[i], "Unknown", "N/A")
      case Some(s) => ShownRow(rows[i], OrElse(s.name, "Unknown"), OrElse(s.admissionNumber, "N/A")))
  }

  predicate UniqueMarkIds(ms: seq<MarkWithId>) {
    forall i, j :: 0 <= i < |ms| && 0 <= j < |ms| && i != j ==> ms[i].id != ms[j].id
  }

  predicate UniqueStudentIds(ss: seq<Student>) {
    forall i, j :: 0 <= i < |ss| && 0 <= j < |ss| && i != j ==> ss[i].id != ss[j].id
  }

  /** With unique ids, the owner of a mark is the student the mark was recorded for. */
  lemma OwnerOfMark(students: seq<Student>, initialMarks: seq<MarkWithId>, s: Student, m: MarkWithId)
    requires UniqueMarkIds(initialMarks) && UniqueStudentIds(students)
    requires s in students && m in initialMarks && m.studentId == s.id
    ensures OwnerOf(students, initialMarks, m.id) == Some(s)
  {
    var p := (im: MarkWithId) => im.id == m.id;
    var k := FirstIndex(initialMarks, p);
    var i :| 0 <= i < |initialMarks| && initialMarks[i] == m;
    assert p(initialMarks[i]);
    assert k == i;
    var j :| 0 <= j < |students| && students[j] == s;
    StudentByUniqueId(students, j);
  }

  /**
   * With unique ids, the rows the filter produces are shown under the name and
   * admission number of the student each row was made for.
   */
  lemma ShownRowsNameTheirStudents(
    students: seq<Student>, initialMarks: seq<MarkWithId>, examId: string, subjectId: string, i: nat)
    requires UniqueMarkIds(initialMarks) && UniqueStudentIds(students)
    requires i < |FormRows(students, RelevantMarks(initialMarks, examId, subjectId))|
    ensures var relevant := RelevantMarks(initialMarks, examId, subjectId);
      var s := MarkedStudents(students, relevant)[i];
      var shown := StudentData(students, initialMarks, FormRows(students, relevant))[i];
      shown.studentName == OrElse(s.name, "Unknown") && shown.admissionNumber == OrElse(s.admissionNumber, "N/A")
  {
    var relevant := RelevantMarks(initialMarks, examId, subjectId);
    var s := MarkedStudents(students, relevant)[i];
    var m := FirstMark(relevant, s.id).value;
    assert s in MarkedStudents(students, relevant);
    OwnerOfMark(students, initialMarks, s, m);
  }

  // ---------------------------------------------------------------------------
  // Submission

  /** What the schema keeps of a row: unknown keys are stripped, leaving the mark id and score. */
  datatype MarkUpdate = MarkUpdate(markId: string, score: real)

  function Updates(rows: seq<FormRow>): (r: seq<MarkUpdate>)
    ensures |r| == |rows|
    ensures forall i :: 0 <= i < |r| ==> r[i].markId == rows[i].markId && r[i].score == rows[i].score
  {
    seq(|rows|, i requires 0 <= i < |rows| => MarkUpdate(rows[i].markId, rows[i].score))
  }

  /** `markUpdateSchema`: a score from 0 to 100. */
  predicate UpdateValid(u: MarkUpdate) {
    0.0 <= u.score <= 100.0
  }

  /** The form schema: an exam and a subject are chosen and every score is in range. */
  predicate FormValid(examId: string, subjectId: string, rows: seq<FormRow>) {
    |examId| >= 1 && |subjectId| >= 1 && forall i :: 0 <= i < |rows| ==> 0.0 <= rows[i].score <= 100.0
  }

  /** What a save attempt leads to. */
  datatype Outcome = Invalid | Refused(message: string) | Called(payload: seq<MarkUpdate>, success: bool)

  /**
   * `handleSubmit(onSubmit)`: the schema is checked first; an empty row list is
   * refused without calling the server; otherwise every row's update goes out in
   * one call, whose answer is the oracle's.
   */
  function Submit(examId: string, subjectId: string, rows: seq<FormRow>, onUpdateMarks: seq<MarkUpdate> -> bool): (o: Outcome)
    ensures o.Called? ==> FormValid(examId, subjectId, rows) && rows != []
    ensures o.Called? ==> o.payload == Updates(rows) && o.success == onUpdateMarks(Updates(rows))
    ensures o.Called? ==> forall i :: 0 <= i < |o.payload| ==> UpdateValid(o.payload[i])
    ensures o == Invalid <==> !FormValid(examId, subjectId, rows)
    ensures o.Refused? <==> FormValid(examId, subjectId, rows) && rows == []
  {
    if !FormValid(examId, subjectId, rows) then Invalid
    else if rows == [] then Refused("Please filter to a set of marks before saving.")
    else Called(Updates(rows), onUpdateMarks(Updates(rows)))
  }

  // ---------------------------------------------------------------------------
  // Component state

  /** The form's selected exam and subject, and the field array of rows the effect fills. */
  class MarksForm {
    const students: seq<Student>
    const initialMarks: seq<MarkWithId>
    var examId: string
    var subjectId: string
    var rows: seq<FormRow>

    /** The rows the effect computes for the current selection. */
    function Expected(): seq<FormRow>
      reads this
    {
      if examId != "" && subjectId != "" then FormRows(students, RelevantMarks(initialMarks, examId, subjectId)) else []
    }

    /** The field array holds what the effect computed for the current selection. */
    predicate Valid()
      reads this
    {
      rows == Expected()
    }

    /** The form opens with nothing selected and no rows. */
    constructor(students: seq<Student>, initialMarks: seq<MarkWithId>)
      ensures this.students == students && this.initialMarks == initialMarks
      ensures examId == "" && subjectId == "" && rows == []
      ensures Valid()
    {
      this.students := students;
      this.initialMarks := initialMarks;
      examId := "";
      subjectId := "";
      rows := [];
    }

    /** The effect: the rows are replaced by those of the selection, or emptied when one part is missing. */
    method Refresh()
      modifies this
      ensures examId == old(examId) && subjectId == old(subjectId)
      ensures examId != "" && subjectId != "" ==> rows == FormRows(students, RelevantMarks(initialMarks, examId, subjectId))
      ensures examId == "" || subjectId == "" ==> rows == []
      ensures Valid()
    {
      if examId != "" && subjectId != "" {
        var relevant := RelevantMarks(initialMarks, examId, subjectId);
        rows := FormRows(students, relevant);
      } else {
        rows := [];
      }
    }

    /** Choosing an exam re-runs the effect. */
    method SetExam(id: string)
      modifies this
      ensures examId == id && subjectId == old(subjectId)
      ensures Valid()
    {
      examId := id;
      Refresh();
    }

    /** Choosing a subject re-runs the effect. */
    method SetSubject(id: string)
      modifies this
      ensures subjectId == id && examId == old(examId)
      ensures Valid()
    {
      subjectId := id;
      Refresh();
    }

    /** Typing a score into row `i` changes that row's score only. */
    method EditScore(i: nat, score: real)
      requires i < |rows|
      modifies this
      ensures rows == old(rows)[i := old(rows)[i].(score := score)]
      ensures examId == old(examId) && subjectId == old(subjectId)
    {
      rows := rows[i := rows[i].(score := score)];
    }
  }

  /** Right after a selection of both parts, saving is refused exactly when no student has a relevant mark. */
  lemma FreshSelectionRefusedIffUnmarked(
    students: seq<Student>, initialMarks: seq<MarkWithId>, examId: string, subjectId: string,
    onUpdateMarks: seq<MarkUpdate> -> bool)
    requires examId != "" && subjectId != ""
    requires forall i :: 0 <= i < |initialMarks| ==> 0.0 <= initialMarks[i].score <= 100.0
    ensures var relevant := RelevantMarks(initialMarks, examId, subjectId);
      Submit(examId, subjectId, FormRows(students, relevant), onUpdateMarks).Refused?
      <==> (forall s :: s in students ==> !HasMark(relevant, s.id))
  {
    var relevant := RelevantMarks(initialMarks, examId, subjectId);
    var rows := FormRows(students, relevant);
    var ws := MarkedStudents(students, relevant);
    forall i | 0 <= i < |rows| ensures 0.0 <= rows[i].score <= 100.0 {
      var m := FirstMark(relevant, ws[i].id).value;
      assert m in initialMarks;
    }
    if ws != [] {
      assert ws[0] in students && HasMark(relevant, ws[0].id);
    }
  }
}
