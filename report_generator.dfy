/**
 * The report generator: the student marksheet, the class performance table
 * (a class ranked by average), the component state that holds the previewed
 * report, and the file name a report is downloaded under.
 */
module ReportGenerator {

  import opened Wrappers
  import opened Types
  import opened Lookup
  import Seqs
  import Sorting
  import Strings
  import Numbers
  import opened Scores

  datatype ReportType = Marksheet | ClassPerformance | SubjectAnalysis

  /** The report form's values; the optional ids are absent until chosen. */
  datatype FormValues = FormValues(
    reportType: ReportType,
    examId: string,
    classId: Option<string>,
    studentId: Option<string>,
    subjectId: Option<string>)

  /** The form schema: an exam must be chosen; the other ids are optional. */
  predicate FormValid(v: FormValues) {
    |v.examId| >= 1
  }

  /** The form starts on the marksheet with no exam chosen. */
  function DefaultValues(): (v: FormValues)
    ensures v.reportType == Marksheet && !FormValid(v)
  {
    FormValues(Marksheet, "", None, None, None)
  }

  /** The cell of a report table: text, a number, or a number rendered by `toString` or `toFixed`. */
  datatype Cell = Text(text: string) | Number(value: real) | NumberText(value: real) | Fixed(value: real, digits: nat)

  datatype ReportData = ReportData(
    title: string,
    headers: seq<string>,
    rows: seq<seq<Cell>>,
    meta: seq<(string, string)>,
    rawValues: FormValues)

  /** What a preview request leads to: an error toast, an information toast, nothing, or a report. */
  datatype Preview = Refused(message: string) | Info(message: string) | Silent | Shown(data: ReportData)

  // ---------------------------------------------------------------------------
  // Grades

  datatype Grade = A | B | C | D

  /** The four bands: A from 80, B from 60, C from 40, D below. */
  function GradeOf(score: real): (g: Grade)
    ensures g == A <==> score >= 80.0
    ensures g == B <==> 60.0 <= score < 80.0
    ensures g == C <==> 40.0 <= score < 60.0
    ensures g == D <==> score < 40.0
  {
    if score >= 80.0 then A else if score >= 60.0 then B else if score >= 40.0 then C else D
  }

  /** A is the best grade and D the worst. */
  function Rank(g: Grade): nat {
    match g
    case A => 3
    case B => 2
    case C => 1
    case D => 0
  }

  /** A higher score never gets a worse grade. */
  lemma GradeMonotone(x: real, y: real)
    requires x <= y
    ensures Rank(GradeOf(x)) <= Rank(GradeOf(y))
  {
  }

  function GradeLetter(g: Grade): string {
    match g
    case A => "A"
    case B => "B"
    case C => "C"
    case D => "D"
  }

  // ---------------------------------------------------------------------------
  // Marksheet

  /** One subject row: the subject's name, the score, the grade letter. */
  function SubjectRow(subjects: seq<Subject>, m: Mark): seq<Cell> {
    [Text(SubjectName(subjects, m.subjectId)), Number(m.score), Text(GradeLetter(GradeOf(m.score)))]
  }

  function MarksheetMeta(student: Student, exam: Exam, classes: seq<Class>): seq<(string, string)> {
    [("Student", student.name + " (" + student.admissionNumber + ")"),
     ("Exam", exam.name + " - " + Numbers.IntText(exam.year)),
     ("Class", ClassName(classes, student.classId))]
  }

  /**
   * What a marksheet preview must produce: an error when no student is chosen;
   * nothing when the student or the exam is unknown; otherwise one row per mark
   * of that student in that exam, in marks order, then the total row and the
   * average row.
   */
  ghost predicate MarksheetSpec(
    students: seq<Student>, classes: seq<Class>, exams: seq<Exam>, marks: seq<Mark>,
    subjects: seq<Subject>, values: FormValues, p: Preview)
  {
    if !Chosen(values.studentId) then p == Refused("Please select a student for the marksheet.")
    else
      var student := StudentById(students, values.studentId.value);
      var exam := ExamById(exams, values.examId);
      if student.None? || exam.None? then p == Silent
      else
        var sm := StudentMarks(marks, values.studentId.value, values.examId);
        && p.Shown?
        && p.data.title == "Student Marksheet"
        && p.data.headers == ["Subject", "Score", "Grade"]
        && |p.data.rows| == |sm| + 2
        && (forall i :: 0 <= i < |sm| ==> p.data.rows[i] == SubjectRow(subjects, sm[i]))
        && p.data.rows[|sm|] == [Text("Total Marks"), NumberText(Total(sm)), Text("")]
        && p.data.rows[|sm| + 1] == [Text("Average Score"), Fixed(Average(sm), 2), Text("")]
        && p.data.meta == MarksheetMeta(student.value, exam.value, classes)
        && p.data.rawValues == values
  }

  /** `previewMarksheet`: the subject rows, then the two summary rows pushed onto them. */
  method PreviewMarksheet(
    students: seq<Student>, classes: seq<Class>, exams: seq<Exam>, marks: seq<Mark>,
    subjects: seq<Subject>, values: FormValues) returns (p: Preview)
    ensures MarksheetSpec(students, classes, exams, marks, subjects, values, p)
    ensures p.Shown? <==>
      (Chosen(values.studentId) && StudentById(students, values.studentId.value).Some? && ExamById(exams, values.examId).Some?)
  {
    if !Chosen(values.studentId) {
      return Refused("Please select a student for the marksheet.");
    }
    var student := StudentById(students, values.studentId.value);
    var exam := ExamById(exams, values.examId);
    if student.None? || exam.None? {
      return Silent;
    }
    var studentMarks := StudentMarks(marks, values.studentId.value, values.examId);
    var body := seq(|studentMarks|, i requires 0 <= i < |studentMarks| => SubjectRow(subjects, studentMarks[i]));
    var totalMarks := Total(studentMarks);
    var average := Average(studentMarks);
    var totalRow := [Text("Total Marks"), NumberText(totalMarks), Text("")];
    var averageRow := [Text("Average Score"), Fixed(average, 2), Text("")];
    var rows := body + [totalRow];
    rows := rows + [averageRow];
    assert rows == body + [totalRow, averageRow];
    p := Shown(ReportData(
      "Student Marksheet",
      ["Subject", "Score", "Grade"],
      rows,
      MarksheetMeta(student.value, exam.value, classes),
      values));
  }

  // ---------------------------------------------------------------------------
  // Class performance

  /** One student's line before rendering: admission number, name, total and average. */
  datatype PerformanceRow = PerformanceRow(admissionNumber: string, name: string, total: real, average: real)

  /** The sort key of the ranking: the average as the table prints it. */
  function RoundedAverage(r: PerformanceRow): real {
    Round2(r.average)
  }

  function RowOf(marks: seq<Mark>, examId: string, s: Student): (r: PerformanceRow)
    ensures r.admissionNumber == s.admissionNumber && r.name == s.name
    ensures r.total == Total(StudentMarks(marks, s.id, examId))
    ensures r.average == Average(StudentMarks(marks, s.id, examId))
  {
    var sm := StudentMarks(marks, s.id, examId);
    PerformanceRow(s.admissionNumber, s.name, Total(sm), Average(sm))
  }

  /** The students of one class, in roster order. */
  function ClassStudents(students: seq<Student>, classId: string): (r: seq<Student>)
    ensures forall i :: 0 <= i < |r| ==> r[i].classId == classId
    ensures forall s :: s in r <==> s in students && s.classId == classId
    ensures Seqs.SubseqOf(r, students)
    ensures forall s :: multiset(r)[s] == if s.classId == classId then multiset(students)[s] else 0
  {
    var p := (s: Student) => s.classId == classId;
    Seqs.FilterProperties(students, p);
    Seqs.Filter(students, p)
  }

  /** One row per class student, in roster order. */
  function Unranked(students: seq<Student>, marks: seq<Mark>, classId: string, examId: string): (r: seq<PerformanceRow>)
    ensures |r| == |ClassStudents(students, classId)|
    ensures forall i :: 0 <= i < |r| ==> r[i] == RowOf(marks, examId, ClassStudents(students, classId)[i])
  {
    var cs := ClassStudents(students, classId);
    seq(|cs|, i requires 0 <= i < |cs| => RowOf(marks, examId, cs[i]))
  }

  /** Two values whose rounded forms are ordered differ in that direction by at most 0.01. */
  lemma RoundedCloseness(a: real, b: real)
    requires Round2(a) >= Round2(b)
    ensures b <= a + 0.01
  {
  }

  /** Sorting rows by their rounded average: a stable permutation, highest rounded average first. */
  lemma RankedByRoundedAverage(u: seq<PerformanceRow>)
    ensures Sorting.TotalOrder(Sorting.RealGe)
    ensures var r := Sorting.Sort(u, RoundedAverage, Sorting.RealGe);
      && |r| == |u|
      && multiset(r) == multiset(u)
      && (forall i, j :: 0 <= i < j < |r| ==> Round2(r[i].average) >= Round2(r[j].average))
      && (forall i, j :: 0 <= i < j < |r| ==> r[j].average <= r[i].average + 0.01)
      && (forall a :: Sorting.WithKey(r, RoundedAverage, a) == Sorting.WithKey(u, RoundedAverage, a))
  {
    Sorting.RealGeTotalOrder();
    var r := Sorting.Sort(u, RoundedAverage, Sorting.RealGe);
    assert forall i, j :: 0 <= i < j < |r| ==> Round2(r[i].average) >= Round2(r[j].average) by {
      assert forall i, j :: 0 <= i < j < |r| ==> Sorting.RealGe(RoundedAverage(r[i]), RoundedAverage(r[j]));
    }
    forall i, j | 0 <= i < j < |r| ensures r[j].average <= r[i].average + 0.01 {
      RoundedCloseness(r[i].average, r[j].average);
    }
  }

  /**
   * The ranked table: the rows of the class students, highest printed
   * (two-decimal) average first; rows whose printed averages are equal stay
   * in roster order. No later row has an exact average more than 0.01 above
   * an earlier one.
   */
  function Ranked(students: seq<Student>, marks: seq<Mark>, classId: string, examId: string): (r: seq<PerformanceRow>)
    ensures |r| == |ClassStudents(students, classId)|
    ensures multiset(r) == multiset(Unranked(students, marks, classId, examId))
    ensures forall i, j :: 0 <= i < j < |r| ==> Round2(r[i].average) >= Round2(r[j].average)
    ensures forall i, j :: 0 <= i < j < |r| ==> r[j].average <= r[i].average + 0.01
    ensures forall a :: Sorting.WithKey(r, RoundedAverage, a) == Sorting.WithKey(Unranked(students, marks, classId, examId), RoundedAverage, a)
  {
    var u := Unranked(students, marks, classId, examId);
    RankedByRoundedAverage(u);
    Sorting.Sort(u, RoundedAverage, Sorting.RealGe)
  }

  /** Every student of the class has its row in the ranked table. */
  lemma ClassStudentRanked(students: seq<Student>, marks: seq<Mark>, classId: string, examId: string, s: Student)
    requires s in students && s.classId == classId
    ensures RowOf(marks, examId, s) in Ranked(students, marks, classId, examId)
  {
    var cs := ClassStudents(students, classId);
    var u := Unranked(students, marks, classId, examId);
    var i :| 0 <= i < |cs| && cs[i] == s;
    assert u[i] == RowOf(marks, examId, s);
    assert u[i] in multiset(u);
    assert RowOf(marks, examId, s) in multiset(Ranked(students, marks, classId, examId));
  }

  /** Every ranked row is the row of a student of the class. */
  lemma RankedRowOfClassStudent(students: seq<Student>, marks: seq<Mark>, classId: string, examId: string, r: PerformanceRow)
    requires r in Ranked(students, marks, classId, examId)
    ensures exists s :: s in students && s.classId == classId && r == RowOf(marks, examId, s)
  {
    var cs := ClassStudents(students, classId);
    var u := Unranked(students, marks, classId, examId);
    assert r in multiset(Ranked(students, marks, classId, examId));
    assert r in multiset(u);
    var i :| 0 <= i < |u| && u[i] == r;
    assert cs[i] in cs;
  }

  function PerformanceCells(r: PerformanceRow): seq<Cell> {
    [Text(r.admissionNumber), Text(r.name), Fixed(r.total, 0), Fixed(r.average, 2)]
  }

  /**
   * `previewClassPerformance`: an error when no class is chosen; nothing when the
   * class or the exam is unknown; otherwise the ranked table.
   */
  function PreviewClassPerformance(
    students: seq<Student>, classes: seq<Class>, exams: seq<Exam>, marks: seq<Mark>, values: FormValues): (p: Preview)
    ensures !Chosen(values.classId) ==> p == Refused("Please select a class.")
    ensures p.Shown? <==>
      (Chosen(values.classId) && ClassById(classes, values.classId.value).Some? && ExamById(exams, values.examId).Some?)
    ensures Chosen(values.classId) && (ClassById(classes, values.classId.value).None? || ExamById(exams, values.examId).None?) ==>
      p == Silent
    ensures p.Shown? ==>
      var c := ClassById(classes, values.classId.value).value;
      var e := ExamById(exams, values.examId).value;
      && p.data.title == "Class Performance Report"
      && p.data.headers == ["Adm No", "Student Name", "Total Marks", "Average (%)"]
      && |p.data.rows| == |ClassStudents(students, values.classId.value)|
      && p.data.meta == [("Class", c.name + " " + OrElse(c.stream, "")), ("Exam", e.name + " - " + Numbers.IntText(e.year))]
      && p.data.rawValues == values
  {
    if !Chosen(values.classId) then Refused("Please select a class.")
    else
      var cls := ClassById(classes, values.classId.value);
      var exam := ExamById(exams, values.examId);
      if cls.None? || exam.None? then Silent
      else
        var rows := Ranked(students, marks, values.classId.value, values.examId);
        Shown(ReportData(
          "Class Performance Report",
          ["Adm No", "Student Name", "Total Marks", "Average (%)"],
          seq(|rows|, i requires 0 <= i < |rows| => PerformanceCells(rows[i])),
          [("Class", cls.value.name + " " + OrElse(cls.value.stream, "")),
           ("Exam", exam.value.name + " - " + Numbers.IntText(exam.value.year))],
          values))
  }

  /** The shown rows are the ranked rows rendered one for one. */
  lemma ClassPerformanceRows(
    students: seq<Student>, classes: seq<Class>, exams: seq<Exam>, marks: seq<Mark>, values: FormValues, i: nat)
    requires PreviewClassPerformance(students, classes, exams, marks, values).Shown?
    requires i < |ClassStudents(students, values.classId.value)|
    ensures PreviewClassPerformance(students, classes, exams, marks, values).data.rows[i]
         == PerformanceCells(Ranked(students, marks, values.classId.value, values.examId)[i])
  {
  }

  // ---------------------------------------------------------------------------
  // Download file name

  /**
   * The file name of a downloaded report: by admission number and exam for a
   * marksheet, by class and exam for class performance when both are found,
   * otherwise the title with each white-space character turned into '-'.
   */
  function FileName(students: seq<Student>, classes: seq<Class>, exams: seq<Exam>, title: string, raw: FormValues): (name: string)
    ensures |name| >= 4 && name[|name| - 4..] == ".pdf"
    ensures !NamesMarksheet(students, exams, raw) && !NamesClassReport(classes, exams, raw) ==>
      name == Strings.ReplaceWhitespace(title, '-') + ".pdf"
  {
    var student := if Chosen(raw.studentId) then StudentById(students, raw.studentId.value) else None;
    var cls := if Chosen(raw.classId) then ClassById(classes, raw.classId.value) else None;
    var exam := ExamById(exams, raw.examId);
    if raw.reportType == Marksheet && student.Some? && exam.Some? then
      "Marksheet-" + student.value.admissionNumber + "-" + exam.value.name + ".pdf"
    else if raw.reportType == ClassPerformance && cls.Some? && exam.Some? then
      "ClassPerformance-" + cls.value.name + "-" + exam.value.name + ".pdf"
    else
      Strings.ReplaceWhitespace(title, '-') + ".pdf"
  }

  /** A shown marksheet downloads as `Marksheet-<admission number>-<exam name>.pdf`. */
  lemma MarksheetFileName(
    students: seq<Student>, classes: seq<Class>, exams: seq<Exam>, marks: seq<Mark>,
    subjects: seq<Subject>, values: FormValues, p: Preview)
    requires MarksheetSpec(students, classes, exams, marks, subjects, values, p) && p.Shown?
    requires values.reportType == Marksheet
    ensures FileName(students, classes, exams, p.data.title, p.data.rawValues)
         == "Marksheet-" + StudentById(students, values.studentId.value).value.admissionNumber + "-"
            + ExamById(exams, values.examId).value.name + ".pdf"
  {
  }

  /** A shown class performance report downloads as `ClassPerformance-<class name>-<exam name>.pdf`. */
  lemma ClassPerformanceFileName(
    students: seq<Student>, classes: seq<Class>, exams: seq<Exam>, marks: seq<Mark>, values: FormValues)
    requires PreviewClassPerformance(students, classes, exams, marks, values).Shown?
    requires values.reportType == ClassPerformance
    ensures var p := PreviewClassPerformance(students, classes, exams, marks, values);
      FileName(students, classes, exams, p.data.title, p.data.rawValues)
      == "ClassPerformance-" + ClassById(classes, values.classId.value).value.name + "-"
         + ExamById(exams, values.examId).value.name + ".pdf"
  {
  }

  /** The title with its white space replaced, plus `.pdf`, holds no white space. */
  lemma DashedPdfName(title: string)
    ensures var name := Strings.ReplaceWhitespace(title, '-') + ".pdf";
      |name| == |title| + 4 && forall i :: 0 <= i < |name| ==> !Strings.IsWhitespace(name[i])
  {
    var stem := Strings.ReplaceWhitespace(title, '-');
    var name := stem + ".pdf";
    forall i | 0 <= i < |name| ensures !Strings.IsWhitespace(name[i]) {
      if i < |stem| {
        assert name[i] == stem[i];
      } else {
        assert name[i] == ".pdf"[i - |stem|];
      }
    }
  }

  /** The marksheet branch of the file name applies: a marksheet whose student and exam are found. */
  predicate NamesMarksheet(students: seq<Student>, exams: seq<Exam>, raw: FormValues) {
    raw.reportType == Marksheet && Chosen(raw.studentId)
    && StudentById(students, raw.studentId.value).Some? && ExamById(exams, raw.examId).Some?
  }

  /** The class branch of the file name applies: a class report whose class and exam are found. */
  predicate NamesClassReport(classes: seq<Class>, exams: seq<Exam>, raw: FormValues) {
    raw.reportType == ClassPerformance && Chosen(raw.classId)
    && ClassById(classes, raw.classId.value).Some? && ExamById(exams, raw.examId).Some?
  }

  /**
   * When neither named branch applies, the name is the title with every
   * white-space character replaced by '-', plus `.pdf`; it is four characters
   * longer than the title and holds no white space.
   */
  lemma FallbackFileName(students: seq<Student>, classes: seq<Class>, exams: seq<Exam>, title: string, raw: FormValues)
    requires !NamesMarksheet(students, exams, raw) && !NamesClassReport(classes, exams, raw)
    ensures var name := FileName(students, classes, exams, title, raw);
      && name == Strings.ReplaceWhitespace(title, '-') + ".pdf"
      && |name| == |title| + 4 && (forall i :: 0 <= i < |name| ==> !Strings.IsWhitespace(name[i]))
  {
    assert FileName(students, classes, exams, title, raw) == Strings.ReplaceWhitespace(title, '-') + ".pdf";
    DashedPdfName(title);
  }

  // ---------------------------------------------------------------------------
  // Component state

  /** The generator's state: the loading flag and the previewed report, over fixed props. */
  class Generator {
    const students: seq<Student>
    const classes: seq<Class>
    const exams: seq<Exam>
    const marks: seq<Mark>
    const subjects: seq<Subject>
    var isLoading: bool
    var reportData: Option<ReportData>

    /** A kept preview is the shown report of its own form values. */
    ghost predicate Valid()
      reads this
    {
      reportData.Some? ==>
        var d := reportData.value;
        || (d.rawValues.reportType == Marksheet
            && MarksheetSpec(students, classes, exams, marks, subjects, d.rawValues, Shown(d)))
        || (d.rawValues.reportType == ClassPerformance
            && PreviewClassPerformance(students, classes, exams, marks, d.rawValues) == Shown(d))
    }

    constructor(students: seq<Student>, classes: seq<Class>, exams: seq<Exam>, marks: seq<Mark>, subjects: seq<Subject>)
      ensures this.students == students && this.classes == classes && this.exams == exams
      ensures this.marks == marks && this.subjects == subjects
      ensures !isLoading && reportData == None
      ensures Valid()
    {
      this.students := students;
      this.classes := classes;
      this.exams := exams;
      this.marks := marks;
      this.subjects := subjects;
      isLoading := false;
      reportData := None;
    }

    /**
     * `onSubmit`, reached only with values the schema accepts: the previous
     * report is cleared, the preview for the chosen type is computed and kept
     * when it produced a report, and loading ends.
     */
    method OnSubmit(values: FormValues) returns (p: Preview)
      requires FormValid(values)
      modifies this
      ensures !isLoading
      ensures reportData == (if p.Shown? then Some(p.data) else None)
      ensures Valid()
      ensures values.reportType == Marksheet ==> MarksheetSpec(students, classes, exams, marks, subjects, values, p)
      ensures values.reportType == ClassPerformance ==> p == PreviewClassPerformance(students, classes, exams, marks, values)
      ensures values.reportType == SubjectAnalysis ==> p == Info("Subject Analysis report is not yet implemented.")
    {
      isLoading := true;
      reportData := None;
      match values.reportType {
        case Marksheet =>
          p := PreviewMarksheet(students, classes, exams, marks, subjects, values);
        case ClassPerformance =>
          p := PreviewClassPerformance(students, classes, exams, marks, values);
        case SubjectAnalysis =>
          p := Info("Subject Analysis report is not yet implemented.");
      }
      if p.Shown? {
        reportData := Some(p.data);
      }
      isLoading := false;
    }

    /** Changing the report type discards the preview. */
    method OnReportTypeChange()
      modifies this
      ensures reportData == None && isLoading == old(isLoading)
      ensures Valid()
    {
      reportData := None;
    }

    /** `handleDownloadPdf`'s file name; without a preview nothing is downloaded. */
    function DownloadName(): (r: Option<string>)
      reads this
      requires Valid()
      ensures r.None? <==> reportData.None?
      ensures reportData.Some? && reportData.value.rawValues.reportType == Marksheet ==>
        var v := reportData.value.rawValues;
        r == Some("Marksheet-" + StudentById(students, v.studentId.value).value.admissionNumber + "-"
                  + ExamById(exams, v.examId).value.name + ".pdf")
      ensures reportData.Some? && reportData.value.rawValues.reportType == ClassPerformance ==>
        var v := reportData.value.rawValues;
        r == Some("ClassPerformance-" + ClassById(classes, v.classId.value).value.name + "-"
                  + ExamById(exams, v.examId).value.name + ".pdf")
      ensures reportData.Some? ==> reportData.value.rawValues.reportType != SubjectAnalysis
    {
      match reportData
      case None => None
      case Some(d) => Some(FileName(students, classes, exams, d.title, d.rawValues))
    }
  }
}
