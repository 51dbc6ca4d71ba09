/**
 * The student editing page: name, class and the subjects taken, prefilled
 * from the record. The values go to the server unchanged; success returns to
 * the students page of the current portal.
 */
module EditStudent {

  import opened Types
  import opened Forms
  import Seqs

  datatype Values = Values(name: string, classId: string, subjectIds: seq<string>)

  /** The schema: a name of two or more characters, a class and at least one subject. */
  predicate Valid(v: Values) {
    NameValid(v.name) && |v.classId| >= 1 && |v.subjectIds| >= 1
  }

  /** The defaults come from the record and the subjects the student takes. */
  function DefaultValues(student: Student, studentSubjects: seq<string>): (v: Values)
    ensures v.name == student.name && v.classId == student.classId && v.subjectIds == studentSubjects
  {
    Values(student.name, student.classId, studentSubjects)
  }

  /** Ticking or clearing a subject's check box. */
  function Toggle(v: Values, subjectId: string, checked: bool): (r: Values)
    ensures r.name == v.name && r.classId == v.classId
    ensures r.subjectIds == ToggleSubject(v.subjectIds, subjectId, checked)
  {
    v.(subjectIds := ToggleSubject(v.subjectIds, subjectId, checked))
  }

  function Submit(v: Values, pathname: string, onUpdate: Values -> bool): (r: Submission<Values>)
    ensures r.Rejected? <==> !Valid(v)
    ensures r.Sent? ==> r.payload == v && r.success == onUpdate(v)
    ensures r.Sent? && r.success ==> r.effect == Navigate(BasePath(pathname) + "/students")
    ensures r.Sent? && !r.success ==> r.effect == Stay
  {
    Send(Valid(v), v, onUpdate, Navigate(BasePath(pathname) + "/students"))
  }

  /** The untouched form is accepted exactly when the record already meets the schema. */
  lemma DefaultsValidIff(student: Student, studentSubjects: seq<string>)
    ensures Valid(DefaultValues(student, studentSubjects))
      <==> (|student.name| >= 2 && student.classId != "" && studentSubjects != [])
  {
  }

  /** Clearing the only subject makes the form invalid; checking any subject makes the subject rule hold. */
  lemma SubjectRule(v: Values, subjectId: string)
    ensures v.subjectIds == [subjectId] ==> !Valid(Toggle(v, subjectId, false))
    ensures |Toggle(v, subjectId, true).subjectIds| >= 1
  {
    if v.subjectIds == [subjectId] {
      Seqs.FilterNone(v.subjectIds, (x: string) => x != subjectId);
    }
  }
}
