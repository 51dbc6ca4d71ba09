/**
 * The teacher forms' schema and the form that adds a teacher: name, staff id,
 * e-mail, optional phone and the subjects taught. The e-mail rule of the
 * schema library is a parameter of the model.
 */
module AddTeacher {

  import opened Wrappers
  import opened Forms

  datatype Values = Values(name: string, staffId: string, email: string, phone: Option<string>, subjectIds: seq<string>)

  /** The schema: a name of two or more characters, a staff id, a valid e-mail and at least one subject. */
  predicate Valid(v: Values, isEmail: string -> bool) {
    NameValid(v.name) && |v.staffId| >= 1 && isEmail(v.email) && |v.subjectIds| >= 1
  }

  /** The form opens empty with no subject, which the schema rejects whatever counts as an e-mail. */
  function DefaultValues(): (v: Values)
    ensures v.subjectIds == []
    ensures forall isEmail: string -> bool :: !Valid(v, isEmail)
  {
    Values("", "", "", Some(""), [])
  }

  function Toggle(v: Values, subjectId: string, checked: bool): (r: Values)
    ensures r == v.(subjectIds := ToggleSubject(v.subjectIds, subjectId, checked))
  {
    v.(subjectIds := ToggleSubject(v.subjectIds, subjectId, checked))
  }

  /** The values go to the server unchanged; success navigates to the admin portal. */
  function Submit(v: Values, isEmail: string -> bool, onAddTeacher: Values -> bool): (r: Submission<Values>)
    ensures r.Rejected? <==> !Valid(v, isEmail)
    ensures r.Sent? ==> r.payload == v && r.success == onAddTeacher(v)
    ensures r.Sent? ==> (r.effect == Navigate("/admin") <==> r.success)
  {
    Send(Valid(v, isEmail), v, onAddTeacher, Navigate("/admin"))
  }

  /** Checking one subject on an otherwise valid form is enough to satisfy the subject rule. */
  lemma OneSubjectSuffices(v: Values, isEmail: string -> bool, subjectId: string)
    requires NameValid(v.name) && |v.staffId| >= 1 && isEmail(v.email)
    ensures Valid(Toggle(v, subjectId, true), isEmail)
  {
  }
}
