/**
 * The teacher editing form: the same schema as the form that adds a teacher,
 * prefilled field by field from the record.
 */
module EditTeacher {

  import opened Wrappers
  import opened Types
  import opened Forms
  import AddTeacher

  /** The defaults copy the teacher's fields. */
  function DefaultValues(t: Teacher): (v: AddTeacher.Values)
    ensures v.name == t.name && v.staffId == t.staffId && v.email == t.email
    ensures v.phone == Some(t.phone) && v.subjectIds == t.subjectIds
  {
    AddTeacher.Values(t.name, t.staffId, t.email, Some(t.phone), t.subjectIds)
  }

  /** The values go to the server unchanged; success navigates to the admin portal. */
  function Submit(v: AddTeacher.Values, isEmail: string -> bool, onUpdate: AddTeacher.Values -> bool): (r: Submission<AddTeacher.Values>)
    ensures r.Rejected? <==> !AddTeacher.Valid(v, isEmail)
    ensures r.Sent? ==> r.payload == v && r.success == onUpdate(v)
    ensures r.Sent? ==> (r.effect == Navigate("/admin") <==> r.success)
  {
    Send(AddTeacher.Valid(v, isEmail), v, onUpdate, Navigate("/admin"))
  }

  /** The untouched form is accepted exactly when the record meets the schema. */
  lemma DefaultsValidIff(t: Teacher, isEmail: string -> bool)
    ensures AddTeacher.Valid(DefaultValues(t), isEmail)
      <==> (|t.name| >= 2 && t.staffId != "" && isEmail(t.email) && t.subjectIds != [])
  {
  }
}
