/**
 * The enrolment form: name, admission number, date of birth, class and the
 * optional guardian fields. The payload is the values with the date of birth
 * written as `yyyy-MM-dd`; success goes to the students page of the portal
 * the form was opened from.
 */
module AddStudent {

  import opened Wrappers
  import opened Dates
  import opened Forms

  datatype Values = Values(
    name: string,
    admissionNumber: string,
    dateOfBirth: Option<Date>,
    classId: string,
    guardianName: Option<string>,
    guardianPhone: Option<string>)

  /** The schema: a name of two or more characters, an admission number, a date of birth and a class. */
  predicate Valid(v: Values) {
    NameValid(v.name) && |v.admissionNumber| >= 1 && v.dateOfBirth.Some? && |v.classId| >= 1
  }

  /** The form opens empty with no date of birth, which the schema rejects. */
  function DefaultValues(): (v: Values)
    ensures !Valid(v)
  {
    Values("", "", None, "", Some(""), Some(""))
  }

  /** What the server receives. */
  datatype Payload = Payload(
    name: string,
    admissionNumber: string,
    dateOfBirth: string,
    classId: string,
    guardianName: Option<string>,
    guardianPhone: Option<string>)

  function PayloadOf(v: Values): (p: Payload)
    requires v.dateOfBirth.Some?
    ensures p.name == v.name && p.admissionNumber == v.admissionNumber && p.classId == v.classId
    ensures p.guardianName == v.guardianName && p.guardianPhone == v.guardianPhone
    ensures p.dateOfBirth == FormatYmd(v.dateOfBirth.value)
  {
    Payload(v.name, v.admissionNumber, FormatYmd(v.dateOfBirth.value), v.classId, v.guardianName, v.guardianPhone)
  }

  /** `onSubmit`, reached through the schema; success navigates to `<basePath>/students`. */
  function Submit(v: Values, pathname: string, onAddStudent: Payload -> bool): (r: Submission<Payload>)
    ensures r.Rejected? <==> !Valid(v)
    ensures r.Sent? ==> r.payload == PayloadOf(v) && r.success == onAddStudent(PayloadOf(v))
    ensures r.Sent? && r.success ==> r.effect == Navigate(BasePath(pathname) + "/students")
    ensures r.Sent? && !r.success ==> r.effect == Stay
  {
    if !Valid(v) then Rejected
    else Send(true, PayloadOf(v), onAddStudent, Navigate(BasePath(pathname) + "/students"))
  }

  /** The stored date of birth reads back as the date that was picked. */
  lemma PayloadDateRoundTrip(v: Values)
    requires v.dateOfBirth.Some? && ValidDate(v.dateOfBirth.value)
    ensures ParseYmd(PayloadOf(v).dateOfBirth) == v.dateOfBirth
  {
    ParseFormat(v.dateOfBirth.value);
  }
}
