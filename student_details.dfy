/**
 * The student details dialog: name, class, subjects, date of birth and the
 * guardian fields, prefilled from the record. The payload carries the date of
 * birth written as `yyyy-MM-dd`; success closes the dialog.
 *
 * The record stores the date of birth as a `yyyy-MM-dd` string. The dialog
 * prefills the picker with `new Date(student.dateOfBirth)`, which reads such a
 * string as midnight UTC, while `format` writes the local calendar date. In a
 * time zone behind UTC that is the previous day, so saving the dialog without
 * touching the date moves the birthday back one day. `AsWrittenDefaultDate`
 * models that reading; `DefaultValues` reads the stored string as the local
 * calendar date it denotes, which is what the round trip needs.
 */
module StudentDetails {

  import opened Wrappers
  import opened Types
  import opened Dates
  import opened Forms

  datatype Values = Values(
    name: string,
    classId: string,
    subjectIds: seq<string>,
    dateOfBirth: Option<Date>,
    guardianName: string,
    guardianPhone: string)

  /** The schema: a name of two or more characters, a class, at least one subject and a date of birth. */
  predicate Valid(v: Values) {
    NameValid(v.name) && |v.classId| >= 1 && |v.subjectIds| >= 1 && v.dateOfBirth.Some?
  }

  /** What the server receives: the values, with the date of birth as a string. */
  datatype Payload = Payload(
    name: string,
    classId: string,
    subjectIds: seq<string>,
    dateOfBirth: string,
    guardianName: string,
    guardianPhone: string)

  function PayloadOf(v: Values): (p: Payload)
    requires v.dateOfBirth.Some?
    ensures p.name == v.name && p.classId == v.classId && p.subjectIds == v.subjectIds
    ensures p.guardianName == v.guardianName && p.guardianPhone == v.guardianPhone
    ensures p.dateOfBirth == FormatYmd(v.dateOfBirth.value)
  {
    Payload(v.name, v.classId, v.subjectIds, FormatYmd(v.dateOfBirth.value), v.guardianName, v.guardianPhone)
  }

  /** Ticking or clearing a subject's check box. */
  function Toggle(v: Values, subjectId: string, checked: bool): (r: Values)
    ensures r == v.(subjectIds := ToggleSubject(v.subjectIds, subjectId, checked))
  {
    v.(subjectIds := ToggleSubject(v.subjectIds, subjectId, checked))
  }

  /** `onSubmit`, reached through the schema; success closes the dialog, failure leaves it open. */
  function Submit(v: Values, onUpdate: Payload -> bool): (r: Submission<Payload>)
    ensures r.Rejected? <==> !Valid(v)
    ensures r.Sent? ==> r.payload == PayloadOf(v) && r.success == onUpdate(PayloadOf(v))
    ensures r.Sent? ==> (r.effect == CloseModal <==> r.success)
  {
    if !Valid(v) then Rejected
    else Send(true, PayloadOf(v), onUpdate, CloseModal)
  }

  // ---------------------------------------------------------------------------
  // The prefilled date of birth

  /**
   * The local calendar date of midnight UTC on `d`, for a time zone `offset`
   * minutes ahead of UTC (negative behind it): the previous day behind UTC,
   * the same day otherwise.
   */
  function LocalDateOfUtcMidnight(d: Date, offset: int): (r: Date)
    requires ValidDate(d) && (d.year > 0 || d.month > 1 || d.day > 1)
    requires -1440 < offset < 1440
    ensures ValidDate(r)
    ensures offset >= 0 ==> r == d
    ensures offset < 0 ==> r == DayBefore(d)
  {
    if offset < 0 then DayBefore(d) else d
  }

  /** `new Date(student.dateOfBirth)` as the picker then shows it, with the time zone as a parameter. */
  function AsWrittenDefaultDate(stored: string, offset: int): (r: Option<Date>)
    requires -1440 < offset < 1440
    ensures ParseYmd(stored).None? ==> r.None?
    ensures r.Some? ==> ValidDate(r.value)
    ensures ParseYmd(stored).Some? && offset >= 0 ==> r == ParseYmd(stored)
    ensures ParseYmd(stored).Some? && ParseYmd(stored).value != Date(0, 1, 1) ==>
      var d := ParseYmd(stored).value;
      && (offset >= 0 ==> r == Some(d))
      && (offset < 0 ==> r == Some(DayBefore(d)))
  {
    match ParseYmd(stored)
    case None => None
    case Some(d) =>
      if offset >= 0 then Some(d)
      // behind UTC, 0000-01-01 would open in year -1, which no `Date` here holds
      else if d.year > 0 || d.month > 1 || d.day > 1 then Some(LocalDateOfUtcMidnight(d, offset))
      else None
  }

  /**
   * Behind UTC, saving the untouched dialog sends a different date of birth
   * from the stored one: the previous day.
   */
  lemma AsWrittenShiftsBirthday(d: Date, offset: int)
    requires ValidDate(d) && d.year > 0
    requires -1440 < offset < 0
    ensures AsWrittenDefaultDate(FormatYmd(d), offset) == Some(DayBefore(d))
    ensures FormatYmd(AsWrittenDefaultDate(FormatYmd(d), offset).value) != FormatYmd(d)
  {
    ParseFormat(d);
    FormatInjective(DayBefore(d), d);
  }

  /** The date of birth of the first shipped student, read in a zone five hours behind UTC, is 9 May. */
  lemma AsWrittenExample()
    ensures AsWrittenDefaultDate(FormatYmd(Date(2008, 5, 10)), -300) == Some(Date(2008, 5, 9))
  {
    AsWrittenShiftsBirthday(Date(2008, 5, 10), -300);
  }

  /** The defaults: the record's fields, the subjects taken, and the stored date read as a local date. */
  function DefaultValues(student: Student, studentSubjects: seq<string>): (v: Values)
    ensures v.name == student.name && v.classId == student.classId && v.subjectIds == studentSubjects
    ensures v.guardianName == student.guardianName && v.guardianPhone == student.guardianPhone
    ensures v.dateOfBirth == ParseYmd(student.dateOfBirth)
  {
    Values(student.name, student.classId, studentSubjects, ParseYmd(student.dateOfBirth),
      student.guardianName, student.guardianPhone)
  }

  /** Saving the untouched dialog sends back exactly the stored date of birth, in every time zone. */
  lemma DefaultsKeepBirthday(student: Student, studentSubjects: seq<string>, d: Date)
    requires ValidDate(d) && student.dateOfBirth == FormatYmd(d)
    ensures DefaultValues(student, studentSubjects).dateOfBirth == Some(d)
    ensures PayloadOf(DefaultValues(student, studentSubjects)).dateOfBirth == student.dateOfBirth
  {
    ParseFormat(d);
  }
}
