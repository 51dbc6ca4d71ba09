/**
 * The attendance register: one entry per student for the chosen date, each
 * 'Present' unless a status was already recorded for that student on that
 * date. Saving sends every entry with the date written as `yyyy-MM-dd`.
 */
module AttendanceRegister {

  import opened Wrappers
  import opened Types
  import opened Lookup
  import opened Dates
  import opened Forms

  /** One row of the register. */
  datatype Entry = Entry(studentId: string, status: AttendanceStatus)

  /** Every student present, in student order. */
  function AllPresent(students: seq<Student>): (r: seq<Entry>)
    ensures |r| == |students|
    ensures forall i :: 0 <= i < |r| ==> r[i] == Entry(students[i].id, Present)
  {
    seq(|students|, i requires 0 <= i < |students| => Entry(students[i].id, Present))
  }

  /** `attendance.find(a => a.studentId === id && a.date === dateString)`. */
  function Recorded(records: seq<Attendance>, studentId: string, dateString: string): (r: Option<Attendance>)
    ensures r.Some? ==> r.value in records && r.value.studentId == studentId && r.value.date == dateString
    ensures r.None? <==> forall j :: 0 <= j < |records| ==> !(records[j].studentId == studentId && records[j].date == dateString)
    ensures r.Some? ==> exists j :: FirstRecordAt(records, studentId, dateString, j) && r.value == records[j]
  {
    var p := (a: Attendance) => a.studentId == studentId && a.date == dateString;
    var k := FirstIndex(records, p);
    assert k < |records| ==> FirstRecordAt(records, studentId, dateString, k);
    Find(records, p)
  }

  /** Record `j` is the first one for this student and date. */
  predicate FirstRecordAt(records: seq<Attendance>, studentId: string, dateString: string, j: int) {
    && 0 <= j < |records| && records[j].studentId == studentId && records[j].date == dateString
    && forall k :: 0 <= k < j ==> !(records[k].studentId == studentId && records[k].date == dateString)
  }

  /** The status shown for a student on a date: the first recorded one, else 'Present'. */
  function StatusOn(records: seq<Attendance>, studentId: string, dateString: string): (st: AttendanceStatus)
    ensures Recorded(records, studentId, dateString).None? ==> st == Present
    ensures Recorded(records, studentId, dateString).Some? ==> st == Recorded(records, studentId, dateString).value.status
  {
    match Recorded(records, studentId, dateString)
    case None => Present
    case Some(a) => a.status
  }

  /** `newAttendance`: one entry per student, in student order. */
  function EntriesOn(students: seq<Student>, records: seq<Attendance>, dateString: string): (r: seq<Entry>)
    ensures |r| == |students|
    ensures forall i :: 0 <= i < |r| ==> r[i] == Entry(students[i].id, StatusOn(records, students[i].id, dateString))
  {
    seq(|students|, i requires 0 <= i < |students| => Entry(students[i].id, StatusOn(records, students[i].id, dateString)))
  }

  /** The submitted records: the entries, same count and order, each with the date string. */
  function Payload(entries: seq<Entry>, date: Date): (r: seq<Attendance>)
    ensures |r| == |entries|
    ensures forall i :: 0 <= i < |r| ==>
      r[i].studentId == entries[i].studentId && r[i].status == entries[i].status && r[i].date == FormatYmd(date)
  {
    seq(|entries|, i requires 0 <= i < |entries| => Attendance(entries[i].studentId, FormatYmd(date), entries[i].status))
  }

  /** On a day without records everyone is present. */
  lemma UnrecordedDayAllPresent(students: seq<Student>, records: seq<Attendance>, d: Date)
    requires forall j :: 0 <= j < |records| ==> records[j].date != FormatYmd(d)
    ensures EntriesOn(students, records, FormatYmd(d)) == AllPresent(students)
  {
  }

  /**
   * Records of any other valid date play no part: since the date string is
   * injective, only records of the chosen day are consulted.
   */
  lemma OtherDaysIgnored(records: seq<Attendance>, a: Attendance, d: Date, other: Date, studentId: string)
    requires ValidDate(d) && ValidDate(other) && other != d
    requires a.date == FormatYmd(other)
    ensures StatusOn(records + [a], studentId, FormatYmd(d)) == StatusOn(records, studentId, FormatYmd(d))
  {
    FormatInjective(d, other);
    var p := (x: Attendance) => x.studentId == studentId && x.date == FormatYmd(d);
    var s := records + [a];
    var k := FirstIndex(records, p);
    var k' := FirstIndex(s, p);
    assert forall j :: 0 <= j < |records| ==> s[j] == records[j];
    if k < |records| {
      assert p(s[k]);
      assert k' == k;
    } else {
      assert !p(s[|records|]);
      assert k' == |s|;
    }
  }

  /** The register over fixed props: the picked date and the entries shown for it. */
  class AttendanceForm {
    const students: seq<Student>
    const records: seq<Attendance>
    var date: Date
    var entries: seq<Entry>

    /** Before the mount effect runs: the epoch as the date and everyone present. */
    constructor(students: seq<Student>, records: seq<Attendance>)
      ensures this.students == students && this.records == records
      ensures date == Date(1970, 1, 1) && entries == AllPresent(students)
    {
      this.students := students;
      this.records := records;
      date := Date(1970, 1, 1);
      entries := AllPresent(students);
    }

    /** `handleDateChange`: no date changes nothing; a date reloads the entries for that day. */
    method HandleDateChange(d: Option<Date>)
      modifies this
      ensures d.None? ==> date == old(date) && entries == old(entries)
      ensures d.Some? ==> date == d.value && entries == EntriesOn(students, records, FormatYmd(d.value))
    {
      if d.None? {
        return;
      }
      date := d.value;
      var dateString := FormatYmd(d.value);
      entries := EntriesOn(students, records, dateString);
    }

    /** A status picked with the radio buttons replaces that row's status only. */
    method SetStatus(i: nat, st: AttendanceStatus)
      requires i < |entries|
      modifies this
      ensures entries == old(entries)[i := old(entries)[i].(status := st)] && date == old(date)
    {
      entries := entries[i := entries[i].(status := st)];
    }

    /** `onSubmit`: every entry is sent with the date string; the form stays as it is. */
    function Submit(onSaveAttendance: seq<Attendance> -> bool): (r: Submission<seq<Attendance>>)
      reads this
      ensures r.Sent? && r.payload == Payload(entries, date) && r.success == onSaveAttendance(Payload(entries, date))
      ensures r.effect == Stay
    {
      Send(true, Payload(entries, date), onSaveAttendance, Stay)
    }
  }

  /**
   * Saving the register right after picking a date sends, for each student with
   * a record on that day, exactly that (first) record again.
   */
  lemma ResaveReproducesRecords(students: seq<Student>, records: seq<Attendance>, d: Date, i: nat)
    requires i < |students|
    requires Recorded(records, students[i].id, FormatYmd(d)).Some?
    ensures Payload(EntriesOn(students, records, FormatYmd(d)), d)[i] == Recorded(records, students[i].id, FormatYmd(d)).value
  {
  }
}
