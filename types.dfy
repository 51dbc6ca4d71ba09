/**
 * The records of the school dashboard: users and their roles, students,
 * teachers, classes, subjects, exams, marks, fee invoices, attendance entries
 * and payments, as the document store hands them to the pages.
 * JavaScript `number` fields that take part in arithmetic are `real`.
 */
module Types {

  import opened Wrappers

  /** The four portals of the application. */
  datatype UserRole = Admin | Dean | Teacher | Accountant

  /** The string spelling of a role, as stored on a user record. */
  function RoleName(r: UserRole): string {
    match r
    case Admin => "Admin"
    case Dean => "Dean"
    case Teacher => "Teacher"
    case Accountant => "Accountant"
  }

  /** Reads a stored role string; anything but the four spellings is not a role. */
  function ParseRole(s: string): Option<UserRole> {
    if s == "Admin" then Some(Admin)
    else if s == "Dean" then Some(Dean)
    else if s == "Teacher" then Some(UserRole.Teacher)
    else if s == "Accountant" then Some(Accountant)
    else None
  }

  /** A role string is valid exactly when it spells one of the four roles, each in one way. */
  lemma RoleNamesExact(s: string, r: UserRole)
    ensures ParseRole(s) == Some(r) <==> RoleName(r) == s
  {
  }

  datatype User = User(id: string, name: string, email: string, role: UserRole, avatarUrl: string)

  datatype Student = Student(
    id: string,
    admissionNumber: string,
    name: string,
    classId: string,
    guardianName: string,
    guardianPhone: string,
    avatarUrl: string,
    dateOfBirth: string)

  datatype Teacher = Teacher(
    id: string,
    staffId: string,
    name: string,
    subjectIds: seq<string>,
    email: string,
    phone: string,
    avatarUrl: string)

  datatype Class = Class(id: string, name: string, stream: string, classTeacherId: string)

  datatype Subject = Subject(id: string, name: string, code: string)

  datatype Exam = Exam(id: string, name: string, term: string, year: int)

  /** A score entry: identified only by its (student, subject, exam) triple. */
  datatype Mark = Mark(studentId: string, subjectId: string, examId: string, score: real)

  /** The status recorded on an invoice. */
  datatype FeeStatus = Paid | Partial | Unpaid

  function StatusName(s: FeeStatus): string {
    match s
    case Paid => "Paid"
    case Partial => "Partial"
    case Unpaid => "Unpaid"
  }

  function ParseStatus(s: string): Option<FeeStatus> {
    if s == "Paid" then Some(Paid)
    else if s == "Partial" then Some(Partial)
    else if s == "Unpaid" then Some(Unpaid)
    else None
  }

  /** An invoice status string is exactly one of the three spellings. */
  lemma StatusNamesExact(s: string, st: FeeStatus)
    ensures ParseStatus(s) == Some(st) <==> StatusName(st) == s
  {
  }

  /** An invoice keeps the billed amount, the amount paid and the balance side by side. */
  datatype Fee = Fee(
    invoiceId: string,
    studentId: string,
    amount: real,
    dueDate: string,
    paidAmount: real,
    balance: real,
    status: FeeStatus)

  datatype AttendanceStatus = Present | Absent | Late

  function AttendanceName(s: AttendanceStatus): string {
    match s
    case Present => "Present"
    case Absent => "Absent"
    case Late => "Late"
  }

  function ParseAttendance(s: string): Option<AttendanceStatus> {
    if s == "Present" then Some(Present)
    else if s == "Absent" then Some(Absent)
    else if s == "Late" then Some(Late)
    else None
  }

  /** An attendance status string is exactly one of the three spellings. */
  lemma AttendanceNamesExact(s: string, st: AttendanceStatus)
    ensures ParseAttendance(s) == Some(st) <==> AttendanceName(st) == s
  {
  }

  datatype Attendance = Attendance(studentId: string, date: string, status: AttendanceStatus)

  /** A payment names both the student and the invoice it was made against. */
  datatype Payment = Payment(paymentId: string, studentId: string, invoiceId: string, amount: real, date: string)

  /** The ledger rule for one invoice: what is owed is what was billed less what was paid. */
  predicate BalanceConsistent(f: Fee) {
    f.balance == f.amount - f.paidAmount && 0.0 <= f.paidAmount <= f.amount
  }

  /**
   * The status agrees with the amounts: Paid when nothing is owed, Partial when
   * something but not everything was paid, Unpaid when nothing was paid and
   * something is owed.
   */
  predicate StatusAgrees(f: Fee) {
    && (f.status == Paid <==> f.balance == 0.0)
    && (f.status == Partial <==> 0.0 < f.paidAmount < f.amount)
    && (f.status == Unpaid <==> f.paidAmount == 0.0 && f.balance != 0.0)
  }

  predicate FeeConsistent(f: Fee) {
    BalanceConsistent(f) && StatusAgrees(f)
  }

  /**
   * On a balance-consistent invoice the amounts leave exactly one status that agrees
   * with them, so the recorded status carries no information of its own.
   */
  lemma StatusDeterminedByAmounts(f: Fee)
    requires BalanceConsistent(f)
    ensures exists st :: StatusAgrees(f.(status := st))
    ensures forall st1, st2 :: StatusAgrees(f.(status := st1)) && StatusAgrees(f.(status := st2)) ==> st1 == st2
  {
    if f.balance == 0.0 {
      assert StatusAgrees(f.(status := Paid));
    } else if f.paidAmount == 0.0 {
      assert StatusAgrees(f.(status := Unpaid));
    } else {
      assert StatusAgrees(f.(status := Partial));
    }
  }
}

/**
 * `array.find(pred)` and the id lookups built on it: the first element that
 * satisfies the predicate, or nothing.
 */
module Lookup {

  import opened Wrappers
  import opened Types
  import Strings

  /** The index of the first element satisfying `p`, or `|s|` when there is none. */
  function FirstIndex<T>(s: seq<T>, p: T -> bool): (k: nat)
    ensures k <= |s|
    ensures forall j :: 0 <= j < k ==> !p(s[j])
    ensures k < |s| ==> p(s[k])
  {
    if s == [] then 0
    else if p(s[0]) then 0
    else 1 + FirstIndex(s[1..], p)
  }

  /** `s.find(p)`. */
  function Find<T>(s: seq<T>, p: T -> bool): (r: Option<T>)
    ensures r.None? <==> forall j :: 0 <= j < |s| ==> !p(s[j])
    ensures r.Some? ==> r.value == s[FirstIndex(s, p)]
  {
    var k := FirstIndex(s, p);
    if k < |s| then Some(s[k]) else None
  }

  function StudentById(students: seq<Student>, id: string): (r: Option<Student>)
    ensures r.Some? ==> r.value in students && r.value.id == id
    ensures r.None? <==> forall j :: 0 <= j < |students| ==> students[j].id != id
  {
    Find(students, (s: Student) => s.id == id)
  }

  function ClassById(classes: seq<Class>, id: string): (r: Option<Class>)
    ensures r.Some? ==> r.value in classes && r.value.id == id
    ensures r.None? <==> forall j :: 0 <= j < |classes| ==> classes[j].id != id
  {
    Find(classes, (c: Class) => c.id == id)
  }

  function SubjectById(subjects: seq<Subject>, id: string): (r: Option<Subject>)
    ensures r.Some? ==> r.value in subjects && r.value.id == id
    ensures r.None? <==> forall j :: 0 <= j < |subjects| ==> subjects[j].id != id
  {
    Find(subjects, (s: Subject) => s.id == id)
  }

  function ExamById(exams: seq<Exam>, id: string): (r: Option<Exam>)
    ensures r.Some? ==> r.value in exams && r.value.id == id
    ensures r.None? <==> forall j :: 0 <= j < |exams| ==> exams[j].id != id
  {
    Find(exams, (e: Exam) => e.id == id)
  }

  function UserByRole(users: seq<User>, role: UserRole): (r: Option<User>)
    ensures r.Some? ==> r.value in users && r.value.role == role
    ensures r.None? <==> forall j :: 0 <= j < |users| ==> users[j].role != role
  {
    Find(users, (u: User) => u.role == role)
  }

  /** When exactly one element has the id, the lookup returns that element. */
  lemma StudentByUniqueId(students: seq<Student>, i: nat)
    requires i < |students|
    requires forall j :: 0 <= j < |students| && j != i ==> students[j].id != students[i].id
    ensures StudentById(students, students[i].id) == Some(students[i])
  {
    var p := (s: Student) => s.id == students[i].id;
    var k := FirstIndex(students, p);
    assert p(students[i]);
    assert k == i;
  }

  // Name lookups as the tables render them: the found record's name, or 'N/A'
  // when there is no such record or its name is empty (`?.name || 'N/A'`).


  function SubjectName(subjects: seq<Subject>, id: string): (r: string)
    ensures (forall j :: 0 <= j < |subjects| ==> subjects[j].id != id) ==> r == "N/A"
    ensures r != "N/A" ==> SubjectById(subjects, id).Some? && r == SubjectById(subjects, id).value.name
    ensures SubjectById(subjects, id).Some? && SubjectById(subjects, id).value.name != "" ==> r == SubjectById(subjects, id).value.name
    ensures SubjectById(subjects, id).Some? && SubjectById(subjects, id).value.name == "" ==> r == "N/A"
  {
    match SubjectById(subjects, id)
    case Some(s) => OrElse(s.name, "N/A")
    case None => "N/A"
  }

  function ClassName(classes: seq<Class>, id: string): (r: string)
    ensures (forall j :: 0 <= j < |classes| ==> classes[j].id != id) ==> r == "N/A"
    ensures r != "N/A" ==> ClassById(classes, id).Some? && r == ClassById(classes, id).value.name
    ensures ClassById(classes, id).Some? && ClassById(classes, id).value.name != "" ==> r == ClassById(classes, id).value.name
    ensures ClassById(classes, id).Some? && ClassById(classes, id).value.name == "" ==> r == "N/A"
  {
    match ClassById(classes, id)
    case Some(c) => OrElse(c.name, "N/A")
    case None => "N/A"
  }

  function StudentName(students: seq<Student>, id: string): (r: string)
    ensures (forall j :: 0 <= j < |students| ==> students[j].id != id) ==> r == "N/A"
    ensures r != "N/A" ==> StudentById(students, id).Some? && r == StudentById(students, id).value.name
    ensures StudentById(students, id).Some? && StudentById(students, id).value.name != "" ==> r == StudentById(students, id).value.name
    ensures StudentById(students, id).Some? && StudentById(students, id).value.name == "" ==> r == "N/A"
  {
    match StudentById(students, id)
    case Some(s) => OrElse(s.name, "N/A")
    case None => "N/A"
  }

  /** JavaScript's `s || fallback`: the fallback replaces only the empty string. */
  function OrElse(s: string, fallback: string): (r: string)
    ensures s != [] ==> r == s
    ensures s == [] ==> r == fallback
  {
    if s == [] then fallback else s
  }

  /**
   * The class label of the roster and balance tables: `${name} ${stream || ''}`
   * trimmed when the class is found, the fallback otherwise.
   */
  function ClassLabel(classes: seq<Class>, id: string, fallback: string): (r: string)
    ensures ClassById(classes, id).None? ==> r == fallback
    ensures ClassById(classes, id).Some? ==>
      var c := ClassById(classes, id).value;
      r == Strings.Trim(c.name + " " + OrElse(c.stream, ""))
  {
    match ClassById(classes, id)
    case None => fallback
    case Some(c) => Strings.Trim(c.name + " " + OrElse(c.stream, ""))
  }

  /** A found class without a stream is labelled by its name alone: `"Form 1 "` trims to `"Form 1"`. */
  lemma ClassLabelWithoutStream(classes: seq<Class>, id: string, fallback: string)
    requires ClassById(classes, id).Some?
    requires var c := ClassById(classes, id).value;
      c.stream == "" && c.name != [] && !Strings.IsWhitespace(c.name[0]) && !Strings.IsWhitespace(c.name[|c.name| - 1])
    ensures ClassLabel(classes, id, fallback) == ClassById(classes, id).value.name
  {
    var c := ClassById(classes, id).value;
    assert c.name + " " + OrElse(c.stream, "") == c.name + " ";
    Strings.TrimTrailingSpace(c.name);
  }

  /**
   * A found class whose name and stream start and end with visible characters is
   * labelled `name stream`, with exactly one space between them.
   */
  lemma ClassLabelOfVisible(classes: seq<Class>, id: string, fallback: string)
    requires ClassById(classes, id).Some?
    requires var c := ClassById(classes, id).value;
      c.name != [] && !Strings.IsWhitespace(c.name[0]) &&
      c.stream != [] && !Strings.IsWhitespace(c.stream[|c.stream| - 1])
    ensures var c := ClassById(classes, id).value;
      ClassLabel(classes, id, fallback) == c.name + " " + c.stream
  {
    var c := ClassById(classes, id).value;
    var s := c.name + " " + c.stream;
    assert s[0] == c.name[0];
    assert s[|s| - 1] == c.stream[|c.stream| - 1];
    Strings.TrimVisible(s);
  }
}
