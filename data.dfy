/**
 * The constant records the application ships with (users, students, teachers,
 * classes, subjects, exams, marks, invoices, attendance), and the invariants
 * they satisfy. The avatar URLs come from an image list that is not part of
 * this model; they are stood in for by fixed placeholder strings.
 */
module Fixtures {

  import opened Types
  import opened Lookup

  const users: seq<User> := [
    User("user-1", "Admin User", "admin@mirera.ac.ke", Admin, "placeholder-0"),
    User("user-2", "Dean User", "dean@mirera.ac.ke", Dean, "placeholder-1"),
    User("user-3", "Teacher User", "teacher@mirera.ac.ke", UserRole.Teacher, "placeholder-2"),
    User("user-4", "Accountant User", "accountant@mirera.ac.ke", Accountant, "placeholder-3")
  ]

  const students: seq<Student> := [
    Student("std-1", "MHS-001", "Alice Johnson", "cls-1", "John Johnson", "0712345678", "placeholder-4", "2008-05-10"),
    Student("std-2", "MHS-002", "Bob Williams", "cls-1", "Jane Williams", "0723456789", "placeholder-5", "2008-03-15"),
    Student("std-3", "MHS-003", "Charlie Brown", "cls-2", "Chris Brown", "0734567890", "placeholder-6", "2007-11-20"),
    Student("std-4", "MHS-004", "Diana Miller", "cls-3", "David Miller", "0745678901", "placeholder-7", "2009-01-30"),
    Student("std-5", "MHS-005", "Ethan Davis", "cls-2", "Emily Davis", "0756789012", "placeholder-8", "2007-09-05")
  ]

  const teachers: seq<Teacher> := [
    Teacher.Teacher("tch-1", "TS-01", "Mr. Peter Jones", ["sub-1", "sub-2"], "peter.jones@mirera.ac.ke", "0701234567", "placeholder-9"),
    Teacher.Teacher("tch-2", "TS-02", "Ms. Susan White", ["sub-3", "sub-4"], "susan.white@mirera.ac.ke", "0702345678", "placeholder-10"),
    Teacher.Teacher("tch-3", "TS-03", "Mr. Ken Omondi", ["sub-5", "sub-6"], "ken.omondi@mirera.ac.ke", "0703456789", "placeholder-11")
  ]

  const classes: seq<Class> := [
    Class("cls-1", "Form 1", "A", "tch-1"),
    Class("cls-2", "Form 2", "B", "tch-2"),
    Class("cls-3", "Form 3", "C", "tch-3")
  ]

  const subjects: seq<Subject> := [
    Subject("sub-1", "Mathematics", "121"),
    Subject("sub-2", "English", "101"),
    Subject("sub-3", "Kiswahili", "102"),
    Subject("sub-4", "Physics", "232"),
    Subject("sub-5", "Chemistry", "233"),
    Subject("sub-6", "Biology", "231"),
    Subject("sub-7", "History", "311")
  ]

  const exams: seq<Exam> := [
    Exam("exam-1", "Term 1 Opener", "1", 2024),
    Exam("exam-2", "Term 1 Mid-Term", "1", 2024),
    Exam("exam-3", "Term 1 End-Term", "1", 2024)
  ]

  const marks: seq<Mark> := [
    Mark("std-1", "sub-1", "exam-1", 78.0),
    Mark("std-1", "sub-2", "exam-1", 82.0),
    Mark("std-1", "sub-3", "exam-1", 75.0),
    Mark("std-2", "sub-1", "exam-1", 65.0),
    Mark("std-2", "sub-2", "exam-1", 71.0),
    Mark("std-2", "sub-3", "exam-1", 68.0)
  ]

  const fees: seq<Fee> := [
    Fee("inv-001", "std-1", 50000.0, "2024-09-01", 50000.0, 0.0, Paid),
    Fee("inv-002", "std-2", 50000.0, "2024-09-01", 25000.0, 25000.0, Partial),
    Fee("inv-003", "std-3", 52000.0, "2024-09-01", 0.0, 52000.0, Unpaid),
    Fee("inv-004", "std-4", 48000.0, "2024-09-01", 48000.0, 0.0, Paid)
  ]

  const attendance: seq<Attendance> := [
    Attendance("std-1", "2024-07-28", Present),
    Attendance("std-2", "2024-07-28", Absent),
    Attendance("std-1", "2024-07-29", Present),
    Attendance("std-2", "2024-07-29", Present)
  ]

  /** Every shipped invoice keeps balance = amount - paid, 0 <= paid <= amount, and a matching status. */
  lemma FeesConsistent()
    ensures forall i :: 0 <= i < |fees| ==> FeeConsistent(fees[i])
  {
    forall i | 0 <= i < |fees| ensures FeeConsistent(fees[i]) {
      assert i == 0 || i == 1 || i == 2 || i == 3;
    }
  }

  /** Every shipped score lies in 0..100 and no (student, subject, exam) triple occurs twice. */
  lemma MarksWellFormed()
    ensures forall i :: 0 <= i < |marks| ==> 0.0 <= marks[i].score <= 100.0
    ensures forall i, j :: 0 <= i < j < |marks| ==>
      (marks[i].studentId, marks[i].subjectId, marks[i].examId) != (marks[j].studentId, marks[j].subjectId, marks[j].examId)
  {
  }

  /** Every student's class exists and every invoice's student exists. */
  lemma ReferencesResolve()
    ensures forall i :: 0 <= i < |students| ==> ClassById(classes, students[i].classId).Some?
    ensures forall i :: 0 <= i < |fees| ==> StudentById(students, fees[i].studentId).Some?
  {
    forall i | 0 <= i < |students| ensures ClassById(classes, students[i].classId).Some? {
      assert students[i].classId in {"cls-1", "cls-2", "cls-3"};
    }
    forall i | 0 <= i < |fees| ensures StudentById(students, fees[i].studentId).Some? {
      assert fees[i].studentId == students[i].id;
    }
  }

  /** Each role has exactly one user, so the lookup of a user by role is unambiguous. */
  lemma RolesUnique()
    ensures forall r: UserRole :: UserByRole(users, r).Some?
    ensures forall i, j :: 0 <= i < j < |users| ==> users[i].role != users[j].role
  {
    assert users[0].role == Admin && users[1].role == Dean;
    assert users[2].role == UserRole.Teacher && users[3].role == Accountant;
  }

  /** Admission numbers are pairwise distinct. */
  lemma AdmissionNumbersDistinct()
    ensures forall i, j :: 0 <= i < j < |students| ==> students[i].admissionNumber != students[j].admissionNumber
  {
  }
}
