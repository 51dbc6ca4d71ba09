/**
 * The outstanding-balances table: every student's balance over all of their
 * invoices (total billed less total paid), only students who still owe
 * something, and a search over name and admission number.
 */
module FeeBalances {

  import opened Types
  import opened Lookup
  import Seqs
  import Strings

  /** `fees.filter(f => f.studentId === id)`. */
  function StudentFees(fees: seq<Fee>, studentId: string): (r: seq<Fee>)
    ensures forall f :: f in r <==> f in fees && f.studentId == studentId
    ensures forall i :: 0 <= i < |r| ==> r[i].studentId == studentId
    ensures forall f :: multiset(r)[f] == if f.studentId == studentId then multiset(fees)[f] else 0
    ensures Seqs.SubseqOf(r, fees)
  {
    var p := (f: Fee) => f.studentId == studentId;
    Seqs.FilterProperties(fees, p);
    Seqs.Filter(fees, p)
  }

  function AmountOf(f: Fee): real {
    f.amount
  }

  function PaidOf(f: Fee): real {
    f.paidAmount
  }

  function RecordedBalanceOf(f: Fee): real {
    f.balance
  }

  /** Total billed less total paid over the student's invoices. */
  function BalanceOf(fees: seq<Fee>, studentId: string): real {
    var sf := StudentFees(fees, studentId);
    Seqs.SumOf(sf, AmountOf) - Seqs.SumOf(sf, PaidOf)
  }

  /** A listed student: the student record, the balance and the class label. */
  datatype StudentBalance = StudentBalance(student: Student, balance: real, className: string)

  function EntryOf(fees: seq<Fee>, classes: seq<Class>, s: Student): StudentBalance {
    StudentBalance(s, BalanceOf(fees, s.id), ClassLabel(classes, s.classId, "N/A"))
  }

  /** `students.map(...)`: one entry per student, before the balance filter. */
  function AllBalances(students: seq<Student>, fees: seq<Fee>, classes: seq<Class>): (r: seq<StudentBalance>)
    ensures |r| == |students|
    ensures forall i :: 0 <= i < |r| ==> r[i] == EntryOf(fees, classes, students[i])
  {
    seq(|students|, i requires 0 <= i < |students| => EntryOf(fees, classes, students[i]))
  }

  predicate Owes(b: StudentBalance) {
    b.balance > 0.0
  }

  /** `studentBalances`: the entries with a positive balance, in student order. */
  function StudentBalances(students: seq<Student>, fees: seq<Fee>, classes: seq<Class>): (r: seq<StudentBalance>)
    ensures forall b :: b in r <==> b in AllBalances(students, fees, classes) && b.balance > 0.0
    ensures Seqs.SubseqOf(r, AllBalances(students, fees, classes))
    ensures forall b :: multiset(r)[b] == if b.balance > 0.0 then multiset(AllBalances(students, fees, classes))[b] else 0
  {
    var all := AllBalances(students, fees, classes);
    Seqs.FilterProperties(all, Owes);
    Seqs.Filter(all, Owes)
  }

  /** A student is listed exactly when the balance over their invoices is positive. */
  lemma ListedIffOwing(students: seq<Student>, fees: seq<Fee>, classes: seq<Class>, s: Student)
    requires s in students
    ensures EntryOf(fees, classes, s) in StudentBalances(students, fees, classes) <==> BalanceOf(fees, s.id) > 0.0
  {
    var all := AllBalances(students, fees, classes);
    var i :| 0 <= i < |students| && students[i] == s;
    assert all[i] == EntryOf(fees, classes, s);
  }

  /** A student without invoices has balance 0 and is never listed. */
  lemma NoFeesNotListed(students: seq<Student>, fees: seq<Fee>, classes: seq<Class>, s: Student)
    requires forall i :: 0 <= i < |fees| ==> fees[i].studentId != s.id
    ensures BalanceOf(fees, s.id) == 0.0
    ensures EntryOf(fees, classes, s) !in StudentBalances(students, fees, classes)
  {
    Seqs.FilterNone(fees, (f: Fee) => f.studentId == s.id);
  }

  /** Another invoice of the same student adds its amount less its payment to the balance. */
  lemma InvoicesAddUp(fees: seq<Fee>, f: Fee)
    ensures BalanceOf(fees + [f], f.studentId) == BalanceOf(fees, f.studentId) + (f.amount - f.paidAmount)
  {
    var p := (x: Fee) => x.studentId == f.studentId;
    Seqs.FilterSnoc(fees, f, p);
    var sf := StudentFees(fees, f.studentId);
    Seqs.SumOfAppend(sf, [f], AmountOf);
    Seqs.SumOfAppend(sf, [f], PaidOf);
  }

  /** An invoice of another student leaves the balance as it was. */
  lemma OtherInvoiceIgnored(fees: seq<Fee>, f: Fee, studentId: string)
    requires f.studentId != studentId
    ensures BalanceOf(fees + [f], studentId) == BalanceOf(fees, studentId)
  {
    var p := (x: Fee) => x.studentId == studentId;
    Seqs.FilterSnoc(fees, f, p);
    assert Seqs.Filter(fees, p) + [] == Seqs.Filter(fees, p);
  }

  /** On a consistent ledger the computed balance is the sum of the recorded invoice balances. */
  lemma BalanceMatchesLedger(fees: seq<Fee>, studentId: string)
    requires forall i :: 0 <= i < |fees| ==> BalanceConsistent(fees[i])
    ensures BalanceOf(fees, studentId) == Seqs.SumOf(StudentFees(fees, studentId), RecordedBalanceOf)
    ensures BalanceOf(fees, studentId) >= 0.0
  {
    var sf := StudentFees(fees, studentId);
    forall i | 0 <= i < |sf| ensures RecordedBalanceOf(sf[i]) == AmountOf(sf[i]) - PaidOf(sf[i]) {
      assert sf[i] in fees;
    }
    Seqs.SumOfDifference(sf, AmountOf, PaidOf, RecordedBalanceOf);
    forall i | 0 <= i < |sf| ensures 0.0 <= RecordedBalanceOf(sf[i]) {
      assert sf[i] in fees;
    }
    Seqs.SumOfNonNegative(sf, RecordedBalanceOf);
  }

  /** A balance row matches when the term occurs in the name or the admission number, ignoring case. */
  predicate Hit(b: StudentBalance, term: string) {
    Strings.MatchesTerm(b.student.name, term) || Strings.MatchesTerm(b.student.admissionNumber, term)
  }

  /** `filteredBalances`: everything for an empty term, otherwise the matching rows in order. */
  function FilteredBalances(bs: seq<StudentBalance>, term: string): (r: seq<StudentBalance>)
    ensures term == "" ==> r == bs
    ensures term != "" ==> forall b :: b in r <==> b in bs && Hit(b, term)
    ensures forall b :: multiset(r)[b] == if term == "" || Hit(b, term) then multiset(bs)[b] else 0
    ensures Seqs.SubseqOf(r, bs)
  {
    if term == "" then
      Seqs.SubseqOfSelf(bs);
      bs
    else
      var p := (b: StudentBalance) => Hit(b, term);
      Seqs.FilterProperties(bs, p);
      Seqs.Filter(bs, p)
  }

  /** Searching a listed student's own admission number keeps that student. */
  lemma SearchByAdmissionNumber(bs: seq<StudentBalance>, b: StudentBalance)
    requires b in bs
    ensures b in FilteredBalances(bs, b.student.admissionNumber)
  {
    assert Strings.MatchesTerm(b.student.admissionNumber, b.student.admissionNumber);
  }
}
