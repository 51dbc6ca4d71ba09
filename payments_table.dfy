/**
 * The accountant's payments table: each payment joined with its student's name
 * and admission number, newest first, narrowed by a search over the student
 * name, the admission number and the payment id.
 */
module PaymentsTable {

  import opened Wrappers
  import opened Types
  import opened Lookup
  import Strings
  import Sorting
  import Seqs

  datatype PaymentRow = PaymentRow(payment: Payment, studentName: string, admissionNumber: string)

  /** The payment with `student?.name || 'Unknown Student'` and `student?.admissionNumber || 'N/A'`. */
  function RowOf(students: seq<Student>, p: Payment): (r: PaymentRow)
    ensures r.payment == p
    ensures StudentById(students, p.studentId).None? ==> r.studentName == "Unknown Student" && r.admissionNumber == "N/A"
    ensures StudentById(students, p.studentId).Some? ==>
      var s := StudentById(students, p.studentId).value;
      r.studentName == OrElse(s.name, "Unknown Student") && r.admissionNumber == OrElse(s.admissionNumber, "N/A")
  {
    match StudentById(students, p.studentId)
    case None => PaymentRow(p, "Unknown Student", "N/A")
    case Some(s) => PaymentRow(p, OrElse(s.name, "Unknown Student"), OrElse(s.admissionNumber, "N/A"))
  }

  function Joined(students: seq<Student>, payments: seq<Payment>): (r: seq<PaymentRow>)
    ensures |r| == |payments|
    ensures forall i :: 0 <= i < |r| ==> r[i] == RowOf(students, payments[i])
  {
    seq(|payments|, i requires 0 <= i < |payments| => RowOf(students, payments[i]))
  }

  /** The sort key of a row: the timestamp of its payment date. */
  function TimeKey(time: string -> int): PaymentRow -> int {
    (x: PaymentRow) => time(x.payment.date)
  }

  /**
   * `paymentsWithStudentNames`: the joined rows sorted by `time(date)`, the
   * millisecond timestamp `new Date(date).getTime()`, most recent first; rows
   * with the same timestamp keep their input order.
   */
  function Newest(students: seq<Student>, payments: seq<Payment>, time: string -> int): (r: seq<PaymentRow>)
    ensures multiset(r) == multiset(Joined(students, payments))
    ensures forall i, j :: 0 <= i < j < |r| ==> time(r[i].payment.date) >= time(r[j].payment.date)
    ensures forall t :: Sorting.WithKey(r, TimeKey(time), t) == Sorting.WithKey(Joined(students, payments), TimeKey(time), t)
  {
    Sorting.IntGeTotalOrder();
    var key := TimeKey(time);
    var r := Sorting.Sort(Joined(students, payments), key, Sorting.IntGe);
    assert forall i, j :: 0 <= i < j < |r| ==> Sorting.IntGe(key(r[i]), key(r[j]));
    r
  }

  /** A row matches when the term, lower-cased, occurs in one of the three searched fields. */
  predicate Hit(row: PaymentRow, term: string) {
    || Strings.MatchesTerm(row.studentName, term)
    || Strings.MatchesTerm(row.admissionNumber, term)
    || Strings.MatchesTerm(row.payment.paymentId, term)
  }

  /** `filteredPayments`: every row for an empty term, otherwise the matching rows in order. */
  function Filtered(rows: seq<PaymentRow>, term: string): (r: seq<PaymentRow>)
    ensures term == "" ==> r == rows
    ensures term != "" ==> forall x :: x in r <==> x in rows && Hit(x, term)
    ensures forall x :: multiset(r)[x] == if term == "" || Hit(x, term) then multiset(rows)[x] else 0
    ensures Seqs.SubseqOf(r, rows)
  {
    if term == "" then
      Seqs.SubseqOfSelf(rows);
      rows
    else
      var p := (x: PaymentRow) => Hit(x, term);
      Seqs.FilterProperties(rows, p);
      Seqs.Filter(rows, p)
  }

  /** Every payment is listed, exactly as often as its row occurs among the joined rows. */
  lemma EveryPaymentListed(students: seq<Student>, payments: seq<Payment>, time: string -> int, i: nat)
    requires i < |payments|
    ensures RowOf(students, payments[i]) in Newest(students, payments, time)
    ensures multiset(Newest(students, payments, time))[RowOf(students, payments[i])]
         == multiset(Joined(students, payments))[RowOf(students, payments[i])]
  {
    var j := Joined(students, payments);
    assert j[i] in multiset(j);
  }

  /** Searching a payment's own id keeps that payment's row. */
  lemma SearchByPaymentId(rows: seq<PaymentRow>, row: PaymentRow)
    requires row in rows
    ensures row in Filtered(rows, row.payment.paymentId)
  {
    assert Strings.MatchesTerm(row.payment.paymentId, row.payment.paymentId);
  }

  /** A payment whose student is unknown is shown as 'Unknown Student' with admission number 'N/A'. */
  lemma OrphanPaymentRow(students: seq<Student>, p: Payment)
    requires forall j :: 0 <= j < |students| ==> students[j].id != p.studentId
    ensures RowOf(students, p) == PaymentRow(p, "Unknown Student", "N/A")
  {
  }
}
