/**
 * The invoices table: one row per invoice in input order, the student's name
 * looked up ('Unknown Student' when not found), the balance highlighted when
 * something is owed, and the status shown as a badge whose variant depends on
 * the status.
 */
module FeeInvoices {

  import opened Types
  import opened Lookup

  datatype Variant = Default | Secondary | Destructive | Outline

  /** `getStatusVariant`, over the status string as stored. */
  function VariantOf(status: string): (v: Variant)
    ensures v == Default <==> status == "Paid"
    ensures v == Secondary <==> status == "Partial"
    ensures v == Destructive <==> status == "Unpaid"
  {
    if status == "Paid" then Default
    else if status == "Partial" then Secondary
    else if status == "Unpaid" then Destructive
    else Outline
  }

  /** The outline badge is shown exactly for a string that is not one of the three statuses. */
  lemma OutlineIffUnknownStatus(status: string)
    ensures VariantOf(status) == Outline <==> ParseStatus(status).None?
  {
  }

  /** Each typed status gets its own badge, never the outline one. */
  lemma TypedStatusVariants()
    ensures VariantOf(StatusName(Paid)) == Default
    ensures VariantOf(StatusName(Partial)) == Secondary
    ensures VariantOf(StatusName(Unpaid)) == Destructive
    ensures forall st: FeeStatus :: VariantOf(StatusName(st)) != Outline
  {
    forall st: FeeStatus ensures VariantOf(StatusName(st)) != Outline {
      match st
      case Paid =>
      case Partial =>
      case Unpaid =>
    }
  }

  /** `getStudentName`: the student's name, or 'Unknown Student' when not found or empty. */
  function InvoiceStudentName(students: seq<Student>, studentId: string): (r: string)
    ensures StudentById(students, studentId).None? ==> r == "Unknown Student"
    ensures StudentById(students, studentId).Some? && StudentById(students, studentId).value.name != "" ==>
      r == StudentById(students, studentId).value.name
    ensures StudentById(students, studentId).Some? && StudentById(students, studentId).value.name == "" ==>
      r == "Unknown Student"
  {
    match StudentById(students, studentId)
    case None => "Unknown Student"
    case Some(s) => OrElse(s.name, "Unknown Student")
  }

  /** One rendered invoice row. */
  datatype InvoiceRow = InvoiceRow(
    invoiceId: string, student: string, amount: real, paid: real, balance: real,
    highlighted: bool, dueDate: string, status: string, variant: Variant)

  function RowOf(students: seq<Student>, f: Fee): (r: InvoiceRow)
    ensures r.highlighted <==> f.balance > 0.0
    ensures r.invoiceId == f.invoiceId && r.balance == f.balance
    ensures r.variant == VariantOf(StatusName(f.status))
    ensures r.student == InvoiceStudentName(students, f.studentId)
    ensures r.amount == f.amount && r.paid == f.paidAmount && r.dueDate == f.dueDate
    ensures r.status == StatusName(f.status)
  {
    InvoiceRow(f.invoiceId, InvoiceStudentName(students, f.studentId), f.amount, f.paidAmount, f.balance,
      f.balance > 0.0, f.dueDate, StatusName(f.status), VariantOf(StatusName(f.status)))
  }

  /** `fees.map(...)`: one row per invoice, in input order. */
  function Rows(students: seq<Student>, fees: seq<Fee>): (r: seq<InvoiceRow>)
    ensures |r| == |fees|
    ensures forall i :: 0 <= i < |r| ==> r[i] == RowOf(students, fees[i])
  {
    seq(|fees|, i requires 0 <= i < |fees| => RowOf(students, fees[i]))
  }

  /** On a consistent ledger an invoice is highlighted exactly when its badge is not the paid one. */
  lemma HighlightedIffNotPaid(students: seq<Student>, f: Fee)
    requires FeeConsistent(f)
    ensures RowOf(students, f).highlighted <==> RowOf(students, f).variant != Default
  {
  }
}
