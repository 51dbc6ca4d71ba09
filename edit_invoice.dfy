/**
 * The invoice editing form: amount, paid amount and due date, prefilled from
 * the invoice. Each amount only has to be non-negative; neither the balance
 * nor the status is computed here, and success returns to the invoice list.
 */
module EditInvoice {

  import opened Wrappers
  import opened Types
  import opened Dates
  import opened Forms

  /** The due date is absent when the stored string does not read as a date. */
  datatype Values = Values(amount: real, paidAmount: real, dueDate: Option<Date>)

  /** The schema: both amounts are non-negative and a due date is present; no rule ties the amounts. */
  predicate Valid(v: Values) {
    v.amount >= 0.0 && v.paidAmount >= 0.0 && v.dueDate.Some?
  }

  /** The defaults copy the invoice's amount, paid amount and due date. */
  function DefaultValues(invoice: Fee): (v: Values)
    ensures v.amount == invoice.amount && v.paidAmount == invoice.paidAmount
    ensures v.dueDate == ParseYmd(invoice.dueDate)
  {
    Values(invoice.amount, invoice.paidAmount, ParseYmd(invoice.dueDate))
  }

  /** The payload is the values: amount, paid amount and due date, nothing else. */
  function Submit(v: Values, onUpdate: Values -> bool): (r: Submission<Values>)
    ensures r.Rejected? <==> !Valid(v)
    ensures r.Sent? ==> r.payload == v && r.success == onUpdate(v)
    ensures r.Sent? && r.success ==> r.effect == Navigate("/accountant/invoices")
    ensures r.Sent? && !r.success ==> r.effect == Stay
  {
    Send(Valid(v), v, onUpdate, Navigate("/accountant/invoices"))
  }

  /** A payment larger than the amount is accepted: the schema has no cross-field rule. */
  lemma OverpaymentAccepted(amount: real, paid: real, d: Date)
    requires 0.0 <= amount < paid
    ensures Valid(Values(amount, paid, Some(d)))
  {
  }

  /** The prefilled form of a consistent invoice with a well-formed due date is accepted as it is. */
  lemma ConsistentInvoiceDefaultsValid(invoice: Fee, d: Date)
    requires BalanceConsistent(invoice)
    requires ValidDate(d) && invoice.dueDate == FormatYmd(d)
    ensures Valid(DefaultValues(invoice))
    ensures DefaultValues(invoice).dueDate == Some(d)
  {
    ParseFormat(d);
  }
}
