/**
 * The payment logging form: a student and an amount of at least 1. The values
 * go to the server unchanged; the form is cleared only when the server
 * accepted the payment.
 */
module LogPayment {

  import opened Forms

  datatype Values = Values(studentId: string, amount: real)

  /** The schema: a student is chosen and the amount is at least 1. */
  predicate Valid(v: Values) {
    |v.studentId| >= 1 && v.amount >= 1.0
  }

  /** The form opens empty, which the schema rejects. */
  function DefaultValues(): (v: Values)
    ensures v.studentId == "" && v.amount == 0.0 && !Valid(v)
  {
    Values("", 0.0)
  }

  /** The submission: the values themselves are the payload, and success clears the form. */
  function Submit(v: Values, onLogPayment: Values -> bool): (r: Submission<Values>)
    ensures r.Rejected? <==> !Valid(v)
    ensures r.Sent? ==> r.payload == v && r.success == onLogPayment(v)
    ensures r.Sent? ==> (r.effect == ResetForm <==> r.success)
  {
    Send(Valid(v), v, onLogPayment, ResetForm)
  }

  /** Submitting the untouched form never reaches the server. */
  lemma DefaultsRejected(onLogPayment: Values -> bool)
    ensures Submit(DefaultValues(), onLogPayment) == Rejected
  {
  }

  /** The form's values, which a successful submission clears. */
  class LogPaymentForm {
    var values: Values

    constructor()
      ensures values == DefaultValues()
    {
      values := DefaultValues();
    }

    method SetValues(v: Values)
      modifies this
      ensures values == v
    {
      values := v;
    }

    /** `onSubmit`: the form is reset only on success; on rejection or failure the entries stay. */
    method OnSubmit(onLogPayment: Values -> bool) returns (r: Submission<Values>)
      modifies this
      ensures r == Submit(old(values), onLogPayment)
      ensures r.Sent? && r.success ==> values == DefaultValues()
      ensures !(r.Sent? && r.success) ==> values == old(values)
    {
      r := Submit(values, onLogPayment);
      if r.Sent? && r.success {
        values := DefaultValues();
      }
    }
  }
}
