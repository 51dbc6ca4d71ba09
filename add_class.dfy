/** The class form: a name, an optional stream and a class teacher. */
module AddClass {

  import opened Wrappers
  import opened Forms

  datatype Values = Values(name: string, stream: Option<string>, classTeacherId: string)

  /** The schema: a name and a class teacher; the stream may be left out. */
  predicate Valid(v: Values) {
    |v.name| >= 1 && |v.classTeacherId| >= 1
  }

  /** The form opens with every field empty, which the schema rejects. */
  function DefaultValues(): (v: Values)
    ensures !Valid(v)
  {
    Values("", Some(""), "")
  }

  /** The values go to the server unchanged; success navigates to the admin portal. */
  function Submit(v: Values, onAddClass: Values -> bool): (r: Submission<Values>)
    ensures r.Rejected? <==> !Valid(v)
    ensures r.Sent? ==> r.payload == v && r.success == onAddClass(v)
    ensures r.Sent? ==> (r.effect == Navigate("/admin") <==> r.success)
  {
    Send(Valid(v), v, onAddClass, Navigate("/admin"))
  }

  /** The stream plays no part in validation. */
  lemma StreamOptional(v: Values, stream: Option<string>)
    ensures Valid(v.(stream := stream)) <==> Valid(v)
  {
  }
}
