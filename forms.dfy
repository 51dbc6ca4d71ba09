/**
 * What the entry forms share: the outcome of a submission (`handleSubmit`
 * validates first and only then calls the server), the subject check-box list
 * operation, the base path chosen from the current path, and the name rule.
 */
module Forms {

  import Strings
  import Seqs

  /** What the page does after the server answered. */
  datatype Effect = Navigate(path: string) | CloseModal | ResetForm | Stay

  /** A submission is rejected by the schema, or sent with its payload and the server's answer. */
  datatype Submission<P> = Rejected | Sent(payload: P, success: bool, effect: Effect)

  /**
   * `form.handleSubmit(onSubmit)`: values the schema rejects never reach the
   * server; otherwise the payload is sent, and the success effect happens only
   * when the server reports success.
   */
  function Send<P>(valid: bool, payload: P, server: P -> bool, onSuccess: Effect): (r: Submission<P>)
    ensures r.Rejected? <==> !valid
    ensures r.Sent? ==> r.payload == payload && r.success == server(payload)
    ensures r.Sent? && r.success ==> r.effect == onSuccess
    ensures r.Sent? && !r.success ==> r.effect == Stay
  {
    if !valid then Rejected
    else if server(payload) then Sent(payload, true, onSuccess)
    else Sent(payload, false, Stay)
  }

  /** `name: z.string().min(2)`. */
  predicate NameValid(name: string) {
    |name| >= 2
  }

  /** `pathname.includes('/admin/') ? '/admin' : '/dean'`. */
  function BasePath(pathname: string): (r: string)
    ensures r == "/admin" || r == "/dean"
    ensures r == "/admin" <==> Strings.Contains(pathname, "/admin/")
  {
    if Strings.Contains(pathname, "/admin/") then "/admin" else "/dean"
  }

  /** Every page under the admin portal keeps its forms in the admin portal. */
  lemma AdminPagesStayInAdmin(rest: string)
    ensures BasePath("/admin/" + rest) == "/admin"
  {
    assert "/admin/" <= "/admin/" + rest;
  }

  /**
   * The subject check box: checking appends the id, unchecking removes every
   * occurrence of it and keeps the other ids in their order.
   */
  function ToggleSubject(ids: seq<string>, id: string, checked: bool): (r: seq<string>)
    ensures checked ==> r == ids + [id]
    ensures !checked ==> id !in r && Seqs.SubseqOf(r, ids)
    ensures !checked ==> forall x :: x != id ==> multiset(r)[x] == multiset(ids)[x]
  {
    if checked then ids + [id]
    else
      var p := (x: string) => x != id;
      Seqs.FilterProperties(ids, p);
      Seqs.Filter(ids, p)
  }

  /** A checked subject shows as checked (`field.value.includes(subject.id)`), an unchecked one does not. */
  lemma ToggleShows(ids: seq<string>, id: string, checked: bool)
    ensures id in ToggleSubject(ids, id, checked) <==> checked
  {
    if checked {
      assert ToggleSubject(ids, id, checked)[|ids|] == id;
    }
  }

  /** Checking a subject that was not selected and unchecking it again restores the list. */
  lemma ToggleRoundTrip(ids: seq<string>, id: string)
    requires id !in ids
    ensures ToggleSubject(ToggleSubject(ids, id, true), id, false) == ids
  {
    var p := (x: string) => x != id;
    Seqs.FilterSnoc(ids, id, p);
    Seqs.FilterAll(ids, p);
    assert Seqs.Filter(ids + [id], p) == ids + [];
  }

  /** Unchecking leaves the ids of every other subject exactly as they were. */
  lemma UncheckKeepsOthers(ids: seq<string>, id: string)
    ensures forall x :: x != id ==> (x in ToggleSubject(ids, id, false) <==> x in ids)
  {
    var r := ToggleSubject(ids, id, false);
    forall x | x != id ensures x in r <==> x in ids {
      assert x in r <==> multiset(r)[x] > 0;
      assert x in ids <==> multiset(ids)[x] > 0;
    }
  }
}
