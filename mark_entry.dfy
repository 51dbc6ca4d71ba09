/**
 * The mark entry form: rows of (student, score) under one exam and subject.
 * Saving walks the rows in order and saves each row that names a student,
 * one server call per row; a failed save does not stop the walk. Only when
 * every save succeeded is the form reset to a single blank row.
 */
module MarkEntry {

  import opened Types
  import Seqs

  /** One row of the form. */
  datatype Entry = Entry(studentId: string, score: real)

  datatype Values = Values(examId: string, subjectId: string, marks: seq<Entry>)

  /** `markSchema`: a student is chosen and the score lies in 0..100. */
  predicate EntryValid(e: Entry) {
    |e.studentId| >= 1 && 0.0 <= e.score <= 100.0
  }

  /** The form schema: an exam and a subject are chosen and every row is valid. */
  predicate FormValid(v: Values) {
    |v.examId| >= 1 && |v.subjectId| >= 1 && forall i :: 0 <= i < |v.marks| ==> EntryValid(v.marks[i])
  }

  function BlankEntry(): Entry {
    Entry("", 0.0)
  }

  /** The form opens with nothing chosen and one blank row, which the schema rejects. */
  function DefaultValues(): (v: Values)
    ensures v.marks == [BlankEntry()] && !FormValid(v)
  {
    Values("", "", [BlankEntry()])
  }

  /** `if (mark.studentId)`: the loop's test for a row worth saving. */
  predicate Named(e: Entry) {
    e.studentId != ""
  }

  /** The record a row is saved as: the form's exam and subject with the row's student and score. */
  function PayloadOf(examId: string, subjectId: string, e: Entry): (m: Mark)
    ensures m.examId == examId && m.subjectId == subjectId && m.studentId == e.studentId && m.score == e.score
  {
    Mark(e.studentId, subjectId, examId, e.score)
  }

  function Payloads(examId: string, subjectId: string, es: seq<Entry>): (r: seq<Mark>)
    ensures |r| == |es|
    ensures forall i :: 0 <= i < |r| ==> r[i] == PayloadOf(examId, subjectId, es[i])
  {
    seq(|es|, i requires 0 <= i < |es| => PayloadOf(examId, subjectId, es[i]))
  }

  /** Every save so far was answered with success. */
  predicate AllSaved(attempts: seq<Mark>, onSaveMark: (nat, Mark) -> bool) {
    forall k :: 0 <= k < |attempts| ==> onSaveMark(k, attempts[k])
  }

  lemma AllSavedSnoc(attempts: seq<Mark>, m: Mark, onSaveMark: (nat, Mark) -> bool)
    ensures AllSaved(attempts + [m], onSaveMark) <==> AllSaved(attempts, onSaveMark) && onSaveMark(|attempts|, m)
  {
    var next := attempts + [m];
    assert forall k :: 0 <= k < |attempts| ==> next[k] == attempts[k];
    assert next[|attempts|] == m;
  }

  lemma PayloadsSnoc(examId: string, subjectId: string, es: seq<Entry>, e: Entry)
    ensures Payloads(examId, subjectId, es + [e]) == Payloads(examId, subjectId, es) + [PayloadOf(examId, subjectId, e)]
  {
  }

  /** The saves the loop makes: one per named row, in row order. */
  function Attempted(v: Values): seq<Mark> {
    Payloads(v.examId, v.subjectId, Seqs.Filter(v.marks, Named))
  }

  /**
   * The save loop. `onSaveMark(k, m)` is the server's answer to the `k`-th save,
   * of record `m`. Every named row is saved regardless of earlier failures, and
   * `allSuccess` ends true exactly when every save succeeded.
   */
  method SaveMarks(v: Values, onSaveMark: (nat, Mark) -> bool) returns (attempts: seq<Mark>, allSuccess: bool)
    ensures attempts == Attempted(v)
    ensures allSuccess <==> forall k :: 0 <= k < |attempts| ==> onSaveMark(k, attempts[k])
  {
    attempts := [];
    allSuccess := true;
    var i := 0;
    while i < |v.marks|
      invariant 0 <= i <= |v.marks|
      invariant attempts == Payloads(v.examId, v.subjectId, Seqs.Filter(v.marks[..i], Named))
      invariant allSuccess <==> AllSaved(attempts, onSaveMark)
    {
      var mark := v.marks[i];
      assert v.marks[..i + 1] == v.marks[..i] + [mark];
      Seqs.FilterSnoc(v.marks[..i], mark, Named);
      if mark.studentId != "" {
        var payload := PayloadOf(v.examId, v.subjectId, mark);
        var success := onSaveMark(|attempts|, payload);
        if !success {
          allSuccess := false;
        }
        PayloadsSnoc(v.examId, v.subjectId, Seqs.Filter(v.marks[..i], Named), mark);
        AllSavedSnoc(attempts, payload, onSaveMark);
        attempts := attempts + [payload];
      }
      i := i + 1;
    }
    assert v.marks[..i] == v.marks;
  }

  /** On a form the schema accepts every row names a student, so every row is saved. */
  lemma ValidFormSavesEveryRow(v: Values)
    requires FormValid(v)
    ensures Attempted(v) == Payloads(v.examId, v.subjectId, v.marks)
    ensures |Attempted(v)| == |v.marks|
  {
    Seqs.FilterAll(v.marks, Named);
  }

  /** A row without a student contributes no save. */
  lemma BlankRowSkipped(v: Values, e: Entry)
    requires e.studentId == ""
    ensures Attempted(v.(marks := v.marks + [e])) == Attempted(v)
  {
    Seqs.FilterSnoc(v.marks, e, Named);
  }

  /** What a submission led to: rejected by the schema, or saved with the loop's results. */
  datatype SaveResult = Rejected | Saved(attempts: seq<Mark>, allSuccess: bool)

  /** The form's values, changed by the row buttons and by a successful save. */
  class MarkEntryForm {
    var values: Values

    constructor()
      ensures values == DefaultValues()
    {
      values := DefaultValues();
    }

    /** The add button appends a blank row. */
    method Append()
      modifies this
      ensures values == old(values).(marks := old(values).marks + [BlankEntry()])
    {
      values := values.(marks := values.marks + [BlankEntry()]);
    }

    /** The trash button removes row `i` and keeps the others in order. */
    method Remove(i: nat)
      requires i < |values.marks|
      modifies this
      ensures values == old(values).(marks := old(values).marks[..i] + old(values).marks[i + 1..])
    {
      values := values.(marks := values.marks[..i] + values.marks[i + 1..]);
    }

    /** Editing row `i` replaces it and nothing else. */
    method SetEntry(i: nat, e: Entry)
      requires i < |values.marks|
      modifies this
      ensures values == old(values).(marks := old(values).marks[i := e])
    {
      values := values.(marks := values.marks[i := e]);
    }

    /**
     * `handleSubmit(onSubmit)`: invalid values are rejected and kept; valid ones
     * are saved, and only when every save succeeded is the form reset to the
     * same exam and subject with one blank row.
     */
    method OnSubmit(onSaveMark: (nat, Mark) -> bool) returns (r: SaveResult)
      modifies this
      ensures !FormValid(old(values)) ==> r == Rejected && values == old(values)
      ensures FormValid(old(values)) ==> r.Saved? && r.attempts == Attempted(old(values))
      ensures r.Saved? ==> (r.allSuccess <==> forall k :: 0 <= k < |r.attempts| ==> onSaveMark(k, r.attempts[k]))
      ensures r.Saved? && r.allSuccess ==> values == Values(old(values).examId, old(values).subjectId, [BlankEntry()])
      ensures r.Saved? && !r.allSuccess ==> values == old(values)
    {
      if !FormValid(values) {
        return Rejected;
      }
      var attempts, allSuccess := SaveMarks(values, onSaveMark);
      if allSuccess {
        values := Values(values.examId, values.subjectId, [BlankEntry()]);
      }
      r := Saved(attempts, allSuccess);
    }
  }
}
