/** Optional values: the model's stand-in for `undefined`, `null` and a failed `find`. */
module Wrappers {

  datatype Option<+T> = None | Some(value: T)

  /**
   * An optional id is truthy in JavaScript when it is present and not the empty
   * string: the test behind `if (!values.studentId)` and `selectedExamId ? … : …`.
   */
  predicate Chosen(id: Option<string>) {
    id.Some? && id.value != ""
  }
}
