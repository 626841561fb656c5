/**
 * The error objects the forms build (`errors.name`, `errors.server`, ...).
 * Each form uses a fixed set of keys, so an error object is a record with
 * one optional message per key; an absent key is `None`.
 * `{ ...prev, k: null }` hides the message of k exactly as removing the key
 * does, so it is modelled as setting k to `None`.
 */
module Forms {
  import opened Wrappers

  datatype Errors = Errors(
    regulationId: Option<string>, branchId: Option<string>, semester: Option<string>,
    name: Option<string>, code: Option<string>, numberOfSemesters: Option<string>,
    server: Option<string>)
  {
    /** `Object.keys(e).length === 0`. */
    predicate IsEmpty() {
      regulationId.None? && branchId.None? && semester.None? && name.None? && code.None? &&
      numberOfSemesters.None? && server.None?
    }
  }

  /** `{}`. */
  const NoErrors: Errors := Errors(None, None, None, None, None, None, None)

  /** `{ server: message }`: every other key is gone. */
  function ServerError(message: string): (e: Errors)
    ensures e.server == Some(message) && e.(server := None) == NoErrors
  {
    NoErrors.(server := Some(message))
  }

  lemma EmptyIsNoErrors(e: Errors)
    ensures e.IsEmpty() <==> e == NoErrors
  {
  }
}
