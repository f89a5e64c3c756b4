/** An optional value, the two Python exceptions the modelled code can
    raise, and a Result datatype standing for "returns a value or raises". */
module Wrappers {

  datatype Option<+T> = None | Some(value: T)

  /** IndexError: indexing past the end of a tuple or list.
      ValueError: `min`/`max` of an empty sequence. */
  datatype Raised = IndexError | ValueError

  datatype Result<+T> = Ok(value: T) | Fail(raised: Raised) {
    predicate IsFailure() {
      Fail?
    }

    function PropagateFailure<U>(): Result<U>
      requires Fail?
    {
      Fail(raised)
    }

    function Extract(): T
      requires Ok?
    {
      value
    }
  }
}
