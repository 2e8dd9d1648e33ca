/** Identifiers, the width of integers and the outcomes of operations, shared by the domain models. */
module Results {

  // ULIDs: `newID` hands out increasing values. Zero stands for the empty string.
  type Id = nat

  const NO_ID: Id := 0

  const MAX_INT64: int := 0x7FFF_FFFF_FFFF_FFFF

  /** The kinds of domain error, and the refusal of an event handler or of the authorization check. */
  datatype Failure = Validation | NotFound | Conflict | Rejected

  datatype Result<+T> = Ok(value: T) | Err(failure: Failure) {
    predicate IsFailure() { Err? }

    function PropagateFailure<U>(): Result<U>
      requires Err?
    {
      Err(failure)
    }

    function Extract(): T
      requires Ok?
    {
      value
    }
  }
}
