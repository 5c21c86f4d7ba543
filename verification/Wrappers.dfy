/** Optional values and fallible results shared by every component. */
module Wrappers {

  /** A nullable value. */
  datatype Option<+T> = None | Some(value: T)
  {
    predicate IsFailure() {
      None?
    }

    function PropagateFailure<U>(): Option<U>
      requires None?
    {
      None
    }

    function Extract(): T
      requires Some?
    {
      value
    }
  }

  /** The outcome of an operation that the program reports by raising. */
  datatype Result<+T, +E> = Success(value: T) | Failure(error: E)
}
