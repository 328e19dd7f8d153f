/** The two sum types the model returns. */
module Wrappers {

  /** A token or number that may be missing. Binding one with `:-` makes
      the enclosing expression `None` as soon as it is missing, which is how
      an input exception cuts an instruction short. */
  datatype Option<+T> = None | Some(value: T) {
    predicate IsFailure() {
      None?
    }

    function PropagateFailure<U>(): Option<U>
      requires None?
    {
      None
    }

    function Extract(): T
      requires Some?
    {
      value
    }
  }

  /** The answer of a grid call: the value it returns, or the error it
      throws. */
  datatype Result<+R, +E> = Success(value: R) | Failure(error: E)
}
