/** Option/Result wrappers and the exception kinds of the Java sources. */
module Wrappers {

  datatype Option<+T> = None | Some(value: T)

  /** The unchecked exceptions the recognition core throws. Messages are not modelled. */
  datatype Error =
    | IllegalArgument
    | IllegalState
    | NullPointer
    | IndexOutOfBounds

  /** A value, or the exception that the Java method would have thrown instead. */
  datatype Result<+T> = Success(value: T) | Failure(error: Error) {
    predicate IsFailure() { Failure? }

    function PropagateFailure<U>(): Result<U>
      requires Failure?
    {
      Failure(error)
    }

    function Extract(): T
      requires Success?
    {
      value
    }
  }

  /** A Java float result: a finite value or NaN (0/0). */
  datatype FloatValue = Finite(value: real) | NaN
}
