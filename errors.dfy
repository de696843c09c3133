/** Error conditions of the library. The C++ code reports misuse by throwing
    std::invalid_argument (bad arguments) or std::runtime_error (a query on an
    object that holds no result yet); here both are values of `Error`. */
module Errors {

  datatype Error = InvalidArgument(msg: string) | RuntimeError(msg: string)

  /** The outcome of an operation that may throw. */
  datatype Result<+T> = Ok(value: T) | Err(error: Error) {

    predicate IsFailure() {
      Err?
    }

    function PropagateFailure<U>(): Result<U>
      requires Err?
    {
      Err(error)
    }

    function Extract(): T
      requires Ok?
    {
      value
    }
  }
}
