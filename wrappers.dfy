/** Failure-carrying wrappers used by every decoder and encoder of the model. */
module Wrappers {
  datatype Option<+T> = None | Some(value: T)

  datatype Result<+T, +E> = Success(value: T) | Failure(error: E) {
    predicate IsFailure() { Failure? }

    function PropagateFailure<U>(): Result<U, E>
      requires Failure?
    {
      Failure(error)
    }

    function Extract(): T
      requires Success?
    {
      value
    }
  }
}

/** The exceptions the Python program raises, as values. */
module Faults {
  datatype Fault =
    | OutOfRange      // struct.pack given a value that does not fit its field
    | Truncated       // struct.unpack_from reading past the end of its buffer
    | UnknownValue    // an Enum lookup (SID(...), ResultCode(...), ...) given a value not in its table
    | MissingField    // an attribute read on a response of another kind, or on None
    | ZeroFrameSize   // `(i + 1) % frameSize` with a zero frame size in slice_image
    | FormatType      // '%i' formatting applied to an object that is not a number
}
