/** Option and Result values shared by the cart, order and form-input modules. */
module Wrappers {

  /** A value that may be missing: a form field that is absent or does not parse, a failed lookup. */
  datatype Option<+T> = None | Some(value: T) {

    /** The carried value, or `default` when there is none. */
    function GetOr(default: T): T {
      match this
      case Some(v) => v
      case None => default
    }
  }

  /** The outcome of an operation that can fail with an error the caller sees. */
  datatype Result<+T, +E> = Success(value: T) | Failure(error: E)
}
