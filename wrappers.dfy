/** Option and Result values standing for Python's `None` returns and raised exceptions. */
module Wrappers {

  datatype Option<+T> = None | Some(value: T)

  /** The two exceptions the attribute manager raises itself. */
  datatype Error =
    | ValueError   // `find` called with neither `name` nor `added`
    | TypeError    // a decorator argument that is neither a name nor a function

  datatype Result<+R> = Success(value: R) | Failure(error: Error)
}
