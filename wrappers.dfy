/** Failure-carrying values used where the Python code raises an exception. */
module Wrappers {

  datatype Option<+T> = None | Some(value: T)

  /** The kinds of exception the solvers can raise on malformed input. */
  datatype Error =
    | ParseError        // `int()` or tuple unpacking rejected a token (ValueError)
    | IndexError        // an index past the end of a list (IndexError)
    | NotFound          // a search the caller relies on came back empty (ValueError)

  datatype Result<+T> = Ok(value: T) | Err(error: Error)
}
