/** Result types for the exceptions and optional values of the proxy. */
module Wrappers {

  datatype Option<+T> = None | Some(value: T)

  /** What a thrown C++ exception was derived from: handleRequest only catches the first kind. */
  datatype Exception = PocoException | StdException

  datatype Outcome<+T> = Ok(value: T) | Threw(exception: Exception)
}
