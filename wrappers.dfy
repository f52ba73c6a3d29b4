/** Option and Result, used for absent request fields, backend failures and
    unparseable request bodies. */
module Wrappers {

  datatype Option<+T> = None | Some(value: T)

  /** A computation that either produced a value or failed with a
      description of the failure (Python's `str(e)` for the exception). */
  datatype Result<+T> = Ok(value: T) | Err(error: string)
}
