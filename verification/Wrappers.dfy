/** Outcomes of operations that the traced programs report by exception, by
    error return or by a missing row. */
module Wrappers {
  datatype Option<+T> = None | Some(value: T)

  datatype Result<+T> = Ok(value: T) | Err
}
