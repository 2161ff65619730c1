// Optional values, and results that carry the reason of a failure.
module Wrappers {
  datatype Option<T> = None | Some(value: T)

  datatype Result<T> = Ok(value: T) | Err(reason: string)
}
