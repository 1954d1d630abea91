/** Results of calls that may find nothing or fail. */
module Wrappers {
  datatype Option<+T> = None | Some(value: T)
  datatype Result<+T> = Ok(value: T) | Err
}
