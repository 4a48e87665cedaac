/** A value that may be absent: C#'s `null` results of `FirstOrDefault` and `GetString`. */
module Wrappers {
  datatype Option<+T> = None | Some(value: T)
}
