/** A value that may be absent: a nil pointer or an unset result in the gateway. */
module Wrappers {

  datatype Option<+T> = None | Some(value: T)
}
