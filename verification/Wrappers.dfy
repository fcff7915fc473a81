/** A value that may be absent: a null pointer, an end iterator, a raised exception. */
module Wrappers {

  datatype Option<+T> = None | Some(value: T)
}
