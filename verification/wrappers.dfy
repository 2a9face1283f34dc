/** Python's `None` and a present value, as an Option. */
module Wrappers {

  datatype Option<+T> = None | Some(value: T)
}
