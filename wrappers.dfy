/** An optional value: what a JavaScript lookup gives when it may find nothing. */
module Wrappers {

  datatype Option<+T> = None | Some(value: T)
}
