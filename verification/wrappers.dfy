/** An optional value: a frame that may be absent, a name that may be unknown. */
module Wrappers {

  datatype Option<T> = None | Some(value: T)
}
