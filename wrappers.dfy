/** The optional value used by the probes. */
module Wrappers {
  datatype Option<T> = None | Some(value: T)
}
