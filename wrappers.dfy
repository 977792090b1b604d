/** The optional value returned by the estimator ("no estimate") and by the decoder. */
module Wrappers {
  datatype Option<+T> = None | Some(value: T)
}
