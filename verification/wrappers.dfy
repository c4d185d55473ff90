/** A value that may be missing: how the model represents a pandas cell holding NaN. */
module Wrappers {

  datatype Option<+T> = None | Some(value: T)
}
