/** The optional value used for absent request fields and unset settings. */
module Wrappers {

  /** `None` for a value that is absent, `Some` for one that is present. */
  datatype Option<+T> = None | Some(value: T)
}
