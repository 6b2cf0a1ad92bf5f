module Wrappers {

  /** A nullable column, or the absence of a row. */
  datatype Option<+T> = None | Some(value: T)
}
