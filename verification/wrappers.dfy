/** The optional-value type used for the storage slot and for catalog lookups. */
module Wrappers {

  /** A value that may be absent: `undefined`/`null` in the storefront's code. */
  datatype Option<+T> = None | Some(value: T)
}
