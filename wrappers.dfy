/** The optional value used for cells that may be missing and for lookups that may fail. */
module Wrappers {

  datatype Option<+T> = None | Some(value: T)
}
