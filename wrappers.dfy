/** The optional value used for reads that may fail and for parsing. */
module Wrappers {

  datatype Option<+T> = None | Some(value: T)

}
