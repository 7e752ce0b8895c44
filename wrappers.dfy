/** The optional value used for "the file may be missing" and "the hash may not parse". */
module Wrappers {

  datatype Option<+T> = None | Some(value: T)
}
