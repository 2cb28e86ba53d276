/** Optional values (Ruby's nil) and outcomes of calls that may raise. */
module Wrappers {

  /** A value that may be nil. */
  datatype Option<+T> = None | Some(value: T)

  /** The result of a Ruby call: it returns a value, or an exception escapes. */
  datatype Outcome<+T> = Ok(value: T) | Raised
}
