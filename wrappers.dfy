/** Optional values and the two ways a comparison can raise in the Ruby code. */
module Wrappers {

  /** A Ruby value that may be nil: None is nil (or a hash key that is absent). */
  datatype Option<+T> = None | Some(value: T)

  /** The exceptions the comparators can raise. */
  datatype Error =
    | NotImplemented       // `self.field` read on a comparator class with no field configured
    | AbsentDateCompared   // `nil <= date`: an absent date reached a date comparison
    | UnknownKeyword       // ArgumentError: a keyword argument the method does not declare
    | UndefinedName        // NameError: a method or variable no class defines

  /** Outcome of a Ruby call that either returns a value or raises. */
  datatype Result<+T> = Ok(value: T) | Err(error: Error)
}
