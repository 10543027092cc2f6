/** Option and Result values for the source's `None` returns and raised errors. */
module Wrappers {

  datatype Option<+T> = None | Some(value: T)

  datatype Result<+T, +E> = Success(value: T) | Failure(error: E)

  /** The value of an Option as a set: empty for None. */
  function Opt<T>(o: Option<T>): set<T> {
    if o.Some? then {o.value} else {}
  }
}
