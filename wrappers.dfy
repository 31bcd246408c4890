/** Optional values: a JSON field that may be absent (or `null`), a state field that starts out unset. */
module Wrappers {

  datatype Option<+T> = None | Some(value: T)

  /** The integer held by an optional counter, with an absent counter read as 0. */
  function OrZero(o: Option<int>): int
  {
    match o
    case Some(n) => n
    case None => 0
  }
}
