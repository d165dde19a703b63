/** Optional values, used for nullable fields, failed lookups and failed parses. */
module Wrappers {

  datatype Option<T> = None | Some(value: T)

  /** A computation that either yields a value or fails with an error of type E. */
  datatype Result<T, E> = Ok(value: T) | Err(error: E)

  /** The given value, or `current` when none is given. */
  function OrElse<T>(v: Option<T>, current: T): T {
    if v.Some? then v.value else current
  }

  /** A field after a partial update: the new value when one is given, the old one otherwise. */
  predicate Overwritten<T(==)>(given: Option<T>, before: T, after: T) {
    (given.Some? ==> after == given.value) && (given.None? ==> after == before)
  }
}
