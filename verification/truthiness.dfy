/** Python truthiness for the optional values a record is built from.
    Strings, lists and dictionaries are all sequences here, so one predicate
    covers them: None and the empty value are false, everything else true. */
module Truthiness {
  import opened Wrappers

  predicate Truthy<T>(o: Option<seq<T>>) {
    o.Some? && |o.value| > 0
  }

  /** Python `o or default`, for an `o` of sequence type. */
  function Or<T>(o: Option<seq<T>>, default: seq<T>): seq<T> {
    if Truthy(o) then o.value else default
  }
}
