/** Optional values: the model's stand-in for Python's `None` and SQL's `NULL`. */
module Wrappers {

  /** `None` is an absent value: a missing JSON key, or an aggregate over no rows. */
  datatype Option<+T> = None | Some(value: T)
}
