/** Optional values shared by the model. */
module Wrappers {

  /** An optional value: no token in storage, or no username left once the guard (or `trim`) rejects it. */
  datatype Option<+T> = None | Some(value: T)
}
