/** Optional values and results that carry either a value or an error. */
module Wrappers {
  datatype Option<+T> = None | Some(value: T)

  datatype Result<+T, +E> = Success(value: T) | Failure(error: E)

  /** `now` is `was` with something appended. */
  ghost predicate Grown<T>(was: seq<T>, now: seq<T>) {
    |was| <= |now| && now[..|was|] == was
  }
}
