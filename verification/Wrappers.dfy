/** Optional values, in place of the source's nil pointers. */
module Wrappers {
  datatype Option<+T> = None | Some(value: T)

  /** An absent text read as the empty one. */
  function OrEmpty(s: Option<string>): string {
    if s.Some? then s.value else ""
  }
}
