/** Optional values (JavaScript's `null` / `undefined`) and pass/fail outcomes. */
module Wrappers {

  datatype Option<+T> = None | Some(value: T)

  datatype Outcome<+E> = Pass | Fail(error: E)
}
