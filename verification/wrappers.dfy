/** Option: a value that may be absent (PHP's `false`/`null` results). */
module Wrappers {

  datatype Option<+T> = None | Some(value: T)
}
