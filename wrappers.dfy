/** An optional value: stands for the source's `null`/`undefined` fields and lookups that find nothing. */
module Wrappers {
  datatype Option<+T> = None | Some(value: T)
}
