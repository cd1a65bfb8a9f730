/** An optional value, for `undefined`-or-value fields and lookups. */
module Wrappers {

  datatype Option<T> = None | Some(value: T)
}
