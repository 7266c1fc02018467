/** The optional value used wherever the source has `undefined`, `null` or "no row". */
module Wrappers {
  datatype Option<+T> = None | Some(value: T)
}
