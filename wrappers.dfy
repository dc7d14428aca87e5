/** The optional value used wherever the page holds `null` or a parse can fail. */
module Wrappers {

  datatype Option<+T> = None | Some(value: T)
}
