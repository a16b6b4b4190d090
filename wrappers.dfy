/** The nullable values of the source (`bool?`, `int?`, `string?`) as an Option datatype. */
module Wrappers {

  datatype Option<+T> = None | Some(value: T)
}
