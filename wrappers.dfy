/** A value that PHP code represents as "a value or null". */
module Wrappers {

  datatype Option<+T> = None | Some(value: T)
}
