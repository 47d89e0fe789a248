/** The usual optional-value datatype: a table key of a result is either present or omitted. */
module Wrappers {

  datatype Option<+T> = None | Some(value: T)
}
