/** The optional value used wherever the source returns `None` or a found row. */
module Wrappers {

  datatype Option<+T> = None | Some(value: T)
}
