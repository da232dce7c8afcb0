/** The optional value used wherever the source holds `None` or a value. */
module Wrappers {

  datatype Option<+T> = None | Some(value: T)
}
