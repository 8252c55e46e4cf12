/** The optional value used wherever the Python code returns `None` or a
    lookup can miss. */
module Wrappers {

  datatype Option<T> = None | Some(value: T)
}
