/** The optional-value datatype used for the session's nullable fields and
    for the nullable identifier cells seen at load time. */
module Wrappers {
  datatype Option<+T> = None | Some(value: T)
}
