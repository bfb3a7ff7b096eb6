/** The optional value used for a lookup that may find nothing and for a
    storage read that may return no value. */
module Wrappers {

  datatype Option<+T> = None | Some(value: T)
}
