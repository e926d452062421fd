/** The Some/None datatype used where the source returns `null` or reads an
    unset state value. */
module Wrappers {

  datatype Option<+T> = None | Some(value: T)
}
