/** The optional value both scripts obtain from a search that may find nothing
    (Python's `next(..., None)` and a dictionary entry that is never set). */
module Wrappers {

  datatype Option<T> = None | Some(value: T)
}
