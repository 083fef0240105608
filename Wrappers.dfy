/** The optional value used wherever the source has a value that may be absent
    (`null`, `undefined`, a listing that failed). */
module Wrappers {

  datatype Option<+T> = None | Some(value: T)
}
