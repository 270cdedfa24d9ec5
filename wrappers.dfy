/** The optional value used for Python's "absent key / None" and for partial conversions. */
module Wrappers {

  datatype Option<+T> = None | Some(value: T)
}
