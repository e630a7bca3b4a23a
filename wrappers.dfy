/** The optional value used wherever the C code signals "no value" by a
    return code or by leaving a variable unset. */
module Wrappers {

  datatype Option<+T> = None | Some(value: T)
}
