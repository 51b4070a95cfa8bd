/** The absent-or-present value used for the optional fields of records
    (JavaScript's `undefined`/`null` versus a value). */
module Wrappers {

  datatype Option<+T> = None | Some(value: T)
}
