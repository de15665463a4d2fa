/** The optional value used for nullable SQL columns, absent request
    fields and uploads that throw. */
module Wrappers {

  datatype Option<+T> = None | Some(value: T)
}
