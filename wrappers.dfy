/** The optional value used for the nullable selection and the optional hover label. */
module Wrappers {

  datatype Option<+T> = None | Some(value: T)
}
