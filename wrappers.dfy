/** The nullable-value datatype shared by the other modules: a null pointer is `None`. */
module Wrappers {
  datatype Option<+T> = None | Some(value: T)
}
