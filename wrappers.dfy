/** The "value or nothing" result shared by the containers: None stands for the NULL or NaN the C code returns. */
module Wrappers {

  datatype Option<+T> = None | Some(value: T)
}
