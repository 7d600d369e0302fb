/** Option and Result, the two shapes every other module uses for "maybe absent" and "succeeded or threw". */
module Wrappers {

  datatype Option<+T> = None | Some(value: T)

  /** `Err` stands for a thrown error: the store functions throw, the server actions catch. */
  datatype Result<+T, +E> = Ok(value: T) | Err(error: E)
}
