/** Option and Result, the two failure-carrying datatypes the model uses. */
module Wrappers {

  datatype Option<+T> = None | Some(value: T)

  /** `Ok` carries a value; `Err` stands for a Python exception and names it. */
  datatype Result<+T> = Ok(value: T) | Err(error: string)
}
