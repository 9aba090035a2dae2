/** Option and Result, used where the Java code uses `null` or throws. */
module Wrappers {

  /** `None` stands for a Java `null` reference (no such car). */
  datatype Option<+T> = None | Some(value: T)

  /** `Err` stands for a Java exception the operation throws. */
  datatype Result<+T, +E> = Ok(value: T) | Err(error: E)
}
