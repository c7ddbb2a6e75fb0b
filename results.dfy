/** Option and Result: a missing value (C# `null`) and an operation that may throw. */
module Results {

  datatype Option<+T> = None | Some(value: T)

  datatype Result<+T, +E> = Ok(value: T) | Err(error: E)
}
