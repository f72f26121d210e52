/** Option and Result wrappers shared by every module of the model. */
module Base {

  /** A value that may be absent (Python's `None`). */
  datatype Option<T> = None | Some(value: T)

  /** The outcome of an operation that may raise: `Err` carries the name of the
      Python exception the source raises on that path. */
  datatype Result<T> = Ok(value: T) | Err(error: string)

  /** An operation that raises or completes without a value. */
  datatype Outcome = Done | Raised(error: string)

  function Min(a: int, b: int): int { if a <= b then a else b }
  function Max(a: int, b: int): int { if a >= b then a else b }
}
