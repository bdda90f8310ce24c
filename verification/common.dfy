/** Failure-carrying wrappers shared by every module of the model. */
module Common {

  /** A value that may be absent: a parser that rejects its input, a
      Python call that raises. */
  datatype Option<+T> = None | Some(value: T)

  /** A value or the error text that replaced it. */
  datatype Result<+T, +E> = Ok(value: T) | Err(error: E)

  function Min(a: int, b: int): int { if a <= b then a else b }

  function Max(a: int, b: int): int { if a >= b then a else b }
}
