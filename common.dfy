/** Shared vocabulary: optional values, results, and the two numeric helpers the source takes from `Math`. */
module Common {

  /** A value that may be absent (JavaScript's `undefined`). */
  datatype Option<T> = None | Some(value: T)

  /** The outcome of an operation that either yields a value or fails with an error (a rejected promise). */
  datatype Result<T, E> = Ok(value: T) | Err(error: E)

  /** `Math.max` on two (non-NaN) numbers. */
  function Max(a: real, b: real): (r: real)
    ensures r >= a && r >= b
    ensures r == a || r == b
  {
    if a >= b then a else b
  }

  /**
   * `Math.max` on the integer page arithmetic of the listing. Dafny keeps `int` and `real` apart,
   * so the integer version is separate from `Max`, which serves the record's numeric fields.
   */
  function IntMax(a: int, b: int): (r: int)
    ensures r >= a && r >= b
    ensures r == a || r == b
  {
    if a >= b then a else b
  }

  /** `Math.min` on integers. */
  function IntMin(a: int, b: int): (r: int)
    ensures r <= a && r <= b
    ensures r == a || r == b
  {
    if a <= b then a else b
  }
}
