/** Small value types shared by the whole model. */
module Common {

  datatype Option<+T> = None | Some(value: T)

  datatype Result<+R, +E> = Success(value: R) | Failure(error: E)

  /** A distance that may still be the `float('inf')` a running minimum starts from. */
  datatype Extended = Finite(value: real) | Infinity

  /** Python's `d < best` where `best` may be `float('inf')`. */
  predicate Below(d: real, best: Extended)
  {
    match best
    case Infinity => true
    case Finite(b) => d < b
  }
}
